/** Channel choice: priority tiers, the tier for a retry, and the weighted draw inside it. */
module Tiers {
  import opened Common

  datatype Ability = Ability(channelId: int, priority: Option<int>, weight: nat)

  function PriorityOf(a: Ability): int {
    if a.priority.None? then 0 else a.priority.value
  }

  type Tier = t: seq<Ability> | t != [] witness [Ability(0, None, 0)]

  function TierPriority(t: Tier): int { PriorityOf(t[0]) }

  /** Runs of equal priority, in the order of the input. */
  function Group(abs: seq<Ability>): seq<Tier> {
    if abs == [] then []
    else
      var before, a := Group(abs[..|abs| - 1]), abs[|abs| - 1];
      AddTo(before, a)
  }

  function AddTo(tiers: seq<Tier>, a: Ability): seq<Tier> {
    if tiers == [] || TierPriority(tiers[|tiers| - 1]) != PriorityOf(a) then tiers + [[a]]
    else tiers[|tiers| - 1 := tiers[|tiers| - 1] + [a]]
  }

  /** sort.SliceStable, highest priority first: each tier goes behind all that are not lower. */
  function SortTiers(tiers: seq<Tier>): seq<Tier> {
    if tiers == [] then [] else Place(SortTiers(tiers[..|tiers| - 1]), tiers[|tiers| - 1])
  }

  function Place(sorted: seq<Tier>, t: Tier): seq<Tier> {
    if sorted == [] || TierPriority(sorted[|sorted| - 1]) >= TierPriority(t) then sorted + [t]
    else Place(sorted[..|sorted| - 1], t) + [sorted[|sorted| - 1]]
  }

  method PriorityTiers(abs: seq<Ability>) returns (tiers: seq<Tier>)
    ensures tiers == SortTiers(Group(abs))
  {
    tiers := [];
    for i := 0 to |abs|
      invariant tiers == Group(abs[..i])
    {
      var a := abs[i];
      assert abs[..i + 1][..i] == abs[..i];
      if |tiers| == 0 || TierPriority(tiers[|tiers| - 1]) != PriorityOf(a) {
        tiers := tiers + [[a]];
      } else {
        tiers := tiers[|tiers| - 1 := tiers[|tiers| - 1] + [a]];
      }
    }
    assert abs[..|abs|] == abs;
    tiers := SortTiers(tiers);
  }

  ghost predicate PrioritySorted(abs: seq<Ability>) {
    forall i, j :: 0 <= i < j < |abs| ==> PriorityOf(abs[i]) >= PriorityOf(abs[j])
  }

  ghost predicate StrictlyDescending(tiers: seq<Tier>) {
    forall i, j :: 0 <= i < j < |tiers| ==> TierPriority(tiers[i]) > TierPriority(tiers[j])
  }

  ghost predicate Descending(tiers: seq<Tier>) {
    forall i, j :: 0 <= i < j < |tiers| ==> TierPriority(tiers[i]) >= TierPriority(tiers[j])
  }

  ghost predicate Uniform(t: Tier) {
    forall a :: a in t ==> PriorityOf(a) == TierPriority(t)
  }

  function Flatten(tiers: seq<Tier>): seq<Ability> {
    if tiers == [] then [] else Flatten(tiers[..|tiers| - 1]) + tiers[|tiers| - 1]
  }

  lemma {:induction false} GroupFlattens(abs: seq<Ability>)
    ensures Flatten(Group(abs)) == abs
  {
    if abs != [] {
      var before, a := Group(abs[..|abs| - 1]), abs[|abs| - 1];
      GroupFlattens(abs[..|abs| - 1]);
      AddFlattens(before, a);
      assert Group(abs) == AddTo(before, a);
      assert abs == abs[..|abs| - 1] + [a];
    }
  }

  lemma AddFlattens(tiers: seq<Tier>, a: Ability)
    ensures Flatten(AddTo(tiers, a)) == Flatten(tiers) + [a]
  {
    var after := AddTo(tiers, a);
    if |after| == |tiers| {
      assert after[..|after| - 1] == tiers[..|tiers| - 1];
    } else {
      assert after[..|after| - 1] == tiers;
    }
  }

  lemma {:induction false} GroupUniform(abs: seq<Ability>)
    ensures forall t :: t in Group(abs) ==> Uniform(t)
    ensures abs != [] ==> Group(abs) != [] && TierPriority(Group(abs)[|Group(abs)| - 1]) == PriorityOf(abs[|abs| - 1])
  {
    if abs != [] {
      GroupUniform(abs[..|abs| - 1]);
      AddUniform(Group(abs[..|abs| - 1]), abs[|abs| - 1]);
    }
  }

  lemma AddUniform(tiers: seq<Tier>, a: Ability)
    requires forall t :: t in tiers ==> Uniform(t)
    ensures forall t :: t in AddTo(tiers, a) ==> Uniform(t)
    ensures AddTo(tiers, a) != [] && TierPriority(AddTo(tiers, a)[|AddTo(tiers, a)| - 1]) == PriorityOf(a)
  {
    var after := AddTo(tiers, a);
    if |after| == |tiers| {
      var last := tiers[|tiers| - 1];
      assert Uniform(last) && Uniform(last + [a]);
      assert forall t :: t in after ==> t in tiers || t == last + [a];
    } else {
      assert Uniform([a]);
    }
  }

  /** Grouping loses and reorders nothing, and each tier has one priority. */
  lemma GroupKeeps(abs: seq<Ability>)
    ensures Flatten(Group(abs)) == abs
    ensures forall t :: t in Group(abs) ==> Uniform(t)
    ensures abs != [] ==> Group(abs) != [] && TierPriority(Group(abs)[|Group(abs)| - 1]) == PriorityOf(abs[|abs| - 1])
  {
    GroupFlattens(abs);
    GroupUniform(abs);
  }

  lemma AddDescends(tiers: seq<Tier>, a: Ability)
    requires StrictlyDescending(tiers)
    requires tiers != [] ==> TierPriority(tiers[|tiers| - 1]) >= PriorityOf(a)
    ensures StrictlyDescending(AddTo(tiers, a))
  {
    var after := AddTo(tiers, a);
    assert forall i :: 0 <= i < |tiers| ==> TierPriority(after[i]) == TierPriority(tiers[i]);
  }

  /** On input in descending priority the groups are strictly descending. */
  lemma {:induction false} GroupDescends(abs: seq<Ability>)
    requires PrioritySorted(abs)
    ensures StrictlyDescending(Group(abs))
  {
    if abs != [] {
      var abs' := abs[..|abs| - 1];
      GroupDescends(abs');
      GroupKeeps(abs');
      AddDescends(Group(abs'), abs[|abs| - 1]);
    }
  }

  lemma PlaceLast(sorted: seq<Tier>, t: Tier)
    requires forall i :: 0 <= i < |sorted| ==> TierPriority(sorted[i]) >= TierPriority(t)
    ensures Place(sorted, t) == sorted + [t]
  {
  }

  lemma {:induction false} SortOfDescending(tiers: seq<Tier>)
    requires Descending(tiers)
    ensures SortTiers(tiers) == tiers
  {
    if tiers != [] {
      var init, last := tiers[..|tiers| - 1], tiers[|tiers| - 1];
      SortOfDescending(init);
      PlaceLast(init, last);
      assert SortTiers(tiers) == Place(init, last);
      assert tiers == init + [last];
    }
  }

  lemma {:induction false} PlaceBound(sorted: seq<Tier>, t: Tier, p: int)
    requires TierPriority(t) >= p && forall i :: 0 <= i < |sorted| ==> TierPriority(sorted[i]) >= p
    ensures forall i :: 0 <= i < |Place(sorted, t)| ==> TierPriority(Place(sorted, t)[i]) >= p
  {
    if sorted != [] {
      PlaceBound(sorted[..|sorted| - 1], t, p);
    }
  }

  lemma {:induction false} PlaceSorts(sorted: seq<Tier>, t: Tier)
    requires Descending(sorted)
    ensures Descending(Place(sorted, t))
  {
    if sorted != [] && TierPriority(sorted[|sorted| - 1]) < TierPriority(t) {
      var init, last := sorted[..|sorted| - 1], sorted[|sorted| - 1];
      PlaceSorts(init, t);
      PlaceBound(init, t, TierPriority(last));
    }
  }

  lemma {:induction false} PlaceKeeps(sorted: seq<Tier>, t: Tier)
    ensures multiset(Place(sorted, t)) == multiset(sorted) + multiset{t}
    ensures |Place(sorted, t)| == |sorted| + 1
  {
    if sorted != [] {
      PlaceKeeps(sorted[..|sorted| - 1], t);
      assert sorted == sorted[..|sorted| - 1] + [sorted[|sorted| - 1]];
    }
  }

  /** Whatever the input, the tiers come out in descending order and none is lost. */
  lemma {:induction false} SortSorts(tiers: seq<Tier>)
    ensures Descending(SortTiers(tiers))
    ensures multiset(SortTiers(tiers)) == multiset(tiers)
    ensures |SortTiers(tiers)| == |tiers|
  {
    if tiers != [] {
      SortSorts(tiers[..|tiers| - 1]);
      PlaceSorts(SortTiers(tiers[..|tiers| - 1]), tiers[|tiers| - 1]);
      PlaceKeeps(SortTiers(tiers[..|tiers| - 1]), tiers[|tiers| - 1]);
      assert tiers == tiers[..|tiers| - 1] + [tiers[|tiers| - 1]];
    }
  }

  /** The tiers of one priority, in their order. */
  function OfPriority(tiers: seq<Tier>, p: int): seq<Tier> {
    if tiers == [] then []
    else
      var before, last := OfPriority(tiers[..|tiers| - 1], p), tiers[|tiers| - 1];
      if TierPriority(last) == p then before + [last] else before
  }

  lemma OfPrioritySnoc(tiers: seq<Tier>, t: Tier, p: int)
    ensures OfPriority(tiers + [t], p) == OfPriority(tiers, p) + if TierPriority(t) == p then [t] else []
  {
    assert (tiers + [t])[..|tiers|] == tiers;
  }

  lemma {:induction false} PlaceIsStable(sorted: seq<Tier>, t: Tier, p: int)
    requires Descending(sorted)
    ensures OfPriority(Place(sorted, t), p) == OfPriority(sorted, p) + if TierPriority(t) == p then [t] else []
  {
    if sorted == [] || TierPriority(sorted[|sorted| - 1]) >= TierPriority(t) {
      OfPrioritySnoc(sorted, t, p);
    } else {
      var init, last := sorted[..|sorted| - 1], sorted[|sorted| - 1];
      PlaceIsStable(init, t, p);
      OfPrioritySnoc(Place(init, t), last, p);
    }
  }

  /** Stability: tiers of equal priority come out in the order in which they went in. */
  lemma {:induction false} SortIsStable(tiers: seq<Tier>, p: int)
    ensures OfPriority(SortTiers(tiers), p) == OfPriority(tiers, p)
  {
    if tiers != [] {
      var init, last := tiers[..|tiers| - 1], tiers[|tiers| - 1];
      SortIsStable(init, p);
      SortSorts(init);
      PlaceIsStable(SortTiers(init), last, p);
    }
  }

  /**
   * On priority-sorted input the tiers put together are the input, each has one priority, and
   * the priorities strictly fall.
   */
  lemma TiersOfSorted(abs: seq<Ability>)
    requires PrioritySorted(abs)
    ensures var tiers := SortTiers(Group(abs));
            Flatten(tiers) == abs && StrictlyDescending(tiers) && forall t :: t in tiers ==> Uniform(t)
  {
    GroupKeeps(abs);
    GroupDescends(abs);
    SortOfDescending(Group(abs));
  }

  function TierForRetry(tiers: seq<Tier>, retry: int): Tier
    requires tiers != []
  {
    var r := if retry < 0 then 0 else retry;
    if r >= |tiers| then tiers[|tiers| - 1] else tiers[r]
  }

  lemma TiersFall(tiers: seq<Tier>, r1: int, r2: int)
    requires tiers != [] && Descending(tiers) && r1 <= r2
    ensures TierPriority(TierForRetry(tiers, r1)) >= TierPriority(TierForRetry(tiers, r2))
  {
  }

  /** A larger retry never raises the priority; with strict tiers it lowers it while tiers last. */
  lemma RetryNeverRaises(abs: seq<Ability>, r1: int, r2: int)
    requires abs != [] && r1 <= r2
    ensures var tiers := SortTiers(Group(abs));
            && tiers != []
            && TierPriority(TierForRetry(tiers, r1)) >= TierPriority(TierForRetry(tiers, r2))
            && (PrioritySorted(abs) && 0 <= r1 < r2 && r1 < |tiers| - 1 ==>
                  TierPriority(TierForRetry(tiers, r1)) > TierPriority(TierForRetry(tiers, r2)))
  {
    GroupKeeps(abs);
    SortSorts(Group(abs));
    var tiers := SortTiers(Group(abs));
    assert |tiers| > 0;
    TiersFall(tiers, r1, r2);
    if PrioritySorted(abs) {
      TiersOfSorted(abs);
    }
  }

  lemma {:induction false} FlattenMembers(tiers: seq<Tier>, t: Tier, a: Ability)
    requires t in tiers && a in t
    ensures a in Flatten(tiers)
  {
    if t != tiers[|tiers| - 1] {
      FlattenMembers(tiers[..|tiers| - 1], t, a);
    }
  }

  /** Whatever the retry count, the tier holds only what the query listed. */
  lemma TierIsListed(abs: seq<Ability>, retry: int, a: Ability)
    requires abs != [] && SortTiers(Group(abs)) != []
    requires a in TierForRetry(SortTiers(Group(abs)), retry)
    ensures a in abs
  {
    GroupKeeps(abs);
    SortSorts(Group(abs));
    var t := TierForRetry(SortTiers(Group(abs)), retry);
    assert t in multiset(SortTiers(Group(abs)));
    FlattenMembers(Group(abs), t, a);
  }

  // ----- which tier a retry gets, on the abilities themselves -----

  /** A missing priority counts as zero. */
  function Level(a: Ability): int {
    match a.priority
    case None => 0
    case Some(p) => p
  }

  /** The order the query lists abilities in: higher priorities first. */
  ghost predicate HighestFirst(abs: seq<Ability>) {
    forall i, j :: 0 <= i < j < |abs| ==> Level(abs[j]) <= Level(abs[i])
  }

  ghost function LevelsAbove(abs: seq<Ability>, p: int): set<int> {
    set a | a in abs && Level(a) > p :: Level(a)
  }

  /** The abilities of one priority, in their order. */
  function OfLevel(abs: seq<Ability>, p: int): seq<Ability> {
    if abs == [] then []
    else OfLevel(abs[..|abs| - 1], p) + if Level(abs[|abs| - 1]) == p then [abs[|abs| - 1]] else []
  }

  lemma {:induction false} OfLevelCat(a: seq<Ability>, b: seq<Ability>, p: int)
    ensures OfLevel(a + b, p) == OfLevel(a, p) + OfLevel(b, p)
  {
    if b == [] {
      assert a + b == a;
    } else {
      var b', last := b[..|b| - 1], b[|b| - 1];
      OfLevelCat(a, b', p);
      assert (a + b)[..|a + b| - 1] == a + b';
    }
  }

  lemma {:induction false} OfLevelUniform(abs: seq<Ability>, p: int, all: bool)
    requires forall a :: a in abs ==> (Level(a) == p <==> all)
    ensures OfLevel(abs, p) == if all then abs else []
  {
    if abs != [] {
      OfLevelUniform(abs[..|abs| - 1], p, all);
      assert abs[|abs| - 1] in abs;
      assert abs == abs[..|abs| - 1] + [abs[|abs| - 1]];
    }
  }

  /** All members of tier i have priority levels[i], and these fall. */
  ghost predicate Labelled(tiers: seq<Tier>, levels: seq<int>) {
    |levels| == |tiers| && Falling(levels) && forall i :: 0 <= i < |tiers| ==> AllOf(tiers[i], levels[i])
  }

  ghost predicate AllOf(t: Tier, level: int) {
    forall a :: a in t ==> Level(a) == level
  }

  ghost predicate Falling(levels: seq<int>) {
    forall i, j :: 0 <= i < j < |levels| ==> levels[i] > levels[j]
  }

  lemma LabelsOf(tiers: seq<Tier>) returns (levels: seq<int>)
    requires StrictlyDescending(tiers) && forall t :: t in tiers ==> Uniform(t)
    ensures Labelled(tiers, levels)
  {
    levels := seq(|tiers|, i requires 0 <= i < |tiers| => TierPriority(tiers[i]));
    forall i | 0 <= i < |tiers|
      ensures AllOf(tiers[i], levels[i])
    {
      assert Uniform(tiers[i]);
    }
  }

  lemma FlattenNext(tiers: seq<Tier>, n: nat)
    requires 0 < n <= |tiers|
    ensures Flatten(tiers[..n]) == Flatten(tiers[..n - 1]) + tiers[n - 1]
  {
    assert tiers[..n][..n - 1] == tiers[..n - 1];
  }

  lemma TierHasLevel(tiers: seq<Tier>, levels: seq<int>, i: nat, r: nat)
    requires Labelled(tiers, levels) && i < |tiers| && r < |tiers|
    ensures OfLevel(tiers[i], levels[r]) == if i == r then tiers[i] else []
  {
    assert AllOf(tiers[i], levels[i]);
    OfLevelUniform(tiers[i], levels[r], i == r);
  }

  lemma OfLevelNext(tiers: seq<Tier>, p: int, n: nat)
    requires 0 < n <= |tiers|
    ensures OfLevel(Flatten(tiers[..n]), p) == OfLevel(Flatten(tiers[..n - 1]), p) + OfLevel(tiers[n - 1], p)
  {
    FlattenNext(tiers, n);
    OfLevelCat(Flatten(tiers[..n - 1]), tiers[n - 1], p);
  }

  /** Only tier r has the priority. */
  lemma {:induction false} OfLevelFlat(tiers: seq<Tier>, p: int, n: nat, r: nat)
    requires n <= |tiers| && r < |tiers|
    requires forall i: nat :: i < |tiers| && i != r ==> OfLevel(tiers[i], p) == []
    ensures OfLevel(Flatten(tiers[..n]), p) == if r < n then OfLevel(tiers[r], p) else []
  {
    if n > 0 {
      OfLevelFlat(tiers, p, n - 1, r);
      OfLevelNext(tiers, p, n);
    }
  }

  ghost function FirstOf(levels: seq<int>, n: nat): set<int>
    requires n <= |levels|
  {
    if n == 0 then {} else FirstOf(levels, n - 1) + {levels[n - 1]}
  }

  lemma {:induction false} FirstCount(levels: seq<int>, n: nat)
    requires n <= |levels| && Falling(levels)
    ensures |FirstOf(levels, n)| == n
    ensures n > 0 ==> forall q :: q in FirstOf(levels, n) ==> q >= levels[n - 1]
  {
    if n > 1 {
      FirstCount(levels, n - 1);
      assert levels[n - 2] > levels[n - 1];
    }
  }

  lemma {:induction false} FirstHas(levels: seq<int>, n: nat, i: nat)
    requires i < n <= |levels|
    ensures levels[i] in FirstOf(levels, n)
  {
    if i < n - 1 {
      FirstHas(levels, n - 1, i);
    }
  }

  lemma {:induction false} FirstIs(levels: seq<int>, n: nat, q: int) returns (i: nat)
    requires n <= |levels| && q in FirstOf(levels, n)
    ensures i < n && levels[i] == q
  {
    if levels[n - 1] == q {
      i := n - 1;
    } else {
      i := FirstIs(levels, n - 1, q);
    }
  }

  lemma {:induction false} MembersInTiers(tiers: seq<Tier>, a: Ability)
    ensures a in Flatten(tiers) <==> exists i :: 0 <= i < |tiers| && a in tiers[i]
  {
    if tiers != [] {
      var n := |tiers| - 1;
      MembersInTiers(tiers[..n], a);
      if a in Flatten(tiers[..n]) {
        var i :| 0 <= i < n && a in tiers[..n][i];
        assert a in tiers[i];
      }
      if i :| 0 <= i < |tiers| && a in tiers[i] {
        assert i < n ==> a in tiers[..n][i];
      }
    }
  }

  /** The priorities of the abilities are those of the tiers. */
  lemma LevelInTiers(tiers: seq<Tier>, levels: seq<int>, a: Ability) returns (i: nat)
    requires Labelled(tiers, levels) && a in Flatten(tiers)
    ensures i < |tiers| && Level(a) == levels[i]
  {
    MembersInTiers(tiers, a);
    i :| 0 <= i < |tiers| && a in tiers[i];
    assert AllOf(tiers[i], levels[i]);
  }

  lemma TierIsInhabited(tiers: seq<Tier>, levels: seq<int>, i: nat)
    requires Labelled(tiers, levels) && i < |tiers|
    ensures tiers[i][0] in Flatten(tiers) && Level(tiers[i][0]) == levels[i]
  {
    assert tiers[i][0] in tiers[i] && AllOf(tiers[i], levels[i]);
    MembersInTiers(tiers, tiers[i][0]);
  }

  /** The priorities above tier r are those of the tiers before it. */
  lemma FirstAreAbove(tiers: seq<Tier>, levels: seq<int>, r: nat)
    requires Labelled(tiers, levels) && r < |tiers|
    ensures LevelsAbove(Flatten(tiers), levels[r]) == FirstOf(levels, r)
  {
    var above := LevelsAbove(Flatten(tiers), levels[r]);
    forall q | q in above
      ensures q in FirstOf(levels, r)
    {
      var a :| a in Flatten(tiers) && Level(a) > levels[r] && Level(a) == q;
      var i := LevelInTiers(tiers, levels, a);
      assert i < r;
      FirstHas(levels, r, i);
    }
    forall q | q in FirstOf(levels, r)
      ensures q in above
    {
      var i := FirstIs(levels, r, q);
      TierIsInhabited(tiers, levels, i);
    }
  }

  lemma TierAt(tiers: seq<Tier>, levels: seq<int>, r: nat)
    requires Labelled(tiers, levels) && r < |tiers|
    ensures var abs := Flatten(tiers);
            Level(tiers[r][0]) == levels[r] && tiers[r] == OfLevel(abs, levels[r]) && |LevelsAbove(abs, levels[r])| == r
  {
    assert tiers[..|tiers|] == tiers;
    TierIsInhabited(tiers, levels, r);
    forall i: nat | i < |tiers|
      ensures OfLevel(tiers[i], levels[r]) == if i == r then tiers[i] else []
    {
      TierHasLevel(tiers, levels, i, r);
    }
    OfLevelFlat(tiers, levels[r], |tiers|, r);
    FirstAreAbove(tiers, levels, r);
    FirstCount(levels, r);
  }

  lemma LowestTier(tiers: seq<Tier>, levels: seq<int>)
    requires Labelled(tiers, levels) && tiers != []
    ensures forall a :: a in Flatten(tiers) ==> Level(a) >= levels[|tiers| - 1]
  {
    forall a | a in Flatten(tiers)
      ensures Level(a) >= levels[|tiers| - 1]
    {
      var i := LevelInTiers(tiers, levels, a);
    }
  }

  /** All abilities of one priority in order, with as many priorities above it as the retry says, or else the lowest. */
  ghost predicate TierFor(abs: seq<Ability>, retry: int, tier: Tier) {
    var p := Level(tier[0]);
    && tier == OfLevel(abs, p)
    && |LevelsAbove(abs, p)| <= Max(retry, 0)
    && (|LevelsAbove(abs, p)| < Max(retry, 0) ==> forall a :: a in abs ==> Level(a) >= p)
  }

  lemma TierForLabelled(tiers: seq<Tier>, levels: seq<int>, retry: int)
    requires Labelled(tiers, levels) && tiers != []
    ensures TierFor(Flatten(tiers), retry, TierForRetry(tiers, retry))
  {
    if Max(retry, 0) >= |tiers| {
      TierAt(tiers, levels, |tiers| - 1);
      LowestTier(tiers, levels);
    } else {
      TierAt(tiers, levels, Max(retry, 0));
    }
  }

  /**
   * The tier of a retry, on abilities listed highest first. Retry 0 gets the highest priority;
   * each further one gets the next lower, as long as there is one.
   */
  lemma TierOfRetry(abs: seq<Ability>, retry: int)
    requires abs != [] && HighestFirst(abs)
    ensures SortTiers(Group(abs)) != [] && TierFor(abs, retry, TierForRetry(SortTiers(Group(abs)), retry))
  {
    TiersOfSorted(abs);
    RetryNeverRaises(abs, retry, retry);
    var tiers := SortTiers(Group(abs));
    var levels := LabelsOf(tiers);
    TierForLabelled(tiers, levels, retry);
  }

  /** On any input, no ability of a later tier has a higher priority than one of an earlier tier. */
  lemma TiersDescend(abs: seq<Ability>, i: nat, j: nat, a: Ability, b: Ability)
    requires i < j < |SortTiers(Group(abs))| && a in SortTiers(Group(abs))[i] && b in SortTiers(Group(abs))[j]
    ensures Level(a) >= Level(b)
  {
    GroupKeeps(abs);
    SortSorts(Group(abs));
    var tiers := SortTiers(Group(abs));
    assert tiers[i] in multiset(tiers) && tiers[j] in multiset(tiers);
    assert Uniform(tiers[i]) && Uniform(tiers[j]);
  }

  method TierWeights(tier: seq<Ability>) returns (w: seq<int>)
    ensures |w| == |tier| && forall i :: 0 <= i < |tier| ==> w[i] == tier[i].weight + 10
  {
    w := [];
    for i := 0 to |tier|
      invariant |w| == i && forall j :: 0 <= j < i ==> w[j] == tier[j].weight + 10
    {
      w := w + [tier[i].weight + 10];
    }
  }

  /** The positive weights of the first n entries, added up. */
  function WeightBefore(weights: seq<int>, n: nat): nat
    requires n <= |weights|
  {
    if n == 0 then 0 else WeightBefore(weights, n - 1) + if weights[n - 1] > 0 then weights[n - 1] else 0
  }

  function TotalWeight(weights: seq<int>): nat { WeightBefore(weights, |weights|) }

  /** Entry i owns the draws from the weight before it up to its own weight further. */
  predicate Owns(weights: seq<int>, i: nat, x: nat)
    requires i < |weights|
  {
    WeightBefore(weights, i) <= x < WeightBefore(weights, i + 1)
  }

  /** draw is what Intn answers for the bound it is called with. */
  method PickWeightedIndex(weights: seq<int>, draw: nat) returns (i: nat)
    requires |weights| > 0
    requires draw < if TotalWeight(weights) > 0 then TotalWeight(weights) else |weights|
    ensures i < |weights|
    ensures TotalWeight(weights) > 0 ==> Owns(weights, i, draw)
    ensures TotalWeight(weights) == 0 ==> i == draw
  {
    var total := 0;
    for k := 0 to |weights|
      invariant total == WeightBefore(weights, k)
    {
      if weights[k] > 0 {
        total := total + weights[k];
      }
    }
    if total <= 0 {
      return draw;
    }
    var x := draw;
    for k := 0 to |weights|
      invariant x == draw - WeightBefore(weights, k) >= 0
    {
      if weights[k] <= 0 {
        continue;
      }
      if x < weights[k] {
        return k;
      }
      x := x - weights[k];
    }
    assert false;
  }

  lemma {:induction false} WeightGrows(weights: seq<int>, m: nat, n: nat)
    requires m <= n <= |weights|
    ensures WeightBefore(weights, m) <= WeightBefore(weights, n)
  {
    if m < n {
      WeightGrows(weights, m, n - 1);
    }
  }

  lemma OwnerUnique(weights: seq<int>, i: nat, j: nat, x: nat)
    requires i < |weights| && j < |weights| && Owns(weights, i, x) && Owns(weights, j, x)
    ensures i == j
  {
    if i < j {
      WeightGrows(weights, i + 1, j);
    } else if j < i {
      WeightGrows(weights, j + 1, i);
    }
  }

  ghost function Interval(lo: nat, hi: nat): (s: set<nat>)
    requires lo <= hi
    ensures |s| == hi - lo && forall x :: x in s <==> lo <= x < hi
  {
    if lo == hi then {} else Interval(lo, hi - 1) + {hi - 1}
  }

  /**
   * Of all draws, exactly weight + 10 choose a given member of the tier: every draw has one
   * owner, and each member owns as many draws as its weight says.
   */
  lemma ExactWeighting(tier: Tier, weights: seq<int>, i: nat)
    requires |weights| == |tier| && forall k :: 0 <= k < |tier| ==> weights[k] == tier[k].weight + 10
    requires i < |tier|
    ensures |set x: nat | 0 <= x < TotalWeight(weights) && Owns(weights, i, x)| == tier[i].weight + 10
  {
    WeightGrows(weights, i + 1, |weights|);
    var lo, hi := WeightBefore(weights, i), WeightBefore(weights, i + 1);
    var owned := set x: nat | 0 <= x < TotalWeight(weights) && Owns(weights, i, x);
    forall x: nat
      ensures x in owned <==> x in Interval(lo, hi)
    {
      assert Owns(weights, i, x) <==> lo <= x < hi;
    }
    assert owned == Interval(lo, hi);
  }
}

/** How far usage-mode selection lets the counters of a candidate set drift apart. */
module Balance {
  import opened Common
  import opened Protocol
  import opened SelectScript

  /** One usage-mode selection with what it drew; decay is the factor if one was due. */
  datatype Selection = Selection(draws: seq<real>, est: real, decay: Option<real>, at: nat)

  ghost predicate ValidSelection(usage: UsageTable, cid: int, cands: seq<int>, jitter: real, maxEst: real, s: Selection) {
    && |s.draws| >= |cands|
    && (forall i :: 0 <= i < |s.draws| ==> 0.0 <= s.draws[i] < 1.0)
    && 0.0 <= s.est <= maxEst
    && (s.decay.Some? ==> s.decay.value >= 0.0)
    && FirstLeast(AfterDecay(usage, cid, s.decay), cid, cands, s.draws, jitter, s.at)
  }

  function Apply(usage: UsageTable, cid: int, cands: seq<int>, s: Selection): UsageTable
    requires s.at < |cands|
  {
    Charge(usage, cid, cands[s.at], s.est, s.decay)
  }

  function CountOf(usage: UsageTable, cid: int, i: int): real { Get(usage, (cid, i)) }

  ghost predicate NonNegative(usage: UsageTable, cid: int, cands: seq<int>) {
    forall i :: i in cands ==> CountOf(usage, cid, i) >= 0.0
  }

  /**
   * Any two candidates differ by at most max(spread, jitter * the smaller + maxEst). Taking
   * the extremes: max - min <= max(spread, jitter * min + maxEst).
   */
  ghost predicate Balanced(usage: UsageTable, cid: int, cands: seq<int>, spread: real, jitter: real, maxEst: real) {
    forall x, y :: x in cands && y in cands ==>
      WithinBound(CountOf(usage, cid, x), CountOf(usage, cid, y), spread, jitter, maxEst)
  }

  predicate WithinBound(x: real, y: real, spread: real, jitter: real, maxEst: real) {
    x - y <= spread || x - y <= jitter * y + maxEst
  }

  /** The chosen key's count is at most 1 + jitter times any candidate's, so of the minimum. */
  lemma ChosenNearMinimum(usage: UsageTable, cid: int, cands: seq<int>, draws: seq<real>, jitter: real, at: nat, i: nat)
    requires |draws| >= |cands| && i < |cands| && jitter >= 0.0
    requires forall k :: 0 <= k < |draws| ==> 0.0 <= draws[k] < 1.0
    requires NonNegative(usage, cid, cands)
    requires FirstLeast(usage, cid, cands, draws, jitter, at)
    ensures CountOf(usage, cid, cands[at]) <= (1.0 + jitter) * CountOf(usage, cid, cands[i])
  {
    var x, y := CountOf(usage, cid, cands[at]), CountOf(usage, cid, cands[i]);
    assert cands[at] in cands && cands[i] in cands;
    JitterRange(x, draws[at], jitter);
    JitterRange(y, draws[i], jitter);
    assert EffectiveAt(usage, cid, cands, draws, jitter, at) <= EffectiveAt(usage, cid, cands, draws, jitter, i);
  }

  lemma JitterRange(c: real, d: real, j: real)
    requires c >= 0.0 && 0.0 <= d < 1.0 && j >= 0.0
    ensures c <= Effective(c, d, j) <= (1.0 + j) * c
  {
    var dj := d * j;
    assert 0.0 <= dj;
    assert (1.0 - d) * j >= 0.0;
    assert dj <= j;
    Grows(c, dj);
    assert (j - dj) * c >= 0.0;
    assert (1.0 + j) * c - c * (1.0 + dj) == (j - dj) * c;
  }

  lemma Grows(c: real, t: real)
    requires c >= 0.0 && t >= 0.0
    ensures c * (1.0 + t) >= c
  {
    assert c * t >= 0.0;
  }

  /** A decay that keeps the bound: it does not enlarge, or there is nothing that it could enlarge. */
  predicate Harmless(factor: real, spread: real, maxEst: real) {
    factor >= 0.0 && (factor <= 1.0 || (spread == 0.0 && maxEst == 0.0))
  }

  lemma ScaleBound(x: real, y: real, f: real, spread: real, jitter: real, maxEst: real)
    requires Harmless(f, spread, maxEst) && spread >= 0.0 && maxEst >= 0.0
    requires WithinBound(x, y, spread, jitter, maxEst)
    ensures WithinBound(x * f, y * f, spread, jitter, maxEst)
  {
    var xf, yf := x * f, y * f;
    Regroup(jitter, y, f);
    if f > 1.0 {
      ScaledDifference(x, y, if x - y <= 0.0 then 0.0 else jitter * y, f, xf, yf, (if x - y <= 0.0 then 0.0 else jitter * y) * f);
    } else if x - y <= spread {
      ScaledSpread(x, y, f, spread, xf, yf);
    } else {
      ScaledSlack(x, y, f, jitter * y, maxEst, xf, yf, (jitter * y) * f);
    }
  }

  lemma Enlarges(x: real, f: real, xf: real)
    requires xf == x * f && x > 0.0 && f > 1.0
    ensures xf > x
  {
    assert x * (f - 1.0) > 0.0;
  }

  function Widest(spread: real, maxEst: real): real { if spread > maxEst then spread else maxEst }

  /** Counts of max(spread, maxEst) and 0 are within the bound, and anything above is not. */
  lemma BreakingPair(xf: real, spread: real, jitter: real, maxEst: real)
    requires spread >= 0.0 && maxEst >= 0.0 && xf > Widest(spread, maxEst)
    ensures WithinBound(Widest(spread, maxEst), 0.0, spread, jitter, maxEst) && !WithinBound(xf, 0.0, spread, jitter, maxEst)
  {
    assert jitter * 0.0 == 0.0;
  }

  /** Exactly which decay factors keep the bound, for all counts. */
  lemma FactorKeepsIff(f: real, spread: real, jitter: real, maxEst: real)
    requires f >= 0.0 && spread >= 0.0 && jitter >= 0.0 && maxEst >= 0.0
    ensures (forall x, y :: x >= 0.0 && y >= 0.0 && WithinBound(x, y, spread, jitter, maxEst) ==>
               WithinBound(x * f, y * f, spread, jitter, maxEst))
            <==> Harmless(f, spread, maxEst)
  {
    if Harmless(f, spread, maxEst) {
      forall x, y | x >= 0.0 && y >= 0.0 && WithinBound(x, y, spread, jitter, maxEst)
        ensures WithinBound(x * f, y * f, spread, jitter, maxEst)
      {
        ScaleBound(x, y, f, spread, jitter, maxEst);
      }
    } else {
      var x := Widest(spread, maxEst);
      var xf, yf := x * f, 0.0 * f;
      Enlarges(x, f, xf);
      BreakingPair(xf, spread, jitter, maxEst);
      assert yf == 0.0;
      assert WithinBound(x, 0.0, spread, jitter, maxEst) && !WithinBound(xf, yf, spread, jitter, maxEst);
    }
  }

  // Products are passed along under names: each lemma sees few of them.

  lemma ScaledDifference(x: real, y: real, b: real, f: real, xf: real, yf: real, bf: real)
    requires xf == x * f && yf == y * f && bf == b * f
    requires x - y <= b && f >= 0.0
    ensures xf - yf <= bf
  {
    assert (b - (x - y)) * f >= 0.0;
  }

  lemma Distribute(x: real, y: real, f: real, xf: real, yf: real, sf: real)
    requires xf == x * f && yf == y * f && sf == (x + y) * f
    ensures sf == xf + yf
  {
  }

  lemma Regroup(j: real, y: real, f: real)
    ensures (j * y) * f == j * (y * f)
  {
  }

  lemma ShrinksBy(c: real, f: real, cf: real)
    requires cf == c * f && c >= 0.0 && 0.0 <= f <= 1.0
    ensures 0.0 <= cf <= c
  {
    assert c * (1.0 - f) >= 0.0;
  }

  lemma ScaledSpread(x: real, y: real, f: real, spread: real, xf: real, yf: real)
    requires xf == x * f && yf == y * f
    requires x - y <= spread && 0.0 <= f <= 1.0 && spread >= 0.0
    ensures xf - yf <= spread
  {
    var sf := spread * f;
    ScaledDifference(x, y, spread, f, xf, yf, sf);
    ShrinksBy(spread, f, sf);
  }

  lemma ScaledSlack(x: real, y: real, f: real, slack: real, e: real, xf: real, yf: real, slackF: real)
    requires xf == x * f && yf == y * f && slackF == slack * f
    requires x - y <= slack + e && 0.0 <= f <= 1.0 && e >= 0.0
    ensures xf - yf <= slackF + e
  {
    var ef, bf := e * f, (slack + e) * f;
    ScaledDifference(x, y, slack + e, f, xf, yf, bf);
    Distribute(slack, e, f, slackF, ef, bf);
    ShrinksBy(e, f, ef);
  }

  lemma TimesMonotone(a: real, b: real, f: real)
    requires a <= b && f >= 0.0
    ensures a * f <= b * f
  {
    assert (b - a) * f >= 0.0;
  }

  lemma DecayedCount(usage: UsageTable, cid: int, factor: real, i: int)
    ensures CountOf(Decay(usage, cid, factor), cid, i) == CountOf(usage, cid, i) * factor
  {
  }

  lemma DecayKeepsPair(usage: UsageTable, cid: int, factor: real, spread: real, jitter: real, maxEst: real, x: int, y: int)
    requires Harmless(factor, spread, maxEst) && spread >= 0.0 && maxEst >= 0.0
    requires WithinBound(CountOf(usage, cid, x), CountOf(usage, cid, y), spread, jitter, maxEst)
    ensures var after := Decay(usage, cid, factor);
            WithinBound(CountOf(after, cid, x), CountOf(after, cid, y), spread, jitter, maxEst)
  {
    DecayedCount(usage, cid, factor, x);
    DecayedCount(usage, cid, factor, y);
    ScaleBound(CountOf(usage, cid, x), CountOf(usage, cid, y), factor, spread, jitter, maxEst);
  }

  lemma DecayKeepsBalanced(usage: UsageTable, cid: int, cands: seq<int>, factor: real, spread: real, jitter: real, maxEst: real)
    requires Harmless(factor, spread, maxEst) && spread >= 0.0 && maxEst >= 0.0
    requires NonNegative(usage, cid, cands) && Balanced(usage, cid, cands, spread, jitter, maxEst)
    ensures NonNegative(Decay(usage, cid, factor), cid, cands)
    ensures Balanced(Decay(usage, cid, factor), cid, cands, spread, jitter, maxEst)
  {
    var after := Decay(usage, cid, factor);
    forall i | i in cands
      ensures CountOf(after, cid, i) >= 0.0
    {
      DecayedCount(usage, cid, factor, i);
      TimesMonotone(0.0, CountOf(usage, cid, i), factor);
    }
    forall x, y | x in cands && y in cands
      ensures WithinBound(CountOf(after, cid, x), CountOf(after, cid, y), spread, jitter, maxEst)
    {
      DecayKeepsPair(usage, cid, factor, spread, jitter, maxEst, x, y);
    }
  }

  lemma RaisingTheSmaller(x: real, y: real, e: real, spread: real, jitter: real, maxEst: real)
    requires e >= 0.0 && jitter >= 0.0
    requires WithinBound(x, y, spread, jitter, maxEst)
    ensures WithinBound(x, y + e, spread, jitter, maxEst)
  {
    assert jitter * (y + e) == jitter * y + jitter * e;
    assert jitter * e >= 0.0;
  }

  lemma RaisingTheLeast(x: real, y: real, e: real, spread: real, jitter: real, maxEst: real)
    requires e <= maxEst && x <= (1.0 + jitter) * y
    ensures WithinBound(x + e, y, spread, jitter, maxEst)
  {
    assert (1.0 + jitter) * y == y + jitter * y;
  }

  lemma ChargedCount(usage: UsageTable, cid: int, b: int, est: real, i: int)
    ensures CountOf(Charge(usage, cid, b, est, None), cid, i) == CountOf(usage, cid, i) + if i == b then est else 0.0
  {
  }

  lemma ChargeKeepsPair(usage: UsageTable, cid: int, cands: seq<int>, s: Selection, spread: real, jitter: real, maxEst: real,
                        x: int, i: nat)
    requires jitter >= 0.0 && spread >= 0.0 && s.decay.None?
    requires ValidSelection(usage, cid, cands, jitter, maxEst, s)
    requires NonNegative(usage, cid, cands) && x in cands && i < |cands|
    requires WithinBound(CountOf(usage, cid, x), CountOf(usage, cid, cands[i]), spread, jitter, maxEst)
    ensures var after := Apply(usage, cid, cands, s);
            WithinBound(CountOf(after, cid, x), CountOf(after, cid, cands[i]), spread, jitter, maxEst)
  {
    var y, b := cands[i], cands[s.at];
    ChargedCount(usage, cid, b, s.est, x);
    ChargedCount(usage, cid, b, s.est, y);
    var cx, cy := CountOf(usage, cid, x), CountOf(usage, cid, y);
    if y == b && x != b {
      RaisingTheSmaller(cx, cy, s.est, spread, jitter, maxEst);
    } else if x == b && y != b {
      ChosenNearMinimum(usage, cid, cands, s.draws, jitter, s.at, i);
      RaisingTheLeast(cx, cy, s.est, spread, jitter, maxEst);
    }
  }

  lemma ChargeKeepsBalanced(usage: UsageTable, cid: int, cands: seq<int>, s: Selection, spread: real, jitter: real, maxEst: real)
    requires jitter >= 0.0 && spread >= 0.0 && s.decay.None?
    requires ValidSelection(usage, cid, cands, jitter, maxEst, s)
    requires NonNegative(usage, cid, cands) && Balanced(usage, cid, cands, spread, jitter, maxEst)
    ensures NonNegative(Apply(usage, cid, cands, s), cid, cands)
    ensures Balanced(Apply(usage, cid, cands, s), cid, cands, spread, jitter, maxEst)
  {
    var after := Apply(usage, cid, cands, s);
    forall x, y | x in cands && y in cands
      ensures WithinBound(CountOf(after, cid, x), CountOf(after, cid, y), spread, jitter, maxEst)
    {
      var i :| 0 <= i < |cands| && cands[i] == y;
      ChargeKeepsPair(usage, cid, cands, s, spread, jitter, maxEst, x, i);
    }
  }

  predicate HarmlessDecay(s: Selection, spread: real, maxEst: real) {
    s.decay.Some? ==> Harmless(s.decay.value, spread, maxEst)
  }

  lemma SelectionKeepsBalanced(usage: UsageTable, cid: int, cands: seq<int>, s: Selection, spread: real, jitter: real, maxEst: real)
    requires jitter >= 0.0 && spread >= 0.0 && maxEst >= 0.0
    requires ValidSelection(usage, cid, cands, jitter, maxEst, s) && HarmlessDecay(s, spread, maxEst)
    requires NonNegative(usage, cid, cands) && Balanced(usage, cid, cands, spread, jitter, maxEst)
    ensures NonNegative(Apply(usage, cid, cands, s), cid, cands)
    ensures Balanced(Apply(usage, cid, cands, s), cid, cands, spread, jitter, maxEst)
  {
    var mid := AfterDecay(usage, cid, s.decay);
    if s.decay.Some? {
      DecayKeepsBalanced(usage, cid, cands, s.decay.value, spread, jitter, maxEst);
    }
    DecayFirst(usage, cid, cands, jitter, maxEst, s);
    ChargeKeepsBalanced(mid, cid, cands, s.(decay := None), spread, jitter, maxEst);
  }

  /** A selection is its decay followed by a selection without one. */
  lemma DecayFirst(usage: UsageTable, cid: int, cands: seq<int>, jitter: real, maxEst: real, s: Selection)
    requires ValidSelection(usage, cid, cands, jitter, maxEst, s)
    ensures var mid := AfterDecay(usage, cid, s.decay);
            && ValidSelection(mid, cid, cands, jitter, maxEst, s.(decay := None))
            && Apply(usage, cid, cands, s) == Apply(mid, cid, cands, s.(decay := None))
  {
  }

  /** A run of selections: each is valid in the state the ones before it left. */
  ghost predicate ValidRun(usage: UsageTable, cid: int, cands: seq<int>, jitter: real, maxEst: real, run: seq<Selection>)
    decreases |run|
  {
    run != [] ==>
      && ValidSelection(usage, cid, cands, jitter, maxEst, run[0])
      && ValidRun(Apply(usage, cid, cands, run[0]), cid, cands, jitter, maxEst, run[1..])
  }

  ghost function AfterRun(usage: UsageTable, cid: int, cands: seq<int>, jitter: real, maxEst: real, run: seq<Selection>): UsageTable
    requires ValidRun(usage, cid, cands, jitter, maxEst, run)
    decreases |run|
  {
    if run == [] then usage
    else AfterRun(Apply(usage, cid, cands, run[0]), cid, cands, jitter, maxEst, run[1..])
  }

  /**
   * Over any run of usage-mode selections on a fixed candidate set, with estimates in
   * [0, maxEst] and harmless decays at any time, the counters never drift apart by more than
   * the initial spread or jitter * min + maxEst, whichever is larger.
   */
  lemma {:induction false} SelectionsStayBalanced(usage: UsageTable, cid: int, cands: seq<int>, jitter: real, maxEst: real,
                                                  run: seq<Selection>, spread: real)
    requires jitter >= 0.0 && spread >= 0.0 && maxEst >= 0.0
    requires NonNegative(usage, cid, cands)
    requires forall x, y :: x in cands && y in cands ==> CountOf(usage, cid, x) - CountOf(usage, cid, y) <= spread
    requires ValidRun(usage, cid, cands, jitter, maxEst, run)
    requires forall i :: 0 <= i < |run| ==> HarmlessDecay(run[i], spread, maxEst)
    ensures NonNegative(AfterRun(usage, cid, cands, jitter, maxEst, run), cid, cands)
    ensures Balanced(AfterRun(usage, cid, cands, jitter, maxEst, run), cid, cands, spread, jitter, maxEst)
  {
    RunKeepsBalanced(usage, cid, cands, jitter, maxEst, run, spread);
  }

  lemma {:induction false} RunKeepsBalanced(usage: UsageTable, cid: int, cands: seq<int>, jitter: real, maxEst: real,
                                            run: seq<Selection>, spread: real)
    requires jitter >= 0.0 && spread >= 0.0 && maxEst >= 0.0
    requires NonNegative(usage, cid, cands) && Balanced(usage, cid, cands, spread, jitter, maxEst)
    requires ValidRun(usage, cid, cands, jitter, maxEst, run)
    requires forall i :: 0 <= i < |run| ==> HarmlessDecay(run[i], spread, maxEst)
    ensures NonNegative(AfterRun(usage, cid, cands, jitter, maxEst, run), cid, cands)
    ensures Balanced(AfterRun(usage, cid, cands, jitter, maxEst, run), cid, cands, spread, jitter, maxEst)
    decreases |run|
  {
    if run != [] {
      SelectionKeepsBalanced(usage, cid, cands, run[0], spread, jitter, maxEst);
      RunKeepsBalanced(Apply(usage, cid, cands, run[0]), cid, cands, jitter, maxEst, run[1..], spread);
    }
  }

  // ----- exactly which decays keep the bound -----

  /** A selection that fires a decay by f, in a state within the bound, ends in one. */
  ghost predicate BoundKept(usage: UsageTable, cid: int, cands: seq<int>, s: Selection, f: real, spread: real, jitter: real, maxEst: real) {
    && s.decay == Some(f)
    && ValidSelection(usage, cid, cands, jitter, maxEst, s)
    && NonNegative(usage, cid, cands) && Balanced(usage, cid, cands, spread, jitter, maxEst)
    ==> Balanced(Apply(usage, cid, cands, s), cid, cands, spread, jitter, maxEst)
  }

  function TwoCounts(a: real, b: real): UsageTable { map[(1, 0) := a, (1, 1) := b] }

  lemma TwoBalanced(b: real, spread: real, jitter: real, maxEst: real)
    requires b >= 0.0 && spread >= 0.0 && maxEst >= 0.0 && jitter >= 0.0
    ensures NonNegative(TwoCounts(0.0, b), 1, [0, 1])
    ensures Balanced(TwoCounts(0.0, b), 1, [0, 1], spread, jitter, maxEst) <==> WithinBound(b, 0.0, spread, jitter, maxEst)
  {
    var usage := TwoCounts(0.0, b);
    assert CountOf(usage, 1, 0) == 0.0 && CountOf(usage, 1, 1) == b;
    assert 0 in [0, 1] && 1 in [0, 1];
    forall x, y | x in [0, 1] && y in [0, 1] && WithinBound(b, 0.0, spread, jitter, maxEst)
      ensures WithinBound(CountOf(usage, 1, x), CountOf(usage, 1, y), spread, jitter, maxEst)
    {
    }
  }

  lemma TwoDecayed(b: real, f: real)
    ensures Decay(TwoCounts(0.0, b), 1, f) == TwoCounts(0.0, b * f)
    ensures Charge(TwoCounts(0.0, b), 1, 0, 0.0, Some(f)) == TwoCounts(0.0, b * f)
  {
    assert 0.0 * f == 0.0;
    var decayed := Decay(TwoCounts(0.0, b), 1, f);
    assert decayed.Keys == {(1, 0), (1, 1)};
    assert decayed[(1, 0)] == 0.0 && decayed[(1, 1)] == b * f;
    assert decayed[(1, 0) := Get(decayed, (1, 0)) + 0.0] == decayed == TwoCounts(0.0, b * f);
  }

  lemma UnusedIsLeast(b: real, jitter: real)
    requires b >= 0.0
    ensures FirstLeast(TwoCounts(0.0, b), 1, [0, 1], [0.0, 0.0], jitter, 0)
  {
    assert Effective(0.0, 0.0, jitter) == 0.0 && Effective(b, 0.0, jitter) == b;
  }

  /** Two keys at the breaking pair: the unused one is chosen, with nothing charged. */
  lemma BreakingSelection(f: real, spread: real, jitter: real, maxEst: real) returns (usage: UsageTable, s: Selection)
    requires spread >= 0.0 && maxEst >= 0.0 && jitter >= 0.0 && f > 1.0 && (spread > 0.0 || maxEst > 0.0)
    ensures usage == TwoCounts(0.0, Widest(spread, maxEst)) && s == Selection([0.0, 0.0], 0.0, Some(f), 0)
    ensures ValidSelection(usage, 1, [0, 1], jitter, maxEst, s)
    ensures NonNegative(usage, 1, [0, 1]) && Balanced(usage, 1, [0, 1], spread, jitter, maxEst)
    ensures !Balanced(Apply(usage, 1, [0, 1], s), 1, [0, 1], spread, jitter, maxEst)
  {
    var x := Widest(spread, maxEst);
    var xf := x * f;
    usage, s := TwoCounts(0.0, x), Selection([0.0, 0.0], 0.0, Some(f), 0);
    Enlarges(x, f, xf);
    BreakingPair(xf, spread, jitter, maxEst);
    TwoDecayed(x, f);
    UnusedIsLeast(xf, jitter);
    TwoBalanced(x, spread, jitter, maxEst);
    TwoBalanced(xf, spread, jitter, maxEst);
  }

  /**
   * Exactly when a decay factor is safe: every selection that fires it keeps the bound on the
   * drift if and only if the factor is at most 1, or spread and estimates are zero.
   */
  lemma BoundKeptIff(f: real, spread: real, jitter: real, maxEst: real)
    requires f >= 0.0 && spread >= 0.0 && jitter >= 0.0 && maxEst >= 0.0
    ensures (forall usage, cid, cands, s :: BoundKept(usage, cid, cands, s, f, spread, jitter, maxEst))
            <==> Harmless(f, spread, maxEst)
  {
    if Harmless(f, spread, maxEst) {
      forall usage, cid, cands, s
        ensures BoundKept(usage, cid, cands, s, f, spread, jitter, maxEst)
      {
        if s.decay == Some(f) && ValidSelection(usage, cid, cands, jitter, maxEst, s)
           && NonNegative(usage, cid, cands) && Balanced(usage, cid, cands, spread, jitter, maxEst) {
          SelectionKeepsBalanced(usage, cid, cands, s, spread, jitter, maxEst);
        }
      }
    } else {
      var usage, s := BreakingSelection(f, spread, jitter, maxEst);
      assert !BoundKept(usage, 1, [0, 1], s, f, spread, jitter, maxEst);
    }
  }
}

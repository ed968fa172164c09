/**
 * Time-band rotation: keys are cut into batches, the clock picks a band of them, and when the
 * band holds no live key the search goes forward.
 */
module Rotation {
  import opened Common
  import opened SettingsModel
  import opened Windows

  /** Go's remainder takes the sign of the dividend. */
  function GoRem(a: int, n: int): int
    requires n > 0
  {
    if a >= 0 then a % n else -((-a) % n)
  }

  /** The program's mod is the mathematical residue, also for negative bands. */
  function Mod(a: int, n: int): (r: int)
    requires n > 0
    ensures 0 <= r < n && r == a % n
  {
    var r := GoRem(a, n);
    ModOfNegation(a, n);
    if r < 0 then r + n else r
  }

  lemma ModOfNegation(a: int, n: int)
    requires n > 0
    ensures (-a) % n == if a % n == 0 then 0 else n - a % n
  {
    if a % n == 0 {
      ModUnique(-a, n, -(a / n), 0);
    } else {
      assert n * (-(a / n) - 1) == -(n * (a / n)) - n;
      ModUnique(-a, n, -(a / n) - 1, n - a % n);
    }
  }

  /** A rotation counts only if it is configured with a positive band length and batch size. */
  function RotationCfgOf(st: Option<Settings>, cid: int): Option<RotationCfg> {
    if st.None? || cid !in st.value.rotation then None
    else
      var cfg := st.value.rotation[cid];
      if cfg.bandSeconds <= 0 || cfg.activeCount <= 0 then None else Some(cfg)
  }

  // ----- batches -----

  function Iota(n: nat): seq<int> { seq(n, i => i) }

  /** Consecutive pieces of the given size, the last one possibly shorter. */
  function Chunks(s: seq<int>, size: nat): seq<seq<int>>
    requires size > 0
  {
    if s == [] then []
    else if |s| <= size then [s]
    else [s[..size]] + Chunks(s[size..], size)
  }

  function Swap(s: seq<int>, i: nat, j: nat): seq<int>
    requires i < |s| && j < |s|
  {
    s[i := s[j]][j := s[i]]
  }

  ghost predicate InRange(swaps: seq<(nat, nat)>, n: nat) {
    forall k :: 0 <= k < |swaps| ==> swaps[k].0 < n && swaps[k].1 < n
  }

  /**
   * The shuffle is seeded with the channel id alone, so its swaps are a function of the
   * channel and the number of keys; which function is left open.
   */
  type Shuffle = (int, nat) -> seq<(nat, nat)>

  ghost predicate Fits(shuffle: Shuffle) {
    forall cid, n: nat :: InRange(shuffle(cid, n), n)
  }

  function SwapAll(s: seq<int>, swaps: seq<(nat, nat)>): (r: seq<int>)
    requires InRange(swaps, |s|)
    ensures |r| == |s| && multiset(r) == multiset(s)
  {
    if swaps == [] then s
    else
      var before := SwapAll(s, swaps[..|swaps| - 1]);
      var (i, j) := swaps[|swaps| - 1];
      SwapIsPermutation(before, i, j);
      Swap(before, i, j)
  }

  lemma SwapIsPermutation(s: seq<int>, i: nat, j: nat)
    requires i < |s| && j < |s|
    ensures multiset(Swap(s, i, j)) == multiset(s)
  {
  }

  /** The key indexes in the order they are cut: swapped only when the order says shuffle. */
  function Order(order: string, n: nat, swaps: seq<(nat, nat)>): (r: seq<int>)
    requires InRange(swaps, n)
    ensures |r| == n && multiset(r) == multiset(Iota(n))
  {
    if order == "shuffle" then SwapAll(Iota(n), swaps) else Iota(n)
  }

  function Batches(cfg: RotationCfg, n: nat, swaps: seq<(nat, nat)>): seq<seq<int>>
    requires InRange(swaps, n)
  {
    if n == 0 then [] else Chunks(Order(cfg.order, n, swaps), if cfg.activeCount <= 0 then n else cfg.activeCount)
  }

  function From(s: seq<int>, start: nat): seq<int> {
    if start >= |s| then [] else s[start..]
  }

  lemma NextChunk(s: seq<int>, start: nat, size: nat)
    requires start < |s| && size > 0
    ensures Chunks(From(s, start), size) == [s[start..Min(start + size, |s|)]] + Chunks(From(s, start + size), size)
  {
    var rest := s[start..];
    if |rest| <= size {
      assert s[start..|s|] == rest;
    } else {
      assert rest[size..] == s[start + size..] && rest[..size] == s[start..start + size];
    }
  }

  /** The pieces before start are cut. */
  ghost predicate CutTo(batches: seq<seq<int>>, s: seq<int>, start: nat, size: nat)
    requires size > 0
  {
    batches + Chunks(From(s, start), size) == Chunks(s, size)
  }

  lemma CutNext(batches: seq<seq<int>>, s: seq<int>, start: nat, size: nat)
    requires size > 0 && start < |s| && CutTo(batches, s, start, size)
    ensures CutTo(batches + [s[start..Min(start + size, |s|)]], s, start + size, size)
  {
    NextChunk(s, start, size);
    var piece, rest := s[start..Min(start + size, |s|)], Chunks(From(s, start + size), size);
    assert batches + [piece] + rest == batches + ([piece] + rest);
  }

  lemma CutEnds(batches: seq<seq<int>>, s: seq<int>, size: nat)
    requires size > 0
    ensures CutTo([], s, 0, size)
    ensures forall start: nat :: start >= |s| && CutTo(batches, s, start, size) ==> batches == Chunks(s, size)
  {
    assert s[0..] == s;
    assert batches + [] == batches;
    assert [] + Chunks(s, size) == Chunks(s, size);
  }

  method SplitBatches(indexes: seq<int>, size: int) returns (batches: seq<seq<int>>)
    ensures indexes == [] ==> batches == []
    ensures indexes != [] ==> batches == Chunks(indexes, if size <= 0 then |indexes| else size)
  {
    if |indexes| == 0 {
      return [];
    }
    var step := size;
    if step <= 0 {
      step := |indexes|;
    }
    batches := [];
    var start := 0;
    CutEnds([], indexes, step);
    while start < |indexes|
      invariant 0 <= start
      invariant CutTo(batches, indexes, start, step)
    {
      var end := start + step;
      if end > |indexes| {
        end := |indexes|;
      }
      CutNext(batches, indexes, start, step);
      batches := batches + [indexes[start..end]];
      start := start + step;
    }
    CutEnds(batches, indexes, step);
  }

  /** Copy, then exchange in place. */
  method DeterministicShuffle(indexes: seq<int>, swaps: seq<(nat, nat)>) returns (shuffled: seq<int>)
    requires InRange(swaps, |indexes|)
    ensures shuffled == SwapAll(indexes, swaps)
  {
    var out := new int[|indexes|](i requires 0 <= i < |indexes| => indexes[i]);
    assert out[..] == indexes;
    for k := 0 to |swaps|
      invariant out[..] == SwapAll(indexes, swaps[..k])
    {
      var (i, j) := swaps[k];
      assert swaps[..k + 1][..k] == swaps[..k];
      ghost var before := out[..];
      out[i], out[j] := out[j], out[i];
      assert out[..] == Swap(before, i, j);
    }
    assert swaps[..|swaps|] == swaps;
    shuffled := out[..];
  }

  method BuildBatches(cfg: RotationCfg, keyCount: nat, swaps: seq<(nat, nat)>) returns (batches: seq<seq<int>>)
    requires InRange(swaps, keyCount)
    ensures batches == Batches(cfg, keyCount, swaps)
  {
    if keyCount <= 0 {
      return [];
    }
    var indexes := Iota(keyCount);
    if cfg.order == "shuffle" {
      indexes := DeterministicShuffle(indexes, swaps);
    }
    batches := SplitBatches(indexes, cfg.activeCount);
  }

  function Concat(batches: seq<seq<int>>): seq<int> {
    if batches == [] then [] else batches[0] + Concat(batches[1..])
  }

  lemma {:induction false} ChunksConcat(s: seq<int>, size: nat)
    requires size > 0
    ensures Concat(Chunks(s, size)) == s
    decreases |s|
  {
    if s != [] && |s| <= size {
      assert Concat([s]) == s + Concat([]);
    } else if s != [] {
      ChunksConcat(s[size..], size);
      assert Chunks(s, size)[1..] == Chunks(s[size..], size);
    }
  }

  lemma {:induction false} ChunksCount(s: seq<int>, size: nat)
    requires size > 0
    ensures |Chunks(s, size)| == (|s| + size - 1) / size
    decreases |s|
  {
    if s == [] {
      ModUnique(size - 1, size, 0, size - 1);
    } else if |s| <= size {
      ModUnique(|s| + size - 1, size, 1, |s| - 1);
    } else {
      ChunksCount(s[size..], size);
      var m := |s| - size + size - 1;
      ModUnique(m + size, size, m / size + 1, m % size);
    }
  }

  /** No piece is empty or too long, and all but the last are full. */
  ghost predicate Sized(c: seq<seq<int>>, size: nat) {
    && (forall b :: 0 <= b < |c| ==> 0 < |c[b]| <= size)
    && (forall b :: 0 <= b < |c| - 1 ==> |c[b]| == size)
  }

  lemma SizedCons(piece: seq<int>, rest: seq<seq<int>>, size: nat)
    requires 0 < |piece| == size && Sized(rest, size)
    ensures Sized([piece] + rest, size)
  {
  }

  lemma {:induction false} ChunksSizes(s: seq<int>, size: nat)
    requires size > 0
    ensures Sized(Chunks(s, size), size)
    decreases |s|
  {
    if |s| > size {
      ChunksSizes(s[size..], size);
      SizedCons(s[..size], Chunks(s[size..], size), size);
    }
  }

  /** The pieces put together give the list back; all but the last have the full size. */
  lemma ChunksCover(s: seq<int>, size: nat)
    requires size > 0
    ensures var c := Chunks(s, size);
            Concat(c) == s && |c| == (|s| + size - 1) / size && Sized(c, size)
  {
    ChunksConcat(s, size);
    ChunksCount(s, size);
    ChunksSizes(s, size);
  }

  ghost predicate Distinct(s: seq<int>) {
    forall i, j :: 0 <= i < j < |s| ==> s[i] != s[j]
  }

  /** Each member of the list is in exactly one of the batches. */
  ghost predicate OnceIn(batches: seq<seq<int>>, k: int) {
    exists q :: 0 <= q < |batches| && OnlyIn(batches, q, k)
  }

  ghost predicate OnlyIn(batches: seq<seq<int>>, q: int, k: int) {
    0 <= q < |batches| && k in batches[q] && forall b :: 0 <= b < |batches| && b != q ==> k !in batches[b]
  }

  lemma {:induction false} ConcatMembers(batches: seq<seq<int>>, k: int)
    ensures k in Concat(batches) <==> exists b :: 0 <= b < |batches| && k in batches[b]
  {
    if batches != [] {
      ConcatMembers(batches[1..], k);
      if b :| 0 <= b < |batches[1..]| && k in batches[1..][b] {
        assert k in batches[b + 1];
      }
      if b :| 0 <= b < |batches| && k in batches[b] {
        assert b > 0 ==> k in batches[1..][b - 1];
      }
    }
  }

  lemma {:induction false} DistinctMeansOnce(batches: seq<seq<int>>, k: int)
    requires multiset(Concat(batches))[k] == 1
    ensures OnceIn(batches, k)
  {
    var rest := batches[1..];
    assert batches == [batches[0]] + rest;
    assert Concat(batches) == batches[0] + Concat(rest);
    if k in batches[0] {
      assert multiset(batches[0])[k] >= 1;
      assert k !in Concat(rest);
      ConcatMembers(rest, k);
      assert forall b :: 0 < b < |batches| ==> batches[b] == rest[b - 1];
      assert OnlyIn(batches, 0, k);
    } else {
      DistinctMeansOnce(rest, k);
      var q :| 0 <= q < |rest| && OnlyIn(rest, q, k);
      assert forall b :: 0 < b < |batches| ==> batches[b] == rest[b - 1];
      assert OnlyIn(batches, q + 1, k);
    }
  }

  lemma {:induction false} IotaOnce(n: nat, k: int)
    ensures multiset(Iota(n))[k] == if 0 <= k < n then 1 else 0
  {
    if n == 0 {
      assert Iota(0) == [];
    } else {
      IotaOnce(n - 1, k);
      assert Iota(n) == Iota(n - 1) + [n - 1];
    }
  }

  /**
   * For every key count, size and sequence of swaps: the batches put together are the ordered
   * list of all keys, every key is in exactly one, all but the last are full, and there are
   * ceil(n / size) of them.
   */
  lemma BatchesPartition(cfg: RotationCfg, n: nat, swaps: seq<(nat, nat)>)
    requires InRange(swaps, n) && cfg.activeCount >= 1
    ensures var bs := Batches(cfg, n, swaps);
            && Concat(bs) == Order(cfg.order, n, swaps)
            && |bs| == (n + cfg.activeCount - 1) / cfg.activeCount
            && Sized(bs, cfg.activeCount)
            && (forall k :: 0 <= k < n ==> OnceIn(bs, k))
            && (forall b, k :: 0 <= b < |bs| && k in bs[b] ==> 0 <= k < n)
  {
    ChunksCover(Order(cfg.order, n, swaps), cfg.activeCount);
    var bs := Batches(cfg, n, swaps);
    BatchesAreChunks(cfg, n, swaps);
    forall k | 0 <= k < n
      ensures OnceIn(bs, k)
    {
      KeyOnce(bs, Order(cfg.order, n, swaps), n, k);
    }
    forall b, k | 0 <= b < |bs| && k in bs[b]
      ensures 0 <= k < n
    {
      MemberIsKey(bs, Order(cfg.order, n, swaps), n, b, k);
    }
  }

  /** Where the element that the swaps bring to position p comes from. */
  function Origin(swaps: seq<(nat, nat)>, p: nat): nat {
    if swaps == [] then p
    else
      var (i, j) := swaps[|swaps| - 1];
      Origin(swaps[..|swaps| - 1], if p == i then j else if p == j then i else p)
  }

  /** The swaps carry each element along its way, one exchange of two positions after another. */
  lemma {:induction false} SwapsCarry(s: seq<int>, swaps: seq<(nat, nat)>, p: nat)
    requires InRange(swaps, |s|) && p < |s|
    ensures Origin(swaps, p) < |s| && SwapAll(s, swaps)[p] == s[Origin(swaps, p)]
  {
    if swaps != [] {
      var (i, j) := swaps[|swaps| - 1];
      SwapsCarry(s, swaps[..|swaps| - 1], if p == i then j else if p == j then i else p);
    }
  }

  /** The position at which piece b starts. */
  function Start(size: nat, b: nat): nat {
    if b == 0 then 0 else Start(size, b - 1) + size
  }

  lemma {:induction false} StartIs(size: nat, b: nat)
    ensures Start(size, b) == size * b
  {
    if b > 0 {
      StartIs(size, b - 1);
      assert size * b == size * (b - 1) + size;
    }
  }

  lemma {:induction false} ChunkAt(s: seq<int>, size: nat, b: nat, at: nat)
    requires at < size && Start(size, b) + at < |s|
    ensures var c := Chunks(s, size);
            b < |c| && at < |c[b]| && c[b][at] == s[Start(size, b) + at]
    decreases b
  {
    if b > 0 {
      ChunkAt(s[size..], size, b - 1, at);
      ConsAt(s[..size], Chunks(s[size..], size), b);
    }
  }

  lemma ConsAt(piece: seq<int>, rest: seq<seq<int>>, b: nat)
    requires 0 < b <= |rest|
    ensures ([piece] + rest)[b] == rest[b - 1]
  {
  }

  /**
   * Which key is where: batch p / activeCount holds, at its place p % activeCount, the key with
   * number p, or with a shuffle the key that the swaps bring to position p.
   */
  lemma BatchHolds(cfg: RotationCfg, n: nat, swaps: seq<(nat, nat)>, p: nat)
    requires InRange(swaps, n) && cfg.activeCount >= 1 && p < n
    ensures var bs, b, at := Batches(cfg, n, swaps), p / cfg.activeCount, p % cfg.activeCount;
            b < |bs| && at < |bs[b]| && bs[b][at] == if cfg.order == "shuffle" then Origin(swaps, p) else p
  {
    PlaceOf(p, cfg.activeCount);
    HoldsAt(cfg, n, swaps, p / cfg.activeCount, p % cfg.activeCount);
  }

  lemma PlaceOf(p: nat, size: nat)
    requires size > 0
    ensures p % size < size && p / size >= 0 && Start(size, p / size) + p % size == p
  {
    StartIs(size, p / size);
  }

  lemma HoldsAt(cfg: RotationCfg, n: nat, swaps: seq<(nat, nat)>, b: nat, at: nat)
    requires InRange(swaps, n) && at < cfg.activeCount && Start(cfg.activeCount, b) + at < n
    ensures var bs, p := Batches(cfg, n, swaps), Start(cfg.activeCount, b) + at;
            b < |bs| && at < |bs[b]| && bs[b][at] == if cfg.order == "shuffle" then Origin(swaps, p) else p
  {
    BatchesAreChunks(cfg, n, swaps);
    ChunkAt(Order(cfg.order, n, swaps), cfg.activeCount, b, at);
    OrderAt(cfg.order, n, swaps, Start(cfg.activeCount, b) + at);
  }

  lemma OrderAt(order: string, n: nat, swaps: seq<(nat, nat)>, p: nat)
    requires InRange(swaps, n) && p < n
    ensures Order(order, n, swaps)[p] == if order == "shuffle" then Origin(swaps, p) else p
  {
    SwapsCarry(Iota(n), swaps, p);
  }

  lemma BatchesAreChunks(cfg: RotationCfg, n: nat, swaps: seq<(nat, nat)>)
    requires InRange(swaps, n) && cfg.activeCount >= 1
    ensures Batches(cfg, n, swaps) == Chunks(Order(cfg.order, n, swaps), cfg.activeCount)
  {
    assert n == 0 ==> Order(cfg.order, n, swaps) == [];
  }

  lemma KeyOnce(batches: seq<seq<int>>, order: seq<int>, n: nat, k: int)
    requires Concat(batches) == order && multiset(order) == multiset(Iota(n)) && 0 <= k < n
    ensures OnceIn(batches, k)
  {
    IotaOnce(n, k);
    DistinctMeansOnce(batches, k);
  }

  lemma MemberIsKey(batches: seq<seq<int>>, order: seq<int>, n: nat, b: int, k: int)
    requires Concat(batches) == order && multiset(order) == multiset(Iota(n))
    requires 0 <= b < |batches| && k in batches[b]
    ensures 0 <= k < n
  {
    ConcatMembers(batches, k);
    IotaOnce(n, k);
    assert k in multiset(order);
  }

  // ----- bands -----

  /** Key k is in the batch of the band or of one of the overlap bands before it. */
  ghost predicate InBand(batches: seq<seq<int>>, band: int, overlap: int, k: int)
    requires batches != []
  {
    exists back :: 0 <= back <= Max(overlap, 0) && InBatchBack(batches, band, back, k)
  }

  ghost predicate InBatchBack(batches: seq<seq<int>>, band: int, back: int, k: int)
    requires batches != []
  {
    k in batches[(band - back) % |batches|]
  }

  ghost predicate InBatchAhead(batches: seq<seq<int>>, band: int, step: int, k: int)
    requires batches != []
  {
    k in batches[(band + step) % |batches|]
  }

  ghost predicate Sorted(s: seq<int>) {
    forall i, j :: 0 <= i < j < |s| ==> s[i] <= s[j]
  }

  function Insert(r: seq<int>, at: nat, x: int): seq<int>
    requires at <= |r|
  {
    r[..at] + [x] + r[at..]
  }

  lemma InsertSorts(r: seq<int>, at: nat, x: int)
    requires at <= |r| && Sorted(r)
    requires forall k :: at <= k < |r| ==> r[k] > x
    requires at > 0 ==> r[at - 1] <= x
    ensures Sorted(Insert(r, at, x))
  {
    assert forall k :: 0 <= k < at ==> r[k] <= x;
    var s := Insert(r, at, x);
    assert forall k :: 0 <= k < |s| ==> s[k] == if k < at then r[k] else if k == at then x else r[k - 1];
  }

  lemma InsertAdds(r: seq<int>, at: nat, x: int)
    requires at <= |r|
    ensures multiset(Insert(r, at, x)) == multiset(r) + multiset{x}
  {
    assert r == r[..at] + r[at..];
  }

  /** sort.Ints */
  method SortInts(s: seq<int>) returns (r: seq<int>)
    ensures Sorted(r) && multiset(r) == multiset(s)
  {
    r := [];
    for i := 0 to |s|
      invariant Sorted(r) && multiset(r) == multiset(s[..i])
    {
      var at := |r|;
      while at > 0 && r[at - 1] > s[i]
        invariant 0 <= at <= |r|
        invariant forall k :: at <= k < |r| ==> r[k] > s[i]
      {
        at := at - 1;
      }
      assert s[..i + 1] == s[..i] + [s[i]];
      InsertSorts(r, at, s[i]);
      InsertAdds(r, at, s[i]);
      r := Insert(r, at, s[i]);
    }
    assert s[..|s|] == s;
  }

  lemma SortedKeeps(r: seq<int>, s: seq<int>)
    requires Sorted(r) && multiset(r) == multiset(s)
    ensures forall k :: k in r <==> k in s
    ensures |r| == |s|
    ensures Distinct(s) ==> Ascending(r)
  {
    forall k
      ensures k in r <==> k in s
    {
      assert k in multiset(r) <==> k in multiset(s);
    }
    assert |multiset(r)| == |multiset(s)|;
    if Distinct(s) {
      forall i, j | 0 <= i < j < |r|
        ensures r[i] < r[j]
      {
        if r[i] == r[j] {
          TwiceCounts(r, i, j);
          DistinctCounts(s, r[i]);
        }
      }
    }
  }

  lemma TwiceCounts(r: seq<int>, i: nat, j: nat)
    requires i < j < |r| && r[i] == r[j]
    ensures multiset(r)[r[i]] >= 2
  {
    assert r == r[..j] + r[j..];
    assert r[i] in r[..j] && r[j] == r[j..][0];
  }

  lemma {:induction false} DistinctCounts(s: seq<int>, k: int)
    requires Distinct(s)
    ensures multiset(s)[k] <= 1
  {
    if s != [] {
      var s' := s[..|s| - 1];
      assert s == s' + [s[|s| - 1]];
      DistinctCounts(s', k);
      if k == s[|s| - 1] {
        assert k !in s';
      }
    }
  }

  /** The enabled keys of the band and its overlap, ascending and without duplicates. */
  method BandCandidates(batches: seq<seq<int>>, enabled: set<int>, band: int, overlapBands: int) returns (cands: seq<int>)
    ensures batches == [] ==> cands == []
    ensures Ascending(cands)
    ensures batches != [] ==> forall k :: k in cands <==> k in enabled && InBand(batches, band, overlapBands, k)
  {
    var n := |batches|;
    if n == 0 {
      return [];
    }
    var overlap := overlapBands;
    if overlap < 0 {
      overlap := 0;
    }
    var seen: set<int> := {};
    cands := [];
    var back := 0;
    while back <= overlap
      invariant 0 <= back <= overlap + 1
      invariant Distinct(cands) && forall k :: k in cands <==> k in seen
      invariant forall k :: k in seen <==> k in enabled && exists d :: 0 <= d < back && InBatchBack(batches, band, d, k)
    {
      var b := batches[Mod(band - back, n)];
      ghost var before := seen;
      for i := 0 to |b|
        invariant Distinct(cands) && forall k :: k in cands <==> k in seen
        invariant forall k :: k in seen <==> k in before || (k in enabled && k in b[..i])
      {
        assert forall k :: k in b[..i + 1] <==> k in b[..i] || k == b[i];
        if b[i] in enabled && b[i] !in seen {
          assert b[i] !in cands;
          seen := seen + {b[i]};
          cands := cands + [b[i]];
        }
      }
      assert b[..|b|] == b;
      assert forall k :: InBatchBack(batches, band, back, k) <==> k in b;
      back := back + 1;
    }
    var sorted := SortInts(cands);
    SortedKeeps(sorted, cands);
    cands := sorted;
  }

  ghost predicate LiveAhead(batches: seq<seq<int>>, enabled: set<int>, band: int, step: int)
    requires batches != []
  {
    exists k :: k in enabled && InBatchAhead(batches, band, step, k)
  }

  /** The enabled keys of the first live batch after the band, and how far it is; 0 if none is live. */
  method Lookahead(batches: seq<seq<int>>, enabled: set<int>, band: int) returns (cands: seq<int>, steps: nat)
    ensures batches == [] ==> steps == 0
    ensures steps == 0 ==> cands == [] && forall s :: 1 <= s <= |batches| ==> !LiveAhead(batches, enabled, band, s)
    ensures steps > 0 ==>
              && steps <= |batches| && cands != []
              && (forall s :: 1 <= s < steps ==> !LiveAhead(batches, enabled, band, s))
              && Sorted(cands) && (Distinct(batches[(band + steps) % |batches|]) ==> Ascending(cands))
              && forall k :: k in cands <==> k in enabled && InBatchAhead(batches, band, steps, k)
  {
    var n := |batches|;
    for step := 1 to n + 1
      invariant forall s :: 1 <= s < step ==> !LiveAhead(batches, enabled, band, s)
    {
      var b := batches[Mod(band + step, n)];
      var live := [];
      for i := 0 to |b|
        invariant forall k :: k in live <==> k in enabled && k in b[..i]
        invariant Distinct(b) ==> Distinct(live)
      {
        assert forall k :: k in b[..i + 1] <==> k in b[..i] || k == b[i];
        if b[i] in enabled {
          assert Distinct(b) ==> b[i] !in b[..i];
          live := live + [b[i]];
        }
      }
      assert b[..|b|] == b;
      assert forall k :: InBatchAhead(batches, band, step, k) <==> k in b;
      if |live| > 0 {
        var sorted := SortInts(live);
        SortedKeeps(sorted, live);
        return sorted, step;
      }
      assert forall k :: k in b ==> k !in enabled;
    }
    return [], 0;
  }

  // ----- fairness -----

  /** A key in batch q is in the band exactly when the band is at most overlap after q. */
  lemma InBandIsHit(batches: seq<seq<int>>, band: int, overlap: int, k: int, q: int)
    requires OnlyIn(batches, q, k)
    ensures InBand(batches, band, overlap, k) <==> Hit(band, |batches|, q, Max(overlap, 0) + 1)
  {
    var n, o := |batches|, Max(overlap, 0);
    if InBand(batches, band, overlap, k) {
      var back :| 0 <= back <= o && InBatchBack(batches, band, back, k);
      assert (band - back) % n == q;
      ModSmall(q, n);
      ModCongruent(band - back, q, back - q, n);
      ResidueAtMost(back, n);
    }
    if Hit(band, n, q, o + 1) {
      var back := (band - q) % n;
      ModOfDifference(band, q, back, n);
      assert InBatchBack(batches, band, back, k);
    }
  }

  /** In index order, key k is in the band exactly when the band is at most overlap bands after number k / activeCount, counted round. */
  lemma InBandByIndex(cfg: RotationCfg, n: nat, swaps: seq<(nat, nat)>, band: int, k: nat)
    requires InRange(swaps, n) && cfg.activeCount >= 1 && k < n && cfg.order != "shuffle"
    ensures var bs := Batches(cfg, n, swaps);
            && |bs| == (n + cfg.activeCount - 1) / cfg.activeCount && bs != []
            && (InBand(bs, band, cfg.overlapBands, k) <==> (band - k / cfg.activeCount) % |bs| <= Max(cfg.overlapBands, 0))
  {
    var bs, q: nat := Batches(cfg, n, swaps), k / cfg.activeCount;
    BatchesPartition(cfg, n, swaps);
    BatchHolds(cfg, n, swaps, k);
    InOneBatch(bs, q, k);
    InBandIsHit(bs, band, cfg.overlapBands, k, q);
  }

  lemma InOneBatch(batches: seq<seq<int>>, q: nat, k: int)
    requires OnceIn(batches, k) && q < |batches| && k in batches[q]
    ensures OnlyIn(batches, q, k)
  {
    var only :| 0 <= only < |batches| && OnlyIn(batches, only, k);
  }

  lemma ResidueAtMost(a: nat, n: int)
    requires n > 0
    ensures a % n <= a
  {
    if a < n {
      ModSmall(a, n);
    }
  }

  lemma ModOfDifference(band: int, q: int, back: int, n: int)
    requires n > 0 && 0 <= q < n && back == (band - q) % n
    ensures (band - back) % n == q
  {
    var x := (band - q) / n;
    assert band - q == n * x + back;
    ModUnique(band - back, n, x, q);
  }

  /** In how many of the bands [start, start + len) the key is in the band's set. */
  ghost function BandsWith(batches: seq<seq<int>>, start: int, len: nat, overlap: int, k: int): nat
    requires batches != []
  {
    if len == 0 then 0
    else BandsWith(batches, start, len - 1, overlap, k) + if InBand(batches, start + len - 1, overlap, k) then 1 else 0
  }

  lemma {:induction false} BandsWithIsHits(batches: seq<seq<int>>, start: int, len: nat, overlap: int, k: int, q: int)
    requires OnlyIn(batches, q, k)
    ensures BandsWith(batches, start, len, overlap, k) == Hits(start, len, |batches|, q, Max(overlap, 0) + 1)
  {
    if len > 0 {
      BandsWithIsHits(batches, start, len - 1, overlap, k, q);
      InBandIsHit(batches, start + len - 1, overlap, k, q);
    }
  }

  /**
   * Fairness: for every key count, batch size, order and first band, a key is in the set of
   * exactly min(overlap + 1, B) of any B consecutive bands, B being the number of batches.
   */
  lemma RotationIsFair(cfg: RotationCfg, n: nat, swaps: seq<(nat, nat)>, start: int, k: int)
    requires InRange(swaps, n) && cfg.activeCount >= 1 && 0 <= k < n
    ensures var bs := Batches(cfg, n, swaps);
            bs != [] && BandsWith(bs, start, |bs|, cfg.overlapBands, k) == Min(Max(cfg.overlapBands, 0) + 1, |bs|)
  {
    BatchesPartition(cfg, n, swaps);
    var bs := Batches(cfg, n, swaps);
    assert OnceIn(bs, k);
    var q :| 0 <= q < |bs| && OnlyIn(bs, q, k);
    BandsWithIsHits(bs, start, |bs|, cfg.overlapBands, k, q);
    FullCycle(start, |bs|, q, Max(cfg.overlapBands, 0) + 1);
  }
}

/**
 * What the selection script chooses: the decay due, the jittered minimum, and the round
 * robin of the cursor. The script itself is a method of the Redis class.
 */
module SelectScript {
  import opened Common
  import opened Protocol
  import opened Windows

  /** The decay due at this call: only in usage mode, and only after a full interval. */
  function DueDecay(mode: string, interval: real, factor: real, last: int, now: int): Option<real> {
    if mode == "usage" && interval > 0.0 && (now - last) as real > interval then Some(factor) else None
  }

  function AfterDecay(usage: UsageTable, cid: int, decay: Option<real>): UsageTable {
    if decay.Some? then Decay(usage, cid, decay.value) else usage
  }

  /** A counter with its jitter: draw is the random number in [0, 1) drawn for the candidate. */
  function Effective(count: real, draw: real, jitter: real): real {
    count * (1.0 + draw * jitter)
  }

  function EffectiveAt(usage: UsageTable, cid: int, candidates: seq<int>, draws: seq<real>, jitter: real, i: nat): real
    requires i < |candidates| && i < |draws|
  {
    Effective(Get(usage, (cid, candidates[i])), draws[i], jitter)
  }

  /** Position b is the first with the least effective count. */
  ghost predicate FirstLeast(usage: UsageTable, cid: int, candidates: seq<int>, draws: seq<real>, jitter: real, b: nat)
    requires |draws| >= |candidates|
  {
    && b < |candidates|
    && (forall i :: 0 <= i < |candidates| ==>
          EffectiveAt(usage, cid, candidates, draws, jitter, b) <= EffectiveAt(usage, cid, candidates, draws, jitter, i))
    && (forall i :: 0 <= i < b ==>
          EffectiveAt(usage, cid, candidates, draws, jitter, b) < EffectiveAt(usage, cid, candidates, draws, jitter, i))
  }

  /** Everything that is neither peek nor random nor usage polls. */
  predicate Advances(mode: string) {
    mode != "peek" && mode != "random" && mode != "usage"
  }

  // ----- round robin -----

  datatype Call = Poll | Peek

  /** The positions answered to the polls of a run of calls, cur being the cursor before it. */
  function PollPositions(cur: int, n: nat, calls: seq<Call>): seq<nat>
    requires n > 0
    decreases |calls|
  {
    if calls == [] then []
    else if calls[0].Poll? then [(cur + 1) % n] + PollPositions(cur + 1, n, calls[1..])
    else PollPositions(cur, n, calls[1..])
  }

  function PollsIn(calls: seq<Call>): nat {
    if calls == [] then 0 else (if calls[0].Poll? then 1 else 0) + PollsIn(calls[1..])
  }

  function RoundRobin(cur: int, n: nat, k: nat): seq<nat>
    requires n > 0
  {
    seq(k, i => (cur + 1 + i) % n)
  }

  /** Peeks are invisible to polls: inserting or erasing any of them changes no polled answer. */
  lemma {:induction false} PeeksAreInvisible(cur: int, n: nat, calls: seq<Call>)
    requires n > 0
    ensures PollPositions(cur, n, calls) == RoundRobin(cur, n, PollsIn(calls))
    decreases |calls|
  {
    if calls != [] {
      if calls[0].Poll? {
        PeeksAreInvisible(cur + 1, n, calls[1..]);
        var rest := RoundRobin(cur + 1, n, PollsIn(calls[1..]));
        assert RoundRobin(cur, n, PollsIn(calls)) == [(cur + 1) % n] + rest;
      } else {
        PeeksAreInvisible(cur, n, calls[1..]);
      }
    }
  }

  /** How often candidate position q is answered among k consecutive polls. */
  ghost function TimesPolled(cur: int, n: nat, k: nat, q: nat): nat
    requires n > 0
  {
    multiset(RoundRobin(cur, n, k))[q]
  }

  lemma {:induction false} TimesPolledIsHits(cur: int, n: nat, k: nat, q: nat)
    requires q < n
    ensures TimesPolled(cur, n, k, q) == Hits(cur + 1, k, n, q, 1)
  {
    if k == 0 {
      assert RoundRobin(cur, n, 0) == [];
    } else {
      TimesPolledIsHits(cur, n, k - 1, q);
      assert RoundRobin(cur, n, k) == RoundRobin(cur, n, k - 1) + [(cur + k) % n];
      HitIff(cur + k, n, q);
      ModSmall(q, n);
    }
  }

  /**
   * Whatever the cursor, k consecutive polls over n candidates answer each of them k / n
   * times, or once more.
   */
  lemma PollingIsFair(cur: int, n: nat, calls: seq<Call>, q: nat)
    requires q < n
    ensures var k := PollsIn(calls);
            k / n <= multiset(PollPositions(cur, n, calls))[q] <= (k + n - 1) / n
  {
    var k := PollsIn(calls);
    PeeksAreInvisible(cur, n, calls);
    TimesPolledIsHits(cur, n, k, q);
    ResidueCount(cur + 1, k, n, q);
    CeilOf(k, n);
  }

  lemma CeilOf(k: nat, n: nat)
    requires n > 0
    ensures (k + n - 1) / n == k / n + if k % n == 0 then 0 else 1
  {
    if k % n == 0 {
      ModUnique(k + n - 1, n, k / n, n - 1);
    } else {
      ModUnique(k + n - 1, n, k / n + 1, k % n - 1);
    }
  }
}

/**
 * Runs of the selection script over any requests on any channels: what the polls of a channel
 * answer, and how far its counters drift apart.
 */
module ScriptRuns {
  import opened Common
  import opened Protocol
  import opened SelectScript
  import opened RedisCells
  import opened ScriptCalls
  import Balance

  /** As far as the cursor of the channel goes, a call polls or it might as well peek. */
  function AsCall(r: Request, cid: int): Call {
    if r.cid == cid && Advances(r.mode) then Poll else Peek
  }

  function AsCalls(requests: seq<Request>, cid: int): seq<Call> {
    seq(|requests|, i requires 0 <= i < |requests| => AsCall(requests[i], cid))
  }

  lemma {:induction false} PollsSnoc(calls: seq<Call>, c: Call)
    ensures PollsIn(calls + [c]) == PollsIn(calls) + if c.Poll? then 1 else 0
  {
    if calls == [] {
      assert [c][1..] == [];
    } else {
      PollsSnoc(calls[1..], c);
      assert (calls + [c])[1..] == calls[1..] + [c];
    }
  }

  lemma RoundRobinSnoc(cur: int, n: nat, k: nat)
    requires n > 0
    ensures RoundRobin(cur, n, k + 1) == RoundRobin(cur, n, k) + [(cur + k + 1) % n]
  {
  }

  /**
   * Runs the requests one after another. The polls on the channel answer its candidates in the
   * round robin that starts at the cursor, whatever peeks, random picks, usage picks and calls
   * on other channels are among them, and whatever candidates those offer.
   */
  method RunScripts(redis: Redis, cid: int, candidates: seq<int>, requests: seq<Request>, jitter: real)
    returns (answers: seq<int>, ghost positions: seq<nat>)
    requires candidates != []
    requires forall i :: 0 <= i < |requests| ==>
               Drawn(requests[i]) && (AsCall(requests[i], cid).Poll? ==> requests[i].candidates == candidates)
    modifies redis`cursor, redis`usage, redis`lastDecay
    ensures positions == PollPositions(old(redis.Cursor(cid)), |candidates|, AsCalls(requests, cid))
    ensures Answers(candidates, positions, answers)
    ensures redis.Cursor(cid) == old(redis.Cursor(cid)) + |positions|
    ensures NoRepeats(candidates) ==> forall q: nat :: q < |candidates| ==> FairShare(answers, candidates, q)
  {
    ghost var start, n, calls := redis.Cursor(cid), |candidates|, AsCalls(requests, cid);
    answers, positions := [], [];
    for i := 0 to |requests|
      invariant positions == RoundRobin(start, n, PollsIn(calls[..i]))
      invariant redis.Cursor(cid) == start + |positions|
      invariant Answers(candidates, positions, answers)
    {
      var r := requests[i];
      assert calls[..i + 1] == calls[..i] + [calls[i]];
      PollsSnoc(calls[..i], calls[i]);
      RoundRobinSnoc(start, n, |positions|);
      var idx, at := redis.SelectKey(r.mode, r.cid, r.candidates, r.est, r.interval, r.factor, r.now, jitter, r.draws);
      if r.cid == cid && r.mode != "peek" && r.mode != "random" && r.mode != "usage" {
        answers, positions := answers + [idx], positions + [at];
      }
    }
    assert calls[..|requests|] == calls;
    PeeksAreInvisible(start, n, calls);
    forall q: nat | NoRepeats(candidates) && q < |candidates|
      ensures FairShare(answers, candidates, q)
    {
      AnswersAreFair(start, candidates, requests, cid, answers, q);
    }
  }

  /** Each answer is the candidate at the position of its poll. */
  ghost predicate Answers(candidates: seq<int>, positions: seq<nat>, answers: seq<int>) {
    |answers| == |positions| && forall i :: 0 <= i < |positions| ==> positions[i] < |candidates| && answers[i] == candidates[positions[i]]
  }

  ghost predicate NoRepeats(candidates: seq<int>) {
    forall i, j :: 0 <= i < j < |candidates| ==> candidates[i] != candidates[j]
  }

  lemma {:induction false} AnswersCount(candidates: seq<int>, positions: seq<nat>, answers: seq<int>, q: nat)
    requires Answers(candidates, positions, answers) && NoRepeats(candidates) && q < |candidates|
    ensures multiset(answers)[candidates[q]] == multiset(positions)[q]
  {
    if positions != [] {
      var k := |positions| - 1;
      AnswersCount(candidates, positions[..k], answers[..k], q);
      assert positions == positions[..k] + [positions[k]] && answers == answers[..k] + [answers[k]];
    }
  }

  /** Among k answers, a candidate of n is answered k / n times or once more, rounded up. */
  ghost predicate FairShare(answers: seq<int>, candidates: seq<int>, q: nat)
    requires q < |candidates|
  {
    var k, n := |answers|, |candidates|;
    k / n <= multiset(answers)[candidates[q]] <= (k + n - 1) / n
  }

  lemma AnswersAreFair(start: int, candidates: seq<int>, requests: seq<Request>, cid: int, answers: seq<int>, q: nat)
    requires NoRepeats(candidates) && q < |candidates|
    requires Answers(candidates, PollPositions(start, |candidates|, AsCalls(requests, cid)), answers)
    ensures FairShare(answers, candidates, q)
  {
    var calls := AsCalls(requests, cid);
    PollingIsFair(start, |candidates|, calls, q);
    PeeksAreInvisible(start, |candidates|, calls);
    AnswersCount(candidates, PollPositions(start, |candidates|, calls), answers, q);
  }

  /** Inserting or erasing calls that do not poll changes none of the polled answers. */
  lemma OnlyPollsMatter(start: int, candidates: seq<int>, cid: int, a: seq<Request>, b: seq<Request>, inA: seq<int>, inB: seq<int>)
    requires candidates != [] && PollsIn(AsCalls(a, cid)) == PollsIn(AsCalls(b, cid))
    requires Answers(candidates, PollPositions(start, |candidates|, AsCalls(a, cid)), inA)
    requires Answers(candidates, PollPositions(start, |candidates|, AsCalls(b, cid)), inB)
    ensures inA == inB
  {
    PeeksAreInvisible(start, |candidates|, AsCalls(a, cid));
    PeeksAreInvisible(start, |candidates|, AsCalls(b, cid));
  }

  // ----- usage -----

  /** A usage-mode request on the channel offers the candidates, and its estimate and factor are in bounds. */
  predicate Moderate(r: Request, cid: int, candidates: seq<int>, spread: real, maxEst: real) {
    r.cid == cid && r.mode == "usage" ==>
      r.candidates == candidates && 0.0 <= r.est <= maxEst && Balance.Harmless(r.factor, spread, maxEst)
  }

  /** The counters of the candidates are not negative and within the bound. */
  ghost predicate InBounds(usage: UsageTable, cid: int, candidates: seq<int>, spread: real, jitter: real, maxEst: real) {
    Balance.NonNegative(usage, cid, candidates) && Balance.Balanced(usage, cid, candidates, spread, jitter, maxEst)
  }

  /** Counters that agree on the channel are in bounds alike. */
  lemma SameCounts(a: UsageTable, b: UsageTable, cid: int, candidates: seq<int>, spread: real, jitter: real, maxEst: real)
    requires InBounds(a, cid, candidates, spread, jitter, maxEst)
    requires forall i :: Get(b, (cid, i)) == Get(a, (cid, i))
    ensures InBounds(b, cid, candidates, spread, jitter, maxEst)
  {
    forall i
      ensures Balance.CountOf(b, cid, i) == Balance.CountOf(a, cid, i)
    {
    }
  }

  lemma OtherChannel(usage: UsageTable, other: int, idx: int, est: real, decay: Option<real>, cid: int)
    requires other != cid
    ensures forall i :: Get(Charge(usage, other, idx, est, decay), (cid, i)) == Get(usage, (cid, i))
    ensures forall i :: Get(AfterDecay(usage, other, decay), (cid, i)) == Get(usage, (cid, i))
  {
  }

  /** One call of the script keeps the counters in bounds. */
  method RunOne(redis: Redis, r: Request, cid: int, candidates: seq<int>, jitter: real, ghost spread: real, ghost maxEst: real)
    returns (idx: int)
    requires Drawn(r) && Moderate(r, cid, candidates, spread, maxEst) && jitter >= 0.0 && spread >= 0.0 && maxEst >= 0.0
    requires InBounds(redis.usage, cid, candidates, spread, jitter, maxEst)
    modifies redis`cursor, redis`usage, redis`lastDecay
    ensures InBounds(redis.usage, cid, candidates, spread, jitter, maxEst)
  {
    ghost var before, decay := redis.usage, DueDecay(r.mode, r.interval, r.factor, redis.LastDecay(r.cid), r.now);
    ghost var at;
    idx, at := redis.SelectKey(r.mode, r.cid, r.candidates, r.est, r.interval, r.factor, r.now, jitter, r.draws);
    if r.cid != cid {
      OtherChannel(before, r.cid, idx, r.est, decay, cid);
      SameCounts(before, redis.usage, cid, candidates, spread, jitter, maxEst);
    } else if r.mode == "usage" && candidates != [] {
      ghost var s := Balance.Selection(r.draws, r.est, decay, at);
      Balance.SelectionKeepsBalanced(before, cid, candidates, s, spread, jitter, maxEst);
    }
  }

  /**
   * Over any requests in any modes on any channels, with decays wherever they are due, the
   * counters of a channel's candidates never drift apart by more than the initial spread or
   * jitter * min + maxEst, whichever is larger, as long as its usage-mode requests are moderate.
   */
  method RunUsage(redis: Redis, cid: int, candidates: seq<int>, requests: seq<Request>, jitter: real, ghost spread: real, ghost maxEst: real)
    returns (answers: seq<int>)
    requires jitter >= 0.0 && spread >= 0.0 && maxEst >= 0.0
    requires forall i :: 0 <= i < |requests| ==> Drawn(requests[i]) && Moderate(requests[i], cid, candidates, spread, maxEst)
    requires Balance.NonNegative(redis.usage, cid, candidates)
    requires forall x, y :: x in candidates && y in candidates ==>
               Get(redis.usage, (cid, x)) - Get(redis.usage, (cid, y)) <= spread
    modifies redis`cursor, redis`usage, redis`lastDecay
    ensures |answers| == |requests|
    ensures Balance.NonNegative(redis.usage, cid, candidates)
    ensures forall x, y :: x in candidates && y in candidates ==>
              var a, b := Get(redis.usage, (cid, x)), Get(redis.usage, (cid, y));
              a - b <= spread || a - b <= jitter * b + maxEst
  {
    answers := [];
    for i := 0 to |requests|
      invariant |answers| == i
      invariant InBounds(redis.usage, cid, candidates, spread, jitter, maxEst)
    {
      var idx := RunOne(redis, requests[i], cid, candidates, jitter, spread, maxEst);
      answers := answers + [idx];
    }
    forall x, y | x in candidates && y in candidates
      ensures var a, b := Get(redis.usage, (cid, x)), Get(redis.usage, (cid, y));
              a - b <= spread || a - b <= jitter * b + maxEst
    {
      assert Balance.WithinBound(Balance.CountOf(redis.usage, cid, x), Balance.CountOf(redis.usage, cid, y), spread, jitter, maxEst);
    }
  }
}

/**
 * What one call of the selection script does to the cells and which candidate it answers, and
 * how far apart its decays are over a run of calls.
 */
module ScriptCalls {
  import opened Common
  import opened Protocol
  import opened SelectScript
  import opened RedisCells

  /** The arguments of one call of the script, with the random numbers it draws. */
  datatype Request = Request(cid: int, mode: string, candidates: seq<int>, est: real, interval: real, factor: real, now: int, draws: seq<real>)

  ghost predicate Drawn(r: Request) {
    |r.draws| > |r.candidates| && forall i :: 0 <= i < |r.draws| ==> 0.0 <= r.draws[i] < 1.0
  }

  /** The cells the script reads and writes. */
  datatype Cells = Cells(usage: UsageTable, cursor: map<int, int>, lastDecay: map<int, int>)

  function NumberAt(m: map<int, int>, cid: int): int {
    if cid in m then m[cid] else 0
  }

  /** More than the interval has passed since the last decay of the channel. */
  predicate Fires(before: Cells, r: Request) {
    r.mode == "usage" && r.interval > 0.0 && (r.now - NumberAt(before.lastDecay, r.cid)) as real > r.interval
  }

  /** A counter after the decay, if one fires: every counter of the channel shrinks, and no other. */
  function Decayed(before: Cells, r: Request, k: (int, int)): real {
    if Fires(before, r) && k.0 == r.cid then Get(before.usage, k) * r.factor else Get(before.usage, k)
  }

  /** The cells after a call that answers idx. */
  ghost predicate Leaves(before: Cells, r: Request, idx: int, after: Cells) {
    var some := r.candidates != [];
    && after.lastDecay == (if Fires(before, r) then before.lastDecay[r.cid := r.now] else before.lastDecay)
    && (forall k :: Get(after.usage, k) == Decayed(before, r, k) + if r.mode == "usage" && some && k == (r.cid, idx) then r.est else 0.0)
    && after.cursor == if some && r.mode !in {"peek", "random", "usage"} then before.cursor[r.cid := NumberAt(before.cursor, r.cid) + 1]
                       else before.cursor
  }

  /** A count with its jitter. */
  function Jittered(before: Cells, r: Request, jitter: real, i: nat): real
    requires i < |r.candidates| && i < |r.draws|
  {
    Decayed(before, r, (r.cid, r.candidates[i])) * (1.0 + r.draws[i] * jitter)
  }

  /** The place among the candidates that is answered: in the round, by lot, or by use so far. */
  ghost predicate Picks(before: Cells, r: Request, jitter: real, at: nat)
    requires Drawn(r) && r.candidates != []
  {
    var n, cur := |r.candidates|, NumberAt(before.cursor, r.cid);
    && at < n
    && match r.mode
       case "peek" => at == cur % n
       case "random" => at as real <= r.draws[0] * n as real < (at + 1) as real
       case "usage" =>
         && (forall i :: 0 <= i < n ==> Jittered(before, r, jitter, at) <= Jittered(before, r, jitter, i))
         && (forall i :: 0 <= i < at ==> Jittered(before, r, jitter, at) < Jittered(before, r, jitter, i))
       case _ => at == (cur + 1) % n
  }

  function DueAt(before: Cells, r: Request): Option<real> {
    DueDecay(r.mode, r.interval, r.factor, NumberAt(before.lastDecay, r.cid), r.now)
  }

  lemma DecayedCount(before: Cells, r: Request, k: (int, int))
    ensures Get(AfterDecay(before.usage, r.cid, DueAt(before, r)), k) == Decayed(before, r, k)
  {
  }

  lemma LeavesCharged(before: Cells, r: Request, idx: int, after: Cells)
    requires var decay := DueAt(before, r);
             && after.lastDecay == (if decay.Some? then before.lastDecay[r.cid := r.now] else before.lastDecay)
             && after.usage == (if r.mode == "usage" && r.candidates != [] then Charge(before.usage, r.cid, idx, r.est, decay)
                                else AfterDecay(before.usage, r.cid, decay))
             && after.cursor == if Advances(r.mode) && r.candidates != [] then before.cursor[r.cid := NumberAt(before.cursor, r.cid) + 1]
                                else before.cursor
    ensures Leaves(before, r, idx, after)
  {
    forall k
      ensures Get(after.usage, k) == Decayed(before, r, k) + if r.mode == "usage" && r.candidates != [] && k == (r.cid, idx) then r.est else 0.0
    {
      DecayedCount(before, r, k);
    }
  }

  lemma LeastIsPicked(before: Cells, r: Request, jitter: real, at: nat)
    requires Drawn(r) && r.candidates != [] && r.mode == "usage"
    requires FirstLeast(AfterDecay(before.usage, r.cid, DueAt(before, r)), r.cid, r.candidates, r.draws, jitter, at)
    ensures Picks(before, r, jitter, at)
  {
    var mid := AfterDecay(before.usage, r.cid, DueAt(before, r));
    forall i | 0 <= i < |r.candidates|
      ensures Jittered(before, r, jitter, i) == EffectiveAt(mid, r.cid, r.candidates, r.draws, jitter, i)
    {
      DecayedCount(before, r, (r.cid, r.candidates[i]));
    }
  }

  /** Runs one call. */
  method Call(redis: Redis, r: Request, jitter: real) returns (idx: int, ghost at: nat)
    requires Drawn(r)
    modifies redis`cursor, redis`usage, redis`lastDecay
    ensures var before := Cells(old(redis.usage), old(redis.cursor), old(redis.lastDecay));
            && Leaves(before, r, idx, Cells(redis.usage, redis.cursor, redis.lastDecay))
            && (r.candidates == [] ==> idx == -1)
            && (r.candidates != [] ==> Picks(before, r, jitter, at) && idx == r.candidates[at])
  {
    idx, at := redis.SelectKey(r.mode, r.cid, r.candidates, r.est, r.interval, r.factor, r.now, jitter, r.draws);
    ghost var before := Cells(old(redis.usage), old(redis.cursor), old(redis.lastDecay));
    LeavesCharged(before, r, idx, Cells(redis.usage, redis.cursor, redis.lastDecay));
    if r.candidates != [] && r.mode == "usage" {
      LeastIsPicked(before, r, jitter, at);
    }
  }

  /** Each of n candidates owns the draws of one interval, all of length 1 / n. */
  lemma RandomShare(r: Request, before: Cells, jitter: real, at: nat)
    requires Drawn(r) && r.candidates != [] && r.mode == "random" && at < |r.candidates|
    ensures var n := |r.candidates| as real;
            && (Picks(before, r, jitter, at) <==> at as real / n <= r.draws[0] < (at + 1) as real / n)
            && (at + 1) as real / n - at as real / n == 1.0 / n
  {
    var n, d := |r.candidates| as real, r.draws[0];
    DivideIff(at as real, d, n);
    DivideIff((at + 1) as real, d, n);
    assert at as real / n * n == at as real && (at + 1) as real / n * n == (at + 1) as real && 1.0 / n * n == 1.0;
    assert ((at + 1) as real / n - at as real / n - 1.0 / n) * n == 0.0;
  }

  lemma DivideIff(x: real, d: real, n: real)
    requires n > 0.0
    ensures x / n <= d <==> x <= d * n
  {
    var q := x / n;
    assert q * n == x;
    assert (d - q) * n == d * n - x;
  }

  // ----- decays over a run -----

  /** A run of calls: the cells before, between and after them. */
  ghost predicate Trace(cells: seq<Cells>, requests: seq<Request>, answers: seq<int>) {
    && |cells| == |requests| + 1 && |answers| == |requests|
    && forall i :: 0 <= i < |requests| ==> Leaves(cells[i], requests[i], answers[i], cells[i + 1])
  }

  method Run(redis: Redis, requests: seq<Request>, jitter: real) returns (answers: seq<int>, ghost cells: seq<Cells>)
    requires forall i :: 0 <= i < |requests| ==> Drawn(requests[i])
    modifies redis`cursor, redis`usage, redis`lastDecay
    ensures Trace(cells, requests, answers)
    ensures cells[0] == Cells(old(redis.usage), old(redis.cursor), old(redis.lastDecay))
    ensures cells[|requests|] == Cells(redis.usage, redis.cursor, redis.lastDecay)
  {
    answers, cells := [], [Cells(redis.usage, redis.cursor, redis.lastDecay)];
    for i := 0 to |requests|
      invariant Trace(cells, requests[..i], answers)
      invariant cells[0] == Cells(old(redis.usage), old(redis.cursor), old(redis.lastDecay))
      invariant cells[i] == Cells(redis.usage, redis.cursor, redis.lastDecay)
    {
      var idx, at := Call(redis, requests[i], jitter);
      answers, cells := answers + [idx], cells + [Cells(redis.usage, redis.cursor, redis.lastDecay)];
    }
    assert requests[..|requests|] == requests;
  }

  /** The time of the last decay never goes back. */
  lemma {:induction false} LastDecayGrows(cells: seq<Cells>, requests: seq<Request>, answers: seq<int>, cid: int, i: nat, j: nat)
    requires Trace(cells, requests, answers) && i <= j <= |requests|
    ensures NumberAt(cells[i].lastDecay, cid) <= NumberAt(cells[j].lastDecay, cid)
  {
    if i < j {
      LastDecayGrows(cells, requests, answers, cid, i, j - 1);
      assert Leaves(cells[j - 1], requests[j - 1], answers[j - 1], cells[j]);
    }
  }

  /** Any two decays of one channel are more than the interval of the later call apart, whatever comes between them. */
  lemma DecaysApart(cells: seq<Cells>, requests: seq<Request>, answers: seq<int>, i: nat, j: nat)
    requires Trace(cells, requests, answers) && i < j < |requests| && requests[i].cid == requests[j].cid
    requires Fires(cells[i], requests[i]) && Fires(cells[j], requests[j])
    ensures (requests[j].now - requests[i].now) as real > requests[j].interval
  {
    var cid := requests[i].cid;
    assert Leaves(cells[i], requests[i], answers[i], cells[i + 1]);
    assert NumberAt(cells[i + 1].lastDecay, cid) == requests[i].now;
    LastDecayGrows(cells, requests, answers, cid, i + 1, j);
  }

  /** How many of the first n calls decay the channel. */
  ghost function Decays(cells: seq<Cells>, requests: seq<Request>, cid: int, n: nat): nat
    requires n <= |requests| <= |cells|
  {
    if n == 0 then 0
    else Decays(cells, requests, cid, n - 1) + if requests[n - 1].cid == cid && Fires(cells[n - 1], requests[n - 1]) then 1 else 0
  }

  /** The channel's calls use an interval of at least this and clocks in [from, to]. */
  ghost predicate Clocked(requests: seq<Request>, cid: int, interval: real, from: int, to: int) {
    forall i :: 0 <= i < |requests| && requests[i].cid == cid ==> requests[i].interval >= interval && from <= requests[i].now <= to
  }

  /** m decays fit in the time. */
  ghost predicate Fit(m: nat, interval: real, time: real) {
    m > 0 ==> (m - 1) as real * interval <= time
  }

  lemma FitOneMore(m: nat, interval: real, time: real, more: real)
    requires Fit(m, interval, time) && more >= 0.0 && (m > 0 ==> more - time > interval)
    ensures Fit(m + 1, interval, more)
  {
    if m > 0 {
      assert m as real * interval == (m - 1) as real * interval + interval;
    }
  }

  lemma DecayStep(cells: seq<Cells>, requests: seq<Request>, answers: seq<int>, cid: int, n: nat)
    requires Trace(cells, requests, answers) && 0 < n <= |requests|
    ensures var r := requests[n - 1];
            var last := NumberAt(cells[n - 1].lastDecay, cid);
            NumberAt(cells[n].lastDecay, cid) == if r.cid == cid && Fires(cells[n - 1], r) then r.now else last
  {
    assert Leaves(cells[n - 1], requests[n - 1], answers[n - 1], cells[n]);
  }

  /** m decays of a channel take more than m - 1 intervals, so a stretch of time bounds their number. */
  lemma {:induction false} DecaysTakeTime(cells: seq<Cells>, requests: seq<Request>, answers: seq<int>, cid: int, interval: real, from: int, to: int, n: nat)
    requires Trace(cells, requests, answers) && n <= |requests| && interval >= 0.0 && Clocked(requests, cid, interval, from, to)
    ensures var m, last := Decays(cells, requests, cid, n), NumberAt(cells[n].lastDecay, cid);
            m > 0 ==> Fit(m, interval, (last - from) as real) && last <= to
  {
    if n > 0 {
      DecaysTakeTime(cells, requests, answers, cid, interval, from, to, n - 1);
      DecayStep(cells, requests, answers, cid, n);
      var r, m, last := requests[n - 1], Decays(cells, requests, cid, n - 1), NumberAt(cells[n - 1].lastDecay, cid);
      if r.cid == cid && Fires(cells[n - 1], r) {
        FitOneMore(m, interval, if m > 0 then (last - from) as real else 0.0, (r.now - from) as real);
      }
    }
  }
}

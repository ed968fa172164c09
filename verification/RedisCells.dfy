/** The Redis cells and the commands and scripts the program runs on them, one atomic step each. */
module RedisCells {
  import opened Common
  import opened KeyTransaction
  import opened Protocol
  import opened SelectScript

  class Redis {
    var idem: set<string>
    var locks: map<int, nat>
    var leases: map<nat, Lease>
    var usage: UsageTable
    var nextId: nat
    var cursor: map<int, int>
    var lastDecay: map<int, int>

    constructor ()
      ensures idem == {} && locks == map[] && leases == map[] && usage == map[] && nextId == 0
      ensures cursor == map[] && lastDecay == map[]
    {
      idem, locks, leases, usage, nextId, cursor, lastDecay := {}, map[], map[], map[], 0, map[], map[];
    }

    /** SET NX on the idempotency key. */
    method IdemSet(key: string, reply: Reply) returns (ok: bool, err: bool)
      modifies this`idem
      ensures idem == if reply.NotExecuted? then old(idem) else old(idem) + {key}
      ensures err == !reply.Delivered?
      ensures !err ==> ok == (key !in old(idem))
    {
      ok, err := false, !reply.Delivered?;
      if !reply.NotExecuted? {
        ok := key !in idem;
        idem := idem + {key};
      }
    }

    method IdemDel(key: string, reply: Reply)
      modifies this`idem
      ensures idem == if reply.NotExecuted? then old(idem) else old(idem) - {key}
    {
      if !reply.NotExecuted? {
        idem := idem - {key};
      }
    }

    method LeaseSet(id: nat, lease: Lease, reply: Reply) returns (err: bool)
      modifies this`leases
      ensures leases == if reply.NotExecuted? then old(leases) else old(leases)[id := lease]
      ensures err == !reply.Delivered?
    {
      err := !reply.Delivered?;
      if !reply.NotExecuted? {
        leases := leases[id := lease];
      }
    }

    /** SET of the estimate under a freshly drawn id. */
    method DrawAndLease(lease: Lease, reply: Reply) returns (err: bool)
      modifies this`leases, this`nextId
      ensures nextId == old(nextId) + 1
      ensures leases == if reply.NotExecuted? then old(leases) else old(leases)[old(nextId) := lease]
      ensures err == !reply.Delivered?
    {
      var id := nextId;
      nextId := nextId + 1;
      err := LeaseSet(id, lease, reply);
    }

    /** GET and DEL in one script. */
    method LeaseTake(id: nat, reply: Reply) returns (est: real, ok: bool, err: bool)
      modifies this`leases
      ensures leases == if reply.NotExecuted? then old(leases) else old(leases) - {id}
      ensures err == !reply.Delivered?
      ensures !err ==> ok == (id in old(leases)) && (ok ==> est == old(leases)[id].est)
    {
      est, ok, err := 0.0, false, !reply.Delivered?;
      if !reply.NotExecuted? && id in leases {
        est, ok := leases[id].est, true;
        leases := leases - {id};
      }
      assert id !in old(leases) ==> old(leases) - {id} == old(leases);
    }

    method UsageIncr(cid: int, idx: int, delta: real, reply: Reply) returns (err: bool)
      modifies this`usage
      ensures usage == if reply.NotExecuted? then old(usage) else old(usage)[(cid, idx) := Get(old(usage), (cid, idx)) + delta]
      ensures err == !reply.Delivered?
    {
      err := !reply.Delivered?;
      if !reply.NotExecuted? {
        usage := usage[(cid, idx) := Get(usage, (cid, idx)) + delta];
      }
    }

    /** SET NX with a fresh token; None both when the lock is busy and on an error. */
    method Lock(cid: int, reply: Reply) returns (token: Option<nat>)
      modifies this`locks, this`nextId
      ensures nextId == old(nextId) + 1
      ensures locks == if reply.NotExecuted? || cid in old(locks) then old(locks) else old(locks)[cid := old(nextId)]
      ensures token == if reply.Delivered? && cid !in old(locks) then Some(old(nextId)) else None
    {
      var drawn := nextId;
      nextId := nextId + 1;
      token := None;
      if !reply.NotExecuted? && cid !in locks {
        locks := locks[cid := drawn];
        if reply.Delivered? {
          token := Some(drawn);
        }
      }
    }

    /** Delete the lock only if it carries this token. */
    method Unlock(cid: int, token: nat, reply: Reply)
      modifies this`locks
      ensures locks == if !reply.NotExecuted? && cid in old(locks) && old(locks)[cid] == token then old(locks) - {cid} else old(locks)
    {
      if !reply.NotExecuted? && cid in locks && locks[cid] == token {
        locks := locks - {cid};
      }
    }

    // ----- the selection script -----

    function Cursor(cid: int): int
      reads this
    {
      if cid in cursor then cursor[cid] else 0
    }

    function LastDecay(cid: int): int
      reads this
    {
      if cid in lastDecay then lastDecay[cid] else 0
    }

    /**
     * draws are the random numbers of the call. With no candidate the answer is -1; otherwise
     * it is one of them, and only usage mode touches the counters.
     */
    method SelectKey(mode: string, cid: int, candidates: seq<int>, est: real, interval: real, factor: real,
                     now: int, jitter: real, draws: seq<real>)
      returns (idx: int, ghost at: nat)
      requires |draws| > |candidates|
      requires forall i :: 0 <= i < |draws| ==> 0.0 <= draws[i] < 1.0
      modifies this`cursor, this`usage, this`lastDecay
      ensures candidates == [] ==> idx == -1
      ensures candidates != [] ==> at < |candidates| && idx == candidates[at]
      ensures var decay := DueDecay(mode, interval, factor, old(LastDecay(cid)), now);
              && lastDecay == (if decay.Some? then old(lastDecay)[cid := now] else old(lastDecay))
              && (mode == "usage" && candidates != [] ==>
                    && FirstLeast(AfterDecay(old(usage), cid, decay), cid, candidates, draws, jitter, at)
                    && usage == Charge(old(usage), cid, idx, est, decay))
              && (mode != "usage" || candidates == [] ==> usage == AfterDecay(old(usage), cid, decay))
      ensures mode == "random" && candidates != [] ==> at as real <= draws[0] * |candidates| as real < (at + 1) as real
      ensures cursor == if Advances(mode) && candidates != [] then old(cursor)[cid := old(Cursor(cid)) + 1] else old(cursor)
      ensures candidates != [] && mode != "random" && mode != "usage" ==> at == Cursor(cid) % |candidates|
    {
      at := 0;
      var decay := DueDecay(mode, interval, factor, LastDecay(cid), now);
      if mode == "usage" && interval > 0.0 {
        var last := LastDecay(cid);
        if (now - last) as real > interval {
          DecayAll(cid, factor);
          lastDecay := lastDecay[cid := now];
        }
      }
      var n := |candidates|;
      if n == 0 {
        return -1, 0;
      }
      if mode == "peek" {
        var cur := Cursor(cid);
        idx, at := candidates[cur % n], cur % n;
      } else if mode == "random" {
        DrawInRange(draws[0], n);
        var pick := (draws[0] * n as real).Floor;
        idx, at := candidates[pick], pick;
      } else if mode == "usage" {
        var best := LeastUsed(cid, candidates, jitter, draws);
        idx, at := candidates[best], best;
        usage := usage[(cid, idx) := Get(usage, (cid, idx)) + est];
      } else {
        var cur := Cursor(cid) + 1;
        cursor := cursor[cid := cur];
        idx, at := candidates[cur % n], cur % n;
      }
    }

    /** Every counter of the channel is multiplied by factor, in whatever order the hash lists them. */
    method DecayAll(cid: int, factor: real)
      modifies this`usage
      ensures usage == Decay(old(usage), cid, factor)
    {
      var rest := set k | k in usage && k.0 == cid;
      while rest != {}
        invariant usage.Keys == old(usage).Keys
        invariant forall k :: k in rest ==> k in usage && k.0 == cid
        invariant forall k :: k in usage ==>
                    usage[k] == if k.0 == cid && k !in rest then Decay(old(usage), cid, factor)[k] else old(usage)[k]
        decreases rest
      {
        var k :| k in rest;
        usage := usage[k := usage[k] * factor];
        rest := rest - {k};
      }
      assert forall k :: k in usage ==> usage[k] == Decay(old(usage), cid, factor)[k];
    }

    /** The running minimum over the candidates; ties keep the earlier one. */
    method LeastUsed(cid: int, candidates: seq<int>, jitter: real, draws: seq<real>) returns (best: nat)
      requires 0 < |candidates| <= |draws|
      ensures FirstLeast(usage, cid, candidates, draws, jitter, best)
    {
      best := 0;
      var bestEff := EffectiveAt(usage, cid, candidates, draws, jitter, 0);
      for i := 1 to |candidates|
        invariant best < i
        invariant bestEff == EffectiveAt(usage, cid, candidates, draws, jitter, best)
        invariant forall k :: 0 <= k < i ==> bestEff <= EffectiveAt(usage, cid, candidates, draws, jitter, k)
        invariant forall k :: 0 <= k < best ==> bestEff < EffectiveAt(usage, cid, candidates, draws, jitter, k)
      {
        var eff := EffectiveAt(usage, cid, candidates, draws, jitter, i);
        if eff < bestEff {
          best, bestEff := i, eff;
        }
      }
    }
  }

  lemma DrawInRange(d: real, n: nat)
    requires 0.0 <= d < 1.0 && n > 0
    ensures 0 <= (d * n as real).Floor < n
  {
    assert d * n as real >= 0.0;
    assert (1.0 - d) * n as real > 0.0;
    assert (1.0 - d) * n as real == n as real - d * n as real;
  }
}

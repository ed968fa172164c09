/**
 * Report and SetKeyStatus as the program runs them: straight through, updating Redis, the
 * database and the counters in place. Each is proved to be an uninterrupted run of one
 * caller of the interleaving model, so what holds of all runs holds of it.
 */
module Manager {
  import opened Common
  import opened ChannelModel
  import opened KeyTransaction
  import opened SettingsModel
  import opened Protocol
  import opened RedisCells

  /** The fate of each remote call of one report, with the settings and clock it sees. */
  datatype Script = Script(idem: Env, load: Env, lease: Env, incr: Env, lock: Env, reread: Env, decide: Env, unlock: Env, rollback: Env)

  // ----- what one call does from start to end -----

  function CriticalRun(sh: Shared, r: ReportReq, idx: int, token: nat, s: Script): (Shared, Outcome) {
    var (sh1, read) := ReportReread(sh, r, false, idx, token, s.reread);
    var (sh2, done) := if read.RDecide? then ReportDecide(sh1, r, false, idx, token, read.ch, s.decide) else (sh1, read);
    (Unlock(sh2, r.channelId, token, s.unlock), done.out)
  }

  function LockedRun(sh: Shared, r: ReportReq, idx: int, s: Script): (Shared, Outcome) {
    var (sh', next) := ReportLock(sh, r, false, idx, s.lock);
    if next.RReread? then CriticalRun(sh', r, idx, next.token, s) else (sh', next.out)
  }

  /** Take the lease if there is one, then add actual - est; the error if a call failed. */
  function SettleRun(sh: Shared, r: ReportReq, idx: int, s: Script): (Shared, Option<ErrorKind>) {
    if r.usage.None? then (sh, None)
    else
      var actual := UsageValue(Metric(s.load.settings, r.channelId), r.usage.value);
      if r.leaseId.None? then AddRun(sh, r, idx, actual, None, s)
      else
        var (sh', next) := ReportLease(sh, r, false, idx, actual, s.lease);
        if next.RIncr? then AddRun(sh', r, idx, actual, next.taken, s) else (sh', Some(LeaseError))
  }

  function AddRun(sh: Shared, r: ReportReq, idx: int, actual: real, taken: Option<Lease>, s: Script): (Shared, Option<ErrorKind>) {
    var (sh', next) := ReportIncr(sh, r, false, idx, actual, taken, s.incr);
    (sh', if next.RLock? then None else Some(UsageError))
  }

  function HandleRun(sh: Shared, r: ReportReq, s: Script): (Shared, Outcome) {
    var (sh1, next) := ReportLoad(sh, r, false, s.load);
    if next.Done? then (sh1, next.out)
    else
      var idx := LocateKeyIndex(sh.db.channels[r.channelId], r.keyIndex, r.key).value;
      var (sh2, err) := SettleRun(sh1, r, idx, s);
      if err.Some? then (sh2, Failed(err.value)) else LockedRun(sh2, r, idx, s)
  }

  function ReportRun(sh: Shared, r: ReportReq, s: Script): (Shared, Outcome) {
    var (sh1, next) := ReportStart(sh, r, s.idem);
    if next.Done? then (sh1, next.out)
    else
      var (sh2, out) := HandleRun(sh1, r, s);
      (if next.held && out.Failed? then ReportRollback(sh2, r, out, s.rollback).0 else sh2, out)
  }

  function SetRun(sh: Shared, cid: int, idx: int, status: int, reason: string, s: Script): (Shared, Outcome) {
    var (sh1, next) := SetStart(sh, cid, idx, status, reason, s.lock);
    if next.Done? then (sh1, next.out)
    else
      var token := next.token;
      var (sh2, read) := SetReread(sh1, cid, idx, status, reason, token, s.reread);
      var (sh3, done) := if read.SApply? then SetApply(sh2, cid, idx, status, reason, token, s.decide) else (sh2, read);
      (Unlock(sh3, cid, token, s.unlock), done.out)
  }

  // ----- the program -----

  class Manager {
    const store: Store
    const redis: Redis
    var metrics: map<Action, nat>

    constructor (store: Store, redis: Redis)
      ensures this.store == store && this.redis == redis && metrics == map[]
    {
      this.store, this.redis, metrics := store, redis, map[];
    }

    function Snapshot(): Shared
      reads this, store, redis
    {
      Shared(store.Db(), redis.idem, redis.locks, redis.leases, redis.usage, redis.nextId, metrics)
    }

    /** One counter grows by one, every other keeps its value. */
    method CountAction(a: Action)
      modifies this`metrics
      ensures metrics.Keys == old(metrics).Keys + {a}
      ensures forall b :: Counter(metrics, b) == Counter(old(metrics), b) + if b == a then 1 else 0
    {
      metrics := metrics[a := (if a in metrics then metrics[a] else 0) + 1];
    }

    /** GetChannel: the row, or the error the callers map its failure to. */
    method GetChannel(cid: int, env: Env) returns (ch: Option<Channel>, err: ErrorKind)
      ensures ch.Some? <==> env.reply.Delivered? && cid in store.channels
      ensures ch.Some? ==> ch.value == store.channels[cid]
      ensures ch.None? ==> err == if env.reply.Delivered? then ChannelNotFound else Dependency
    {
      if !env.reply.Delivered? {
        return None, Dependency;
      }
      if cid !in store.channels {
        return None, ChannelNotFound;
      }
      return Some(store.channels[cid]), Dependency;
    }

    method Report(r: ReportReq, s: Script) returns (out: Outcome)
      modifies this`metrics, redis`idem, redis`locks, redis`leases, redis`usage, redis`nextId, store
      ensures (Snapshot(), out) == ReportRun(old(Snapshot()), r, s)
    {
      var idemHeld := false;
      if r.idemKey != "" {
        var ok, err := redis.IdemSet(r.idemKey, s.idem.reply);
        if err {
          return Failed(IdemError);
        }
        if !ok {
          CountAction(Duplicate);
          CountedIsBump(old(metrics), metrics, Duplicate);
          assert redis.idem == old(redis.idem);
          return Answer(Duplicate, 0);
        }
        idemHeld := true;
      }
      out := Handle(r, s);
      if idemHeld && out.Failed? {
        redis.IdemDel(r.idemKey, s.rollback.reply);
      }
    }

    method Handle(r: ReportReq, s: Script) returns (out: Outcome)
      modifies this`metrics, redis`idem, redis`locks, redis`leases, redis`usage, redis`nextId, store
      ensures (Snapshot(), out) == HandleRun(old(Snapshot()), r, s)
    {
      var ch, e := GetChannel(r.channelId, s.load);
      if ch.None? {
        return Failed(e);
      }
      if r.epoch != "" && r.epoch != ch.value.epoch {
        CountAction(StaleEpochIgnored);
        CountedIsBump(old(metrics), metrics, StaleEpochIgnored);
        return Answer(StaleEpochIgnored, ch.value.status);
      }
      var idx := Locate(ch.value, r.keyIndex, r.key);
      if idx.None? {
        return Failed(InvalidRequest);
      }
      if r.usage.Some? {
        var err := SettleUsage(r, idx.value, s);
        if err.Some? {
          return Failed(err.value);
        }
      }
      out := WithLock(r, idx.value, s);
    }

    /** The scan for the first key equal to the given one. */
    method Locate(ch: Channel, keyIndex: Option<int>, key: string) returns (at: Option<int>)
      ensures at == LocateKeyIndex(ch, keyIndex, key)
    {
      if keyIndex.Some? && keyIndex.value >= 0 {
        if keyIndex.value >= |ch.keys| {
          return None;
        }
        if key != "" && ch.keys[keyIndex.value] != key {
          return None;
        }
        return keyIndex;
      }
      if key != "" {
        for i := 0 to |ch.keys|
          invariant key !in ch.keys[..i]
        {
          if ch.keys[i] == key {
            FirstIndexUnique(ch.keys, key, i);
            return Some(i);
          }
        }
        assert ch.keys[..|ch.keys|] == ch.keys;
      }
      return None;
    }

    method SettleUsage(r: ReportReq, idx: int, s: Script) returns (err: Option<ErrorKind>)
      requires r.usage.Some?
      modifies redis`leases, redis`usage
      ensures (Snapshot(), err) == SettleRun(old(Snapshot()), r, idx, s)
    {
      var delta := UsageValue(Metric(s.load.settings, r.channelId), r.usage.value);
      if r.leaseId.Some? {
        var est, ok, failed := redis.LeaseTake(r.leaseId.value, s.lease.reply);
        if failed {
          return Some(LeaseError);
        }
        if ok {
          delta := delta - est;
        }
      }
      var failed := redis.UsageIncr(r.channelId, idx, delta, s.incr.reply);
      if failed {
        return Some(UsageError);
      }
      return None;
    }

    method WithLock(r: ReportReq, idx: int, s: Script) returns (out: Outcome)
      modifies this`metrics, redis`idem, redis`locks, redis`leases, redis`usage, redis`nextId, store
      ensures (Snapshot(), out) == LockedRun(old(Snapshot()), r, idx, s)
    {
      var token := redis.Lock(r.channelId, s.lock.reply);
      if token.None? {
        return Failed(LockFailed);
      }
      var ch, e := GetChannel(r.channelId, s.reread);
      if ch.None? {
        out := Failed(e);
      } else {
        out := Decide(r, idx, token.value, ch.value, s.decide);
      }
      redis.Unlock(r.channelId, token.value, s.unlock.reply);
    }

    /** Enable on success, disable on failure, if the settings say so. */
    method Decide(r: ReportReq, idx: int, ghost token: nat, ch: Channel, env: Env) returns (out: Outcome)
      modifies this`metrics, store
      ensures var (sh', pr) := ReportDecide(old(Snapshot()), r, false, idx, token, ch, env);
              Snapshot() == sh' && RUnlock(r, false, token, out) == pr
    {
      var prevStatus := KeyStatus(ch, idx);
      if !ch.info.isMultiKey {
        prevStatus := ch.status;
      }
      if r.success {
        out := Answer(NoAction, ch.status);
        if ShouldEnable(env.settings, prevStatus) {
          var ok, cs, dead := store.ApplyKeyStatus(r.channelId, idx, ENABLED, "", env.now, env.reply);
          if !ok {
            return Failed(ApplyError);
          }
          out := Answer(KeyEnabledAction, cs);
        }
        CountAction(out.action);
        CountedIsBump(old(metrics), metrics, out.action);
        return;
      }
      out := Answer(NoAction, ch.status);
      if ShouldDisable(env.settings, AutoBan(ch), r.statusCode, r.lowered) {
        var reason := Truncate(r.errorMessage);
        var ok, cs, allDead := store.ApplyKeyStatus(r.channelId, idx, AUTO_DISABLED, reason, env.now, env.reply);
        if !ok {
          return Failed(ApplyError);
        }
        if allDead {
          out := Answer(ChannelDisabled, cs);
        } else {
          out := Answer(KeyDisabled, cs);
        }
      }
      CountAction(out.action);
      CountedIsBump(old(metrics), metrics, out.action);
    }

    method SetKeyStatus(cid: int, idx: int, status: int, reason: string, s: Script) returns (out: Outcome)
      modifies this`metrics, redis`idem, redis`locks, redis`leases, redis`usage, redis`nextId, store
      ensures (Snapshot(), out) == SetRun(old(Snapshot()), cid, idx, status, reason, s)
    {
      if (status != ENABLED && status != MANUALLY_DISABLED) || idx < 0 {
        return Failed(InvalidRequest);
      }
      var token := redis.Lock(cid, s.lock.reply);
      if token.None? {
        return Failed(LockFailed);
      }
      var ch, e := GetChannel(cid, s.reread);
      if ch.None? {
        out := Failed(e);
      } else {
        out := Change(cid, idx, status, reason, token.value, ch.value, s.decide);
      }
      redis.Unlock(cid, token.value, s.unlock.reply);
    }

    method Change(cid: int, idx: int, status: int, reason: string, ghost token: nat, ch: Channel, env: Env) returns (out: Outcome)
      modifies this`metrics, store
      ensures var (sh', pr) := if LocateKeyIndex(ch, Some(idx), "").None? then (old(Snapshot()), SUnlock(cid, token, Failed(InvalidRequest)))
                               else SetApply(old(Snapshot()), cid, idx, status, reason, token, env);
              Snapshot() == sh' && SUnlock(cid, token, out) == pr
    {
      var at := Locate(ch, Some(idx), "");
      if at.None? {
        return Failed(InvalidRequest);
      }
      var ok, cs, allDead := store.ApplyKeyStatus(cid, idx, status, Truncate(reason), env.now, env.reply);
      if !ok {
        return Failed(ApplyError);
      }
      var action := KeyDisabled;
      if status != ENABLED && allDead {
        action := ChannelDisabled;
      }
      if status == ENABLED {
        action := KeyEnabledAction;
      }
      CountAction(action);
      CountedIsBump(old(metrics), metrics, action);
      out := Answer(action, cs);
    }
  }

  /** Counters that agree everywhere are the same map. */
  lemma CountedIsBump(before: map<Action, nat>, after: map<Action, nat>, a: Action)
    requires after.Keys == before.Keys + {a}
    requires forall b :: Counter(after, b) == Counter(before, b) + if b == a then 1 else 0
    ensures after == Bump(before, a)
  {
    var bumped := Bump(before, a);
    forall b | b in after
      ensures b in bumped && after[b] == bumped[b]
    {
      assert Counter(after, b) == after[b] && b in before.Keys + {a};
    }
  }

  lemma FirstIndexUnique(keys: seq<string>, key: string, i: nat)
    requires i < |keys| && keys[i] == key && key !in keys[..i]
    ensures FirstIndex(keys, key) == Some(i)
  {
    var f := FirstIndex(keys, key);
    assert f.Some?;
    assert forall j, n :: 0 <= j < n <= |keys| ==> keys[..n][j] == keys[j] && keys[j] in keys[..n];
  }
}

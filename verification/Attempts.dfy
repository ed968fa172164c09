/**
 * What one attempt at a report leaves behind, whatever the fate of its remote calls: its
 * idempotency key and its usage, and so exactly when a retry is let in and settles again.
 */
module Attempts {
  import opened Common
  import opened ChannelModel
  import opened KeyTransaction
  import opened Protocol
  import opened Manager

  // ----- the part under the lock -----

  /** Nothing but the database, the locks, the ids and the counters; key columns stay. */
  ghost predicate OnlyLocked(sh: Shared, sh': Shared, cid: int) {
    && sh'.idem == sh.idem && sh'.usage == sh.usage && sh'.leases == sh.leases
    && (cid in sh.db.channels ==>
          && cid in sh'.db.channels
          && sh'.db.channels[cid].keys == sh.db.channels[cid].keys
          && sh'.db.channels[cid].epoch == sh.db.channels[cid].epoch)
  }

  lemma TransactOnlyLocked(sh: Shared, cid: int, idx: int, status: int, reason: string, env: Env)
    ensures OnlyLocked(sh, Transact(sh, cid, idx, status, reason, env).0, cid)
  {
    if Apply(sh.db, cid, idx, status, reason, env.now).Applied? {
      ApplyFrame(sh.db, cid, idx, status, reason, env.now);
    }
  }

  lemma DecideOnlyLocked(sh: Shared, r: ReportReq, idx: int, token: nat, ch: Channel, env: Env)
    ensures OnlyLocked(sh, ReportDecide(sh, r, false, idx, token, ch, env).0, r.channelId)
  {
    var d := Decision(r, idx, ch, env.settings);
    if d.Some? {
      var (status, reason) := d.value;
      TransactOnlyLocked(sh, r.channelId, idx, status, reason, env);
    }
  }

  lemma LockedOnlyLocked(sh: Shared, r: ReportReq, idx: int, s: Script)
    ensures OnlyLocked(sh, LockedRun(sh, r, idx, s).0, r.channelId)
  {
    var (sh', token) := TryLock(sh, r.channelId, s.lock);
    var (ch, e) := Load(sh', r.channelId, s.reread);
    if token.Some? && ch.Some? {
      DecideOnlyLocked(sh', r, idx, token.value, ch.value, s.decide);
    }
  }

  /** Why the part under the lock fails: no lock, no row, or a write that is not carried out or not answered. */
  predicate LockedFails(sh: Shared, r: ReportReq, idx: int, s: Script)
    requires r.channelId in sh.db.channels
  {
    var ch := sh.db.channels[r.channelId];
    || !s.lock.reply.Delivered? || r.channelId in sh.locks
    || !s.reread.reply.Delivered?
    || (Decision(r, idx, ch, s.decide.settings).Some?
        && (!s.decide.reply.Delivered? || (!ch.info.isMultiKey && idx != 0)))
  }

  lemma LockedFailsIff(sh: Shared, r: ReportReq, idx: int, s: Script)
    requires r.channelId in sh.db.channels && 0 <= idx < |sh.db.channels[r.channelId].keys|
    ensures LockedRun(sh, r, idx, s).1.Failed? <==> LockedFails(sh, r, idx, s)
  {
    var (sh', token) := TryLock(sh, r.channelId, s.lock);
    if token.Some? && s.reread.reply.Delivered? {
      CriticalFailsIff(sh', r, idx, token.value, s);
    }
  }

  lemma CriticalFailsIff(sh: Shared, r: ReportReq, idx: int, token: nat, s: Script)
    requires r.channelId in sh.db.channels && 0 <= idx < |sh.db.channels[r.channelId].keys| && s.reread.reply.Delivered?
    ensures var ch := sh.db.channels[r.channelId];
            CriticalRun(sh, r, idx, token, s).1.Failed?
            <==> Decision(r, idx, ch, s.decide.settings).Some? && (!s.decide.reply.Delivered? || (!ch.info.isMultiKey && idx != 0))
  {
  }

  // ----- usage -----

  /** The key a report addresses, if it gets that far. */
  function Target(sh: Shared, r: ReportReq, s: Script): (i: Option<int>)
    ensures i.Some? ==> r.channelId in sh.db.channels && 0 <= i.value < |sh.db.channels[r.channelId].keys|
  {
    if !s.load.reply.Delivered? || r.channelId !in sh.db.channels then None
    else
      var ch := sh.db.channels[r.channelId];
      if r.epoch != "" && r.epoch != ch.epoch then None else LocateKeyIndex(ch, r.keyIndex, r.key)
  }

  /** The attempt, once past the idempotency check, carries out its settlement. */
  predicate Settles(sh: Shared, r: ReportReq, s: Script) {
    && Target(sh, r, s).Some? && r.usage.Some?
    && (r.leaseId.Some? ==> s.lease.reply.Delivered?)
    && !s.incr.reply.NotExecuted?
  }

  function Actual(r: ReportReq, s: Script): real
    requires r.usage.Some?
  {
    UsageValue(Metric(s.load.settings, r.channelId), r.usage.value)
  }

  function LeasedEst(sh: Shared, r: ReportReq): real {
    if r.leaseId.Some? && r.leaseId.value in sh.leases then sh.leases[r.leaseId.value].est else 0.0
  }

  lemma HandleUsage(sh: Shared, r: ReportReq, s: Script)
    ensures HandleRun(sh, r, s).0.idem == sh.idem
    ensures HandleRun(sh, r, s).0.usage
            == if Settles(sh, r, s) then Settle(sh, r.channelId, Target(sh, r, s).value, Actual(r, s) - LeasedEst(sh, r)).usage
               else sh.usage
    ensures r.channelId in sh.db.channels ==>
              && r.channelId in HandleRun(sh, r, s).0.db.channels
              && HandleRun(sh, r, s).0.db.channels[r.channelId].keys == sh.db.channels[r.channelId].keys
              && HandleRun(sh, r, s).0.db.channels[r.channelId].epoch == sh.db.channels[r.channelId].epoch
    ensures Settles(sh, r, s) && r.leaseId.Some? ==> r.leaseId.value !in HandleRun(sh, r, s).0.leases
  {
    var at := Target(sh, r, s);
    if at.Some? {
      SettleUsageEffect(sh, r, at.value, s);
      var (sh', err) := SettleRun(sh, r, at.value, s);
      if err.None? {
        LockedOnlyLocked(sh', r, at.value, s);
      }
    }
  }

  lemma SettleUsageEffect(sh: Shared, r: ReportReq, idx: int, s: Script)
    ensures var (sh', err) := SettleRun(sh, r, idx, s);
            && sh'.idem == sh.idem && sh'.db == sh.db && sh'.locks == sh.locks
            && sh'.usage == (if r.usage.Some? && (r.leaseId.Some? ==> s.lease.reply.Delivered?) && !s.incr.reply.NotExecuted?
                             then Settle(sh, r.channelId, idx, Actual(r, s) - LeasedEst(sh, r)).usage else sh.usage)
            && (err.Some? <==> r.usage.Some? && !((r.leaseId.Some? ==> s.lease.reply.Delivered?) && s.incr.reply.Delivered?))
            && (r.usage.Some? && r.leaseId.Some? && s.lease.reply.Delivered? ==> r.leaseId.value !in sh'.leases)
  {
    if r.usage.Some? && r.leaseId.Some? {
      LeasedEffect(sh, r, idx, s);
    } else if r.usage.Some? {
      AddEffect(sh, r, idx, Actual(r, s), None, s);
    }
  }

  lemma LeasedEffect(sh: Shared, r: ReportReq, idx: int, s: Script)
    requires r.usage.Some? && r.leaseId.Some?
    ensures var (sh', err) := SettleRun(sh, r, idx, s);
            && sh'.idem == sh.idem && sh'.db == sh.db && sh'.locks == sh.locks
            && sh'.usage == (if s.lease.reply.Delivered? && !s.incr.reply.NotExecuted?
                             then Settle(sh, r.channelId, idx, Actual(r, s) - LeasedEst(sh, r)).usage else sh.usage)
            && (err.None? <==> s.lease.reply.Delivered? && s.incr.reply.Delivered?)
            && (s.lease.reply.Delivered? ==> r.leaseId.value !in sh'.leases)
  {
    var id := r.leaseId.value;
    AddEffect(sh.(leases := sh.leases - {id}), r, idx, Actual(r, s), if id in sh.leases then Some(sh.leases[id]) else None, s);
  }

  lemma AddEffect(sh: Shared, r: ReportReq, idx: int, actual: real, taken: Option<Lease>, s: Script)
    ensures var (sh', err) := AddRun(sh, r, idx, actual, taken, s);
            && sh' == (if s.incr.reply.NotExecuted? then sh else Settle(sh, r.channelId, idx, actual - TakenEst(taken)))
            && (err.Some? <==> !s.incr.reply.Delivered?)
  {
  }

  /** An attempt is let in unless its key was set before, or setting it does not succeed. */
  predicate LetIn(sh: Shared, r: ReportReq, s: Script) {
    r.idemKey == "" || (s.idem.reply.Delivered? && r.idemKey !in sh.idem)
  }

  /** Holding the key makes no difference to the usage. */
  lemma UsageUnderKey(sh: Shared, r: ReportReq, s: Script)
    ensures var sh' := sh.(idem := sh.idem + {r.idemKey});
            && (Settles(sh', r, s) <==> Settles(sh, r, s)) && Target(sh', r, s) == Target(sh, r, s)
            && HandleRun(sh', r, s).0.usage
               == if Settles(sh, r, s) then Settle(sh, r.channelId, Target(sh, r, s).value, Actual(r, s) - LeasedEst(sh, r)).usage
                  else sh.usage
  {
    HandleUsage(sh.(idem := sh.idem + {r.idemKey}), r, s);
  }

  /**
   * The counters after one attempt at a report, for every state and every fate of its calls:
   * actual less the leased estimate is added at the addressed key if and only if the attempt
   * is let in, addresses a key, carries usage and the increment is carried out; nothing else
   * moves. Whether the attempt succeeds plays no part.
   */
  lemma UsageAfterAttempt(sh: Shared, r: ReportReq, s: Script)
    ensures ReportRun(sh, r, s).0.usage
            == if LetIn(sh, r, s) && Settles(sh, r, s)
               then Settle(sh, r.channelId, Target(sh, r, s).value, Actual(r, s) - LeasedEst(sh, r)).usage
               else sh.usage
  {
    HandleUsage(sh, r, s);
    if r.idemKey != "" {
      UsageUnderKey(sh, r, s);
    }
  }

  // ----- the idempotency key -----

  /**
   * Exactly when a failed attempt keeps its key: it was set with the reply lost, so that the
   * program does not know, or it was set and the rollback was not carried out.
   */
  lemma KeyAfterFailure(sh: Shared, r: ReportReq, s: Script)
    requires r.idemKey != "" && r.idemKey !in sh.idem && ReportRun(sh, r, s).1.Failed?
    ensures r.idemKey in ReportRun(sh, r, s).0.idem
            <==> s.idem.reply.Lost? || (s.idem.reply.Delivered? && s.rollback.reply.NotExecuted?)
  {
    HandleUsage(sh.(idem := sh.idem + {r.idemKey}), r, s);
  }

  /** A key set with the reply lost: the attempt fails, and its retry is answered `duplicate` although nothing was accepted. */
  lemma LostSetBlocksRetry(sh: Shared, r: ReportReq, first: Script, second: Script)
    requires r.idemKey != "" && r.idemKey !in sh.idem && first.idem.reply.Lost? && second.idem.reply.Delivered?
    ensures var (once, out) := ReportRun(sh, r, first);
            && out == Failed(IdemError)
            && ReportRun(once, r, second).1 == Answer(Duplicate, 0)
            && once == sh.(idem := sh.idem + {r.idemKey})
  {
  }

  // ----- settled once per key? -----

  /** A settled attempt fails all the same. */
  predicate FailsAfterSettling(sh: Shared, r: ReportReq, s: Script)
    requires Settles(sh, r, s)
  {
    !s.incr.reply.Delivered? || LockedFails(sh, r, Target(sh, r, s).value, s)
  }

  lemma SettledFailsIff(sh: Shared, r: ReportReq, s: Script)
    requires Settles(sh, r, s)
    ensures HandleRun(sh, r, s).1.Failed? <==> FailsAfterSettling(sh, r, s)
  {
    var idx := Target(sh, r, s).value;
    SettleUsageEffect(sh, r, idx, s);
    var (sh', err) := SettleRun(sh, r, idx, s);
    if err.None? {
      LockedFailsIff(sh', r, idx, s);
    }
  }

  /**
   * Exactly when usage is counted twice under one idempotency key. After a settled attempt, a
   * retry settles as well if and only if the attempt failed, its rollback was carried out, and
   * the retry's own calls up to the increment are. The retry then adds the whole actual usage
   * at the same key, since the lease is gone.
   */
  lemma RetrySettlesAgainIff(sh: Shared, r: ReportReq, first: Script, second: Script)
    requires r.idemKey != "" && LetIn(sh, r, first) && Settles(sh, r, first)
    ensures var once := ReportRun(sh, r, first).0;
            && (LetIn(once, r, second) && Settles(once, r, second)
                <==> && FailsAfterSettling(sh, r, first) && !first.rollback.reply.NotExecuted?
                     && second.idem.reply.Delivered? && second.load.reply.Delivered?
                     && (r.leaseId.Some? ==> second.lease.reply.Delivered?) && !second.incr.reply.NotExecuted?)
            && (second.load.reply.Delivered? ==> Target(once, r, second) == Target(sh, r, first))
            && LeasedEst(once, r) == 0.0
  {
    var sh' := sh.(idem := sh.idem + {r.idemKey});
    HandleUsage(sh', r, first);
    SettledFailsIff(sh', r, first);
  }

  /** The sum of the two: both attempts together have added both actuals, less the estimate once. */
  lemma TwiceSettled(sh: Shared, r: ReportReq, first: Script, second: Script)
    requires r.idemKey != "" && LetIn(sh, r, first) && Settles(sh, r, first)
    ensures var k := (r.channelId, Target(sh, r, first).value);
            var once := ReportRun(sh, r, first).0;
            var twice := ReportRun(once, r, second).0;
            Get(twice.usage, k) == Get(sh.usage, k) + Actual(r, first) - LeasedEst(sh, r)
                                   + if LetIn(once, r, second) && Settles(once, r, second) then Actual(r, second) else 0.0
  {
    UsageAfterAttempt(sh, r, first);
    UsageAfterAttempt(ReportRun(sh, r, first).0, r, second);
    RetrySettlesAgainIff(sh, r, first, second);
  }
}

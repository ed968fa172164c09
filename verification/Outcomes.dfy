/**
 * What a report and a manual change come to, read off the request, the stored row, the settings
 * and the fates of the remote calls, in one place.
 */
module Outcomes {
  import opened Common
  import opened ChannelModel
  import opened KeyTransaction
  import opened SettingsModel
  import opened Protocol
  import opened Manager
  import Attempts

  // ----- what the settings say -----

  /** 1 is on, 2 off by hand, 3 off by a report. A key without an entry is on. */
  function StatusIn(ch: Channel, i: int): int {
    if !ch.info.isMultiKey then ch.status
    else if i in ch.info.statusList then ch.info.statusList[i]
    else 1
  }

  ghost predicate WordAt(words: seq<string>, lowered: string, w: string, i: int) {
    w in words && w != "" && 0 <= i <= |lowered| - |w| && lowered[i..i + |w|] == w
  }

  /** Some range holds the code, or some non-empty keyword occurs in the lowered message. */
  ghost predicate Hits(st: Settings, code: int, lowered: string) {
    || (exists r :: r in st.disableCodeRanges && r.start <= code <= r.end)
    || (exists w, i :: WordAt(st.disableKeywords, lowered, w, i))
  }

  /** The status a report is to write, if any. */
  ghost function DueStatus(r: ReportReq, idx: int, ch: Channel, st: Option<Settings>): Option<int> {
    if st.None? then None
    else if r.success then
      if st.value.autoEnableOn && StatusIn(ch, idx) == 3 then Some(1) else None
    else
      if st.value.autoDisableOn && (ch.autoBan == None || ch.autoBan == Some(1)) && Hits(st.value, r.statusCode, r.lowered) then Some(3)
      else None
  }

  lemma KeywordIff(st: Settings, lowered: string)
    ensures (exists w, i :: WordAt(st.disableKeywords, lowered, w, i))
            <==> exists k :: 0 <= k < |st.disableKeywords| && st.disableKeywords[k] != "" && Contains(lowered, st.disableKeywords[k])
  {
    if w, i :| WordAt(st.disableKeywords, lowered, w, i) {
      var k :| 0 <= k < |st.disableKeywords| && st.disableKeywords[k] == w;
      assert OccursAt(lowered, w, i);
    }
    if k :| 0 <= k < |st.disableKeywords| && st.disableKeywords[k] != "" && Contains(lowered, st.disableKeywords[k]) {
      var i :| 0 <= i <= |lowered| && OccursAt(lowered, st.disableKeywords[k], i);
      assert WordAt(st.disableKeywords, lowered, st.disableKeywords[k], i);
    }
  }

  /** The reason kept with a key: the first 256 characters of what was given. */
  function Shortened(reason: string): string { reason[..Min(|reason|, 256)] }

  lemma TruncateShortens(reason: string)
    ensures Truncate(reason) == Shortened(reason)
  {
    assert reason[..|reason|] == reason;
  }

  lemma DecisionIsDue(r: ReportReq, idx: int, ch: Channel, st: Option<Settings>)
    ensures var due := DueStatus(r, idx, ch, st);
            Decision(r, idx, ch, st) == if due.None? then None else Some((due.value, if r.success then "" else Shortened(r.errorMessage)))
  {
    TruncateShortens(r.errorMessage);
    if st.Some? {
      KeywordIff(st.value, r.lowered);
    }
  }

  // ----- a carried-out write -----

  predicate Accepts(ch: Channel, idx: int) {
    if ch.info.isMultiKey then 0 <= idx < |ch.keys| else idx == 0
  }

  ghost predicate NoneOn(ch: Channel) {
    forall i :: 0 <= i < |ch.keys| ==> StatusIn(ch, i) != 1
  }

  /** The reason and the time kept with a key. */
  function Note(ch: Channel, i: int): (Option<string>, Option<int>) {
    (if i in ch.info.disabledReason then Some(ch.info.disabledReason[i]) else None,
     if i in ch.info.disabledTime then Some(ch.info.disabledTime[i]) else None)
  }

  function Noted(other: map<string, InfoValue>, reason: string, now: int): map<string, InfoValue> {
    other["status_reason" := Text(reason)]["status_time" := Number(now)]
  }

  /** The row after a write of the status to key idx: that key and no other has it, with the reason and the time. */
  ghost predicate Wrote(ch: Channel, ch': Channel, idx: int, status: int, reason: string, now: int) {
    && ch'.keys == ch.keys && ch'.info.isMultiKey == ch.info.isMultiKey
    && StatusIn(ch', idx) == status
    && if ch.info.isMultiKey then
         && (forall i :: i != idx ==> StatusIn(ch', i) == StatusIn(ch, i))
         && Note(ch', idx) == (if status == 1 then (None, None) else (Some(reason), Some(now)))
         && ch'.status == (if NoneOn(ch') then 3 else if status == 1 then 1 else ch.status)
         && ch'.otherInfo == if NoneOn(ch') then Noted(ch.otherInfo, "All keys are disabled", now) else ch.otherInfo
       else
         ch'.otherInfo == if status == 1 then ch.otherInfo else Noted(ch.otherInfo, reason, now)
  }

  /** The database after such a write: the row, its ability rows, and nothing else. */
  ghost predicate WroteOnly(db: Database, db': Database, cid: int, idx: int, status: int, reason: string, now: int)
    requires cid in db.channels && cid in db'.channels
  {
    var ch, ch' := db.channels[cid], db'.channels[cid];
    var dead := if ch.info.isMultiKey then NoneOn(ch') else status != 1;
    && Wrote(ch, ch', idx, status, reason, now)
    && db'.channels == db.channels[cid := ch']
    && db'.abilities.Keys == db.abilities.Keys
    && forall a :: a in db.abilities ==>
         db'.abilities[a] == if a.channelId != cid then db.abilities[a]
                             else if dead then false
                             else if status == 1 then true
                             else db.abilities[a]
  }

  lemma WriteLeaves(db: Database, cid: int, idx: int, status: int, reason: string, now: int)
    requires cid in db.channels
    ensures var res := Apply(db, cid, idx, status, reason, now);
            && (res.Applied? <==> Accepts(db.channels[cid], idx))
            && (res.Applied? ==>
                  && cid in res.db.channels
                  && WroteOnly(db, res.db, cid, idx, status, reason, now)
                  && res.channelStatus == res.db.channels[cid].status
                  && (status != 1 ==> res.allDead == NoneOn(res.db.channels[cid])))
  {
    var res := Apply(db, cid, idx, status, reason, now);
    if res.Applied? {
      NoneOnIff(res.db.channels[cid]);
      MergeNotes(db.channels[cid].otherInfo, reason, now);
      MergeNotes(db.channels[cid].otherInfo, ALL_KEYS_DISABLED, now);
    }
  }

  lemma MergeNotes(other: map<string, InfoValue>, reason: string, now: int)
    ensures Merge(other, reason, now) == Noted(other, reason, now)
  {
  }

  lemma NoneOnIff(ch: Channel)
    ensures ch.info.isMultiKey ==> (NoneOn(ch) <==> !SomeKeyEnabled(ch))
  {
    forall i
      ensures ch.info.isMultiKey && 0 <= i < |ch.keys| ==> (StatusIn(ch, i) != 1 <==> !EnabledAt(|ch.keys|, ch.info.statusList, i))
    {
    }
  }

  // ----- the outcome of a report -----

  /** The answer of a report that does not get as far as deciding. */
  function EarlyAnswer(sh: Shared, r: ReportReq, s: Script): (o: Option<Outcome>)
    ensures o.None? ==> r.channelId in sh.db.channels && LocateKeyIndex(sh.db.channels[r.channelId], r.keyIndex, r.key).Some?
  {
    if r.idemKey != "" && !s.idem.reply.Delivered? then Some(Failed(IdemError))
    else if r.idemKey != "" && r.idemKey in sh.idem then Some(Answer(Duplicate, 0))
    else if !s.load.reply.Delivered? then Some(Failed(Dependency))
    else if r.channelId !in sh.db.channels then Some(Failed(ChannelNotFound))
    else
      var ch := sh.db.channels[r.channelId];
      if r.epoch != "" && r.epoch != ch.epoch then Some(Answer(StaleEpochIgnored, ch.status))
      else if LocateKeyIndex(ch, r.keyIndex, r.key).None? then Some(Failed(InvalidRequest))
      else if r.usage.Some? && r.leaseId.Some? && !s.lease.reply.Delivered? then Some(Failed(LeaseError))
      else if r.usage.Some? && !s.incr.reply.Delivered? then Some(Failed(UsageError))
      else if !s.lock.reply.Delivered? || r.channelId in sh.locks then Some(Failed(LockFailed))
      else if !s.reread.reply.Delivered? then Some(Failed(Dependency))
      else None
  }

  /** What a report that gets to decide writes and answers. */
  ghost predicate Decided(db: Database, db': Database, r: ReportReq, idx: int, env: Env, out: Outcome)
    requires r.channelId in db.channels
  {
    var cid, ch := r.channelId, db.channels[r.channelId];
    var due := DueStatus(r, idx, ch, env.settings);
    var writes := due.Some? && Accepts(ch, idx);
    && cid in db'.channels
    && (if writes && !env.reply.NotExecuted? then
          WroteOnly(db, db', cid, idx, due.value, if r.success then "" else Shortened(r.errorMessage), env.now)
        else db' == db)
    && out == if due.None? then Answer(NoAction, ch.status)
              else if !writes || !env.reply.Delivered? then Failed(ApplyError)
              else
                var dead := NoneOn(db'.channels[cid]);
                Answer(if r.success then KeyEnabledAction else if dead then ChannelDisabled else KeyDisabled, db'.channels[cid].status)
  }

  /** The transaction as its caller sees it. */
  lemma TransactLeaves(sh: Shared, cid: int, idx: int, status: int, reason: string, env: Env)
    requires cid in sh.db.channels
    ensures var (sh', res) := Transact(sh, cid, idx, status, reason, env);
            && cid in sh'.db.channels
            && (if Accepts(sh.db.channels[cid], idx) && !env.reply.NotExecuted? then WroteOnly(sh.db, sh'.db, cid, idx, status, reason, env.now)
                else sh'.db == sh.db)
            && (res.Applied? <==> Accepts(sh.db.channels[cid], idx) && env.reply.Delivered?)
            && (res.Applied? ==> res.channelStatus == sh'.db.channels[cid].status
                                 && (status != 1 ==> res.allDead == NoneOn(sh'.db.channels[cid])))
  {
    WriteLeaves(sh.db, cid, idx, status, reason, env.now);
  }

  lemma SuccessDecides(sh: Shared, r: ReportReq, idx: int, token: nat, env: Env)
    requires r.channelId in sh.db.channels && r.success
    ensures var (sh', pr) := ReportDecide(sh, r, false, idx, token, sh.db.channels[r.channelId], env);
            pr.RUnlock? && Decided(sh.db, sh'.db, r, idx, env, pr.out)
  {
    DecisionIsDue(r, idx, sh.db.channels[r.channelId], env.settings);
    TransactLeaves(sh, r.channelId, idx, 1, "", env);
  }

  lemma FailureDecides(sh: Shared, r: ReportReq, idx: int, token: nat, env: Env)
    requires r.channelId in sh.db.channels && !r.success
    ensures var (sh', pr) := ReportDecide(sh, r, false, idx, token, sh.db.channels[r.channelId], env);
            pr.RUnlock? && Decided(sh.db, sh'.db, r, idx, env, pr.out)
  {
    DecisionIsDue(r, idx, sh.db.channels[r.channelId], env.settings);
    TransactLeaves(sh, r.channelId, idx, 3, Shortened(r.errorMessage), env);
  }

  lemma LockedDecides(sh: Shared, r: ReportReq, idx: int, s: Script)
    requires r.channelId in sh.db.channels
    ensures var (sh', out) := LockedRun(sh, r, idx, s);
            if !s.lock.reply.Delivered? || r.channelId in sh.locks then out == Failed(LockFailed) && sh'.db == sh.db
            else if !s.reread.reply.Delivered? then out == Failed(Dependency) && sh'.db == sh.db
            else Decided(sh.db, sh'.db, r, idx, s.decide, out)
  {
    var (sh', token) := TryLock(sh, r.channelId, s.lock);
    if token.Some? {
      if r.success {
        SuccessDecides(sh', r, idx, token.value, s.decide);
      } else {
        FailureDecides(sh', r, idx, token.value, s.decide);
      }
    }
  }

  lemma SettleAnswers(sh: Shared, r: ReportReq, idx: int, s: Script)
    ensures var (sh', err) := SettleRun(sh, r, idx, s);
            && sh'.db == sh.db && sh'.locks == sh.locks && sh'.nextId == sh.nextId
            && err == if r.usage.Some? && r.leaseId.Some? && !s.lease.reply.Delivered? then Some(LeaseError)
                      else if r.usage.Some? && !s.incr.reply.Delivered? then Some(UsageError)
                      else None
  {
  }

  /** The outcome and the database that belong together. */
  ghost predicate Comes(sh: Shared, r: ReportReq, s: Script, early: Option<Outcome>, sh': Shared, out: Outcome)
    requires early.None? ==> r.channelId in sh.db.channels && LocateKeyIndex(sh.db.channels[r.channelId], r.keyIndex, r.key).Some?
  {
    if early.Some? then out == early.value && sh'.db == sh.db
    else
      var idx := LocateKeyIndex(sh.db.channels[r.channelId], r.keyIndex, r.key).value;
      Decided(sh.db, sh'.db, r, idx, s.decide, out)
  }

  lemma HandleComes(sh: Shared, r: ReportReq, s: Script)
    ensures var early := EarlyAnswer(sh.(idem := {}), r.(idemKey := ""), s);
            Comes(sh, r, s, early, HandleRun(sh, r, s).0, HandleRun(sh, r, s).1)
  {
    if s.load.reply.Delivered? && r.channelId in sh.db.channels {
      var ch := sh.db.channels[r.channelId];
      var at := LocateKeyIndex(ch, r.keyIndex, r.key);
      if at.Some? && (r.epoch == "" || r.epoch == ch.epoch) {
        SettleAnswers(sh, r, at.value, s);
        LockedDecides(SettleRun(sh, r, at.value, s).0, r, at.value, s);
      }
    }
  }

  lemma KeyedComes(sh: Shared, r: ReportReq, s: Script)
    requires r.idemKey != "" && s.idem.reply.Delivered? && r.idemKey !in sh.idem
    ensures Comes(sh, r, s, EarlyAnswer(sh, r, s), ReportRun(sh, r, s).0, ReportRun(sh, r, s).1)
  {
    var sh1 := sh.(idem := sh.idem + {r.idemKey});
    HandleComes(sh1, r, s);
    var (sh2, out) := HandleRun(sh1, r, s);
    assert ReportRun(sh, r, s).0.db == sh2.db && ReportRun(sh, r, s).1 == out;
    assert EarlyAnswer(sh1.(idem := {}), r.(idemKey := ""), s) == EarlyAnswer(sh, r, s);
  }

  /**
   * A report from start to end, for every state and every fate of its calls: the one answer it
   * gives, and what it leaves in the database. A key is switched off exactly when the switch is
   * on, the channel does not opt out, and the code lies in a range or a keyword occurs in the
   * message; it is switched on exactly when the switch is on and a report had switched it off.
   */
  lemma ReportOutcome(sh: Shared, r: ReportReq, s: Script)
    ensures Comes(sh, r, s, EarlyAnswer(sh, r, s), ReportRun(sh, r, s).0, ReportRun(sh, r, s).1)
  {
    if r.idemKey == "" {
      HandleComes(sh, r, s);
    } else if s.idem.reply.Delivered? && r.idemKey !in sh.idem {
      KeyedComes(sh, r, s);
    }
  }

  /** The status of the key a report addresses, once its write is not lost on the way. */
  lemma ReportStatus(sh: Shared, r: ReportReq, s: Script)
    requires EarlyAnswer(sh, r, s).None? && !s.decide.reply.NotExecuted?
    ensures var ch := sh.db.channels[r.channelId];
            var idx := LocateKeyIndex(ch, r.keyIndex, r.key).value;
            var st := s.decide.settings;
            var listens := st.Some? && st.value.autoDisableOn && (ch.autoBan == None || ch.autoBan == Some(1));
            var inRange := st.Some? && exists c :: c in st.value.disableCodeRanges && c.start <= r.statusCode <= c.end;
            var named := st.Some? && exists w, i :: WordAt(st.value.disableKeywords, r.lowered, w, i);
            var db' := ReportRun(sh, r, s).0.db;
            && r.channelId in db'.channels
            && (Accepts(ch, idx) ==>
                  StatusIn(db'.channels[r.channelId], idx)
                  == if !r.success && listens && (inRange || named) then 3
                     else if r.success && st.Some? && st.value.autoEnableOn && StatusIn(ch, idx) == 3 then 1
                     else StatusIn(ch, idx))
  {
    ReportOutcome(sh, r, s);
  }

  // ----- the cells a report leaves -----

  /** The report gets past its idempotency key and finds its key. */
  predicate FindsKey(sh: Shared, r: ReportReq, s: Script) {
    && (r.idemKey == "" || (s.idem.reply.Delivered? && r.idemKey !in sh.idem))
    && s.load.reply.Delivered? && r.channelId in sh.db.channels
    && (r.epoch == "" || r.epoch == sh.db.channels[r.channelId].epoch)
    && LocateKeyIndex(sh.db.channels[r.channelId], r.keyIndex, r.key).Some?
  }

  /** What one call costs, in the unit the channel is balanced by: money only if configured and given. */
  function Spent(st: Option<Settings>, cid: int, u: Usage): real {
    if st.Some? && cid in st.value.balance && st.value.balance[cid].metric == "cost" && u.cost > 0.0 then u.cost
    else u.promptTokens + u.completionTokens
  }

  /**
   * Every counter after a report: the addressed one has grown by the tokens, or by the cost,
   * less the estimate if its lease was still there.
   */
  lemma CountersAfterReport(sh: Shared, r: ReportReq, s: Script, cid: int, idx: int)
    ensures Get(ReportRun(sh, r, s).0.usage, (cid, idx)) - Get(sh.usage, (cid, idx))
            == if && FindsKey(sh, r, s) && r.usage.Some? && (r.leaseId.Some? ==> s.lease.reply.Delivered?) && !s.incr.reply.NotExecuted?
                  && cid == r.channelId && LocateKeyIndex(sh.db.channels[cid], r.keyIndex, r.key) == Some(idx)
               then Spent(s.load.settings, cid, r.usage.value)
                    - if r.leaseId.Some? && r.leaseId.value in sh.leases then sh.leases[r.leaseId.value].est else 0.0
               else 0.0
  {
    Attempts.UsageAfterAttempt(sh, r, s);
  }

  /** A lock is left behind only if its holder never learnt of it, or its unlock did not get through. */
  function LocksAfter(locks: map<int, nat>, cid: int, token: nat, lock: Reply, unlock: Reply): map<int, nat> {
    if cid !in locks && (lock.Lost? || (lock.Delivered? && unlock.NotExecuted?)) then locks[cid := token] else locks
  }

  lemma LockedCells(sh: Shared, r: ReportReq, idx: int, s: Script)
    ensures var (sh', out) := LockedRun(sh, r, idx, s);
            && sh'.locks == LocksAfter(sh.locks, r.channelId, sh.nextId, s.lock.reply, s.unlock.reply)
            && sh'.leases == sh.leases
            && sh'.metrics == if out.Answer? then Bump(sh.metrics, out.action) else sh.metrics
  {
    var (sh', token) := TryLock(sh, r.channelId, s.lock);
    if token.Some? {
      CriticalCells(sh', r, idx, token.value, s);
      assert sh'.locks - {r.channelId} == sh.locks;
    }
  }

  lemma TransactCells(sh: Shared, cid: int, idx: int, status: int, reason: string, env: Env)
    ensures var sh' := Transact(sh, cid, idx, status, reason, env).0;
            sh'.locks == sh.locks && sh'.leases == sh.leases && sh'.metrics == sh.metrics
  {
  }

  lemma DecideCells(sh: Shared, r: ReportReq, idx: int, token: nat, ch: Channel, env: Env)
    ensures var (sh', pr) := ReportDecide(sh, r, false, idx, token, ch, env);
            && pr.RUnlock? && sh'.locks == sh.locks && sh'.leases == sh.leases
            && sh'.metrics == if pr.out.Answer? then Bump(sh.metrics, pr.out.action) else sh.metrics
  {
    var d := Decision(r, idx, ch, env.settings);
    if d.Some? {
      var (status, reason) := d.value;
      TransactCells(sh, r.channelId, idx, status, reason, env);
    }
  }

  lemma CriticalCells(sh: Shared, r: ReportReq, idx: int, token: nat, s: Script)
    ensures var (sh', out) := CriticalRun(sh, r, idx, token, s);
            && sh'.locks == (if s.unlock.reply.NotExecuted? || r.channelId !in sh.locks || sh.locks[r.channelId] != token then sh.locks
                             else sh.locks - {r.channelId})
            && sh'.leases == sh.leases
            && sh'.metrics == if out.Answer? then Bump(sh.metrics, out.action) else sh.metrics
  {
    var (ch, e) := Load(sh, r.channelId, s.reread);
    if ch.Some? {
      DecideCells(sh, r, idx, token, ch.value, s.decide);
    }
  }

  lemma SettleCells(sh: Shared, r: ReportReq, idx: int, s: Script)
    ensures var (sh', err) := SettleRun(sh, r, idx, s);
            && sh'.metrics == sh.metrics
            && sh'.leases == if r.usage.Some? && r.leaseId.Some? && !s.lease.reply.NotExecuted? then sh.leases - {r.leaseId.value} else sh.leases
  {
  }

  /** The cells that belong together. */
  ghost predicate Cells(sh: Shared, r: ReportReq, s: Script, found: bool, sh': Shared, out: Outcome) {
    var settled := r.usage.Some? ==> (r.leaseId.Some? ==> s.lease.reply.Delivered?) && s.incr.reply.Delivered?;
    && sh'.leases == (if found && r.usage.Some? && r.leaseId.Some? && !s.lease.reply.NotExecuted? then sh.leases - {r.leaseId.value}
                      else sh.leases)
    && sh'.locks == (if found && settled then LocksAfter(sh.locks, r.channelId, sh.nextId, s.lock.reply, s.unlock.reply)
                     else sh.locks)
    && sh'.metrics == if out.Answer? then Bump(sh.metrics, out.action) else sh.metrics
  }

  lemma HandleCells(sh: Shared, r: ReportReq, s: Script)
    ensures Cells(sh, r, s, FindsKey(sh.(idem := {}), r.(idemKey := ""), s), HandleRun(sh, r, s).0, HandleRun(sh, r, s).1)
  {
    if FindsKey(sh.(idem := {}), r.(idemKey := ""), s) {
      var idx := LocateKeyIndex(sh.db.channels[r.channelId], r.keyIndex, r.key).value;
      SettleCells(sh, r, idx, s);
      SettleAnswers(sh, r, idx, s);
      LockedCells(SettleRun(sh, r, idx, s).0, r, idx, s);
    }
  }

  lemma KeyedCells(sh: Shared, r: ReportReq, s: Script)
    requires r.idemKey != "" && s.idem.reply.Delivered? && r.idemKey !in sh.idem
    ensures Cells(sh, r, s, FindsKey(sh, r, s), ReportRun(sh, r, s).0, ReportRun(sh, r, s).1)
  {
    var sh1 := sh.(idem := sh.idem + {r.idemKey});
    HandleCells(sh1, r, s);
    var (sh2, out) := HandleRun(sh1, r, s);
    assert ReportRun(sh, r, s).0.(idem := {}) == sh2.(idem := {}) && ReportRun(sh, r, s).1 == out;
    assert FindsKey(sh1.(idem := {}), r.(idemKey := ""), s) == FindsKey(sh, r, s);
  }

  /**
   * The other cells after a report: its lease is gone once taking it was carried out; the lock
   * is as it was found unless it was got without its holder knowing or the unlock was lost; one
   * counter moves if there is an answer, and none on an error.
   */
  lemma CellsAfterReport(sh: Shared, r: ReportReq, s: Script)
    ensures Cells(sh, r, s, FindsKey(sh, r, s), ReportRun(sh, r, s).0, ReportRun(sh, r, s).1)
  {
    if r.idemKey == "" {
      HandleCells(sh, r, s);
    } else if s.idem.reply.Delivered? && r.idemKey !in sh.idem {
      KeyedCells(sh, r, s);
    }
  }

  /** Its idempotency key stays set unless the report failed and the rollback got through, or it was never set. */
  lemma KeyAfterReport(sh: Shared, r: ReportReq, s: Script)
    ensures var (sh', out) := ReportRun(sh, r, s);
            sh'.idem == if r.idemKey == "" || s.idem.reply.NotExecuted? then sh.idem
                        else if s.idem.reply.Delivered? && r.idemKey !in sh.idem && out.Failed? && !s.rollback.reply.NotExecuted? then sh.idem
                        else sh.idem + {r.idemKey}
  {
    Attempts.HandleUsage(sh, r, s);
    Attempts.HandleUsage(sh.(idem := sh.idem + {r.idemKey}), r, s);
  }

  // ----- a manual change -----

  /** The refusal of a manual change that does not get as far as writing. */
  function Refusal(sh: Shared, cid: int, idx: int, status: int, s: Script): Option<ErrorKind> {
    if (status != 1 && status != 2) || idx < 0 then Some(InvalidRequest)
    else if !s.lock.reply.Delivered? || cid in sh.locks then Some(LockFailed)
    else if !s.reread.reply.Delivered? then Some(Dependency)
    else if cid !in sh.db.channels then Some(ChannelNotFound)
    else if idx >= |sh.db.channels[cid].keys| then Some(InvalidRequest)
    else None
  }

  /** The write of a manual change and its answer. */
  ghost predicate Changed(db: Database, db': Database, cid: int, idx: int, status: int, reason: string, env: Env, out: Outcome)
    requires cid in db.channels
  {
    var writes := Accepts(db.channels[cid], idx);
    && cid in db'.channels
    && (if writes && !env.reply.NotExecuted? then WroteOnly(db, db', cid, idx, status, Shortened(reason), env.now) else db' == db)
    && out == if !writes || !env.reply.Delivered? then Failed(ApplyError)
              else
                var dead := NoneOn(db'.channels[cid]);
                Answer(if status == 1 then KeyEnabledAction else if dead then ChannelDisabled else KeyDisabled, db'.channels[cid].status)
  }

  lemma ApplyChanges(sh: Shared, cid: int, idx: int, status: int, reason: string, token: nat, env: Env)
    requires cid in sh.db.channels
    ensures var (sh', pr) := SetApply(sh, cid, idx, status, reason, token, env);
            pr.SUnlock? && Changed(sh.db, sh'.db, cid, idx, status, reason, env, pr.out)
  {
    TruncateShortens(reason);
    TransactLeaves(sh, cid, idx, status, Shortened(reason), env);
  }

  lemma ApplyCells(sh: Shared, cid: int, idx: int, status: int, reason: string, token: nat, env: Env)
    ensures var (sh', pr) := SetApply(sh, cid, idx, status, reason, token, env);
            && pr.SUnlock? && sh'.idem == sh.idem && sh'.leases == sh.leases && sh'.usage == sh.usage && sh'.locks == sh.locks
            && sh'.metrics == if pr.out.Answer? then Bump(sh.metrics, pr.out.action) else sh.metrics
  {
  }

  lemma HeldCells(sh: Shared, cid: int, idx: int, status: int, reason: string, token: nat, s: Script)
    ensures var (sh2, read) := SetReread(sh, cid, idx, status, reason, token, s.reread);
            var (sh3, done) := if read.SApply? then SetApply(sh2, cid, idx, status, reason, token, s.decide) else (sh2, read);
            && done.SUnlock? && sh3.idem == sh.idem && sh3.leases == sh.leases && sh3.usage == sh.usage && sh3.locks == sh.locks
            && sh3.metrics == if done.out.Answer? then Bump(sh.metrics, done.out.action) else sh.metrics
  {
    ApplyCells(sh, cid, idx, status, reason, token, s.decide);
  }

  /**
   * A manual change from start to end, for every state and every fate of its calls: its answer,
   * and the key it writes with the reason shortened to 256 characters.
   */
  lemma ChangeOutcome(sh: Shared, cid: int, idx: int, status: int, reason: string, s: Script)
    ensures var (sh', out) := SetRun(sh, cid, idx, status, reason, s);
            var refused := Refusal(sh, cid, idx, status, s);
            if refused.Some? then out == Failed(refused.value) && sh'.db == sh.db
            else Changed(sh.db, sh'.db, cid, idx, status, reason, s.decide, out)
  {
    var (sh1, token) := TryLock(sh, cid, s.lock);
    if token.Some? && s.reread.reply.Delivered? && cid in sh.db.channels {
      ApplyChanges(sh1, cid, idx, status, reason, token.value, s.decide);
    }
  }

  /** Nothing but the database, the locks, the ids and one counter. */
  ghost predicate CellsOfChange(sh: Shared, sh': Shared, out: Outcome) {
    && sh'.idem == sh.idem && sh'.leases == sh.leases && sh'.usage == sh.usage
    && sh'.metrics == if out.Answer? then Bump(sh.metrics, out.action) else sh.metrics
  }

  lemma CellsUnderLock(sh: Shared, cid: int, idx: int, status: int, reason: string, s: Script)
    requires (status == 1 || status == 2) && idx >= 0 && s.lock.reply.Delivered? && cid !in sh.locks
    ensures var (sh', out) := SetRun(sh, cid, idx, status, reason, s);
            CellsOfChange(sh, sh', out) && sh'.locks == LocksAfter(sh.locks, cid, sh.nextId, s.lock.reply, s.unlock.reply)
  {
    var (sh1, token) := TryLock(sh, cid, s.lock);
    HeldCells(sh1, cid, idx, status, reason, token.value, s);
    assert sh1.locks - {cid} == sh.locks;
  }

  /** Its other cells: the lock as after a report, one counter if there is an answer, and nothing else. */
  lemma CellsAfterChange(sh: Shared, cid: int, idx: int, status: int, reason: string, s: Script)
    ensures var (sh', out) := SetRun(sh, cid, idx, status, reason, s);
            && CellsOfChange(sh, sh', out)
            && sh'.locks == if (status != 1 && status != 2) || idx < 0 then sh.locks
                            else LocksAfter(sh.locks, cid, sh.nextId, s.lock.reply, s.unlock.reply)
  {
    if (status == 1 || status == 2) && idx >= 0 && s.lock.reply.Delivered? && cid !in sh.locks {
      CellsUnderLock(sh, cid, idx, status, reason, s);
    }
  }
}

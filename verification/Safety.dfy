/** What every interleaving of callers keeps: agreement, lock ownership, idempotency, metrics. */
module Safety {
  import opened Common
  import opened ChannelModel
  import opened KeyTransaction
  import opened SettingsModel
  import opened Protocol

  // Cases over the program points come in four groups, to keep each proof small.

  predicate Early(pr: Proc) { pr.RStart? || pr.RLoad? || pr.RLease? || pr.RIncr? || pr.RLock? }

  predicate Late(pr: Proc) { pr.RReread? || pr.RUnlock? || pr.RRollback? }

  predicate Writing(pr: Proc) { pr.RDecide? || pr.SApply? }

  predicate Other(pr: Proc) { !Early(pr) && !Late(pr) && !Writing(pr) }

  // ----- agreement of the status copies, whatever expires -----

  ghost predicate AllConsistent(db: Database) {
    forall c :: c in db.channels ==> Consistent(db, c)
  }

  /** The columns no caller writes. */
  ghost predicate SameKeyColumns(a: Database, b: Database) {
    && a.channels.Keys == b.channels.Keys
    && forall c :: c in a.channels ==>
         && a.channels[c].keys == b.channels[c].keys
         && a.channels[c].epoch == b.channels[c].epoch
         && a.channels[c].info.isMultiKey == b.channels[c].info.isMultiKey
  }

  /** The status and reason a caller's next step would write, if it writes the database. */
  function Write(pr: Proc, env: Env): Option<(int, string)> {
    if pr.RDecide? then Decision(pr.r, pr.idx, pr.ch, env.settings)
    else if pr.SApply? then Some((pr.status, Truncate(pr.reason)))
    else None
  }

  ghost function WriteResult(sh: Shared, pr: Proc, env: Env): ApplyResult
    requires Write(pr, env).Some?
  {
    Apply(sh.db, Cid(pr), pr.idx, Write(pr, env).value.0, Write(pr, env).value.1, env.now)
  }

  /** The one way a caller changes the database. */
  lemma StepDb(sh: Shared, pr: Proc, env: Env)
    ensures var sh' := ProcStep(sh, pr, env).0;
            || sh'.db == sh.db
            || (Write(pr, env).Some? && WriteResult(sh, pr, env).Applied? && sh'.db == WriteResult(sh, pr, env).db)
  {
  }

  lemma StepKeepsConsistent(w: World, s: Step, c: int)
    requires c in w.sh.db.channels && Consistent(w.sh.db, c)
    ensures c in Next(w, s).sh.db.channels && Consistent(Next(w, s).sh.db, c)
  {
    if s.Run? && s.p in w.procs {
      var pr := w.procs[s.p];
      StepDb(w.sh, pr, s.env);
      if Write(pr, s.env).Some? {
        var (status, reason) := Write(pr, s.env).value;
        ApplyKeepsAll(w.sh.db, Cid(pr), pr.idx, status, reason, s.env.now, c);
      }
    }
  }

  /**
   * For any number of callers and any interleaving, with locks expiring at any step: a channel
   * whose copies agree goes on so, whatever is the matter with other channels.
   */
  lemma {:induction false} RunsKeepConsistent(w: World, steps: seq<Step>, c: int)
    requires c in w.sh.db.channels && Consistent(w.sh.db, c)
    ensures c in Exec(w, steps).sh.db.channels && Consistent(Exec(w, steps).sh.db, c)
  {
    if steps != [] {
      RunsKeepConsistent(w, steps[..|steps| - 1], c);
      StepKeepsConsistent(Exec(w, steps[..|steps| - 1]), steps[|steps| - 1], c);
    }
  }

  lemma StepKeepsKeyColumns(w: World, s: Step)
    ensures SameKeyColumns(w.sh.db, Next(w, s).sh.db)
  {
    if s.Run? && s.p in w.procs {
      var pr := w.procs[s.p];
      StepDb(w.sh, pr, s.env);
      if Write(pr, s.env).Some? && WriteResult(w.sh, pr, s.env).Applied? {
        ApplyFrame(w.sh.db, Cid(pr), pr.idx, Write(pr, s.env).value.0, Write(pr, s.env).value.1, s.env.now);
      }
    }
  }

  /** No step of any caller adds or removes a channel or moves a key column. */
  lemma {:induction false} RunsKeepKeyColumns(w: World, steps: seq<Step>)
    ensures SameKeyColumns(w.sh.db, Exec(w, steps).sh.db)
  {
    if steps != [] {
      RunsKeepKeyColumns(w, steps[..|steps| - 1]);
      StepKeepsKeyColumns(Exec(w, steps[..|steps| - 1]), steps[|steps| - 1]);
    }
  }

  /** From a database all of whose channels agree, only such databases are reached. */
  lemma RunsKeepAllConsistent(w: World, steps: seq<Step>)
    requires AllConsistent(w.sh.db)
    ensures AllConsistent(Exec(w, steps).sh.db)
  {
    RunsKeepKeyColumns(w, steps);
    forall c | c in Exec(w, steps).sh.db.channels
      ensures Consistent(Exec(w, steps).sh.db, c)
    {
      RunsKeepConsistent(w, steps, c);
    }
  }

  // ----- the lock -----

  /** Tokens are drawn once: no two callers hold the same one. Expiry does not matter. */
  ghost predicate TokensDistinct(w: World) {
    && (forall c :: c in w.sh.locks ==> w.sh.locks[c] < w.sh.nextId)
    && (forall p :: p in w.procs && Token(w.procs[p]).Some? ==> Token(w.procs[p]).value < w.sh.nextId)
    && (forall p, q :: p in w.procs && q in w.procs && p != q && Token(w.procs[p]).Some? ==>
          Token(w.procs[p]) != Token(w.procs[q]))
  }

  /** How one step of a caller moves the locks and its own token. */
  ghost predicate MovesLock(sh: Shared, pr: Proc, env: Env)
  {
    var (sh', pr') := ProcStep(sh, pr, env);
    && sh'.nextId >= sh.nextId
    && (|| (sh'.locks == sh.locks
            && (Token(pr').Some? ==> Token(pr') == Token(pr) && Cid(pr') == Cid(pr)))
        || (Token(pr).None? && Cid(pr) !in sh.locks && sh'.nextId == sh.nextId + 1
            && sh'.locks == sh.locks[Cid(pr) := sh.nextId]
            && (Token(pr').Some? ==> Token(pr').value == sh.nextId && Cid(pr') == Cid(pr)))
        || (Token(pr).Some? && Token(pr').None?
            && Cid(pr) in sh.locks && sh.locks[Cid(pr)] == Token(pr).value
            && sh'.locks == sh.locks - {Cid(pr)}))
  }

  lemma StepLockEarly(sh: Shared, pr: Proc, env: Env)
    requires Early(pr)
    ensures MovesLock(sh, pr, env)
  {
  }

  lemma StepLockLate(sh: Shared, pr: Proc, env: Env)
    requires Late(pr)
    ensures MovesLock(sh, pr, env)
  {
  }

  lemma StepLockWriting(sh: Shared, pr: Proc, env: Env)
    requires Writing(pr)
    ensures MovesLock(sh, pr, env)
  {
  }

  lemma StepLockOther(sh: Shared, pr: Proc, env: Env)
    requires Other(pr)
    ensures MovesLock(sh, pr, env)
  {
  }

  lemma StepLock(sh: Shared, pr: Proc, env: Env)
    ensures MovesLock(sh, pr, env)
  {
    if Early(pr) {
      StepLockEarly(sh, pr, env);
    } else if Late(pr) {
      StepLockLate(sh, pr, env);
    } else if Writing(pr) {
      StepLockWriting(sh, pr, env);
    } else {
      StepLockOther(sh, pr, env);
    }
  }

  lemma StepKeepsTokensDistinct(w: World, s: Step)
    requires TokensDistinct(w)
    ensures TokensDistinct(Next(w, s))
  {
    if s.Run? && s.p in w.procs {
      StepLock(w.sh, w.procs[s.p], s.env);
    }
  }

  lemma {:induction false} RunsKeepTokensDistinct(w: World, steps: seq<Step>)
    requires Quiet(w)
    ensures TokensDistinct(Exec(w, steps))
  {
    if steps != [] {
      RunsKeepTokensDistinct(w, steps[..|steps| - 1]);
      StepKeepsTokensDistinct(Exec(w, steps[..|steps| - 1]), steps[|steps| - 1]);
    }
  }

  /**
   * However locks expire, a step of one caller never takes away a lock that carries the
   * token of another.
   */
  lemma UnlockSparesOthers(w: World, steps: seq<Step>, p: nat, env: Env, q: nat, cid: int)
    requires Quiet(w)
    ensures var now, later := Exec(w, steps), Next(Exec(w, steps), Run(p, env));
            p != q && q in now.procs && cid in now.sh.locks && Token(now.procs[q]) == Some(now.sh.locks[cid]) ==>
              cid in later.sh.locks && later.sh.locks[cid] == now.sh.locks[cid]
  {
    RunsKeepTokensDistinct(w, steps);
    var now := Exec(w, steps);
    if p in now.procs {
      StepLock(now.sh, now.procs[p], env);
    }
  }

  ghost predicate NobodyHolds(w: World, cid: int) {
    forall p :: p in w.procs && Token(w.procs[p]).Some? ==> Cid(w.procs[p]) != cid
  }

  ghost predicate LockOutlasts(w: World, s: Step) {
    s.ExpireLock? ==> NobodyHolds(w, s.cid)
  }

  /**
   * No lock expires while a caller that took it is still between lock and unlock. A lock left
   * behind by a lost reply or a failed unlock may expire at any time.
   */
  ghost predicate LocksOutlast(w: World, steps: seq<Step>) {
    steps != [] ==>
      LocksOutlast(w, steps[..|steps| - 1]) && LockOutlasts(Exec(w, steps[..|steps| - 1]), steps[|steps| - 1])
  }

  /** Without expiry under a caller a token in hand is the token in the lock cell. */
  ghost predicate LockOwned(w: World) {
    forall p :: p in w.procs && Token(w.procs[p]).Some? ==>
      Cid(w.procs[p]) in w.sh.locks && w.sh.locks[Cid(w.procs[p])] == Token(w.procs[p]).value
  }

  function Snapshot(pr: Proc): Option<Channel> {
    if pr.RDecide? || pr.SApply? then Some(pr.ch) else None
  }

  /** Then the row re-read under the lock is still the row in the database. */
  ghost predicate SnapshotsCurrent(w: World) {
    forall p :: p in w.procs && Snapshot(w.procs[p]).Some? ==>
      Cid(w.procs[p]) in w.sh.db.channels && w.sh.db.channels[Cid(w.procs[p])] == w.procs[p].ch
  }

  lemma StepKeepsLockOwned(w: World, s: Step)
    requires TokensDistinct(w) && LockOwned(w) && LockOutlasts(w, s)
    ensures LockOwned(Next(w, s))
  {
    if s.Run? && s.p in w.procs {
      StepLock(w.sh, w.procs[s.p], s.env);
    }
  }

  lemma StepSnapshot(sh: Shared, pr: Proc, env: Env)
    ensures var (sh', pr') := ProcStep(sh, pr, env);
            Snapshot(pr').Some? ==>
              sh'.db == sh.db && Cid(pr') in sh.db.channels && pr'.ch == sh.db.channels[Cid(pr')]
  {
  }

  lemma StepKeepsSnapshots(w: World, s: Step)
    requires TokensDistinct(w) && LockOwned(w) && SnapshotsCurrent(w)
    ensures SnapshotsCurrent(Next(w, s))
  {
    if s.Run? && s.p in w.procs {
      var pr, w' := w.procs[s.p], Next(w, s);
      StepDb(w.sh, pr, s.env);
      StepSnapshot(w.sh, pr, s.env);
      forall q | q in w'.procs && Snapshot(w'.procs[q]).Some? && q != s.p
        ensures Cid(w'.procs[q]) in w'.sh.db.channels && w'.sh.db.channels[Cid(w'.procs[q])] == w'.procs[q].ch
      {
        assert q in w.procs && w'.procs[q] == w.procs[q];
        assert Token(w.procs[q]).Some?;
        if w'.sh.db != w.sh.db {
          assert Cid(pr) != Cid(w.procs[q]);
          var (status, reason) := Write(pr, s.env).value;
          ApplyFrame(w.sh.db, Cid(pr), pr.idx, status, reason, s.env.now);
        }
      }
    }
  }

  lemma {:induction false} RunsKeepLock(w: World, steps: seq<Step>)
    requires Quiet(w) && LocksOutlast(w, steps)
    ensures var now := Exec(w, steps); TokensDistinct(now) && LockOwned(now) && SnapshotsCurrent(now)
  {
    if steps != [] {
      var prefix, s := steps[..|steps| - 1], steps[|steps| - 1];
      RunsKeepLock(w, prefix);
      StepKeepsTokensDistinct(Exec(w, prefix), s);
      StepKeepsLockOwned(Exec(w, prefix), s);
      StepKeepsSnapshots(Exec(w, prefix), s);
    }
  }

  /** Mutual exclusion per channel, and the status acted on is the current one. */
  lemma MutualExclusion(w: World, steps: seq<Step>, p: nat, q: nat)
    requires Quiet(w) && LocksOutlast(w, steps)
    ensures var now := Exec(w, steps);
            p in now.procs && q in now.procs ==>
              var a, b := now.procs[p], now.procs[q];
              && (Token(a).Some? && Token(b).Some? && Cid(a) == Cid(b) ==> p == q)
              && (Snapshot(a).Some? ==> Cid(a) in now.sh.db.channels && a.ch == now.sh.db.channels[Cid(a)])
  {
    RunsKeepLock(w, steps);
  }

  /** The status that decides for key i of a channel: its own, or the channel's if not multi-key. */
  function StatusOf(db: Database, cid: int, i: int): int
    requires cid in db.channels
  {
    PrevStatus(db.channels[cid], i)
  }

  /** The caller's next write, if it makes one, addresses key i of the channel. */
  predicate Addresses(db: Database, pr: Proc, cid: int, i: int)
    requires cid in db.channels
  {
    (pr.RDecide? || pr.SApply?) && Cid(pr) == cid && (db.channels[cid].info.isMultiKey ==> pr.idx == i)
  }

  /** The transaction accepts this index of the channel. */
  predicate Addressable(ch: Channel, idx: int) {
    if ch.info.isMultiKey then 0 <= idx < |ch.keys| else idx == 0
  }

  /** The exact change a caller's step makes to the status of key i of channel cid. */
  lemma StatusAfterStep(sh: Shared, pr: Proc, env: Env, cid: int, i: int)
    requires cid in sh.db.channels
    ensures var db' := ProcStep(sh, pr, env).0.db;
            && cid in db'.channels
            && StatusOf(db', cid, i)
               == if Addresses(sh.db, pr, cid, i) && Addressable(sh.db.channels[cid], pr.idx) && !env.reply.NotExecuted? && Write(pr, env).Some?
                  then Write(pr, env).value.0 else StatusOf(sh.db, cid, i)
  {
    if pr.RDecide? {
      DecideWrites(sh, pr, env);
    } else if pr.SApply? {
      ChangeWrites(sh, pr, env);
    } else {
      StepDb(sh, pr, env);
    }
    if Write(pr, env).Some? {
      TransactionStatus(sh.db, Cid(pr), pr.idx, Write(pr, env).value.0, Write(pr, env).value.1, env.now, cid, i);
    }
  }

  lemma DecideWrites(sh: Shared, pr: Proc, env: Env)
    requires pr.RDecide?
    ensures ProcStep(sh, pr, env).0.db
            == if Write(pr, env).Some? && WriteResult(sh, pr, env).Applied? && !env.reply.NotExecuted? then WriteResult(sh, pr, env).db else sh.db
  {
  }

  lemma ChangeWrites(sh: Shared, pr: Proc, env: Env)
    requires pr.SApply?
    ensures ProcStep(sh, pr, env).0.db
            == if WriteResult(sh, pr, env).Applied? && !env.reply.NotExecuted? then WriteResult(sh, pr, env).db else sh.db
  {
  }

  lemma TransactionStatus(db: Database, at: int, idx: int, status: int, reason: string, now: int, cid: int, i: int)
    requires cid in db.channels
    ensures var res := Apply(db, at, idx, status, reason, now);
            && (at == cid ==> (res.Applied? <==> Addressable(db.channels[cid], idx)))
            && (res.Applied? ==>
                  && cid in res.db.channels
                  && StatusOf(res.db, cid, i)
                     == if at == cid && (db.channels[cid].info.isMultiKey ==> idx == i) then status else StatusOf(db, cid, i))
  {
  }

  /**
   * While locks outlast their holders: when any step turns a status into enabled, either it is
   * a manual change of that key to enabled, or it is a successful report on that key and the
   * status was auto-disabled. A key stands for the channel where the channel is not multi-key.
   */
  lemma OnlyManualEnablesManual(w: World, steps: seq<Step>, s: Step, cid: int, i: int)
    requires Quiet(w) && LocksOutlast(w, steps) && cid in Exec(w, steps).sh.db.channels
    ensures var now, later := Exec(w, steps), Next(Exec(w, steps), s);
            && cid in later.sh.db.channels
            && (StatusOf(now.sh.db, cid, i) != ENABLED && StatusOf(later.sh.db, cid, i) == ENABLED ==>
                  && s.Run? && s.p in now.procs && Addresses(now.sh.db, now.procs[s.p], cid, i)
                  && var pr := now.procs[s.p];
                     || (pr.SApply? && pr.status == ENABLED)
                     || (pr.RDecide? && pr.r.success && StatusOf(now.sh.db, cid, i) == AUTO_DISABLED))
  {
    RunsKeepLock(w, steps);
    var now := Exec(w, steps);
    if s.Run? && s.p in now.procs {
      StatusAfterStep(now.sh, now.procs[s.p], s.env, cid, i);
    }
  }

  /** The step overwrites a manual disabling of key i: by enabling it by hand, or by a failing report. */
  ghost predicate Overwrites(db: Database, pr: Proc, env: Env, cid: int, i: int)
    requires cid in db.channels
  {
    && Addresses(db, pr, cid, i) && Addressable(db.channels[cid], pr.idx) && !env.reply.NotExecuted?
    && if pr.SApply? then pr.status != MANUALLY_DISABLED
       else !pr.r.success && ShouldDisable(env.settings, AutoBan(db.channels[cid]), pr.r.statusCode, pr.r.lowered)
  }

  /**
   * Exactly when a manual disabling ends, over every run in which locks outlast their holders:
   * by a manual change to another status, or by a failing report that the settings let disable.
   * A successful report never ends it.
   */
  lemma ManualEndsIff(w: World, steps: seq<Step>, s: Step, cid: int, i: int)
    requires Quiet(w) && LocksOutlast(w, steps) && cid in Exec(w, steps).sh.db.channels
    requires StatusOf(Exec(w, steps).sh.db, cid, i) == MANUALLY_DISABLED
    ensures var now, later := Exec(w, steps), Next(Exec(w, steps), s);
            && cid in later.sh.db.channels
            && (StatusOf(later.sh.db, cid, i) != MANUALLY_DISABLED
                <==> s.Run? && s.p in now.procs && Overwrites(now.sh.db, now.procs[s.p], s.env, cid, i))
  {
    RunsKeepLock(w, steps);
    var now := Exec(w, steps);
    if s.Run? && s.p in now.procs {
      StatusAfterStep(now.sh, now.procs[s.p], s.env, cid, i);
    }
  }

  // ----- idempotency keys -----

  /** The idempotency key a report lays claim to: set by it and not given back. */
  function Claim(pr: Proc): string {
    match pr
    case RLoad(r, held) => if held then r.idemKey else ""
    case RLease(r, held, _, _) => if held then r.idemKey else ""
    case RIncr(r, held, _, _, _) => if held then r.idemKey else ""
    case RLock(r, held, _) => if held then r.idemKey else ""
    case RReread(r, held, _, _) => if held then r.idemKey else ""
    case RDecide(r, held, _, _, _) => if held then r.idemKey else ""
    case RUnlock(r, held, _, _) => if held then r.idemKey else ""
    case RRollback(r, _) => r.idemKey
    case Done(k, out) => if Accepted(pr) then k else ""
    case _ => ""
  }

  /** A report or change answered with neither an error nor `duplicate`. */
  predicate Accepted(pr: Proc) {
    pr.Done? && pr.out.Answer? && pr.out.action != Duplicate
  }

  /** The two answers that are given before any lock is taken. */
  predicate AnsweredUnlocked(out: Outcome) {
    out.Answer? && (out.action == Duplicate || out.action == StaleEpochIgnored)
  }

  /** A report runs held exactly when it has a key; answers carried to the unlock are final ones. */
  predicate WellFormed(pr: Proc) {
    match pr
    case RLoad(r, held) => held == (r.idemKey != "")
    case RLease(r, held, _, _) => held == (r.idemKey != "") && r.leaseId.Some?
    case RIncr(r, held, _, _, _) => held == (r.idemKey != "")
    case RLock(r, held, _) => held == (r.idemKey != "")
    case RReread(r, held, _, _) => held == (r.idemKey != "")
    case RDecide(r, held, _, _, _) => held == (r.idemKey != "")
    case RUnlock(r, held, _, out) => held == (r.idemKey != "") && !AnsweredUnlocked(out) && !out.Served?
    case RRollback(r, out) => r.idemKey != "" && out.Failed?
    case SUnlock(_, _, out) => !AnsweredUnlocked(out)
    case KLease(_, _, est) => est > 0.0
    case _ => true
  }

  /** At most one caller claims the key, and then it is set. */
  ghost predicate ClaimOn(w: World, key: string) {
    && (forall p :: p in w.procs ==> WellFormed(w.procs[p]))
    && (forall p :: p in w.procs && Claim(w.procs[p]) == key ==> key in w.sh.idem)
    && (forall p, q :: p in w.procs && q in w.procs && Claim(w.procs[p]) == key && Claim(w.procs[q]) == key ==> p == q)
  }

  ghost predicate NobodyClaims(w: World, key: string) {
    forall p :: p in w.procs ==> Claim(w.procs[p]) != key
  }

  ghost predicate KeyOutlasts(w: World, s: Step, key: string) {
    s == ExpireIdem(key) ==> NobodyClaims(w, key)
  }

  /**
   * The key does not expire while a report claims it: one that is on its way, or one that was
   * accepted. Other keys may expire at any step, and so may this one while nobody claims it.
   */
  ghost predicate KeyOutlastsClaims(w: World, steps: seq<Step>, key: string) {
    steps != [] ==>
      && KeyOutlastsClaims(w, steps[..|steps| - 1], key)
      && KeyOutlasts(Exec(w, steps[..|steps| - 1]), steps[|steps| - 1], key)
  }

  /** How one step of a caller moves the idempotency keys and its own claim. */
  ghost predicate MovesClaim(sh: Shared, pr: Proc, env: Env)
  {
    var (sh', pr') := ProcStep(sh, pr, env);
    && WellFormed(pr')
    && (|| (sh'.idem == sh.idem && (Claim(pr') == Claim(pr) || Claim(pr') == ""))
        || (pr.RStart? && pr.r.idemKey != "" && sh'.idem == sh.idem + {pr.r.idemKey}
            && (Claim(pr') != "" ==> Claim(pr') == pr.r.idemKey && pr.r.idemKey !in sh.idem))
        || (pr.RRollback? && sh'.idem == sh.idem - {Claim(pr)} && Claim(pr') == ""))
  }

  lemma StepClaimStart(sh: Shared, pr: Proc, env: Env)
    requires pr.RStart? && WellFormed(pr)
    ensures MovesClaim(sh, pr, env)
  {
  }

  lemma StepClaimEarly(sh: Shared, pr: Proc, env: Env)
    requires Early(pr) && !pr.RStart? && WellFormed(pr)
    ensures MovesClaim(sh, pr, env)
  {
  }

  lemma StepClaimLate(sh: Shared, pr: Proc, env: Env)
    requires Late(pr) && WellFormed(pr)
    ensures MovesClaim(sh, pr, env)
  {
  }

  lemma StepClaimWriting(sh: Shared, pr: Proc, env: Env)
    requires Writing(pr) && WellFormed(pr)
    ensures MovesClaim(sh, pr, env)
  {
  }

  lemma StepClaimOther(sh: Shared, pr: Proc, env: Env)
    requires Other(pr) && WellFormed(pr)
    ensures MovesClaim(sh, pr, env)
  {
  }

  lemma StepClaim(sh: Shared, pr: Proc, env: Env)
    requires WellFormed(pr)
    ensures MovesClaim(sh, pr, env)
  {
    if pr.RStart? {
      StepClaimStart(sh, pr, env);
    } else if Early(pr) {
      StepClaimEarly(sh, pr, env);
    } else if Late(pr) {
      StepClaimLate(sh, pr, env);
    } else if Writing(pr) {
      StepClaimWriting(sh, pr, env);
    } else {
      StepClaimOther(sh, pr, env);
    }
  }

  lemma StepKeepsClaims(w: World, s: Step, key: string)
    requires key != "" && ClaimOn(w, key) && KeyOutlasts(w, s, key)
    ensures ClaimOn(Next(w, s), key)
  {
    if s.Run? && s.p in w.procs {
      StepClaim(w.sh, w.procs[s.p], s.env);
    }
  }

  lemma {:induction false} RunsKeepClaims(w: World, steps: seq<Step>, key: string)
    requires key != "" && ClaimOn(w, key) && KeyOutlastsClaims(w, steps, key)
    ensures ClaimOn(Exec(w, steps), key)
  {
    if steps != [] {
      RunsKeepClaims(w, steps[..|steps| - 1], key);
      StepKeepsClaims(Exec(w, steps[..|steps| - 1]), steps[|steps| - 1], key);
    }
  }

  /** While the key outlasts its claims, at most one report with it is ever accepted. */
  lemma AtMostOneAccepted(w: World, steps: seq<Step>, key: string, p: nat, q: nat)
    requires w.procs == map[] && key != "" && KeyOutlastsClaims(w, steps, key)
    ensures var now := Exec(w, steps);
            p in now.procs && q in now.procs && AcceptedAs(now.procs[p], key) && AcceptedAs(now.procs[q], key) ==> p == q
  {
    RunsKeepClaims(w, steps, key);
  }

  /** Answered under this key with neither an error nor `duplicate`. */
  predicate AcceptedAs(pr: Proc, key: string) {
    Accepted(pr) && pr.idemKey == key
  }

  /**
   * A report that failed after setting its key gives the key back when its rollback is
   * carried out, so that the next attempt gets past the check; if the rollback is not
   * carried out the next attempt is answered `duplicate`.
   */
  lemma RollbackReopensKey(w: World, steps: seq<Step>, p: nat, env: Env, retry: ReportReq, retryEnv: Env)
    requires w.procs == map[] && retry.idemKey != "" && KeyOutlastsClaims(w, steps, retry.idemKey)
    requires var now := Exec(w, steps);
             p in now.procs && now.procs[p].RRollback? && retry.idemKey == now.procs[p].r.idemKey
    requires retryEnv.reply.Delivered?
    ensures var later := Next(Exec(w, steps), Run(p, env));
            var after := ReportStart(later.sh, retry, retryEnv).1;
            && later.procs[p].Done? && later.procs[p].out.Failed?
            && after == if env.reply.NotExecuted? then Done(retry.idemKey, Answer(Duplicate, 0)) else RLoad(retry, true)
  {
    RunsKeepClaims(w, steps, retry.idemKey);
  }

  /** This key expires at none of the steps. */
  ghost predicate NeverExpires(steps: seq<Step>, key: string) {
    forall i :: 0 <= i < |steps| ==> steps[i] != ExpireIdem(key)
  }

  /** The key is set, and no caller that could give it back or be accepted under it is left. */
  ghost predicate Orphaned(w: World, key: string) {
    && key != "" && key in w.sh.idem && NobodyClaims(w, key)
    && forall p :: p in w.procs ==> WellFormed(w.procs[p])
  }

  lemma StepKeepsOrphaned(w: World, key: string, s: Step)
    requires Orphaned(w, key) && s != ExpireIdem(key)
    ensures Orphaned(Next(w, s), key)
  {
    if s.Run? && s.p in w.procs {
      StepClaim(w.sh, w.procs[s.p], s.env);
    }
  }

  lemma {:induction false} RunsKeepOrphaned(w: World, key: string, steps: seq<Step>)
    requires Orphaned(w, key) && NeverExpires(steps, key)
    ensures Orphaned(Exec(w, steps), key)
  {
    if steps != [] {
      RunsKeepOrphaned(w, key, steps[..|steps| - 1]);
      StepKeepsOrphaned(Exec(w, steps[..|steps| - 1]), key, steps[|steps| - 1]);
    }
  }

  /**
   * A key that was set without its caller learning of it blocks: while it does not expire, no
   * report is ever accepted under it, and a fresh one is answered `duplicate` although none was.
   */
  lemma OrphanedKeyBlocks(w: World, key: string, steps: seq<Step>, r: ReportReq, env: Env)
    requires Orphaned(w, key) && NeverExpires(steps, key) && r.idemKey == key && env.reply.Delivered?
    ensures var now := Exec(w, steps);
            && (forall p :: p in now.procs ==> !AcceptedAs(now.procs[p], key))
            && ReportStart(now.sh, r, env).1 == Done(key, Answer(Duplicate, 0))
  {
    RunsKeepOrphaned(w, key, steps);
  }

  /** Setting the key with the reply lost fails the report and orphans the key. */
  lemma LostSetOrphans(w: World, p: nat, env: Env)
    requires p in w.procs && w.procs[p].RStart? && w.procs[p].r.idemKey != "" && w.procs[p].r.idemKey !in w.sh.idem
    requires env.reply.Lost? && ClaimOn(w, w.procs[p].r.idemKey)
    ensures var later := Next(w, Run(p, env));
            later.procs[p] == Done(w.procs[p].r.idemKey, Failed(IdemError)) && Orphaned(later, w.procs[p].r.idemKey)
  {
  }

  /** A report answered `duplicate` has changed nothing but that counter. */
  lemma DuplicateIsInert(sh: Shared, pr: Proc, env: Env)
    requires WellFormed(pr) && !pr.Done?
    ensures var (sh', pr') := ProcStep(sh, pr, env);
            pr'.Done? && pr'.out.Answer? && pr'.out.action == Duplicate ==>
              pr.RStart? && pr.r.idemKey in sh.idem && sh' == Count(sh, Duplicate)
  {
  }

  /** A report of an older key list is the only one answered `stale_epoch_ignored`, and it changes only that counter. */
  lemma StaleEpochIsInert(sh: Shared, pr: Proc, env: Env)
    requires WellFormed(pr) && !pr.Done?
    ensures var (sh', pr') := ProcStep(sh, pr, env);
            && ((pr'.Done? && pr'.out.Answer? && pr'.out.action == StaleEpochIgnored) <==>
                 (&& pr.RLoad? && env.reply.Delivered? && pr.r.channelId in sh.db.channels
                  && pr.r.epoch != "" && pr.r.epoch != sh.db.channels[pr.r.channelId].epoch))
            && (pr'.Done? && pr'.out.Answer? && pr'.out.action == StaleEpochIgnored ==> sh' == Count(sh, StaleEpochIgnored))
  {
  }

  // ----- what `channel_disabled` means -----

  /**
   * On a multi-key channel a report answers `channel_disabled` exactly when it applied a
   * disable after which no key is enabled; the channel is then auto-disabled.
   */
  lemma ChannelDisabledMeansAllDead(sh: Shared, pr: Proc, env: Env)
    requires pr.RDecide? && Cid(pr) in sh.db.channels && sh.db.channels[Cid(pr)].info.isMultiKey
    ensures var (sh', pr') := ProcStep(sh, pr, env);
            && pr'.RUnlock?
            && ((pr'.out.Answer? && pr'.out.action == ChannelDisabled) <==>
                 (&& !pr.r.success
                  && ShouldDisable(env.settings, AutoBan(pr.ch), pr.r.statusCode, pr.r.lowered)
                  && env.reply.Delivered? && 0 <= pr.idx < |sh.db.channels[Cid(pr)].keys|
                  && !SomeKeyEnabled(sh'.db.channels[Cid(pr)])))
            && (pr'.out.Answer? && pr'.out.action == ChannelDisabled ==>
                  pr'.out.channelStatus == AUTO_DISABLED == sh'.db.channels[Cid(pr)].status
                  && AbilitiesAre(sh'.db, Cid(pr), false))
  {
    var d := Decision(pr.r, pr.idx, pr.ch, env.settings);
    if d.Some? {
      var res := Apply(sh.db, Cid(pr), pr.idx, d.value.0, d.value.1, env.now);
      if res.Applied? {
        ApplyReportsRecomputation(sh.db, Cid(pr), pr.idx, d.value.0, d.value.1, env.now);
      }
    }
  }

  // ----- counters of answers -----

  function Answered(pr: Proc): Option<Action> {
    match pr
    case RUnlock(_, _, _, out) => if out.Answer? then Some(out.action) else None
    case SUnlock(_, _, out) => if out.Answer? then Some(out.action) else None
    case Done(_, out) => if out.Answer? then Some(out.action) else None
    case _ => None
  }

  ghost function Answering(w: World, a: Action): set<nat> {
    set p | p in w.procs && Answered(w.procs[p]) == Some(a)
  }

  function MetricOf(sh: Shared, a: Action): nat {
    Counter(sh.metrics, a)
  }

  /** A step counts an action exactly when it brings the caller to an answer. */
  ghost predicate MovesMetric(sh: Shared, pr: Proc, env: Env)
  {
    var (sh', pr') := ProcStep(sh, pr, env);
    if Answered(pr).Some? then sh'.metrics == sh.metrics && Answered(pr') == Answered(pr)
    else sh'.metrics == if Answered(pr').Some? then Bump(sh.metrics, Answered(pr').value) else sh.metrics
  }

  lemma StepMetricEarly(sh: Shared, pr: Proc, env: Env)
    requires Early(pr) && WellFormed(pr)
    ensures MovesMetric(sh, pr, env)
  {
  }

  lemma StepMetricLate(sh: Shared, pr: Proc, env: Env)
    requires Late(pr) && WellFormed(pr)
    ensures MovesMetric(sh, pr, env)
  {
  }

  lemma StepMetricReport(sh: Shared, pr: Proc, env: Env)
    requires pr.RDecide? && WellFormed(pr)
    ensures MovesMetric(sh, pr, env)
  {
  }

  lemma StepMetricWriting(sh: Shared, pr: Proc, env: Env)
    requires Writing(pr) && !pr.RDecide? && WellFormed(pr)
    ensures MovesMetric(sh, pr, env)
  {
  }

  lemma StepMetricOther(sh: Shared, pr: Proc, env: Env)
    requires Other(pr) && WellFormed(pr)
    ensures MovesMetric(sh, pr, env)
  {
  }

  lemma StepMetric(sh: Shared, pr: Proc, env: Env)
    requires WellFormed(pr)
    ensures MovesMetric(sh, pr, env)
  {
    if Early(pr) {
      StepMetricEarly(sh, pr, env);
    } else if Late(pr) {
      StepMetricLate(sh, pr, env);
    } else if pr.RDecide? {
      StepMetricReport(sh, pr, env);
    } else if Writing(pr) {
      StepMetricWriting(sh, pr, env);
    } else {
      StepMetricOther(sh, pr, env);
    }
  }

  lemma StepCountsAnswers(w: World, s: Step, a: Action)
    requires forall p :: p in w.procs ==> WellFormed(w.procs[p])
    ensures MetricOf(Next(w, s).sh, a) - MetricOf(w.sh, a) == |Answering(Next(w, s), a)| - |Answering(w, a)|
  {
    var w' := Next(w, s);
    if s.Run? && s.p in w.procs {
      StepMetric(w.sh, w.procs[s.p], s.env);
      assert Answering(w, a) - {s.p} == Answering(w', a) - {s.p};
      SizeOfOneChange(Answering(w, a), Answering(w', a), s.p);
    } else {
      assert Answering(w', a) == Answering(w, a);
    }
  }

  lemma SizeOfOneChange(a: set<nat>, b: set<nat>, p: nat)
    requires a - {p} == b - {p}
    ensures |b| - |a| == (if p in b then 1 else 0) - (if p in a then 1 else 0)
  {
    var others := a - {p};
    assert a == if p in a then others + {p} else others;
    assert b == if p in b then others + {p} else others;
  }

  lemma {:induction false} RunsKeepWellFormed(w: World, steps: seq<Step>)
    requires w.procs == map[]
    ensures forall p :: p in Exec(w, steps).procs ==> WellFormed(Exec(w, steps).procs[p])
  {
    if steps != [] {
      var prefix, s := steps[..|steps| - 1], steps[|steps| - 1];
      RunsKeepWellFormed(w, prefix);
      var before := Exec(w, prefix);
      if s.Run? && s.p in before.procs {
        StepClaim(before.sh, before.procs[s.p], s.env);
      }
    }
  }

  /** At every moment each action counter has grown by the number of callers given that action. */
  lemma {:induction false} MetricsCountAnswers(w: World, steps: seq<Step>, a: Action)
    requires w.procs == map[]
    ensures MetricOf(Exec(w, steps).sh, a) == MetricOf(w.sh, a) + |Answering(Exec(w, steps), a)|
  {
    if steps == [] {
      assert Answering(w, a) == {};
    } else {
      var prefix, s := steps[..|steps| - 1], steps[|steps| - 1];
      MetricsCountAnswers(w, prefix, a);
      RunsKeepWellFormed(w, prefix);
      StepCountsAnswers(Exec(w, prefix), s, a);
    }
  }
}

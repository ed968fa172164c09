/**
 * What it costs when a lock or an idempotency key expires under the caller that relies on it:
 * the exact states in which a report overrides a manual disabling, and in which a second report
 * is accepted under one key.
 */
module Expiry {
  import opened Common
  import opened ChannelModel
  import opened Protocol
  import opened Runs
  import opened Safety

  // ----- a report about to enable an auto-disabled key -----

  /** Caller p has read the key as auto-disabled and is about to decide on a success. */
  ghost predicate AboutToEnable(w: World, p: nat) {
    && p in w.procs && w.procs[p].RDecide? && w.procs[p].r.success
    && var pr := w.procs[p];
       && PrevStatus(pr.ch, pr.idx) == AUTO_DISABLED
       && Cid(pr) in w.sh.db.channels
       && 0 <= pr.idx < |w.sh.db.channels[Cid(pr)].keys| && Addressable(w.sh.db.channels[Cid(pr)], pr.idx)
  }

  ghost predicate OwnsLock(w: World, p: nat)
    requires p in w.procs && w.procs[p].RDecide?
  {
    Cid(w.procs[p]) in w.sh.locks && w.sh.locks[Cid(w.procs[p])] == w.procs[p].token
  }

  /** A manual disabling of the same key that is past the lock, whether its lock is still there or not. */
  predicate Rival(pr: Proc, q: Proc)
    requires pr.RDecide?
  {
    (q.SReread? || q.SApply?) && Cid(q) == Cid(pr) && q.idx == pr.idx && q.status == MANUALLY_DISABLED
  }

  ghost predicate HasRival(w: World, p: nat)
    requires p in w.procs && w.procs[p].RDecide?
  {
    exists q :: q in w.procs && Rival(w.procs[p], w.procs[q])
  }

  /** Caller p takes no step, and a lock that is its own does not expire. */
  ghost predicate Waits(w: World, s: Step, p: nat) {
    && (s.Run? ==> s.p != p)
    && (s.ExpireLock? && p in w.procs && w.procs[p].RDecide? && s.cid == Cid(w.procs[p]) ==> !OwnsLock(w, p))
  }

  ghost predicate WaitsThrough(w: World, steps: seq<Step>, p: nat) {
    steps != [] ==>
      WaitsThrough(w, steps[..|steps| - 1], p) && Waits(Exec(w, steps[..|steps| - 1]), steps[|steps| - 1], p)
  }

  /** After the steps, p's next step turns the key from manually disabled into enabled. */
  ghost predicate Overrides(w: World, steps: seq<Step>, p: nat, env: Env)
    requires AboutToEnable(w, p)
  {
    var cid, idx := Cid(w.procs[p]), w.procs[p].idx;
    var now := Exec(w, steps);
    var later := Next(now, Run(p, env));
    && WaitsThrough(w, steps, p)
    && cid in now.sh.db.channels && StatusOf(now.sh.db, cid, idx) == MANUALLY_DISABLED
    && cid in later.sh.db.channels && StatusOf(later.sh.db, cid, idx) == ENABLED
  }

  /** What the lock is for: no manual disabling of the key is past it, and the key is not disabled so. */
  ghost predicate Shielded(w: World, p: nat, pr: Proc) {
    && p in w.procs && w.procs[p] == pr && pr.RDecide? && OwnsLock(w, p) && !HasRival(w, p)
    && Cid(pr) in w.sh.db.channels && Addressable(w.sh.db.channels[Cid(pr)], pr.idx)
    && StatusOf(w.sh.db, Cid(pr), pr.idx) != MANUALLY_DISABLED
  }

  /** Only a caller that takes the lock becomes a rival. */
  lemma NewRivals(sh: Shared, pr: Proc, q: Proc, env: Env)
    requires pr.RDecide? && !Rival(pr, q) && Rival(pr, ProcStep(sh, q, env).1)
    ensures q.SStart? && Cid(q) == Cid(pr) && Cid(pr) !in sh.locks
  {
  }

  /** The only way to be disabled by hand is a rival's write. */
  lemma DisabledByRival(sh: Shared, pr: Proc, q: Proc, env: Env)
    requires pr.RDecide? && !Rival(pr, q) && Cid(pr) in sh.db.channels && Addressable(sh.db.channels[Cid(pr)], pr.idx)
    requires StatusOf(sh.db, Cid(pr), pr.idx) != MANUALLY_DISABLED
    ensures var db' := ProcStep(sh, q, env).0.db;
            Cid(pr) in db'.channels && StatusOf(db', Cid(pr), pr.idx) != MANUALLY_DISABLED
  {
    StatusAfterStep(sh, q, env, Cid(pr), pr.idx);
  }

  lemma StepKeepsShielded(w: World, s: Step, p: nat, pr: Proc)
    requires TokensDistinct(w) && Shielded(w, p, pr) && Waits(w, s, p)
    ensures Shielded(Next(w, s), p, pr)
  {
    StepKeepsKeyColumns(w, s);
    if s.Run? && s.p in w.procs {
      var q := w.procs[s.p];
      StepLock(w.sh, q, s.env);
      DisabledByRival(w.sh, pr, q, s.env);
      if Rival(pr, ProcStep(w.sh, q, s.env).1) {
        NewRivals(w.sh, pr, q, s.env);
        assert false;
      }
    }
  }

  lemma {:induction false} RunsKeepShielded(w: World, steps: seq<Step>, p: nat, pr: Proc)
    requires TokensDistinct(w) && Shielded(w, p, pr) && WaitsThrough(w, steps, p)
    ensures TokensDistinct(Exec(w, steps)) && Shielded(Exec(w, steps), p, pr)
  {
    if steps != [] {
      var prefix, s := steps[..|steps| - 1], steps[|steps| - 1];
      RunsKeepShielded(w, prefix, p, pr);
      StepKeepsTokensDistinct(Exec(w, prefix), s);
      StepKeepsShielded(Exec(w, prefix), s, p, pr);
    }
  }

  lemma WaitsSnoc(w: World, steps: seq<Step>, s: Step, p: nat)
    requires WaitsThrough(w, steps, p) && Waits(Exec(w, steps), s, p)
    ensures WaitsThrough(w, steps + [s], p) && Exec(w, steps + [s]) == Next(Exec(w, steps), s)
  {
    assert (steps + [s])[..|steps|] == steps;
  }

  // The other caller: a manual change that takes the free lock.

  lemma TakesLock(w: World, q: nat, cid: int, idx: int)
    requires q in w.procs && w.procs[q] == SStart(cid, idx, MANUALLY_DISABLED, "") && idx >= 0 && cid !in w.sh.locks
    ensures Next(w, Run(q, OK))
            == World(w.sh.(nextId := w.sh.nextId + 1, locks := w.sh.locks[cid := w.sh.nextId]),
                     w.procs[q := SReread(cid, idx, MANUALLY_DISABLED, "", w.sh.nextId)])
  {
  }

  lemma Rereads(w: World, q: nat, cid: int, idx: int, token: nat)
    requires q in w.procs && w.procs[q] == SReread(cid, idx, MANUALLY_DISABLED, "", token)
    requires cid in w.sh.db.channels && 0 <= idx < |w.sh.db.channels[cid].keys|
    ensures Next(w, Run(q, OK)) == World(w.sh, w.procs[q := SApply(cid, idx, MANUALLY_DISABLED, "", token, w.sh.db.channels[cid])])
  {
  }

  lemma Disables(w: World, q: nat, idx: int)
    requires q in w.procs && w.procs[q].SApply? && w.procs[q].status == MANUALLY_DISABLED && w.procs[q].idx == idx
    requires Cid(w.procs[q]) in w.sh.db.channels && Addressable(w.sh.db.channels[Cid(w.procs[q])], idx)
    ensures var cid, w' := Cid(w.procs[q]), Next(w, Run(q, OK));
            && cid in w'.sh.db.channels && StatusOf(w'.sh.db, cid, idx) == MANUALLY_DISABLED
            && w'.procs == w.procs[q := w'.procs[q]] && SameKeyColumns(w.sh.db, w'.sh.db)
  {
    StatusAfterStep(w.sh, w.procs[q], OK, Cid(w.procs[q]), idx);
    StepKeepsKeyColumns(w, Run(q, OK));
  }

  /** The change has taken the lock and read the row. */
  function Changing(w: World, q: nat, cid: int, idx: int): World
    requires cid in w.sh.db.channels
  {
    World(w.sh.(nextId := w.sh.nextId + 1, locks := w.sh.locks[cid := w.sh.nextId]),
          w.procs[q := SApply(cid, idx, MANUALLY_DISABLED, "", w.sh.nextId, w.sh.db.channels[cid])])
  }

  lemma ReachesChange(w: World, p: nat, q: nat, cid: int, idx: int) returns (steps: seq<Step>)
    requires p in w.procs && q !in w.procs && cid in w.sh.db.channels && 0 <= idx < |w.sh.db.channels[cid].keys|
    requires cid !in w.sh.locks
    ensures WaitsThrough(w, steps, p) && Exec(w, steps) == Changing(w, q, cid, idx)
    ensures forall i :: 0 <= i < |steps| ==> !steps[i].ExpireLock?
  {
    var start := SStart(cid, idx, MANUALLY_DISABLED, "");
    var spawned := World(w.sh, w.procs[q := start]);
    NoStepsWait(w, p);
    WaitsSnoc(w, [], Spawn(q, start), p);
    TakesLock(spawned, q, cid, idx);
    WaitsSnoc(w, [] + [Spawn(q, start)], Run(q, OK), p);
    var locked := Next(spawned, Run(q, OK));
    Rereads(locked, q, cid, idx, w.sh.nextId);
    WaitsSnoc(w, [] + [Spawn(q, start)] + [Run(q, OK)], Run(q, OK), p);
    steps := [] + [Spawn(q, start)] + [Run(q, OK)] + [Run(q, OK)];
    assert Changing(w, q, cid, idx).procs
           == spawned.procs[q := locked.procs[q]][q := SApply(cid, idx, MANUALLY_DISABLED, "", w.sh.nextId, w.sh.db.channels[cid])];
  }

  /** With the lock free, a manual change comes in between and p then overrides it. */
  lemma FreeLockOverrides(w: World, p: nat) returns (steps: seq<Step>)
    requires AboutToEnable(w, p) && Cid(w.procs[p]) !in w.sh.locks
    ensures Overrides(w, steps, p, OK)
    ensures forall i :: 0 <= i < |steps| ==> !steps[i].ExpireLock?
  {
    var pr := w.procs[p];
    var cid, idx := Cid(pr), pr.idx;
    var q := Unused(w.procs.Keys);
    steps := ReachesChange(w, p, q, cid, idx);
    var read := Changing(w, q, cid, idx);
    Disables(read, q, idx);
    WaitsSnoc(w, steps, Run(q, OK), p);
    Enables(Next(read, Run(q, OK)), p, pr);
    steps := steps + [Run(q, OK)];
  }

  /** Whatever happened to the row, p acts on what it read. */
  lemma Enables(w: World, p: nat, pr: Proc)
    requires p in w.procs && w.procs[p] == pr && pr.RDecide? && pr.r.success && PrevStatus(pr.ch, pr.idx) == AUTO_DISABLED
    requires Cid(pr) in w.sh.db.channels && Addressable(w.sh.db.channels[Cid(pr)], pr.idx)
    ensures var db' := Next(w, Run(p, OK)).sh.db;
            Cid(pr) in db'.channels && StatusOf(db', Cid(pr), pr.idx) == ENABLED
  {
    StatusAfterStep(w.sh, pr, OK, Cid(pr), pr.idx);
  }

  /** A lock that is not p's own may expire first. */
  lemma LostLockOverrides(w: World, p: nat) returns (steps: seq<Step>)
    requires AboutToEnable(w, p) && !OwnsLock(w, p)
    ensures Overrides(w, steps, p, OK)
  {
    var cid := Cid(w.procs[p]);
    if cid !in w.sh.locks {
      steps := FreeLockOverrides(w, p);
    } else {
      var freed := Next(w, ExpireLock(cid));
      var rest := FreeLockOverrides(freed, p);
      NoStepsWait(w, p);
      WaitsSnoc(w, [], ExpireLock(cid), p);
      WaitsCat(w, [] + [ExpireLock(cid)], rest, p);
      ExecCat(w, [] + [ExpireLock(cid)], rest);
      steps := [] + [ExpireLock(cid)] + rest;
    }
  }

  lemma {:induction false} WaiterStays(w: World, steps: seq<Step>, p: nat)
    requires p in w.procs && WaitsThrough(w, steps, p)
    ensures p in Exec(w, steps).procs && Exec(w, steps).procs[p] == w.procs[p]
  {
    if steps != [] {
      WaiterStays(w, steps[..|steps| - 1], p);
    }
  }

  lemma NoStepsWait(w: World, p: nat)
    ensures WaitsThrough(w, [], p) && Exec(w, []) == w
  {
  }

  lemma {:induction false} WaitsCat(w: World, a: seq<Step>, b: seq<Step>, p: nat)
    requires WaitsThrough(w, a, p) && WaitsThrough(Exec(w, a), b, p)
    ensures WaitsThrough(w, a + b, p)
  {
    if b == [] {
      assert a + b == a;
    } else {
      var b', s := b[..|b| - 1], b[|b| - 1];
      WaitsCat(w, a, b', p);
      ExecCat(w, a, b');
      WaitsSnoc(w, a + b', s, p);
      assert a + b == a + b' + [s];
    }
  }

  /** A rival need not look at the lock any more: it finishes, and p then overrides it. */
  lemma RivalOverrides(w: World, p: nat, q: nat) returns (steps: seq<Step>)
    requires AboutToEnable(w, p) && q in w.procs && Rival(w.procs[p], w.procs[q])
    ensures Overrides(w, steps, p, OK)
  {
    var pr, idx := w.procs[p], w.procs[p].idx;
    NoStepsWait(w, p);
    if w.procs[q].SApply? {
      Disables(w, q, idx);
      WaitsSnoc(w, [], Run(q, OK), p);
      Enables(Next(w, Run(q, OK)), p, pr);
      steps := [] + [Run(q, OK)];
    } else {
      RivalReads(w, q);
      var read := Next(w, Run(q, OK));
      WaitsSnoc(w, [], Run(q, OK), p);
      Disables(read, q, idx);
      WaitsSnoc(w, [] + [Run(q, OK)], Run(q, OK), p);
      Enables(Next(read, Run(q, OK)), p, pr);
      steps := [] + [Run(q, OK)] + [Run(q, OK)];
    }
  }

  lemma RivalReads(w: World, q: nat)
    requires q in w.procs && w.procs[q].SReread? && w.procs[q].cid in w.sh.db.channels
    requires 0 <= w.procs[q].idx < |w.sh.db.channels[w.procs[q].cid].keys|
    ensures var pr := w.procs[q];
            Next(w, Run(q, OK))
            == World(w.sh, w.procs[q := SApply(pr.cid, pr.idx, pr.status, pr.reason, pr.token, w.sh.db.channels[pr.cid])])
  {
  }

  /** A key that is disabled by hand already is overridden at once. */
  lemma DisabledOverrides(w: World, p: nat)
    requires AboutToEnable(w, p) && StatusOf(w.sh.db, Cid(w.procs[p]), w.procs[p].idx) == MANUALLY_DISABLED
    ensures Overrides(w, [], p, OK)
  {
    NoStepsWait(w, p);
    Enables(w, p, w.procs[p]);
  }

  /**
   * Exactly when a report can override a manual disabling, in every state in which it has read
   * the key as auto-disabled and is about to decide on a success: a run on which it waits, with
   * its own lock not expiring, and then enables a manually disabled key exists if and only if
   * the key is disabled by hand now, or the lock is not the report's own, or a manual disabling
   * of the key that took the lock earlier is still to be written.
   */
  lemma OverridesIff(w: World, p: nat)
    requires TokensDistinct(w) && AboutToEnable(w, p)
    ensures (exists steps, env :: Overrides(w, steps, p, env))
            <==> StatusOf(w.sh.db, Cid(w.procs[p]), w.procs[p].idx) == MANUALLY_DISABLED || !OwnsLock(w, p) || HasRival(w, p)
  {
    if StatusOf(w.sh.db, Cid(w.procs[p]), w.procs[p].idx) == MANUALLY_DISABLED {
      DisabledOverrides(w, p);
    } else if !OwnsLock(w, p) {
      var steps := LostLockOverrides(w, p);
    } else if HasRival(w, p) {
      var q :| q in w.procs && Rival(w.procs[p], w.procs[q]);
      var steps := RivalOverrides(w, p, q);
    } else {
      forall steps, env
        ensures !Overrides(w, steps, p, env)
      {
        if WaitsThrough(w, steps, p) {
          RunsKeepShielded(w, steps, p, w.procs[p]);
        }
      }
    }
  }

  /**
   * So over runs in which no lock expires under its holder, nobody overrides: a report that is
   * about to enable reads the current row, owns its lock and has no rival.
   */
  lemma HoldersNeverOverride(w: World, steps: seq<Step>, p: nat, more: seq<Step>, env: Env)
    requires Quiet(w) && LocksOutlast(w, steps) && AboutToEnable(Exec(w, steps), p)
    ensures OwnsLock(Exec(w, steps), p) && !HasRival(Exec(w, steps), p) && !Overrides(Exec(w, steps), more, p, env)
  {
    RunsKeepLock(w, steps);
    OverridesIff(Exec(w, steps), p);
  }

  // ----- a second report accepted under one key -----

  lemma StepKeepsDone(w: World, s: Step, p: nat)
    requires p in w.procs && w.procs[p].Done?
    ensures p in Next(w, s).procs && Next(w, s).procs[p] == w.procs[p]
  {
  }

  lemma {:induction false} RunsKeepDone(w: World, steps: seq<Step>, p: nat)
    requires p in w.procs && w.procs[p].Done?
    ensures p in Exec(w, steps).procs && Exec(w, steps).procs[p] == w.procs[p]
  {
    if steps != [] {
      RunsKeepDone(w, steps[..|steps| - 1], p);
      StepKeepsDone(Exec(w, steps[..|steps| - 1]), steps[|steps| - 1], p);
    }
  }

  lemma {:induction false} NeverIsOutlasting(w: World, steps: seq<Step>, key: string)
    requires NeverExpires(steps, key)
    ensures KeyOutlastsClaims(w, steps, key)
  {
    if steps != [] {
      NeverIsOutlasting(w, steps[..|steps| - 1], key);
    }
  }

  /** Another report than p's has been accepted under the key, which did not expire on the way. */
  ghost predicate AcceptedAgain(w: World, steps: seq<Step>, p: nat, q: nat, key: string) {
    && NeverExpires(steps, key) && q != p
    && q in Exec(w, steps).procs && AcceptedAs(Exec(w, steps).procs[q], key)
  }

  /** A report of an older key list is accepted without touching anything else. */
  function StaleReport(cid: int, epoch: string, key: string): ReportReq {
    ReportReq(None, cid, None, "", epoch + "x", true, 200, "", "", None, key)
  }

  lemma UnsetKeyAccepts(w: World, p: nat, key: string, cid: int) returns (steps: seq<Step>, q: nat)
    requires key != "" && key !in w.sh.idem && cid in w.sh.db.channels && p in w.procs
    ensures AcceptedAgain(w, steps, p, q, key)
  {
    var ch := w.sh.db.channels[cid];
    var r := StaleReport(cid, ch.epoch, key);
    q := Unused(w.procs.Keys);
    var s1, s2 := Spawn(q, RStart(r)), Run(q, OK);
    ExecSnoc(w, [], s1);
    ExecSnoc(w, [] + [s1], s2);
    ExecSnoc(w, [] + [s1] + [s2], s2);
    steps := [] + [s1] + [s2] + [s2];
    var started := World(w.sh, w.procs[q := RStart(r)]);
    assert Exec(w, []) == w && Next(w, s1) == started;
    StartsHeld(started, q, r);
    AnswersStale(Next(started, s2), q, r);
  }

  lemma StartsHeld(w: World, q: nat, r: ReportReq)
    requires q in w.procs && w.procs[q] == RStart(r) && r.idemKey != "" && r.idemKey !in w.sh.idem
    ensures Next(w, Run(q, OK)) == World(w.sh.(idem := w.sh.idem + {r.idemKey}), w.procs[q := RLoad(r, true)])
  {
  }

  lemma AnswersStale(w: World, q: nat, r: ReportReq)
    requires q in w.procs && w.procs[q] == RLoad(r, true) && r.channelId in w.sh.db.channels
    requires r.epoch != "" && r.epoch != w.sh.db.channels[r.channelId].epoch
    ensures q in Next(w, Run(q, OK)).procs
    ensures Next(w, Run(q, OK)).procs[q] == Done(r.idemKey, Answer(StaleEpochIgnored, w.sh.db.channels[r.channelId].status))
  {
  }

  // A claimant that meets nothing but calls that are not carried out.

  function Distance(pr: Proc): nat {
    match pr
    case RLoad(_, _) => 3
    case RLease(_, _, _, _) => 3
    case RIncr(_, _, _, _, _) => 3
    case RLock(_, _, _) => 3
    case RReread(_, _, _, _) => 3
    case RDecide(_, _, _, _, _) => 3
    case RUnlock(_, _, _, _) => 2
    case RRollback(_, _) => 1
    case _ => 0
  }

  lemma ClaimantFails(sh: Shared, pr: Proc, key: string)
    requires key != "" && WellFormed(pr) && Claim(pr) == key && Distance(pr) >= 2
    ensures var (sh', pr') := ProcStep(sh, pr, FAILING);
            && sh'.db.channels.Keys == sh.db.channels.Keys
            && WellFormed(pr') && Claim(pr') == key && Distance(pr') < Distance(pr)
  {
  }

  lemma ClaimantEnds(sh: Shared, pr: Proc, key: string)
    requires WellFormed(pr) && Claim(pr) == key != "" && Distance(pr) == 0
    ensures AcceptedAs(pr, key)
  {
  }

  lemma RollbackFrees(w: World, q: nat, key: string)
    requires q in w.procs && w.procs[q].RRollback? && w.procs[q].r.idemKey == key
    ensures key !in Next(w, Run(q, OK)).sh.idem && Next(w, Run(q, OK)).sh.db == w.sh.db
  {
  }

  lemma AgainAfter(w: World, s: Step, rest: seq<Step>, p: nat, q: nat, key: string)
    requires s != ExpireIdem(key) && AcceptedAgain(Next(w, s), rest, p, q, key)
    ensures AcceptedAgain(w, [s] + rest, p, q, key)
  {
    ExecSnoc(w, [], s);
    assert [] + [s] == [s];
    ExecCat(w, [s], rest);
  }

  /** Another claimant is accepted, or gives the key back to one that is. */
  lemma {:induction false} ClaimantLeadsOn(w: World, p: nat, q: nat, key: string, cid: int) returns (steps: seq<Step>, a: nat)
    requires key != "" && p in w.procs && q in w.procs && p != q && cid in w.sh.db.channels
    requires WellFormed(w.procs[q]) && Claim(w.procs[q]) == key
    ensures AcceptedAgain(w, steps, p, a, key)
    decreases Distance(w.procs[q])
  {
    var pr := w.procs[q];
    if Distance(pr) == 0 {
      ClaimantEnds(w.sh, pr, key);
      steps, a := [], q;
    } else if pr.RRollback? {
      RollbackFrees(w, q, key);
      steps, a := UnsetKeyAccepts(Next(w, Run(q, OK)), p, key, cid);
      AgainAfter(w, Run(q, OK), steps, p, a, key);
      steps := [Run(q, OK)] + steps;
    } else {
      ClaimantFails(w.sh, pr, key);
      steps, a := ClaimantLeadsOn(Next(w, Run(q, FAILING)), p, q, key, cid);
      AgainAfter(w, Run(q, FAILING), steps, p, a, key);
      steps := [Run(q, FAILING)] + steps;
    }
  }

  /**
   * Exactly when a second report can be accepted under a key, in every state in which one was:
   * a run that accepts another, without the key expiring on the way, exists if and only if the
   * key is not set any more or another report claims it by now.
   */
  lemma AcceptedAgainIff(w: World, p: nat, key: string)
    requires key != "" && p in w.procs && AcceptedAs(w.procs[p], key) && exists cid :: cid in w.sh.db.channels
    requires forall q :: q in w.procs ==> WellFormed(w.procs[q])
    ensures (exists steps, q :: AcceptedAgain(w, steps, p, q, key))
            <==> key !in w.sh.idem || exists q :: q in w.procs && q != p && Claim(w.procs[q]) == key
  {
    var cid :| cid in w.sh.db.channels;
    if key !in w.sh.idem {
      var steps, q := UnsetKeyAccepts(w, p, key, cid);
    } else if q :| q in w.procs && q != p && Claim(w.procs[q]) == key {
      var steps, a := ClaimantLeadsOn(w, p, q, key, cid);
    } else {
      forall steps, q
        ensures !AcceptedAgain(w, steps, p, q, key)
      {
        if NeverExpires(steps, key) {
          NeverIsOutlasting(w, steps, key);
          RunsKeepClaims(w, steps, key);
          RunsKeepDone(w, steps, p);
        }
      }
    }
  }
}

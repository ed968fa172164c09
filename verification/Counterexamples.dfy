/** Runs that show which hypotheses of the safety and ledger results cannot be dropped. */
module Counterexamples {
  import opened Common
  import opened ChannelModel
  import opened SettingsModel
  import opened Protocol
  import opened Runs
  import opened Safety
  import Expiry
  import Manager

  /** The states a run passes through, written out. */
  ghost predicate Path(ws: seq<World>, steps: seq<Step>) {
    |ws| == |steps| + 1 && forall i :: 0 <= i < |steps| ==> Leads(ws[i], steps[i], ws[i + 1])
  }

  ghost predicate Leads(w: World, s: Step, w': World) {
    w'.sh == Next(w, s).sh && w'.procs == Next(w, s).procs
  }

  lemma {:induction false} PathIsRun(ws: seq<World>, steps: seq<Step>)
    requires Path(ws, steps)
    ensures Exec(ws[0], steps) == ws[|steps|]
  {
    if steps != [] {
      var n := |steps| - 1;
      assert forall i :: 0 <= i < n ==> Leads(ws[..n + 1][i], steps[..n][i], ws[..n + 1][i + 1]);
      PathIsRun(ws[..n + 1], steps[..n]);
      assert Leads(ws[n], steps[n], ws[n + 1]);
    }
  }

  const SUCCESS: ReportReq := ReportReq(None, 1, Some(0), "", "", true, 200, "", "", None, "")

  /** A channel with two keys; status is that of the first, the second is enabled. */
  function TwoKeys(entry: map<int, int>, reason: map<int, string>, time: map<int, int>): Channel {
    Channel(1, ["a", "b"], "e", ENABLED, None, map[], ChannelInfo(true, entry, reason, time, "polling"))
  }

  const AUTO: Channel := TwoKeys(map[0 := AUTO_DISABLED], map[0 := "quota"], map[0 := 1])

  function At(ch: Channel, locks: map<int, nat>, nextId: nat, metrics: map<Action, nat>, procs: map<nat, Proc>): World {
    World(Shared(Database(map[1 := ch], map[]), {}, locks, map[], map[], nextId, metrics), procs)
  }

  function Reporting(report: Proc): World { At(AUTO, map[], 0, map[], map[0 := report]) }

  const DECIDING: Proc := RDecide(SUCCESS, false, 0, 0, AUTO)

  lemma LoadLink()
    ensures Leads(Reporting(RLoad(SUCCESS, false)), Run(0, OK), Reporting(RLock(SUCCESS, false, 0)))
  {
  }

  lemma LockLink()
    ensures Leads(Reporting(RLock(SUCCESS, false, 0)), Run(0, OK),
                  At(AUTO, map[1 := 0], 1, map[], map[0 := RReread(SUCCESS, false, 0, 0)]))
  {
  }

  lemma RereadLink()
    ensures Leads(At(AUTO, map[1 := 0], 1, map[], map[0 := RReread(SUCCESS, false, 0, 0)]), Run(0, OK),
                  At(AUTO, map[1 := 0], 1, map[], map[0 := DECIDING]))
  {
  }

  lemma ExpireLink()
    ensures Leads(At(AUTO, map[1 := 0], 1, map[], map[0 := DECIDING]), ExpireLock(1),
                  At(AUTO, map[], 1, map[], map[0 := DECIDING]))
  {
  }

  lemma Join(ws: seq<World>, steps: seq<Step>, ws': seq<World>, steps': seq<Step>)
    requires Path(ws, steps) && Path(ws', steps') && ws[|steps|] == ws'[0]
    ensures Path(ws + ws'[1..], steps + steps')
  {
    var vs, ts := ws + ws'[1..], steps + steps';
    forall i | 0 <= i < |ts|
      ensures Leads(vs[i], ts[i], vs[i + 1])
    {
      if i < |steps| {
        assert Leads(ws[i], steps[i], ws[i + 1]);
      } else {
        assert vs[i] == ws'[i - |steps|] && vs[i + 1] == ws'[i - |steps| + 1];
        assert Leads(ws'[i - |steps|], steps'[i - |steps|], ws'[i - |steps| + 1]);
      }
    }
  }

  const QUIET: World := At(AUTO, map[], 0, map[], map[])
  const EXPIRED: World := At(AUTO, map[], 1, map[], map[0 := DECIDING])

  lemma ReportPath() returns (ws: seq<World>, steps: seq<Step>)
    ensures Path(ws, steps) && ws[0] == QUIET && ws[|steps|] == EXPIRED
  {
    ws := [QUIET, Reporting(RStart(SUCCESS)), Reporting(RLoad(SUCCESS, false)), Reporting(RLock(SUCCESS, false, 0)),
           At(AUTO, map[1 := 0], 1, map[], map[0 := RReread(SUCCESS, false, 0, 0)]),
           At(AUTO, map[1 := 0], 1, map[], map[0 := DECIDING]), EXPIRED];
    steps := [Spawn(0, RStart(SUCCESS)), Run(0, OK), Run(0, OK), Run(0, OK), Run(0, OK), ExpireLock(1)];
    LoadLink();
    LockLink();
    RereadLink();
    ExpireLink();
  }

  /**
   * An instance of the exact condition: the lock expires between the re-read and the write, and
   * the report turns a key that was manually disabled meanwhile back on.
   */
  lemma ExpiredLockLetsReportOverrideManual() returns (w: World, steps: seq<Step>, s: Step)
    ensures Quiet(w) && AllConsistent(w.sh.db)
    ensures var now, later := Exec(w, steps), Next(Exec(w, steps), s);
            && 1 in now.sh.db.channels && 1 in later.sh.db.channels
            && StatusOf(now.sh.db, 1, 0) == MANUALLY_DISABLED && StatusOf(later.sh.db, 1, 0) == ENABLED
            && s.Run? && s.p in now.procs && now.procs[s.p].RDecide?
  {
    w, s := QUIET, Run(0, OK);
    assert EnabledAt(2, AUTO.info.statusList, 1);
    var ws1, steps1 := ReportPath();
    PathIsRun(ws1, steps1);
    var steps2 := Expiry.FreeLockOverrides(EXPIRED, 0);
    steps := steps1 + steps2;
    ExecCat(QUIET, steps1, steps2);
    Expiry.WaiterStays(EXPIRED, steps2, 0);
  }

  // ----- decay -----

  const SETTLE: ReportReq := SUCCESS.(leaseId := Some(0), usage := Some(Usage(0.0, 0.0, 0.0)))

  function Charged(leases: map<nat, Lease>, nextId: nat, counter: real, procs: map<nat, Proc>): World {
    var w := At(AUTO, map[], nextId, map[], procs);
    w.(sh := w.sh.(leases := leases, usage := map[(1, 0) := counter]))
  }

  const LEASE: Lease := Lease(10.0, 1, 0)
  const SERVED: Proc := Done("", Served(1, 0))

  lemma SelectLinks()
    ensures Leads(QUIET, Spawn(0, KSelect(1, 0, 10.0, None)), At(AUTO, map[], 0, map[], map[0 := KSelect(1, 0, 10.0, None)]))
    ensures Leads(At(AUTO, map[], 0, map[], map[0 := KSelect(1, 0, 10.0, None)]), Run(0, OK),
                  Charged(map[], 0, 10.0, map[0 := KLease(1, 0, 10.0)]))
  {
  }

  lemma IssueLink()
    ensures Leads(Charged(map[], 0, 10.0, map[0 := KLease(1, 0, 10.0)]), Run(0, OK), Charged(map[0 := LEASE], 1, 10.0, map[0 := SERVED]))
  {
  }

  lemma DecayLinks()
    ensures Leads(Charged(map[0 := LEASE], 1, 10.0, map[0 := SERVED]), Spawn(1, KSelect(1, 0, 0.0, Some(0.5))),
                  Charged(map[0 := LEASE], 1, 10.0, map[0 := SERVED, 1 := KSelect(1, 0, 0.0, Some(0.5))]))
    ensures Leads(Charged(map[0 := LEASE], 1, 10.0, map[0 := SERVED, 1 := KSelect(1, 0, 0.0, Some(0.5))]), Run(1, OK),
                  Charged(map[0 := LEASE], 1, 5.0, map[0 := SERVED, 1 := SERVED]))
  {
    assert Decay(map[(1, 0) := 10.0], 1, 0.5) == map[(1, 0) := 5.0];
  }

  function Settling(leases: map<nat, Lease>, counter: real, report: Proc): World {
    Charged(leases, 1, counter, map[0 := SERVED, 1 := SERVED, 2 := report])
  }

  lemma SettleStartLinks()
    ensures Leads(Charged(map[0 := LEASE], 1, 5.0, map[0 := SERVED, 1 := SERVED]), Spawn(2, RStart(SETTLE)),
                  Settling(map[0 := LEASE], 5.0, RStart(SETTLE)))
    ensures Leads(Settling(map[0 := LEASE], 5.0, RStart(SETTLE)), Run(2, OK), Settling(map[0 := LEASE], 5.0, RLoad(SETTLE, false)))
  {
  }

  lemma SettleLoadLink()
    ensures Leads(Settling(map[0 := LEASE], 5.0, RLoad(SETTLE, false)), Run(2, OK),
                  Settling(map[0 := LEASE], 5.0, RLease(SETTLE, false, 0, 0.0)))
  {
  }

  lemma SettleTakeLink()
    ensures Leads(Settling(map[0 := LEASE], 5.0, RLease(SETTLE, false, 0, 0.0)), Run(2, OK),
                  Settling(map[], 5.0, RIncr(SETTLE, false, 0, 0.0, Some(LEASE))))
  {
  }

  lemma SettleIncrLink()
    ensures Leads(Settling(map[], 5.0, RIncr(SETTLE, false, 0, 0.0, Some(LEASE))), Run(2, OK),
                  Settling(map[], -5.0, RLock(SETTLE, false, 0)))
  {
  }

  lemma ChargePath() returns (ws: seq<World>, steps: seq<Step>)
    ensures Path(ws, steps) && ws[0] == QUIET && ws[|steps|] == Charged(map[0 := LEASE], 1, 5.0, map[0 := SERVED, 1 := SERVED])
  {
    ws := [QUIET, At(AUTO, map[], 0, map[], map[0 := KSelect(1, 0, 10.0, None)]),
           Charged(map[], 0, 10.0, map[0 := KLease(1, 0, 10.0)]), Charged(map[0 := LEASE], 1, 10.0, map[0 := SERVED]),
           Charged(map[0 := LEASE], 1, 10.0, map[0 := SERVED, 1 := KSelect(1, 0, 0.0, Some(0.5))]),
           Charged(map[0 := LEASE], 1, 5.0, map[0 := SERVED, 1 := SERVED])];
    steps := [Spawn(0, KSelect(1, 0, 10.0, None)), Run(0, OK), Run(0, OK), Spawn(1, KSelect(1, 0, 0.0, Some(0.5))), Run(1, OK)];
    SelectLinks();
    IssueLink();
    DecayLinks();
  }

  lemma SettlePath() returns (ws: seq<World>, steps: seq<Step>)
    ensures Path(ws, steps) && ws[0] == Charged(map[0 := LEASE], 1, 5.0, map[0 := SERVED, 1 := SERVED])
    ensures ws[|steps|] == Settling(map[], -5.0, RLock(SETTLE, false, 0))
  {
    ws := [Charged(map[0 := LEASE], 1, 5.0, map[0 := SERVED, 1 := SERVED]), Settling(map[0 := LEASE], 5.0, RStart(SETTLE)),
           Settling(map[0 := LEASE], 5.0, RLoad(SETTLE, false)), Settling(map[0 := LEASE], 5.0, RLease(SETTLE, false, 0, 0.0)),
           Settling(map[], 5.0, RIncr(SETTLE, false, 0, 0.0, Some(LEASE))), Settling(map[], -5.0, RLock(SETTLE, false, 0))];
    steps := [Spawn(2, RStart(SETTLE)), Run(2, OK), Run(2, OK), Run(2, OK), Run(2, OK)];
    SettleStartLinks();
    SettleLoadLink();
    SettleTakeLink();
    SettleIncrLink();
  }

  /**
   * With decay, non-negative estimates and actuals settled on the right key still drive a
   * counter negative: the estimate is taken off whole although the counter was halved.
   */
  lemma DecayDrivesCounterNegative() returns (w: World, steps: seq<Step>)
    ensures Quiet(w) && w.sh.leases == map[] && w.sh.usage == map[]
    ensures Get(Exec(w, steps).sh.usage, (1, 0)) < 0.0
  {
    w := QUIET;
    var ws1, steps1 := ChargePath();
    var ws2, steps2 := SettlePath();
    Join(ws1, steps1, ws2, steps2);
    steps := steps1 + steps2;
    PathIsRun(ws1 + ws2[1..], steps);
  }

  // ----- what an idempotency key does not promise -----

  /**
   * From any state: a report that settles its usage and then finds the lock busy gives its key
   * back, and its retry settles the same usage again. Usage is counted once per executed
   * settlement, not once per idempotency key.
   */
  lemma RetryChargesTwice(sh: Shared, r: ReportReq, first: Manager.Script, second: Manager.Script)
    requires r.idemKey != "" && r.idemKey !in sh.idem && r.usage.Some? && r.leaseId.None? && r.channelId in sh.db.channels
    requires var ch := sh.db.channels[r.channelId];
             (r.epoch == "" || r.epoch == ch.epoch) && LocateKeyIndex(ch, r.keyIndex, r.key).Some?
    requires first.idem.reply.Delivered? && first.load.reply.Delivered? && first.incr.reply.Delivered? && first.rollback.reply.Delivered?
    requires second.idem.reply.Delivered? && second.load == first.load && second.incr.reply.Delivered?
    requires r.channelId in sh.locks
    ensures var k := (r.channelId, LocateKeyIndex(sh.db.channels[r.channelId], r.keyIndex, r.key).value);
            var actual := UsageValue(Metric(first.load.settings, r.channelId), r.usage.value);
            var (once, out1) := Manager.ReportRun(sh, r, first);
            var (twice, out2) := Manager.ReportRun(once, r, second);
            && out1 == Failed(LockFailed) && r.idemKey !in once.idem
            && Get(once.usage, k) == Get(sh.usage, k) + actual
            && Get(twice.usage, k) == Get(sh.usage, k) + actual + actual
  {
    var (once, _) := Manager.ReportRun(sh, r, first);
    assert once.db == sh.db && once.locks == sh.locks;
  }

  /**
   * Manual disabling is not sticky. A report that reads such a key under the lock ends it
   * exactly when it is a failing one that the settings let disable and the write is carried
   * out; it is then auto-disabled, so that a later success enables it.
   */
  lemma FailureOverwritesManual(sh: Shared, pr: Proc, env: Env)
    requires pr.RDecide? && Cid(pr) in sh.db.channels && pr.ch == sh.db.channels[Cid(pr)]
    requires pr.ch.info.isMultiKey && 0 <= pr.idx < |pr.ch.keys| && KeyStatus(pr.ch, pr.idx) == MANUALLY_DISABLED
    ensures var after := ProcStep(sh, pr, env).0.db.channels;
            && Cid(pr) in after
            && KeyStatus(after[Cid(pr)], pr.idx)
               == if !pr.r.success && ShouldDisable(env.settings, AutoBan(pr.ch), pr.r.statusCode, pr.r.lowered) && !env.reply.NotExecuted?
                  then AUTO_DISABLED else MANUALLY_DISABLED
  {
    StatusAfterStep(sh, pr, env, Cid(pr), pr.idx);
    KeyStatusIsStatus(ProcStep(sh, pr, env).0.db, Cid(pr), pr.idx);
  }

  lemma KeyStatusIsStatus(db: Database, cid: int, i: int)
    requires cid in db.channels && db.channels[cid].info.isMultiKey
    ensures StatusOf(db, cid, i) == KeyStatus(db.channels[cid], i)
  {
  }
}

/**
 * The other half of the ledger's non-negativity: a counter that does not cover what is owed on
 * it is driven below zero by callers who do nothing but settle their own leases.
 */
module Coverage {
  import opened Common
  import opened ChannelModel
  import opened Protocol
  import opened Runs
  import opened Safety
  import opened Ledger

  // ----- putting runs together -----

  lemma GoodSnoc(w: World, steps: seq<Step>, s: Step, cid: int, idx: int)
    requires GoodRun(w, steps, cid, idx) && GoodStep(Exec(w, steps), s, cid, idx)
    ensures GoodRun(w, steps + [s], cid, idx) && Exec(w, steps + [s]) == Next(Exec(w, steps), s)
  {
    assert (steps + [s])[..|steps|] == steps;
  }

  lemma {:induction false} GoodCat(w: World, a: seq<Step>, b: seq<Step>, cid: int, idx: int)
    requires GoodRun(w, a, cid, idx) && GoodRun(Exec(w, a), b, cid, idx)
    ensures GoodRun(w, a + b, cid, idx) && Exec(w, a + b) == Exec(Exec(w, a), b)
  {
    if b == [] {
      assert a + b == a;
    } else {
      var b', s := b[..|b| - 1], b[|b| - 1];
      GoodCat(w, a, b', cid, idx);
      GoodSnoc(w, a + b', s, cid, idx);
      assert a + b == a + b' + [s];
    }
  }

  /** A run of one or more steps that are gentle on the key, and where it leads. */
  ghost predicate Reaches(w: World, steps: seq<Step>, w': World, cid: int, idx: int) {
    GoodRun(w, steps, cid, idx) && Exec(w, steps) == w'
  }

  lemma NoSteps(w: World, cid: int, idx: int)
    ensures Reaches(w, [], w, cid, idx)
  {
  }

  lemma OneMore(w: World, steps: seq<Step>, mid: World, s: Step, w': World, cid: int, idx: int)
    requires Reaches(w, steps, mid, cid, idx) && GoodStep(mid, s, cid, idx) && Next(mid, s) == w'
    ensures Reaches(w, steps + [s], w', cid, idx)
  {
    GoodSnoc(w, steps, s, cid, idx);
  }

  // ----- a report that settles one lease with nothing used -----

  function ZeroReport(cid: int, idx: int, id: nat): ReportReq {
    ReportReq(Some(id), cid, Some(idx), "", "", true, 200, "", "", Some(Usage(0.0, 0.0, 0.0)), "")
  }

  /** The state after the report on one lease, up to the caller's entry p. */
  function SettledOff(w: World, cid: int, idx: int, id: nat, p: nat): World
    requires id in w.sh.leases
  {
    World(w.sh.(leases := w.sh.leases - {id},
                usage := w.sh.usage[(cid, idx) := Get(w.sh.usage, (cid, idx)) + (0.0 - w.sh.leases[id].est)]),
          w.procs[p := RLock(ZeroReport(cid, idx, id), false, idx)])
  }

  ghost predicate Reportable(db: Database, cid: int, idx: int) {
    cid in db.channels && 0 <= idx < |db.channels[cid].keys|
  }

  /** The report arrives and is about to take the lease. */
  lemma ReachLease(w: World, cid: int, idx: int, id: nat, p: nat) returns (steps: seq<Step>)
    requires Reportable(w.sh.db, cid, idx) && p !in w.procs
    ensures Reaches(w, steps, World(w.sh, w.procs[p := RLease(ZeroReport(cid, idx, id), false, idx, 0.0)]), cid, idx)
  {
    var r := ZeroReport(cid, idx, id);
    var started := World(w.sh, w.procs[p := RStart(r)]);
    var loading := World(w.sh, w.procs[p := RLoad(r, false)]);
    var taking := World(w.sh, w.procs[p := RLease(r, false, idx, 0.0)]);
    NoSteps(w, cid, idx);
    OneMore(w, [], w, Spawn(p, RStart(r)), started, cid, idx);
    StartStep(started, p, r);
    assert loading.procs == started.procs[p := RLoad(r, false)];
    OneMore(w, [] + [Spawn(p, RStart(r))], started, Run(p, OK), loading, cid, idx);
    LoadStep(loading, p, cid, idx, id);
    assert taking.procs == loading.procs[p := RLease(r, false, idx, 0.0)];
    steps := [] + [Spawn(p, RStart(r))] + [Run(p, OK)];
    OneMore(w, steps, loading, Run(p, OK), taking, cid, idx);
    steps := steps + [Run(p, OK)];
  }

  lemma SettleOne(w: World, cid: int, idx: int, id: nat) returns (steps: seq<Step>, p: nat)
    requires Reportable(w.sh.db, cid, idx) && id in w.sh.leases && ForKey(w.sh.leases[id], cid, idx)
    ensures p !in w.procs && Reaches(w, steps, SettledOff(w, cid, idx, id, p), cid, idx)
  {
    p := Unused(w.procs.Keys);
    var r, lease := ZeroReport(cid, idx, id), w.sh.leases[id];
    var taking := World(w.sh, w.procs[p := RLease(r, false, idx, 0.0)]);
    var taken := World(w.sh.(leases := w.sh.leases - {id}), w.procs[p := RIncr(r, false, idx, 0.0, Some(lease))]);
    steps := ReachLease(w, cid, idx, id, p);
    TakeStep(taking, p, r, idx, id);
    assert taken.procs == taking.procs[p := RIncr(r, false, idx, 0.0, Some(lease))];
    OneMore(w, steps, taking, Run(p, OK), taken, cid, idx);
    steps := steps + [Run(p, OK)];
    IncrStep(taken, p, r, idx, lease);
    assert SettledOff(w, cid, idx, id, p).procs == taken.procs[p := RLock(r, false, idx)];
    OneMore(w, steps, taken, Run(p, OK), SettledOff(w, cid, idx, id, p), cid, idx);
    steps := steps + [Run(p, OK)];
  }

  lemma StartStep(w: World, p: nat, r: ReportReq)
    requires p in w.procs && w.procs[p] == RStart(r) && r.idemKey == ""
    ensures Next(w, Run(p, OK)) == World(w.sh, w.procs[p := RLoad(r, false)])
  {
  }

  lemma LoadStep(w: World, p: nat, cid: int, idx: int, id: nat)
    requires p in w.procs && w.procs[p] == RLoad(ZeroReport(cid, idx, id), false) && Reportable(w.sh.db, cid, idx)
    ensures Next(w, Run(p, OK)) == World(w.sh, w.procs[p := RLease(ZeroReport(cid, idx, id), false, idx, 0.0)])
  {
  }

  lemma TakeStep(w: World, p: nat, r: ReportReq, idx: int, id: nat)
    requires p in w.procs && w.procs[p] == RLease(r, false, idx, 0.0) && r.leaseId == Some(id) && id in w.sh.leases
    ensures Next(w, Run(p, OK))
            == World(w.sh.(leases := w.sh.leases - {id}), w.procs[p := RIncr(r, false, idx, 0.0, Some(w.sh.leases[id]))])
  {
  }

  lemma IncrStep(w: World, p: nat, r: ReportReq, idx: int, lease: Lease)
    requires p in w.procs && w.procs[p] == RIncr(r, false, idx, 0.0, Some(lease))
    ensures Next(w, Run(p, OK)) == World(Settle(w.sh, r.channelId, idx, 0.0 - lease.est), w.procs[p := RLock(r, false, idx)])
  {
  }

  // ----- settling all of them -----

  ghost function LeasesFor(w: World, cid: int, idx: int): set<nat> {
    set id | id in w.sh.leases && ForKey(w.sh.leases[id], cid, idx)
  }

  ghost function PendingFor(w: World, cid: int, idx: int): set<nat> {
    set p | p in w.procs && Pending(w.procs[p], cid, idx) != 0.0
  }

  lemma NothingPending(w: World, cid: int, idx: int)
    requires PendingFor(w, cid, idx) == {}
    ensures PendingOn(w.procs, cid, idx) == 0.0
  {
    forall p | p in w.procs
      ensures Pending(w.procs[p], cid, idx) == 0.0
    {
      assert p !in PendingFor(w, cid, idx);
    }
    SumZero(PendingShare(w.procs, cid, idx));
  }

  lemma NothingLeased(w: World, cid: int, idx: int)
    requires LeasesFor(w, cid, idx) == {}
    ensures LeasesOn(Only(cid, idx), w.sh.leases) == 0.0
  {
    forall id | id in w.sh.leases
      ensures LeaseOn(Only(cid, idx), Some(w.sh.leases[id])) == 0.0
    {
      assert id !in LeasesFor(w, cid, idx);
    }
    SumZero(LeaseShare(Only(cid, idx), w.sh.leases));
  }

  lemma SettleOneKeepsGap(w: World, cid: int, idx: int, id: nat, p: nat)
    requires id in w.sh.leases && ForKey(w.sh.leases[id], cid, idx)
    ensures var w' := SettledOff(w, cid, idx, id, p);
            && Get(w'.sh.usage, (cid, idx)) - LeasesOn(Only(cid, idx), w'.sh.leases)
               == Get(w.sh.usage, (cid, idx)) - LeasesOn(Only(cid, idx), w.sh.leases)
            && LeasesFor(w', cid, idx) == LeasesFor(w, cid, idx) - {id}
  {
    LeaseDelete(Only(cid, idx), w.sh.leases, id);
  }

  lemma {:induction false} SettleAll(w: World, cid: int, idx: int) returns (steps: seq<Step>)
    requires Reportable(w.sh.db, cid, idx)
    requires Get(w.sh.usage, (cid, idx)) < LeasesOn(Only(cid, idx), w.sh.leases)
    ensures GoodRun(w, steps, cid, idx) && Get(Exec(w, steps).sh.usage, (cid, idx)) < 0.0
    decreases |LeasesFor(w, cid, idx)|
  {
    if LeasesFor(w, cid, idx) == {} {
      NothingLeased(w, cid, idx);
      steps := [];
    } else {
      var id :| id in LeasesFor(w, cid, idx);
      var first, p := SettleOne(w, cid, idx, id);
      SettleOneKeepsGap(w, cid, idx, id, p);
      var rest := SettleAll(SettledOff(w, cid, idx, id, p), cid, idx);
      steps := first + rest;
      GoodCat(w, first, rest, cid, idx);
    }
  }

  // Callers with something pending: a lease about to be stored, a settlement about to be made.

  lemma DischargeIsGentle(w: World, pr: Proc, cid: int, idx: int)
    requires WellFormed(pr) && Pending(pr, cid, idx) != 0.0
    ensures Gentle(w, pr, OK, cid, idx)
    ensures Widening(w.sh, pr, OK, cid, idx) == 0.0
    ensures ProcStep(w.sh, pr, OK).0.db == w.sh.db && Pending(ProcStep(w.sh, pr, OK).1, cid, idx) == 0.0
  {
  }

  lemma DischargeOne(w: World, cid: int, idx: int, p: nat)
    requires Orderly(w, cid, idx) && p in PendingFor(w, cid, idx)
    ensures var w' := Next(w, Run(p, OK));
            && w'.sh.db == w.sh.db && Orderly(w', cid, idx)
            && PendingFor(w', cid, idx) == PendingFor(w, cid, idx) - {p}
            && Gap(w', cid, idx) == Gap(w, cid, idx)
            && GoodStep(w, Run(p, OK), cid, idx)
  {
    StepKeepsOrderly(w, Run(p, OK), cid, idx);
    DischargeIsGentle(w, w.procs[p], cid, idx);
    CallerMovesGap(w, p, OK, cid, idx);
  }

  /**
   * Uncovered counters go negative: callers with something pending finish it, then each lease
   * is settled on its own key by a report of no usage. No decay fires and no amount is negative.
   */
  lemma {:induction false} UncoveredGoesNegative(w: World, cid: int, idx: int) returns (steps: seq<Step>)
    requires Reportable(w.sh.db, cid, idx) && Orderly(w, cid, idx)
    requires Get(w.sh.usage, (cid, idx)) < Owed(w, cid, idx)
    ensures GoodRun(w, steps, cid, idx) && Get(Exec(w, steps).sh.usage, (cid, idx)) < 0.0
    decreases |PendingFor(w, cid, idx)|
  {
    if PendingFor(w, cid, idx) == {} {
      NothingPending(w, cid, idx);
      steps := SettleAll(w, cid, idx);
    } else {
      var p :| p in PendingFor(w, cid, idx);
      var s := Run(p, OK);
      DischargeOne(w, cid, idx, p);
      var rest := UncoveredGoesNegative(Next(w, s), cid, idx);
      NoSteps(w, cid, idx);
      OneMore(w, [], w, s, Next(w, s), cid, idx);
      steps := [] + [s] + rest;
      GoodCat(w, [] + [s], rest, cid, idx);
    }
  }

  /** No run whose steps on the key are gentle takes its counter below zero. */
  ghost predicate NeverNegative(w: World, cid: int, idx: int) {
    forall steps :: GoodRun(w, steps, cid, idx) ==> Get(Exec(w, steps).sh.usage, (cid, idx)) >= 0.0
  }

  /**
   * Exactly when a counter is safe, in every state: gentle steps can never take it below zero
   * if and only if it covers what is owed on it now.
   */
  lemma SafeIffCovered(w: World, cid: int, idx: int)
    requires Reportable(w.sh.db, cid, idx) && Orderly(w, cid, idx)
    ensures NeverNegative(w, cid, idx) <==> Get(w.sh.usage, (cid, idx)) >= Owed(w, cid, idx)
  {
    if Get(w.sh.usage, (cid, idx)) >= Owed(w, cid, idx) {
      forall steps | GoodRun(w, steps, cid, idx)
        ensures Get(Exec(w, steps).sh.usage, (cid, idx)) >= 0.0
      {
        NoCounterNegative(w, steps, cid, idx);
      }
    } else {
      var steps := UncoveredGoesNegative(w, cid, idx);
    }
  }

  // ----- decays -----

  /** A selection of the channel that fires a decay, and whose charge is leased if it is on the key. */
  ghost predicate DecaysFor(w: World, p: nat, env: Env, cid: int, idx: int) {
    && p in w.procs && w.procs[p].KSelect? && w.procs[p].cid == cid && w.procs[p].decay.Some?
    && if w.procs[p].idx == idx then env.reply.Delivered? && w.procs[p].est >= 0.0 else !env.reply.NotExecuted?
  }

  lemma DecayWidens(w: World, p: nat, env: Env, cid: int, idx: int) returns (gap: real, decayed: real)
    requires DecaysFor(w, p, env, cid, idx)
    ensures gap == Gap(w, cid, idx) + Widening(w.sh, w.procs[p], env, cid, idx)
    ensures decayed == Decayed(w.sh, w.procs[p], idx) && gap == decayed - Owed(w, cid, idx)
  {
    decayed := Decayed(w.sh, w.procs[p], idx);
    gap := decayed - Owed(w, cid, idx);
    SelectWidens(w.sh, w.procs[p], env, cid, idx);
    DecayOfKey(w.sh.usage, cid, w.procs[p].decay.value, cid, idx);
  }

  lemma SafeIffGap(w: World, cid: int, idx: int, gap: real)
    requires Reportable(w.sh.db, cid, idx) && Orderly(w, cid, idx) && Gap(w, cid, idx) == gap
    ensures NeverNegative(w, cid, idx) <==> gap >= 0.0
  {
    SafeIffCovered(w, cid, idx);
  }

  lemma SafeAfterStep(w: World, p: nat, env: Env, cid: int, idx: int, gap: real)
    requires Reportable(w.sh.db, cid, idx) && Orderly(w, cid, idx) && p in w.procs
    requires gap == Gap(w, cid, idx) + Widening(w.sh, w.procs[p], env, cid, idx)
    ensures NeverNegative(Next(w, Run(p, env)), cid, idx) <==> gap >= 0.0
  {
    StepKeepsOrderly(w, Run(p, env), cid, idx);
    StepKeepsKeyColumns(w, Run(p, env));
    CallerMovesGap(w, p, env, cid, idx);
    SafeIffGap(Next(w, Run(p, env)), cid, idx, gap);
  }

  /**
   * Exactly when a decay is safe for a key: a selection that fires one on the channel leaves
   * the key's counter safe if and only if the decayed counter still covers what was owed.
   */
  lemma DecaySafeIff(w: World, p: nat, env: Env, cid: int, idx: int)
    requires Reportable(w.sh.db, cid, idx) && Orderly(w, cid, idx) && DecaysFor(w, p, env, cid, idx)
    ensures NeverNegative(Next(w, Run(p, env)), cid, idx) <==> Decayed(w.sh, w.procs[p], idx) >= Owed(w, cid, idx)
  {
    var gap, decayed := DecayWidens(w, p, env, cid, idx);
    SafeAfterStep(w, p, env, cid, idx, gap);
  }
}

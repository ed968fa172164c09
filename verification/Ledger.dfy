/**
 * The usage ledger: selections charge an estimate, reports settle the actual amount, and
 * leases carry the estimate from one to the other.
 */
module Ledger {
  import opened Common
  import opened Protocol
  import opened Safety

  /** Which counters an account is about: all of them, or those of one key. */
  type Selection = iset<(int, int)>

  ghost function Everything(): Selection { iset c: int, i: int | true :: (c, i) }

  ghost function Only(cid: int, idx: int): Selection { iset{(cid, idx)} }

  ghost function OfChannel(sel: Selection, cid: int): Selection { iset k: (int, int) | k in sel && k.0 == cid }

  ghost function On(sel: Selection, cid: int, idx: int, amount: real): real {
    if (cid, idx) in sel then amount else 0.0
  }

  ghost function LeaseOn(sel: Selection, l: Option<Lease>): real {
    if l.Some? then On(sel, l.value.forCid, l.value.forIdx, l.value.est) else 0.0
  }

  /** A charged estimate that is in a caller's hands: between script and lease, or between lease and settlement. */
  function Inflight(pr: Proc): Option<Lease> {
    match pr
    case RIncr(_, _, _, _, taken) => taken
    case KLease(cid, idx, est) => Some(Lease(est, cid, idx))
    case _ => None
  }

  ghost function UsageShare(sel: Selection, usage: UsageTable): UsageTable {
    map k | k in usage :: if k in sel then usage[k] else 0.0
  }

  ghost function LeaseShare(sel: Selection, leases: map<nat, Lease>): map<nat, real> {
    map id | id in leases :: LeaseOn(sel, Some(leases[id]))
  }

  ghost function InflightShare(sel: Selection, procs: map<nat, Proc>): map<nat, real> {
    map p | p in procs :: LeaseOn(sel, Inflight(procs[p]))
  }

  ghost function UsageOn(sel: Selection, usage: UsageTable): real { Sum(UsageShare(sel, usage)) }

  ghost function LeasesOn(sel: Selection, leases: map<nat, Lease>): real { Sum(LeaseShare(sel, leases)) }

  ghost function InflightOn(sel: Selection, procs: map<nat, Proc>): real { Sum(InflightShare(sel, procs)) }

  lemma UsageUpdate(sel: Selection, usage: UsageTable, k: (int, int), v: real)
    ensures UsageOn(sel, usage[k := v]) == UsageOn(sel, usage) + On(sel, k.0, k.1, v - Get(usage, k))
  {
    var share := if k in sel then v else 0.0;
    assert UsageShare(sel, usage[k := v]) == UsageShare(sel, usage)[k := share];
    SumUpdate(UsageShare(sel, usage), k, share);
  }

  lemma LeaseUpdate(sel: Selection, leases: map<nat, Lease>, id: nat, l: Lease)
    requires id !in leases
    ensures LeasesOn(sel, leases[id := l]) == LeasesOn(sel, leases) + LeaseOn(sel, Some(l))
  {
    assert LeaseShare(sel, leases[id := l]) == LeaseShare(sel, leases)[id := LeaseOn(sel, Some(l))];
    SumUpdate(LeaseShare(sel, leases), id, LeaseOn(sel, Some(l)));
  }

  lemma LeaseDelete(sel: Selection, leases: map<nat, Lease>, id: nat)
    ensures LeasesOn(sel, leases - {id}) == LeasesOn(sel, leases) - (if id in leases then LeaseOn(sel, Some(leases[id])) else 0.0)
  {
    assert LeaseShare(sel, leases - {id}) == LeaseShare(sel, leases) - {id};
    SumDelete(LeaseShare(sel, leases), id);
  }

  lemma InflightUpdate(sel: Selection, procs: map<nat, Proc>, p: nat, pr: Proc)
    ensures InflightOn(sel, procs[p := pr])
            == InflightOn(sel, procs) - (if p in procs then LeaseOn(sel, Inflight(procs[p])) else 0.0) + LeaseOn(sel, Inflight(pr))
  {
    assert InflightShare(sel, procs[p := pr]) == InflightShare(sel, procs)[p := LeaseOn(sel, Inflight(pr))];
    SumUpdate(InflightShare(sel, procs), p, LeaseOn(sel, Inflight(pr)));
  }

  /** Counters less the estimates that are still to be settled. */
  ghost function Settled(sel: Selection, w: World): real {
    UsageOn(sel, w.sh.usage) - LeasesOn(sel, w.sh.leases) - InflightOn(sel, w.procs)
  }

  /**
   * What a step does for good: actual usage added; an estimate whose lease was lost (expiry,
   * failed write, failed settlement after the take, lost reply); an estimate charged without
   * a lease; the change by decay; and an estimate taken off another key than it was put on.
   */
  datatype Booking = Booking(actual: real, orphaned: real, unleased: real, decayed: real, misplaced: real)

  const NOTHING: Booking := Booking(0.0, 0.0, 0.0, 0.0, 0.0)

  function BookingTotal(b: Booking): real { b.actual + b.orphaned + b.unleased + b.decayed + b.misplaced }

  /** What a decay takes off (DecayScales computes it). */
  ghost function DecayChange(sel: Selection, usage: UsageTable, cid: int, decay: Option<real>): real {
    if decay.Some? then UsageOn(sel, Decay(usage, cid, decay.value)) - UsageOn(sel, usage) else 0.0
  }

  ghost function ProcBooking(sel: Selection, sh: Shared, pr: Proc, env: Env): Booking {
    match pr
    case RLease(r, _, _, _) =>
      if env.reply.Lost? && r.leaseId.Some? && r.leaseId.value in sh.leases then
        NOTHING.(orphaned := LeaseOn(sel, Some(sh.leases[r.leaseId.value])))
      else NOTHING
    case RIncr(r, _, idx, actual, taken) =>
      if env.reply.NotExecuted? then NOTHING.(orphaned := LeaseOn(sel, taken))
      else NOTHING.(actual := On(sel, r.channelId, idx, actual),
                    misplaced := LeaseOn(sel, taken) - On(sel, r.channelId, idx, TakenEst(taken)))
    case KSelect(cid, idx, est, decay) =>
      if env.reply.NotExecuted? then NOTHING
      else NOTHING.(orphaned := if est > 0.0 && env.reply.Lost? then On(sel, cid, idx, est) else 0.0,
                    unleased := if est <= 0.0 then On(sel, cid, idx, est) else 0.0,
                    decayed := DecayChange(sel, sh.usage, cid, decay))
    case KLease(cid, idx, est) =>
      if env.reply.NotExecuted? then NOTHING.(orphaned := On(sel, cid, idx, est)) else NOTHING
    case _ => NOTHING
  }

  ghost function StepBooking(sel: Selection, w: World, s: Step): Booking {
    match s
    case Run(p, env) => if p in w.procs then ProcBooking(sel, w.sh, w.procs[p], env) else NOTHING
    case ExpireLease(id) => if id in w.sh.leases then NOTHING.(orphaned := LeaseOn(sel, Some(w.sh.leases[id]))) else NOTHING
    case _ => NOTHING
  }

  function Add(a: Booking, b: Booking): Booking {
    Booking(a.actual + b.actual, a.orphaned + b.orphaned, a.unleased + b.unleased, a.decayed + b.decayed, a.misplaced + b.misplaced)
  }

  ghost function Bookings(sel: Selection, w: World, steps: seq<Step>): Booking {
    if steps == [] then NOTHING
    else Add(Bookings(sel, w, steps[..|steps| - 1]), StepBooking(sel, Exec(w, steps[..|steps| - 1]), steps[|steps| - 1]))
  }

  // ----- conservation -----

  /** A decay takes (1 - factor) of what the channel's counters hold. */
  lemma DecayScales(sel: Selection, usage: UsageTable, cid: int, factor: real)
    ensures Scales(factor - 1.0, UsageOn(OfChannel(sel, cid), usage), DecayChange(sel, usage, cid, Some(factor)))
  {
    var c := UsageShare(OfChannel(sel, cid), usage);
    var change := Scaled(c, factor - 1.0);
    SumScale(c, change, factor - 1.0);
    DecayPointwise(sel, usage, cid, factor, change);
    SumAdd(UsageShare(sel, Decay(usage, cid, factor)), UsageShare(sel, usage), change);
  }

  lemma Scaled(m: UsageTable, t: real) returns (scaled: UsageTable)
    ensures scaled.Keys == m.Keys
    ensures forall k :: k in m ==> Scales(t, m[k], scaled[k])
  {
    scaled := map k | k in m :: t * m[k];
  }

  lemma DecayPointwise(sel: Selection, usage: UsageTable, cid: int, factor: real, change: UsageTable)
    requires change.Keys == usage.Keys
    requires forall k :: k in usage ==> Scales(factor - 1.0, UsageShare(OfChannel(sel, cid), usage)[k], change[k])
    ensures var a, b := UsageShare(sel, Decay(usage, cid, factor)), UsageShare(sel, usage);
            a.Keys == b.Keys == change.Keys && forall k :: k in a ==> a[k] == b[k] + change[k]
  {
    var a, b := UsageShare(sel, Decay(usage, cid, factor)), UsageShare(sel, usage);
    forall k | k in a
      ensures a[k] == b[k] + change[k]
    {
      DecayOfOne(usage[k], factor);
    }
  }

  lemma DecayOfOne(x: real, factor: real)
    ensures x * factor == x + (factor - 1.0) * x
    ensures (factor - 1.0) * 0.0 == 0.0
  {
  }

  lemma ChargeMoves(sel: Selection, usage: UsageTable, cid: int, idx: int, est: real, decay: Option<real>)
    ensures UsageOn(sel, Charge(usage, cid, idx, est, decay))
            == UsageOn(sel, usage) + On(sel, cid, idx, est)
               + DecayChange(sel, usage, cid, decay)
  {
    var decayed := if decay.Some? then Decay(usage, cid, decay.value) else usage;
    UsageUpdate(sel, decayed, (cid, idx), Get(decayed, (cid, idx)) + est);
  }

  /** Lease ids are drawn once. */
  ghost predicate LeaseIdsDrawn(sh: Shared) {
    forall id :: id in sh.leases ==> id < sh.nextId
  }

  /** The quantity a step of a caller with this program point conserves up to its booking. */
  ghost function Balance(sel: Selection, sh: Shared, pr: Proc): real {
    UsageOn(sel, sh.usage) - LeasesOn(sel, sh.leases) - LeaseOn(sel, Inflight(pr))
  }

  // For each step that touches the ledger: the amount booked for good, that the state moves by
  // it, and that it is what the booking says.

  ghost function TakeAmount(sel: Selection, sh: Shared, r: ReportReq, env: Env): real
    requires r.leaseId.Some?
  {
    if env.reply.Lost? && r.leaseId.value in sh.leases then LeaseOn(sel, Some(sh.leases[r.leaseId.value])) else 0.0
  }

  lemma TakeMoves(sel: Selection, sh: Shared, pr: Proc, env: Env)
    requires pr.RLease? && WellFormed(pr)
    ensures var (sh', pr') := ProcStep(sh, pr, env);
            Balance(sel, sh', pr') == Balance(sel, sh, pr) + TakeAmount(sel, sh, pr.r, env)
  {
    LeaseDelete(sel, sh.leases, pr.r.leaseId.value);
  }

  lemma TakeBooked(sel: Selection, sh: Shared, pr: Proc, env: Env)
    requires pr.RLease? && WellFormed(pr)
    ensures BookingTotal(ProcBooking(sel, sh, pr, env)) == TakeAmount(sel, sh, pr.r, env)
  {
  }

  ghost function IncrAmount(sel: Selection, pr: Proc, env: Env): real
    requires pr.RIncr?
  {
    if env.reply.NotExecuted? then LeaseOn(sel, pr.taken)
    else LeaseOn(sel, pr.taken) + On(sel, pr.r.channelId, pr.idx, pr.actual - TakenEst(pr.taken))
  }

  lemma IncrMoves(sel: Selection, sh: Shared, pr: Proc, env: Env)
    requires pr.RIncr?
    ensures var (sh', pr') := ProcStep(sh, pr, env);
            Balance(sel, sh', pr') == Balance(sel, sh, pr) + IncrAmount(sel, pr, env)
  {
    var k := (pr.r.channelId, pr.idx);
    UsageUpdate(sel, sh.usage, k, Get(sh.usage, k) + (pr.actual - TakenEst(pr.taken)));
  }

  lemma IncrBooked(sel: Selection, sh: Shared, pr: Proc, env: Env)
    requires pr.RIncr?
    ensures BookingTotal(ProcBooking(sel, sh, pr, env)) == IncrAmount(sel, pr, env)
  {
  }

  ghost function SelectAmount(sel: Selection, sh: Shared, pr: Proc, env: Env): real
    requires pr.KSelect?
  {
    if env.reply.NotExecuted? then 0.0
    else DecayChange(sel, sh.usage, pr.cid, pr.decay)
         + if pr.est > 0.0 && env.reply.Delivered? then 0.0 else On(sel, pr.cid, pr.idx, pr.est)
  }

  lemma SelectMoves(sel: Selection, sh: Shared, pr: Proc, env: Env)
    requires pr.KSelect?
    ensures var (sh', pr') := ProcStep(sh, pr, env);
            Balance(sel, sh', pr') == Balance(sel, sh, pr) + SelectAmount(sel, sh, pr, env)
  {
    ChargeMoves(sel, sh.usage, pr.cid, pr.idx, pr.est, pr.decay);
  }

  lemma SelectBooked(sel: Selection, sh: Shared, pr: Proc, env: Env)
    requires pr.KSelect?
    ensures BookingTotal(ProcBooking(sel, sh, pr, env)) == SelectAmount(sel, sh, pr, env)
  {
    var charge, change := On(sel, pr.cid, pr.idx, pr.est), DecayChange(sel, sh.usage, pr.cid, pr.decay);
    var booking := ProcBooking(sel, sh, pr, env);
    if env.reply.NotExecuted? {
      assert booking == NOTHING;
    } else if pr.est > 0.0 {
      assert booking == Booking(0.0, if env.reply.Lost? then charge else 0.0, 0.0, change, 0.0);
    } else {
      assert booking == Booking(0.0, 0.0, charge, change, 0.0);
    }
  }

  ghost function IssueAmount(sel: Selection, pr: Proc, env: Env): real
    requires pr.KLease?
  {
    if env.reply.NotExecuted? then On(sel, pr.cid, pr.idx, pr.est) else 0.0
  }

  lemma IssueMoves(sel: Selection, sh: Shared, pr: Proc, env: Env)
    requires pr.KLease? && LeaseIdsDrawn(sh)
    ensures var (sh', pr') := ProcStep(sh, pr, env);
            Balance(sel, sh', pr') == Balance(sel, sh, pr) + IssueAmount(sel, pr, env)
  {
    LeaseUpdate(sel, sh.leases, sh.nextId, Lease(pr.est, pr.cid, pr.idx));
  }

  lemma IssueBooked(sel: Selection, sh: Shared, pr: Proc, env: Env)
    requires pr.KLease?
    ensures BookingTotal(ProcBooking(sel, sh, pr, env)) == IssueAmount(sel, pr, env)
  {
    var booking := ProcBooking(sel, sh, pr, env);
    if env.reply.NotExecuted? {
      assert booking == Booking(0.0, On(sel, pr.cid, pr.idx, pr.est), 0.0, 0.0, 0.0);
    } else {
      assert booking == NOTHING;
    }
  }

  ghost function Amount(sel: Selection, sh: Shared, pr: Proc, env: Env): real {
    match pr
    case RLease(r, _, _, _) => if r.leaseId.Some? then TakeAmount(sel, sh, r, env) else 0.0
    case RIncr(_, _, _, _, _) => IncrAmount(sel, pr, env)
    case KSelect(_, _, _, _) => SelectAmount(sel, sh, pr, env)
    case KLease(_, _, _) => IssueAmount(sel, pr, env)
    case _ => 0.0
  }

  /** One step of a caller moves the counters, the leases and its own estimate by its amount. */
  lemma StepMoves(sel: Selection, sh: Shared, pr: Proc, env: Env)
    requires WellFormed(pr) && LeaseIdsDrawn(sh)
    ensures var (sh', pr') := ProcStep(sh, pr, env);
            Balance(sel, sh', pr') == Balance(sel, sh, pr) + Amount(sel, sh, pr, env)
  {
    match pr
    case RLease(_, _, _, _) => TakeMoves(sel, sh, pr, env);
    case RIncr(_, _, _, _, _) => IncrMoves(sel, sh, pr, env);
    case KSelect(_, _, _, _) => SelectMoves(sel, sh, pr, env);
    case KLease(_, _, _) => IssueMoves(sel, sh, pr, env);
    case _ => StepMovesNothing(sh, pr, env);
  }

  lemma AmountBooked(sel: Selection, sh: Shared, pr: Proc, env: Env)
    requires WellFormed(pr)
    ensures BookingTotal(ProcBooking(sel, sh, pr, env)) == Amount(sel, sh, pr, env)
  {
    if pr.RLease? {
      TakeBooked(sel, sh, pr, env);
    } else if pr.RIncr? {
      IncrBooked(sel, sh, pr, env);
    } else if pr.KSelect? {
      SelectBooked(sel, sh, pr, env);
    } else if pr.KLease? {
      IssueBooked(sel, sh, pr, env);
    } else {
      assert ProcBooking(sel, sh, pr, env) == NOTHING;
    }
  }

  lemma StepKeepsLeaseIds(sh: Shared, pr: Proc, env: Env)
    requires LeaseIdsDrawn(sh)
    ensures LeaseIdsDrawn(ProcStep(sh, pr, env).0)
  {
    if !pr.RLease? && !pr.RIncr? && !pr.KSelect? && !pr.KLease? {
      StepMovesNothing(sh, pr, env);
    }
  }

  ghost predicate MovesNothing(sh: Shared, pr: Proc, env: Env) {
    var (sh', pr') := ProcStep(sh, pr, env);
    && sh'.usage == sh.usage && sh'.leases == sh.leases && sh'.nextId >= sh.nextId
    && Inflight(pr) == None && Inflight(pr') == None
  }

  lemma MovesNothingEarly(sh: Shared, pr: Proc, env: Env)
    requires Early(pr) && !pr.RLease? && !pr.RIncr? && !pr.KSelect? && !pr.KLease?
    ensures MovesNothing(sh, pr, env)
  {
  }

  lemma MovesNothingLate(sh: Shared, pr: Proc, env: Env)
    requires Late(pr) && !pr.RLease? && !pr.RIncr? && !pr.KSelect? && !pr.KLease?
    ensures MovesNothing(sh, pr, env)
  {
  }

  lemma MovesNothingWriting(sh: Shared, pr: Proc, env: Env)
    requires Writing(pr) && !pr.RLease? && !pr.RIncr? && !pr.KSelect? && !pr.KLease?
    ensures MovesNothing(sh, pr, env)
  {
  }

  lemma MovesNothingOther(sh: Shared, pr: Proc, env: Env)
    requires Other(pr) && !pr.RLease? && !pr.RIncr? && !pr.KSelect? && !pr.KLease?
    ensures MovesNothing(sh, pr, env)
  {
  }

  lemma StepMovesNothing(sh: Shared, pr: Proc, env: Env)
    requires !pr.RLease? && !pr.RIncr? && !pr.KSelect? && !pr.KLease?
    ensures MovesNothing(sh, pr, env)
  {
    if Early(pr) {
      MovesNothingEarly(sh, pr, env);
    } else if Late(pr) {
      MovesNothingLate(sh, pr, env);
    } else if Writing(pr) {
      MovesNothingWriting(sh, pr, env);
    } else {
      MovesNothingOther(sh, pr, env);
    }
  }

  ghost function StepAmount(sel: Selection, w: World, s: Step): real {
    match s
    case Run(p, env) => if p in w.procs then Amount(sel, w.sh, w.procs[p], env) else 0.0
    case ExpireLease(id) => if id in w.sh.leases then LeaseOn(sel, Some(w.sh.leases[id])) else 0.0
    case _ => 0.0
  }

  lemma StepConserves(sel: Selection, w: World, s: Step)
    requires LeaseIdsDrawn(w.sh) && forall p :: p in w.procs ==> WellFormed(w.procs[p])
    ensures Settled(sel, Next(w, s)) == Settled(sel, w) + StepAmount(sel, w, s)
  {
    match s
    case Run(p, env) =>
      if p in w.procs {
        StepMoves(sel, w.sh, w.procs[p], env);
        InflightUpdate(sel, w.procs, p, ProcStep(w.sh, w.procs[p], env).1);
      }
    case Spawn(p, pr) =>
      InflightUpdate(sel, w.procs, p, pr);
    case ExpireLease(id) =>
      LeaseDelete(sel, w.sh.leases, id);
    case _ =>
  }

  lemma StepBooked(sel: Selection, w: World, s: Step)
    requires LeaseIdsDrawn(w.sh) && forall p :: p in w.procs ==> WellFormed(w.procs[p])
    ensures LeaseIdsDrawn(Next(w, s).sh)
    ensures StepAmount(sel, w, s) == BookingTotal(StepBooking(sel, w, s))
  {
    if s.Run? && s.p in w.procs {
      AmountBooked(sel, w.sh, w.procs[s.p], s.env);
      StepKeepsLeaseIds(w.sh, w.procs[s.p], s.env);
    }
  }

  ghost function Amounts(sel: Selection, w: World, steps: seq<Step>): real {
    if steps == [] then 0.0
    else Amounts(sel, w, steps[..|steps| - 1])
         + BookingTotal(StepBooking(sel, Exec(w, steps[..|steps| - 1]), steps[|steps| - 1]))
  }

  lemma {:induction false} RunsConserve(sel: Selection, w: World, steps: seq<Step>)
    requires Quiet(w)
    ensures LeaseIdsDrawn(Exec(w, steps).sh)
    ensures Settled(sel, Exec(w, steps)) == Settled(sel, w) + Amounts(sel, w, steps)
  {
    if steps != [] {
      var prefix, s := steps[..|steps| - 1], steps[|steps| - 1];
      RunsConserve(sel, w, prefix);
      RunsKeepWellFormed(w, prefix);
      StepConserves(sel, Exec(w, prefix), s);
      StepBooked(sel, Exec(w, prefix), s);
    }
  }

  lemma AddTotals(a: Booking, b: Booking)
    ensures BookingTotal(Add(a, b)) == BookingTotal(a) + BookingTotal(b)
  {
  }

  lemma {:induction false} RunsBooked(sel: Selection, w: World, steps: seq<Step>)
    ensures Amounts(sel, w, steps) == BookingTotal(Bookings(sel, w, steps))
  {
    if steps != [] {
      var prefix := steps[..|steps| - 1];
      RunsBooked(sel, w, prefix);
      var last := StepBooking(sel, Exec(w, prefix), steps[|steps| - 1]);
      BookedSnoc(sel, w, steps, prefix, last);
    }
  }

  lemma BookedSnoc(sel: Selection, w: World, steps: seq<Step>, prefix: seq<Step>, last: Booking)
    requires steps != [] && prefix == steps[..|steps| - 1] && last == StepBooking(sel, Exec(w, prefix), steps[|steps| - 1])
    ensures BookingTotal(Bookings(sel, w, steps)) == BookingTotal(Bookings(sel, w, prefix)) + BookingTotal(last)
  {
    AddTotals(Bookings(sel, w, prefix), last);
  }

  /**
   * Conservation over every interleaving, for all counters together or any part of them: the
   * counters have grown by what was booked for good plus what is still leased or in flight.
   */
  lemma LedgerConserved(sel: Selection, w: World, steps: seq<Step>)
    requires Quiet(w)
    ensures var end := Exec(w, steps);
            UsageOn(sel, end.sh.usage)
            == UsageOn(sel, w.sh.usage) + BookingTotal(Bookings(sel, w, steps))
               + (LeasesOn(sel, end.sh.leases) - LeasesOn(sel, w.sh.leases)) + InflightOn(sel, end.procs)
  {
    RunsConserve(sel, w, steps);
    RunsBooked(sel, w, steps);
    assert InflightShare(sel, w.procs) == map[];
  }

  lemma StepMisplacesNothingInTotal(w: World, s: Step)
    ensures StepBooking(Everything(), w, s).misplaced == 0.0
  {
  }

  /** Taken over all counters, no estimate is ever misplaced. */
  lemma {:induction false} NothingMisplacedInTotal(w: World, steps: seq<Step>)
    ensures Bookings(Everything(), w, steps).misplaced == 0.0
  {
    if steps != [] {
      var prefix, s := steps[..|steps| - 1], steps[|steps| - 1];
      NothingMisplacedInTotal(w, prefix);
      StepMisplacesNothingInTotal(Exec(w, prefix), s);
    }
  }

  // ----- a lease is settled at most once -----

  lemma StepKeepsGone(w: World, s: Step, id: nat)
    requires id < w.sh.nextId && id !in w.sh.leases
    ensures id < Next(w, s).sh.nextId && id !in Next(w, s).sh.leases
  {
    if s.Run? && s.p in w.procs {
      var pr := w.procs[s.p];
      if !pr.RLease? && !pr.RIncr? && !pr.KSelect? && !pr.KLease? {
        StepMovesNothing(w.sh, pr, s.env);
      }
    }
  }

  lemma {:induction false} GoneStaysGone(w: World, steps: seq<Step>, id: nat)
    requires id < w.sh.nextId && id !in w.sh.leases
    ensures id < Exec(w, steps).sh.nextId && id !in Exec(w, steps).sh.leases
  {
    if steps != [] {
      GoneStaysGone(w, steps[..|steps| - 1], id);
      StepKeepsGone(Exec(w, steps[..|steps| - 1]), steps[|steps| - 1], id);
    }
  }

  predicate HandedLease(pr: Proc) {
    pr.RIncr? && pr.taken.Some?
  }

  lemma TakingRemoves(sh: Shared, pr: Proc, env: Env)
    requires pr.RLease? && pr.r.leaseId.Some?
    ensures var (sh', pr') := ProcStep(sh, pr, env);
            && sh'.nextId == sh.nextId
            && (HandedLease(pr') ==> pr.r.leaseId.value in sh.leases && pr.r.leaseId.value !in sh'.leases)
  {
  }

  /** Once a report has been handed a lease, no later report of any run is handed it again. */
  lemma LeaseTakenOnce(w: World, steps: seq<Step>, p: nat, env: Env, more: seq<Step>, q: nat, env': Env)
    requires Quiet(w)
    requires var now := Exec(w, steps); p in now.procs && now.procs[p].RLease? && now.procs[p].r.leaseId.Some?
    requires HandedLease(Next(Exec(w, steps), Run(p, env)).procs[p])
    requires var end := Exec(Next(Exec(w, steps), Run(p, env)), more);
             q in end.procs && end.procs[q].RLease? && end.procs[q].r.leaseId == Exec(w, steps).procs[p].r.leaseId
    ensures !HandedLease(Next(Exec(Next(Exec(w, steps), Run(p, env)), more), Run(q, env')).procs[q])
  {
    RunsConserve(iset{}, w, steps);
    var now := Exec(w, steps);
    var id := now.procs[p].r.leaseId.value;
    TakingRemoves(now.sh, now.procs[p], env);
    var later := Next(now, Run(p, env));
    GoneStaysGone(later, more, id);
    var end := Exec(later, more);
    TakingRemoves(end.sh, end.procs[q], env');
  }

  // ----- counters stay non-negative -----

  ghost predicate ForKey(l: Lease, cid: int, idx: int) {
    l.forCid == cid && l.forIdx == idx
  }

  /** The report settles a lease of the key on the key itself. */
  ghost predicate SettlesOwn(pr: Proc, cid: int, idx: int) {
    pr.RIncr? && pr.r.channelId == cid && pr.idx == idx && pr.taken.Some? && ForKey(pr.taken.value, cid, idx)
  }

  /**
   * What a caller already holds in its hands against the counter: an estimate about to be
   * leased, or what a settlement under way takes off beyond the actual usage it adds.
   */
  ghost function Pending(pr: Proc, cid: int, idx: int): real {
    if pr.KLease? && pr.cid == cid && pr.idx == idx then pr.est
    else if SettlesOwn(pr, cid, idx) && 0.0 <= pr.actual < pr.taken.value.est then pr.taken.value.est - pr.actual
    else 0.0
  }

  ghost function PendingShare(procs: map<nat, Proc>, cid: int, idx: int): map<nat, real> {
    map p | p in procs :: Pending(procs[p], cid, idx)
  }

  ghost function PendingOn(procs: map<nat, Proc>, cid: int, idx: int): real { Sum(PendingShare(procs, cid, idx)) }

  lemma PendingUpdate(procs: map<nat, Proc>, p: nat, pr: Proc, cid: int, idx: int)
    ensures PendingOn(procs[p := pr], cid, idx)
            == PendingOn(procs, cid, idx) - (if p in procs then Pending(procs[p], cid, idx) else 0.0) + Pending(pr, cid, idx)
  {
    assert PendingShare(procs[p := pr], cid, idx) == PendingShare(procs, cid, idx)[p := Pending(pr, cid, idx)];
    SumUpdate(PendingShare(procs, cid, idx), p, Pending(pr, cid, idx));
  }

  /** The most that can still be taken off a counter: what is leased on the key and what is pending. */
  ghost function Owed(w: World, cid: int, idx: int): real {
    LeasesOn(Only(cid, idx), w.sh.leases) + PendingOn(w.procs, cid, idx)
  }

  ghost function Gap(w: World, cid: int, idx: int): real {
    Get(w.sh.usage, (cid, idx)) - Owed(w, cid, idx)
  }

  /** The counter of a key of the channel once the selection's decay has fired. */
  ghost function Decayed(sh: Shared, pr: Proc, idx: int): real
    requires pr.KSelect? && pr.decay.Some?
  {
    Get(Decay(sh.usage, pr.cid, pr.decay.value), (pr.cid, idx))
  }

  /**
   * What is asked of a step that touches the counter: estimates and actuals are not negative,
   * a lease is settled on this key only if it was issued for it, and a decay of this channel
   * leaves the counter at least what is owed. Other keys and channels may do as they like.
   */
  ghost predicate Gentle(w: World, pr: Proc, env: Env, cid: int, idx: int) {
    match pr
    case RIncr(r, _, i, actual, taken) =>
      r.channelId == cid && i == idx && !env.reply.NotExecuted? ==>
        actual >= 0.0 && (taken.Some? ==> ForKey(taken.value, cid, idx))
    case KSelect(c, i, est, decay) =>
      c == cid && !env.reply.NotExecuted? ==>
        && (i == idx ==> est >= 0.0)
        && (decay.Some? ==> Decayed(w.sh, pr, idx) >= Owed(w, cid, idx))
    case _ => true
  }

  ghost predicate GoodStep(w: World, s: Step, cid: int, idx: int) {
    s.Run? && s.p in w.procs ==> Gentle(w, w.procs[s.p], s.env, cid, idx)
  }

  ghost predicate GoodRun(w: World, steps: seq<Step>, cid: int, idx: int) {
    steps != [] ==>
      && GoodRun(w, steps[..|steps| - 1], cid, idx)
      && GoodStep(Exec(w, steps[..|steps| - 1]), steps[|steps| - 1], cid, idx)
  }

  /** Lease ids are drawn, callers well-formed, and no estimate leased on the key is negative. */
  ghost predicate Orderly(w: World, cid: int, idx: int) {
    && LeaseIdsDrawn(w.sh)
    && (forall id :: id in w.sh.leases && ForKey(w.sh.leases[id], cid, idx) ==> w.sh.leases[id].est >= 0.0)
    && (forall p :: p in w.procs ==> WellFormed(w.procs[p]))
  }

  /** The counter covers what is owed on it. */
  ghost predicate Covered(w: World, cid: int, idx: int) {
    Orderly(w, cid, idx) && Get(w.sh.usage, (cid, idx)) >= Owed(w, cid, idx)
  }

  lemma StepKeepsOrderly(w: World, s: Step, cid: int, idx: int)
    requires Orderly(w, cid, idx)
    ensures Orderly(Next(w, s), cid, idx)
  {
    if s.Run? && s.p in w.procs {
      StepClaim(w.sh, w.procs[s.p], s.env);
      StepKeepsLeaseIds(w.sh, w.procs[s.p], s.env);
      StepKeepsEsts(w.sh, w.procs[s.p], s.env, cid, idx);
    }
  }

  lemma StepKeepsEsts(sh: Shared, pr: Proc, env: Env, cid: int, idx: int)
    requires WellFormed(pr)
    requires forall id :: id in sh.leases && ForKey(sh.leases[id], cid, idx) ==> sh.leases[id].est >= 0.0
    ensures var sh' := ProcStep(sh, pr, env).0;
            forall id :: id in sh'.leases && ForKey(sh'.leases[id], cid, idx) ==> sh'.leases[id].est >= 0.0
  {
    if !pr.RLease? && !pr.RIncr? && !pr.KSelect? && !pr.KLease? {
      StepMovesNothing(sh, pr, env);
    }
  }

  lemma OnlyIsOne(usage: UsageTable, cid: int, idx: int)
    ensures UsageOn(Only(cid, idx), usage) == Get(usage, (cid, idx))
  {
    var share := UsageShare(Only(cid, idx), usage);
    SumDelete(share, (cid, idx));
    SumZero(share - {(cid, idx)});
  }

  lemma GapIsSettled(w: World, cid: int, idx: int)
    ensures Gap(w, cid, idx) == Settled(Only(cid, idx), w) + InflightOn(Only(cid, idx), w.procs) - PendingOn(w.procs, cid, idx)
  {
    OnlyIsOne(w.sh.usage, cid, idx);
  }

  /** The part of an estimate in a caller's hands that will not be taken off, whatever it does next. */
  ghost function Slack(pr: Proc, cid: int, idx: int): real {
    LeaseOn(Only(cid, idx), Inflight(pr)) - Pending(pr, cid, idx)
  }

  /** By how much a step of a caller widens the gap. */
  ghost function Widening(sh: Shared, pr: Proc, env: Env, cid: int, idx: int): real {
    Amount(Only(cid, idx), sh, pr, env) + Slack(ProcStep(sh, pr, env).1, cid, idx) - Slack(pr, cid, idx)
  }

  lemma CallerMovesGap(w: World, p: nat, env: Env, cid: int, idx: int)
    requires Orderly(w, cid, idx) && p in w.procs
    ensures Gap(Next(w, Run(p, env)), cid, idx) == Gap(w, cid, idx) + Widening(w.sh, w.procs[p], env, cid, idx)
  {
    var pr' := ProcStep(w.sh, w.procs[p], env).1;
    StepConserves(Only(cid, idx), w, Run(p, env));
    InflightUpdate(Only(cid, idx), w.procs, p, pr');
    PendingUpdate(w.procs, p, pr', cid, idx);
    GapIsSettled(w, cid, idx);
    GapIsSettled(Next(w, Run(p, env)), cid, idx);
  }

  lemma ArrivalMovesGap(w: World, p: nat, pr: Proc, cid: int, idx: int)
    requires Orderly(w, cid, idx)
    ensures Gap(Next(w, Spawn(p, pr)), cid, idx) == Gap(w, cid, idx)
  {
    PendingUpdate(w.procs, p, pr, cid, idx);
  }

  lemma LossMovesGap(w: World, id: nat, cid: int, idx: int)
    requires Orderly(w, cid, idx)
    ensures Gap(Next(w, ExpireLease(id)), cid, idx) >= Gap(w, cid, idx)
  {
    LeaseDelete(Only(cid, idx), w.sh.leases, id);
  }

  lemma OthersMoveGap(w: World, s: Step, cid: int, idx: int)
    requires Orderly(w, cid, idx) && !s.Run?
    ensures Gap(Next(w, s), cid, idx) >= Gap(w, cid, idx)
  {
    match s
    case Spawn(p, pr) => ArrivalMovesGap(w, p, pr, cid, idx);
    case ExpireLease(id) => LossMovesGap(w, id, cid, idx);
    case _ =>
  }

  // No gentle step of a caller but a selection narrows the gap.

  lemma TakeWidens(sh: Shared, pr: Proc, env: Env, cid: int, idx: int)
    requires pr.RLease? && WellFormed(pr)
    requires forall id :: id in sh.leases && ForKey(sh.leases[id], cid, idx) ==> sh.leases[id].est >= 0.0
    ensures Widening(sh, pr, env, cid, idx) >= 0.0
  {
  }

  lemma IncrWidens(w: World, pr: Proc, env: Env, cid: int, idx: int)
    requires pr.RIncr? && Gentle(w, pr, env, cid, idx)
    ensures Widening(w.sh, pr, env, cid, idx) >= 0.0
  {
  }

  lemma IssueWidens(sh: Shared, pr: Proc, env: Env, cid: int, idx: int)
    requires pr.KLease? && WellFormed(pr)
    ensures Widening(sh, pr, env, cid, idx) >= 0.0
  {
  }

  lemma StepWidens(w: World, pr: Proc, env: Env, cid: int, idx: int)
    requires Orderly(w, cid, idx) && WellFormed(pr) && !pr.KSelect? && Gentle(w, pr, env, cid, idx)
    ensures Widening(w.sh, pr, env, cid, idx) >= 0.0
  {
    match pr
    case RLease(_, _, _, _) => TakeWidens(w.sh, pr, env, cid, idx);
    case RIncr(_, _, _, _, _) => IncrWidens(w, pr, env, cid, idx);
    case KLease(_, _, _) => IssueWidens(w.sh, pr, env, cid, idx);
    case _ => StepMovesNothing(w.sh, pr, env);
  }

  /** A decay of one channel changes its counters and no other. */
  lemma DecayOfKey(usage: UsageTable, c: int, factor: real, cid: int, idx: int)
    ensures DecayChange(Only(cid, idx), usage, c, Some(factor))
            == if c == cid then Get(Decay(usage, c, factor), (cid, idx)) - Get(usage, (cid, idx)) else 0.0
  {
    OnlyIsOne(usage, cid, idx);
    OnlyIsOne(Decay(usage, c, factor), cid, idx);
  }

  /** A selection moves the gap by its decay, and by a charge that is neither leased nor about to be. */
  lemma SelectWidens(sh: Shared, pr: Proc, env: Env, cid: int, idx: int)
    requires pr.KSelect?
    ensures Widening(sh, pr, env, cid, idx) == SelectAmount(Only(cid, idx), sh, pr, env)
  {
  }

  lemma SelectKeepsGap(w: World, pr: Proc, env: Env, cid: int, idx: int)
    requires pr.KSelect? && Gentle(w, pr, env, cid, idx) && Gap(w, cid, idx) >= 0.0
    ensures Gap(w, cid, idx) + SelectAmount(Only(cid, idx), w.sh, pr, env) >= 0.0
  {
    if pr.decay.Some? {
      DecayOfKey(w.sh.usage, pr.cid, pr.decay.value, cid, idx);
    }
  }

  lemma StepKeepsCovered(w: World, s: Step, cid: int, idx: int)
    requires Covered(w, cid, idx) && GoodStep(w, s, cid, idx)
    ensures Covered(Next(w, s), cid, idx)
  {
    StepKeepsOrderly(w, s, cid, idx);
    if !s.Run? {
      OthersMoveGap(w, s, cid, idx);
    } else if s.p in w.procs {
      CallerKeepsGap(w, s.p, s.env, cid, idx);
    }
    assert Gap(Next(w, s), cid, idx) >= 0.0;
  }

  lemma CallerKeepsGap(w: World, p: nat, env: Env, cid: int, idx: int)
    requires Covered(w, cid, idx) && p in w.procs && Gentle(w, w.procs[p], env, cid, idx)
    ensures Gap(Next(w, Run(p, env)), cid, idx) >= 0.0
  {
    CallerMovesGap(w, p, env, cid, idx);
    if w.procs[p].KSelect? {
      SelectWidens(w.sh, w.procs[p], env, cid, idx);
      SelectKeepsGap(w, w.procs[p], env, cid, idx);
    } else {
      StepWidens(w, w.procs[p], env, cid, idx);
    }
  }

  lemma OwedNonNegative(w: World, cid: int, idx: int)
    requires Orderly(w, cid, idx)
    ensures Owed(w, cid, idx) >= 0.0
  {
    SumNonNegative(LeaseShare(Only(cid, idx), w.sh.leases));
    SumNonNegative(PendingShare(w.procs, cid, idx));
  }

  /**
   * A counter that covers what is owed on it goes on doing so, over every run whose steps on
   * it are gentle, and so never goes below zero although settlements may be negative. Decays
   * of other channels are free, and so is one of this channel that the counter can afford.
   */
  lemma {:induction false} NoCounterNegative(w: World, steps: seq<Step>, cid: int, idx: int)
    requires Covered(w, cid, idx) && GoodRun(w, steps, cid, idx)
    ensures Covered(Exec(w, steps), cid, idx)
    ensures Get(Exec(w, steps).sh.usage, (cid, idx)) >= Owed(Exec(w, steps), cid, idx) >= 0.0
  {
    if steps != [] {
      var prefix, s := steps[..|steps| - 1], steps[|steps| - 1];
      NoCounterNegative(w, prefix, cid, idx);
      StepKeepsCovered(Exec(w, prefix), s, cid, idx);
    }
    OwedNonNegative(Exec(w, steps), cid, idx);
  }

  /** Before any caller arrives, nothing leased is nothing owed: a fresh Redis covers every key. */
  lemma FreshIsCovered(w: World, cid: int, idx: int)
    requires Quiet(w) && w.sh.leases == map[] && Get(w.sh.usage, (cid, idx)) >= 0.0
    ensures Covered(w, cid, idx)
  {
    assert LeaseShare(Only(cid, idx), w.sh.leases) == map[];
    assert PendingShare(w.procs, cid, idx) == map[];
  }
}

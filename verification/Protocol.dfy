/**
 * Reports, manual status changes and usage-mode selections as processes that interleave one
 * remote step at a time over one shared database and one Redis.
 */
module Protocol {
  import opened Common
  import opened ChannelModel
  import opened KeyTransaction
  import opened SettingsModel

  const MAX_REASON: nat := 256

  datatype Action =
    | NoAction | KeyDisabled | ChannelDisabled | KeyEnabledAction | StaleEpochIgnored | Duplicate

  datatype ErrorKind = IdemError | ChannelNotFound | Dependency | InvalidRequest | LeaseError | UsageError | LockFailed | ApplyError | SelectError

  datatype Outcome = Answer(action: Action, channelStatus: int) | Served(cid: int, idx: int) | Failed(error: ErrorKind)

  datatype Usage = Usage(promptTokens: real, completionTokens: real, cost: real)

  /** leaseId is None when the report carries none; lowered is errorMessage in lower case. */
  datatype ReportReq = ReportReq(
    leaseId: Option<nat>,
    channelId: int,
    keyIndex: Option<int>,
    key: string,
    epoch: string,
    success: bool,
    statusCode: int,
    errorMessage: string,
    lowered: string,
    usage: Option<Usage>,
    idemKey: string)

  /** Redis stores est alone; the key the lease was issued for is history that no step reads. */
  datatype Lease = Lease(est: real, forCid: int, forIdx: int)

  type UsageTable = map<(int, int), real>

  /** nextId numbers the random lock tokens and lease ids, none of which is drawn twice. */
  datatype Shared = Shared(
    db: Database,
    idem: set<string>,
    locks: map<int, nat>,
    leases: map<nat, Lease>,
    usage: UsageTable,
    nextId: nat,
    metrics: map<Action, nat>)

  /** A caller's program point with the local variables still in use. */
  datatype Proc =
    | RStart(r: ReportReq)
    | RLoad(r: ReportReq, held: bool)
    | RLease(r: ReportReq, held: bool, idx: int, actual: real)
    | RIncr(r: ReportReq, held: bool, idx: int, actual: real, taken: Option<Lease>)
    | RLock(r: ReportReq, held: bool, idx: int)
    | RReread(r: ReportReq, held: bool, idx: int, token: nat)
    | RDecide(r: ReportReq, held: bool, idx: int, token: nat, ch: Channel)
    | RUnlock(r: ReportReq, held: bool, token: nat, out: Outcome)
    | RRollback(r: ReportReq, out: Outcome)
    | SStart(cid: int, idx: int, status: int, reason: string)
    | SReread(cid: int, idx: int, status: int, reason: string, token: nat)
    | SApply(cid: int, idx: int, status: int, reason: string, token: nat, ch: Channel)
    | SUnlock(cid: int, token: nat, out: Outcome)
    | KSelect(cid: int, idx: int, est: real, decay: Option<real>)
    | KLease(cid: int, idx: int, est: real)
    | Done(idemKey: string, out: Outcome)

  /** What the outside decides at a step: the fate of the remote call, settings and clock. */
  datatype Env = Env(reply: Reply, settings: Option<Settings>, now: int)

  // ----- pure pieces of the report -----

  function Truncate(s: string): string {
    if |s| <= MAX_REASON then s else s[..MAX_REASON]
  }

  function Metric(st: Option<Settings>, cid: int): string {
    if st.Some? && cid in st.value.balance && st.value.balance[cid].metric != "" then st.value.balance[cid].metric
    else "tokens"
  }

  function UsageValue(metric: string, u: Usage): real {
    if metric == "cost" && u.cost > 0.0 then u.cost else u.promptTokens + u.completionTokens
  }

  function FirstIndex(keys: seq<string>, key: string): (i: Option<int>)
    ensures i.Some? ==> 0 <= i.value < |keys| && keys[i.value] == key && key !in keys[..i.value]
    ensures i.None? ==> key !in keys
  {
    if keys == [] then None
    else if keys[0] == key then Some(0)
    else
      var rest := FirstIndex(keys[1..], key);
      assert forall k :: k in keys ==> k == keys[0] || k in keys[1..];
      assert rest.Some? ==> keys[..rest.value + 1] == [keys[0]] + keys[1..][..rest.value];
      if rest.Some? then Some(rest.value + 1) else None
  }

  /** The index wins over the key string, and giving both requires them to agree; else the first key that matches. */
  function LocateKeyIndex(ch: Channel, keyIndex: Option<int>, key: string): (i: Option<int>)
    ensures i.Some? ==> 0 <= i.value < |ch.keys| && (key != "" ==> ch.keys[i.value] == key)
    ensures keyIndex.Some? && keyIndex.value >= 0 ==>
              && (i.Some? ==> i == keyIndex)
              && (i.None? <==> keyIndex.value >= |ch.keys| || (key != "" && ch.keys[keyIndex.value] != key))
    ensures keyIndex.None? || keyIndex.value < 0 ==>
              && (i.Some? ==> key !in ch.keys[..i.value])
              && (i.None? <==> key == "" || key !in ch.keys)
  {
    if keyIndex.Some? && keyIndex.value >= 0 then
      if keyIndex.value >= |ch.keys| || (key != "" && ch.keys[keyIndex.value] != key) then None
      else keyIndex
    else if key != "" then FirstIndex(ch.keys, key)
    else None
  }

  /** A non-multi-key channel has no per-key status; its own status stands in. */
  function PrevStatus(ch: Channel, idx: int): int {
    if ch.info.isMultiKey then KeyStatus(ch, idx) else ch.status
  }

  function Counter(metrics: map<Action, nat>, a: Action): nat {
    if a in metrics then metrics[a] else 0
  }

  function Bump(metrics: map<Action, nat>, a: Action): map<Action, nat> {
    metrics[a := Counter(metrics, a) + 1]
  }

  function Count(sh: Shared, a: Action): Shared {
    sh.(metrics := Bump(sh.metrics, a))
  }

  function Settle(sh: Shared, cid: int, idx: int, delta: real): Shared {
    sh.(usage := sh.usage[(cid, idx) := Get(sh.usage, (cid, idx)) + delta])
  }

  /** Multiply every counter of one channel. */
  function Decay(usage: UsageTable, cid: int, factor: real): UsageTable {
    map k | k in usage :: if k.0 == cid then usage[k] * factor else usage[k]
  }

  /** The usage-mode effect of the selection script on the counters. */
  function Charge(usage: UsageTable, cid: int, idx: int, est: real, decay: Option<real>): UsageTable {
    var decayed := if decay.Some? then Decay(usage, cid, decay.value) else usage;
    decayed[(cid, idx) := Get(decayed, (cid, idx)) + est]
  }

  function TakenEst(taken: Option<Lease>): real {
    if taken.Some? then taken.value.est else 0.0
  }

  // ----- one remote step of each kind of caller -----

  /** Where an error return goes: the idempotency key is given back if this call set it. */
  function Fail(r: ReportReq, held: bool, e: ErrorKind): Proc {
    if held then RRollback(r, Failed(e)) else Done(r.idemKey, Failed(e))
  }

  function Finish(r: ReportReq, held: bool, out: Outcome): Proc {
    if out.Failed? then Fail(r, held, out.error) else Done(r.idemKey, out)
  }

  function ReportStart(sh: Shared, r: ReportReq, env: Env): (Shared, Proc) {
    if r.idemKey == "" then (sh, RLoad(r, false))
    else match env.reply
      case NotExecuted => (sh, Done(r.idemKey, Failed(IdemError)))
      case Lost => (sh.(idem := sh.idem + {r.idemKey}), Done(r.idemKey, Failed(IdemError)))
      case Delivered =>
        if r.idemKey in sh.idem then (Count(sh, Duplicate), Done(r.idemKey, Answer(Duplicate, 0)))
        else (sh.(idem := sh.idem + {r.idemKey}), RLoad(r, true))
  }

  function ReportLoad(sh: Shared, r: ReportReq, held: bool, env: Env): (Shared, Proc) {
    if !env.reply.Delivered? then (sh, Fail(r, held, Dependency))
    else if r.channelId !in sh.db.channels then (sh, Fail(r, held, ChannelNotFound))
    else
      var ch := sh.db.channels[r.channelId];
      if r.epoch != "" && r.epoch != ch.epoch then
        (Count(sh, StaleEpochIgnored), Done(r.idemKey, Answer(StaleEpochIgnored, ch.status)))
      else
        var at := LocateKeyIndex(ch, r.keyIndex, r.key);
        if at.None? then (sh, Fail(r, held, InvalidRequest))
        else if r.usage.None? then (sh, RLock(r, held, at.value))
        else
          var actual := UsageValue(Metric(env.settings, r.channelId), r.usage.value);
          (sh, if r.leaseId.Some? then RLease(r, held, at.value, actual) else RIncr(r, held, at.value, actual, None))
  }

  function ReportLease(sh: Shared, r: ReportReq, held: bool, idx: int, actual: real, env: Env): (Shared, Proc)
    requires r.leaseId.Some?
  {
    var id := r.leaseId.value;
    var sh' := if env.reply.NotExecuted? then sh else sh.(leases := sh.leases - {id});
    if !env.reply.Delivered? then (sh', Fail(r, held, LeaseError))
    else (sh', RIncr(r, held, idx, actual, if id in sh.leases then Some(sh.leases[id]) else None))
  }

  function ReportIncr(sh: Shared, r: ReportReq, held: bool, idx: int, actual: real, taken: Option<Lease>, env: Env): (Shared, Proc) {
    var sh' := if env.reply.NotExecuted? then sh else Settle(sh, r.channelId, idx, actual - TakenEst(taken));
    (sh', if env.reply.Delivered? then RLock(r, held, idx) else Fail(r, held, UsageError))
  }

  /** SET NX: a lost reply leaves the lock taken by nobody until it expires. */
  function TryLock(sh: Shared, cid: int, env: Env): (Shared, Option<nat>) {
    var sh' := sh.(nextId := sh.nextId + 1);
    if env.reply.NotExecuted? || cid in sh.locks then (sh', None)
    else (sh'.(locks := sh.locks[cid := sh.nextId]), if env.reply.Delivered? then Some(sh.nextId) else None)
  }

  /** Compare the token, then delete. */
  function Unlock(sh: Shared, cid: int, token: nat, env: Env): Shared {
    if env.reply.NotExecuted? || cid !in sh.locks || sh.locks[cid] != token then sh
    else sh.(locks := sh.locks - {cid})
  }

  function ReportLock(sh: Shared, r: ReportReq, held: bool, idx: int, env: Env): (Shared, Proc) {
    var (sh', token) := TryLock(sh, r.channelId, env);
    (sh', if token.Some? then RReread(r, held, idx, token.value) else Fail(r, held, LockFailed))
  }

  /** GetChannel, as the callers map its errors. */
  function Load(sh: Shared, cid: int, env: Env): (Option<Channel>, ErrorKind) {
    if !env.reply.Delivered? then (None, Dependency)
    else if cid !in sh.db.channels then (None, ChannelNotFound)
    else (Some(sh.db.channels[cid]), Dependency)
  }

  function ReportReread(sh: Shared, r: ReportReq, held: bool, idx: int, token: nat, env: Env): (Shared, Proc) {
    var (ch, e) := Load(sh, r.channelId, env);
    (sh, if ch.Some? then RDecide(r, held, idx, token, ch.value) else RUnlock(r, held, token, Failed(e)))
  }

  /** The transaction as the callers see it: the database afterwards and what they learn. */
  function Transact(sh: Shared, cid: int, idx: int, status: int, reason: string, env: Env): (Shared, ApplyResult) {
    var res := Apply(sh.db, cid, idx, status, reason, env.now);
    var sh' := if res.Rejected? || env.reply.NotExecuted? then sh else sh.(db := res.db);
    (sh', if env.reply.Delivered? then res else Rejected)
  }

  /** What the report writes, if anything: a status and a reason. */
  function Decision(r: ReportReq, idx: int, ch: Channel, st: Option<Settings>): Option<(int, string)> {
    if r.success then
      if ShouldEnable(st, PrevStatus(ch, idx)) then Some((ENABLED, "")) else None
    else
      if ShouldDisable(st, AutoBan(ch), r.statusCode, r.lowered) then Some((AUTO_DISABLED, Truncate(r.errorMessage))) else None
  }

  function ReportDecide(sh: Shared, r: ReportReq, held: bool, idx: int, token: nat, ch: Channel, env: Env): (Shared, Proc) {
    var d := Decision(r, idx, ch, env.settings);
    if d.None? then
      (Count(sh, NoAction), RUnlock(r, held, token, Answer(NoAction, ch.status)))
    else
      var (sh', res) := Transact(sh, r.channelId, idx, d.value.0, d.value.1, env);
      if res.Rejected? then (sh', RUnlock(r, held, token, Failed(ApplyError)))
      else
        var a := if r.success then KeyEnabledAction else if res.allDead then ChannelDisabled else KeyDisabled;
        (Count(sh', a), RUnlock(r, held, token, Answer(a, res.channelStatus)))
  }

  function ReportRollback(sh: Shared, r: ReportReq, out: Outcome, env: Env): (Shared, Proc) {
    (if env.reply.NotExecuted? then sh else sh.(idem := sh.idem - {r.idemKey}), Done(r.idemKey, out))
  }

  function SetStart(sh: Shared, cid: int, idx: int, status: int, reason: string, env: Env): (Shared, Proc) {
    if (status != ENABLED && status != MANUALLY_DISABLED) || idx < 0 then (sh, Done("", Failed(InvalidRequest)))
    else
      var (sh', token) := TryLock(sh, cid, env);
      (sh', if token.Some? then SReread(cid, idx, status, reason, token.value) else Done("", Failed(LockFailed)))
  }

  function SetReread(sh: Shared, cid: int, idx: int, status: int, reason: string, token: nat, env: Env): (Shared, Proc) {
    var (ch, e) := Load(sh, cid, env);
    (sh, if ch.None? then SUnlock(cid, token, Failed(e))
         else if LocateKeyIndex(ch.value, Some(idx), "").None? then SUnlock(cid, token, Failed(InvalidRequest))
         else SApply(cid, idx, status, reason, token, ch.value))
  }

  function SetApply(sh: Shared, cid: int, idx: int, status: int, reason: string, token: nat, env: Env): (Shared, Proc) {
    var (sh', res) := Transact(sh, cid, idx, status, Truncate(reason), env);
    if res.Rejected? then (sh', SUnlock(cid, token, Failed(ApplyError)))
    else
      var a := if status == ENABLED then KeyEnabledAction else if res.allDead then ChannelDisabled else KeyDisabled;
      (Count(sh', a), SUnlock(cid, token, Answer(a, res.channelStatus)))
  }

  /** The script runs atomically; idx is the key it chooses. */
  function SelectScriptStep(sh: Shared, cid: int, idx: int, est: real, decay: Option<real>, env: Env): (Shared, Proc) {
    var sh' := if env.reply.NotExecuted? then sh else sh.(usage := Charge(sh.usage, cid, idx, est, decay));
    (sh', if !env.reply.Delivered? then Done("", Failed(SelectError))
          else if est > 0.0 then KLease(cid, idx, est)
          else Done("", Served(cid, idx)))
  }

  function SelectLease(sh: Shared, cid: int, idx: int, est: real, env: Env): (Shared, Proc) {
    var sh' := sh.(nextId := sh.nextId + 1);
    (if env.reply.NotExecuted? then sh' else sh'.(leases := sh.leases[sh.nextId := Lease(est, cid, idx)]),
     Done("", if env.reply.Delivered? then Served(cid, idx) else Failed(LeaseError)))
  }

  function ProcStep(sh: Shared, pr: Proc, env: Env): (Shared, Proc) {
    match pr
    case RStart(r) => ReportStart(sh, r, env)
    case RLoad(r, held) => ReportLoad(sh, r, held, env)
    case RLease(r, held, idx, actual) => if r.leaseId.Some? then ReportLease(sh, r, held, idx, actual, env) else (sh, pr)
    case RIncr(r, held, idx, actual, taken) => ReportIncr(sh, r, held, idx, actual, taken, env)
    case RLock(r, held, idx) => ReportLock(sh, r, held, idx, env)
    case RReread(r, held, idx, token) => ReportReread(sh, r, held, idx, token, env)
    case RDecide(r, held, idx, token, ch) => ReportDecide(sh, r, held, idx, token, ch, env)
    case RUnlock(r, held, token, out) => (Unlock(sh, r.channelId, token, env), Finish(r, held, out))
    case RRollback(r, out) => ReportRollback(sh, r, out, env)
    case SStart(cid, idx, status, reason) => SetStart(sh, cid, idx, status, reason, env)
    case SReread(cid, idx, status, reason, token) => SetReread(sh, cid, idx, status, reason, token, env)
    case SApply(cid, idx, status, reason, token, ch) => SetApply(sh, cid, idx, status, reason, token, env)
    case SUnlock(cid, token, out) => (Unlock(sh, cid, token, env), Done("", out))
    case KSelect(cid, idx, est, decay) => SelectScriptStep(sh, cid, idx, est, decay, env)
    case KLease(cid, idx, est) => SelectLease(sh, cid, idx, est, env)
    case Done(_, _) => (sh, pr)
  }

  // ----- interleavings -----

  datatype World = World(sh: Shared, procs: map<nat, Proc>)

  /** A new caller, one step of a caller, or the expiry of a Redis key. */
  datatype Step =
    | Spawn(p: nat, pr: Proc)
    | Run(p: nat, env: Env)
    | ExpireLock(cid: int)
    | ExpireIdem(key: string)
    | ExpireLease(id: nat)

  predicate Initial(pr: Proc) {
    pr.RStart? || pr.SStart? || pr.KSelect?
  }

  function Next(w: World, s: Step): World {
    match s
    case Spawn(p, pr) => if p !in w.procs && Initial(pr) then w.(procs := w.procs[p := pr]) else w
    case Run(p, env) =>
      if p !in w.procs then w
      else
        var (sh', pr') := ProcStep(w.sh, w.procs[p], env);
        World(sh', w.procs[p := pr'])
    case ExpireLock(cid) => w.(sh := w.sh.(locks := w.sh.locks - {cid}))
    case ExpireIdem(key) => w.(sh := w.sh.(idem := w.sh.idem - {key}))
    case ExpireLease(id) => w.(sh := w.sh.(leases := w.sh.leases - {id}))
  }

  /** The state after any finite interleaving. */
  function Exec(w: World, steps: seq<Step>): World {
    if steps == [] then w else Next(Exec(w, steps[..|steps| - 1]), steps[|steps| - 1])
  }

  /** Before any caller arrives: nothing is locked and every stored id was drawn earlier. */
  ghost predicate Quiet(w: World) {
    && w.procs == map[]
    && (forall c :: c in w.sh.locks ==> w.sh.locks[c] < w.sh.nextId)
    && (forall id :: id in w.sh.leases ==> id < w.sh.nextId)
  }

  // ----- reading a caller's program point -----

  function Token(pr: Proc): Option<nat> {
    match pr
    case RReread(_, _, _, t) => Some(t)
    case RDecide(_, _, _, t, _) => Some(t)
    case RUnlock(_, _, t, _) => Some(t)
    case SReread(_, _, _, _, t) => Some(t)
    case SApply(_, _, _, _, t, _) => Some(t)
    case SUnlock(_, t, _) => Some(t)
    case _ => None
  }

  function Cid(pr: Proc): int {
    match pr
    case SStart(cid, _, _, _) => cid
    case SReread(cid, _, _, _, _) => cid
    case SApply(cid, _, _, _, _, _) => cid
    case SUnlock(cid, _, _) => cid
    case KSelect(cid, _, _, _) => cid
    case KLease(cid, _, _) => cid
    case Done(_, _) => 0
    case _ => pr.r.channelId
  }
}

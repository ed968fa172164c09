/** Selecting a key: channel, candidates, exclusions, mode, script, lease. */
module Selector {
  import opened Common
  import opened ChannelModel
  import opened KeyTransaction
  import opened SettingsModel
  import opened Protocol
  import opened SelectScript
  import opened RedisCells
  import opened Rotation
  import opened CandidateSet
  import opened Tiers
  import Balance

  const DEFAULT_DECAY_INTERVAL: real := 3600.0
  const DEFAULT_DECAY_FACTOR: real := 0.5
  const JITTER: real := 0.05

  datatype KeyRef = KeyRef(channelId: int, keyIndex: int)

  /** abilities is what the query for the request's group and model returns; None if it fails. */
  datatype SelectReq = SelectReq(
    channelId: int,
    abilities: Option<seq<Ability>>,
    retry: int,
    exclude: seq<KeyRef>,
    mode: string,
    est: real,
    advanceCursor: bool)

  /** Random numbers, settings, clock, and the fate of the remote calls of one selection. */
  datatype SelectEnv = SelectEnv(
    draw: nat,
    load: Reply,
    settings: Option<Settings>,
    now: nat,
    draws: seq<real>,
    script: Reply,
    lease: Reply)

  datatype Refusal = NoKey | NoChannel | DependencyFailed | ScriptFailed | LeaseFailed

  datatype SelectResult =
    | Selected(cid: int, idx: int, key: string, epoch: string, mode: string, band: Option<BandInfo>, leaseId: Option<nat>)
    | Refused(why: Refusal)

  // ----- the channel -----

  datatype Resolved = Found(ch: Channel) | Unresolved(why: Refusal)

  function Weights(tier: Tier): seq<int> {
    seq(|tier|, i requires 0 <= i < |tier| => tier[i].weight + 10)
  }

  lemma WeightsPositive(tier: Tier)
    ensures TotalWeight(Weights(tier)) > 0
  {
    WeightGrows(Weights(tier), 1, |tier|);
    assert WeightBefore(Weights(tier), 1) == tier[0].weight + 10;
  }

  function LoadEnabled(channels: map<int, Channel>, cid: int, load: Reply): Resolved {
    if !load.Delivered? then Unresolved(DependencyFailed)
    else if cid !in channels then Unresolved(NoChannel)
    else if channels[cid].status != ENABLED then Unresolved(NoKey)
    else Found(channels[cid])
  }

  /** The tier the request's retry count asks for. */
  function TierOf(abs: seq<Ability>, retry: int): Tier
    requires abs != []
  {
    RetryNeverRaises(abs, retry, retry);
    TierForRetry(SortTiers(Group(abs)), retry)
  }

  /** By id, or the member of the tier that owns the draw. */
  ghost predicate Resolves(channels: map<int, Channel>, req: SelectReq, env: SelectEnv, r: Resolved) {
    if req.channelId > 0 then r == LoadEnabled(channels, req.channelId, env.load)
    else if req.abilities.None? then r == Unresolved(DependencyFailed)
    else if req.abilities.value == [] then r == Unresolved(NoChannel)
    else
      var tier := TierOf(req.abilities.value, req.retry);
      WeightsPositive(tier);
      exists i: nat :: i < |tier| && Owns(Weights(tier), i, env.draw % TotalWeight(Weights(tier)))
                       && r == LoadEnabled(channels, tier[i].channelId, env.load)
  }

  /** Only a stored channel that is on is ever selected from. */
  lemma FoundIsStored(channels: map<int, Channel>, req: SelectReq, env: SelectEnv, r: Resolved)
    requires Resolves(channels, req, env, r) && r.Found?
    ensures r.ch.status == ENABLED && exists c :: c in channels && channels[c] == r.ch
  {
  }

  lemma {:induction false} AscendingFits(s: seq<int>, n: nat)
    requires Ascending(s) && forall k :: k in s ==> 0 <= k < n
    ensures |s| <= n
  {
    if s != [] {
      var s', last := s[..|s| - 1], s[|s| - 1];
      assert last in s;
      forall k | k in s'
        ensures 0 <= k < last
      {
        assert k in s;
      }
      AscendingFits(s', last);
    }
  }

  // ----- exclusions -----

  ghost predicate Excluded(exclude: seq<KeyRef>, cid: int, k: int) {
    KeyRef(cid, k) in exclude
  }

  function Without(s: seq<int>, excluded: set<int>): seq<int> {
    if s == [] then []
    else
      var kept, last := Without(s[..|s| - 1], excluded), s[|s| - 1];
      if last in excluded then kept else kept + [last]
  }

  lemma {:induction false} WithoutKeeps(s: seq<int>, excluded: set<int>)
    ensures forall k :: k in Without(s, excluded) <==> k in s && k !in excluded
    ensures |Without(s, excluded)| <= |s|
    ensures Ascending(s) ==> Ascending(Without(s, excluded))
  {
    if s != [] {
      var s', last := s[..|s| - 1], s[|s| - 1];
      WithoutKeeps(s', excluded);
      assert forall k :: k in s <==> k in s' || k == last;
      var kept := Without(s', excluded);
      assert forall i :: 0 <= i < |kept| ==> kept[i] in kept;
      assert Ascending(s) ==> Ascending(s') && forall k :: k in s' ==> k < last;
    }
  }

  /** The survivors are moved to the front of the slice they are read from. */
  method FilterInPlace(a: array<int>, excluded: set<int>) returns (n: nat)
    modifies a
    ensures n <= a.Length && a[..n] == Without(old(a[..]), excluded)
  {
    ghost var s := a[..];
    n := 0;
    for i := 0 to a.Length
      invariant n <= i
      invariant a[..n] == Without(s[..i], excluded)
      invariant forall j :: i <= j < a.Length ==> a[j] == s[j]
    {
      assert s[..i + 1][..i] == s[..i] && s[..i + 1][i] == a[i];
      if a[i] !in excluded {
        ghost var kept := a[..n];
        a[n] := a[i];
        n := n + 1;
        assert a[..n] == kept + [s[i]];
      }
    }
    assert s[..a.Length] == s;
  }

  method ExcludedOf(exclude: seq<KeyRef>, cid: int) returns (excluded: set<int>)
    ensures forall k :: k in excluded <==> Excluded(exclude, cid, k)
  {
    excluded := {};
    for i := 0 to |exclude|
      invariant forall k :: k in excluded <==> Excluded(exclude[..i], cid, k)
    {
      assert exclude[..i + 1] == exclude[..i] + [exclude[i]];
      if exclude[i].channelId == cid {
        excluded := excluded + {exclude[i].keyIndex};
      }
    }
    assert exclude[..|exclude|] == exclude;
  }

  // ----- mode and decay -----

  /** The request's mode wins, then the balance setting, then the channel's own mode. */
  function ResolveMode(reqMode: string, st: Option<Settings>, ch: Channel): string {
    if reqMode != "" then reqMode
    else if st.Some? && ch.id in st.value.balance && st.value.balance[ch.id].mode == "usage" then "usage"
    else if ch.info.multiKeyMode == "random" then "random"
    else "polling"
  }

  /** A probe that must not advance the cursor peeks instead of polling. */
  function ScriptMode(req: SelectReq, mode: string): string {
    if !req.advanceCursor && mode == "polling" then "peek" else mode
  }

  function DecayParams(st: Option<Settings>, cid: int): (p: (real, real))
    ensures p.0 > 0.0 && p.1 > 0.0
  {
    if st.None? || cid !in st.value.balance then (DEFAULT_DECAY_INTERVAL, DEFAULT_DECAY_FACTOR)
    else
      var cfg := st.value.balance[cid];
      (if cfg.decayInterval > 0.0 then cfg.decayInterval else DEFAULT_DECAY_INTERVAL,
       if cfg.decayFactor > 0.0 then cfg.decayFactor else DEFAULT_DECAY_FACTOR)
  }

  // ----- what one selection does -----

  /** A candidate the request does not exclude. */
  ghost predicate Offered(ch: Channel, req: SelectReq, env: SelectEnv, shuffle: Shuffle, k: int)
    requires Fits(shuffle)
  {
    Candidate(ch, env.settings, env.now, shuffle(ch.id, |ch.keys|), k) && !Excluded(req.exclude, ch.id, k)
  }

  /** The band reported is the one the candidates were found in, before any exclusion. */
  ghost predicate BandTold(ch: Channel, env: SelectEnv, shuffle: Shuffle, band: Option<BandInfo>)
    requires Fits(shuffle)
  {
    var swaps := shuffle(ch.id, |ch.keys|);
    if !Rotates(env.settings, ch.id) then band.None?
    else ch.keys != [] ==>
           exists all: seq<int>, steps: nat ::
             && (forall k :: k in all <==> Candidate(ch, env.settings, env.now, swaps, k))
             && BandReported(ch, env.settings.value.rotation[ch.id], env.now, swaps, all, band, steps)
  }

  /** The band is dead but a key is live, so that the search goes forward. */
  ghost predicate LooksAhead(ch: Channel, env: SelectEnv, shuffle: Shuffle)
    requires Fits(shuffle)
  {
    && Rotates(env.settings, ch.id) && SomeKeyEnabled(ch)
    && var cfg := env.settings.value.rotation[ch.id];
       var bs := BatchesOf(ch, cfg, shuffle(ch.id, |ch.keys|));
       bs != [] && !LiveInBand(ch, bs, env.now / cfg.bandSeconds, cfg.overlapBands)
  }

  /** What the candidate computation answers is what is told. */
  lemma CandidatesTold(ch: Channel, env: SelectEnv, shuffle: Shuffle, all: seq<int>, band: Option<BandInfo>, steps: nat)
    requires Fits(shuffle)
    requires forall k :: k in all <==> Candidate(ch, env.settings, env.now, shuffle(ch.id, |ch.keys|), k)
    requires all != [] <==> SomeKeyEnabled(ch)
    requires !Rotates(env.settings, ch.id) ==> band.None? && steps == 0
    requires Rotates(env.settings, ch.id) && ch.keys != [] ==>
               BandReported(ch, env.settings.value.rotation[ch.id], env.now, shuffle(ch.id, |ch.keys|), all, band, steps)
    ensures BandTold(ch, env, shuffle, band)
    ensures LooksAhead(ch, env, shuffle) <==> all != [] && steps > 0
  {
    SomeEnabledMeans(ch);
  }

  /** The draw lies in the part of [0, 1) that belongs to the place: all n parts are of one size. */
  predicate Drew(draw: real, n: nat, at: nat) {
    at as real <= draw * n as real < (at + 1) as real
  }

  /** Which of the candidates the script chooses: round robin, by lot, or the first least used. */
  ghost predicate Chosen(mode: string, cid: int, cands: seq<int>, env: SelectEnv, cursor: int, usage: UsageTable, chosen: int)
    requires cands != [] && |env.draws| >= |cands|
  {
    && (mode == "peek" ==> chosen == cands[cursor % |cands|])
    && (Advances(mode) ==> chosen == cands[(cursor + 1) % |cands|])
    && (mode == "random" ==> exists at: nat :: at < |cands| && Drew(env.draws[0], |cands|, at) && chosen == cands[at])
    && (mode == "usage" ==> exists at: nat :: FirstLeast(usage, cid, cands, env.draws, JITTER, at) && chosen == cands[at])
  }

  /** The usage-mode steps of one selection, as the interleaving model has them. */
  function SelectRun(sh: Shared, cid: int, idx: int, est: real, decay: Option<real>, script: Reply, lease: Reply): (Shared, Outcome) {
    var (sh1, pr) := SelectScriptStep(sh, cid, idx, est, decay, Env(script, None, 0));
    if pr.KLease? then
      var (sh2, last) := SelectLease(sh1, cid, idx, est, Env(lease, None, 0));
      (sh2, last.out)
    else (sh1, pr.out)
  }

  function Tally(served: map<(int, int), nat>, at: (int, int)): map<(int, int), nat> {
    served[at := (if at in served then served[at] else 0) + 1]
  }

  /** What the caller is told about the chosen key. */
  ghost predicate Serves(ch: Channel, req: SelectReq, env: SelectEnv, chosen: int, nextId: nat, res: SelectResult)
    requires 0 <= chosen < |ch.keys|
  {
    var mode := ResolveMode(req.mode, env.settings, ch);
    var leased := mode == "usage" && req.est > 0.0;
    if !env.script.Delivered? then res == Refused(ScriptFailed)
    else if leased && !env.lease.Delivered? then res == Refused(LeaseFailed)
    else
      && res.Selected?
      && res.cid == ch.id && res.idx == chosen && res.key == ch.keys[chosen] && res.epoch == ch.epoch
      && res.mode == mode
      && res.leaseId == if leased then Some(nextId) else None
  }

  /** The decay the script finds due, last being the time of the one before. */
  function Due(cid: int, env: SelectEnv, last: int): Option<real> {
    var (interval, factor) := DecayParams(env.settings, cid);
    DueDecay("usage", interval, factor, last, env.now)
  }

  function At(m: map<int, int>, cid: int): int {
    if cid in m then m[cid] else 0
  }

  /** The Redis cells after the remote calls, in terms of those before and the chosen key. */
  ghost predicate Effects(sh: Shared, sh': Shared, cursor: map<int, int>, cursor': map<int, int>, lastDecay: map<int, int>, lastDecay': map<int, int>,
                          ch: Channel, req: SelectReq, env: SelectEnv, chosen: int)
  {
    var mode := ResolveMode(req.mode, env.settings, ch);
    var due := Due(ch.id, env, At(lastDecay, ch.id));
    var polled := Advances(ScriptMode(req, mode)) && !env.script.NotExecuted?;
    && sh' == (if mode == "usage" then SelectRun(sh, ch.id, chosen, req.est, due, env.script, env.lease).0 else sh)
    && cursor' == (if polled then cursor[ch.id := At(cursor, ch.id) + 1] else cursor)
    && lastDecay' == (if mode == "usage" && due.Some? && !env.script.NotExecuted? then lastDecay[ch.id := env.now] else lastDecay)
  }

  /** Why the chosen key was chosen: its place in the round, or its use so far. */
  ghost predicate ChosenFor(ch: Channel, req: SelectReq, env: SelectEnv, cands: seq<int>, cursor: map<int, int>, lastDecay: map<int, int>,
                            usage: UsageTable, chosen: int)
    requires cands != [] && |env.draws| >= |cands|
  {
    env.script.NotExecuted?
    || Chosen(ScriptMode(req, ResolveMode(req.mode, env.settings, ch)), ch.id, cands, env, At(cursor, ch.id),
              AfterDecay(usage, ch.id, Due(ch.id, env, At(lastDecay, ch.id))), chosen)
  }

  /** The place among the candidates says why the key was chosen. */
  lemma ChosenAt(mode: string, cid: int, cands: seq<int>, env: SelectEnv, cursor: int, usage: UsageTable, at: nat)
    requires at < |cands| <= |env.draws|
    requires mode == "peek" ==> at == cursor % |cands|
    requires Advances(mode) ==> at == (cursor + 1) % |cands|
    requires mode == "random" ==> Drew(env.draws[0], |cands|, at)
    requires mode == "usage" ==> FirstLeast(usage, cid, cands, env.draws, JITTER, at)
    ensures Chosen(mode, cid, cands, env, cursor, usage, cands[at])
  {
  }

  class Selector {
    const store: Store
    const redis: Redis
    const shuffle: Shuffle
    var lookaheads: nat
    var served: map<(int, int), nat>

    constructor (store: Store, redis: Redis, shuffle: Shuffle)
      ensures this.store == store && this.redis == redis && this.shuffle == shuffle
      ensures lookaheads == 0 && served == map[]
    {
      this.store, this.redis, this.shuffle, lookaheads, served := store, redis, shuffle, 0, map[];
    }

    function Snapshot(): Shared
      reads this, store, redis
    {
      Shared(store.Db(), redis.idem, redis.locks, redis.leases, redis.usage, redis.nextId, map[])
    }

    method ResolveChannel(req: SelectReq, env: SelectEnv) returns (r: Resolved)
      ensures Resolves(store.channels, req, env, r)
    {
      if req.channelId > 0 {
        return LoadEnabled(store.channels, req.channelId, env.load);
      }
      if req.abilities.None? {
        return Unresolved(DependencyFailed);
      }
      var abs := req.abilities.value;
      if |abs| == 0 {
        return Unresolved(NoChannel);
      }
      var tiers := PriorityTiers(abs);
      RetryNeverRaises(abs, req.retry, req.retry);
      var tier := TierForRetry(tiers, req.retry);
      var weights := TierWeights(tier);
      assert weights == Weights(tier);
      WeightsPositive(tier);
      var i := PickWeightedIndex(weights, env.draw % TotalWeight(weights));
      assert tier == TierOf(abs, req.retry) && Owns(Weights(tier), i, env.draw % TotalWeight(Weights(tier)));
      return LoadEnabled(store.channels, tier[i].channelId, env.load);
    }

    /** Candidates less exclusions; the in-place filter works on the candidates' own slice. */
    method Offer(ch: Channel, req: SelectReq, env: SelectEnv) returns (cands: seq<int>, band: Option<BandInfo>)
      requires Fits(shuffle)
      modifies this`lookaheads
      ensures Ascending(cands)
      ensures forall k :: k in cands <==> Offered(ch, req, env, shuffle, k)
      ensures BandTold(ch, env, shuffle, band)
      ensures lookaheads == old(lookaheads) + if LooksAhead(ch, env, shuffle) then 1 else 0
    {
      var steps;
      cands, band, steps := Candidates(ch, env.settings, env.now, shuffle(ch.id, |ch.keys|));
      CandidatesTold(ch, env, shuffle, cands, band, steps);
      if |cands| == 0 {
        return;
      }
      if steps > 0 {
        lookaheads := lookaheads + 1;
      }
      if |req.exclude| > 0 {
        cands := Exclude(cands, req.exclude, ch.id);
        if |cands| == 0 {
          return;
        }
      }
      var sorted := SortInts(cands);
      SortedKeeps(sorted, cands);
      cands := sorted;
    }

    /** The candidates the request does not exclude, in their order. */
    method Exclude(cands: seq<int>, exclude: seq<KeyRef>, cid: int) returns (kept: seq<int>)
      requires Ascending(cands)
      ensures Ascending(kept)
      ensures forall k :: k in kept <==> k in cands && !Excluded(exclude, cid, k)
    {
      var excluded := ExcludedOf(exclude, cid);
      var slice := new int[|cands|](i requires 0 <= i < |cands| => cands[i]);
      assert slice[..] == cands;
      var n := FilterInPlace(slice, excluded);
      WithoutKeeps(cands, excluded);
      kept := slice[..n];
    }

    /**
     * One selection. A key is served only if it is enabled, in the band, its overlap or the
     * first live batch ahead, and not excluded; the request is refused for want of a key
     * exactly when its channel is off or no such key is left, whatever Redis does.
     */
    method Select(req: SelectReq, env: SelectEnv) returns (res: SelectResult, ghost r: Resolved, ghost offered: seq<int>, ghost chosen: int)
      requires Fits(shuffle)
      requires forall c :: c in store.channels ==> |store.channels[c].keys| < |env.draws|
      requires forall i :: 0 <= i < |env.draws| ==> 0.0 <= env.draws[i] < 1.0
      modifies this`lookaheads, this`served, redis`cursor, redis`usage, redis`lastDecay, redis`leases, redis`nextId
      ensures Resolves(store.channels, req, env, r)
      ensures Ascending(offered)
      ensures forall k :: k in offered <==> r.Found? && Offered(r.ch, req, env, shuffle, k)
      ensures r.Unresolved? ==> res == Refused(r.why)
      ensures res == Refused(NoKey) <==> r == Unresolved(NoKey) || (r.Found? && offered == [])
      ensures lookaheads == old(lookaheads) + if r.Found? && LooksAhead(r.ch, env, shuffle) then 1 else 0
      ensures r.Unresolved? || offered == [] ==>
                unchanged(this`served, redis`cursor, redis`usage, redis`lastDecay, redis`leases, redis`nextId)
      ensures r.Found? && offered != [] ==>
                && |offered| < |env.draws| && chosen in offered && KeyEnabled(r.ch, chosen)
                && ChosenFor(r.ch, req, env, offered, old(redis.cursor), old(redis.lastDecay), old(redis.usage), chosen)
                && Serves(r.ch, req, env, chosen, old(redis.nextId), res)
                && (res.Selected? ==> BandTold(r.ch, env, shuffle, res.band))
                && served == (if res.Selected? then Tally(old(served), (r.ch.id, chosen)) else old(served))
                && Effects(old(Snapshot()), Snapshot(), old(redis.cursor), redis.cursor, old(redis.lastDecay), redis.lastDecay,
                           r.ch, req, env, chosen)
    {
      chosen := 0;
      var found := ResolveChannel(req, env);
      r := found;
      if found.Unresolved? {
        return Refused(found.why), found, [], 0;
      }
      var ch := found.ch;
      var cands, band := Offer(ch, req, env);
      offered := cands;
      FoundIsStored(store.channels, req, env, found);
      assert forall k :: k in cands ==> KeyEnabled(ch, k);
      AscendingFits(cands, |ch.keys|);
      if |cands| == 0 {
        res := Refused(NoKey);
        return;
      }
      res, chosen := Choose(ch, cands, band, req, env);
    }

    /** The script with the channel's decay parameters and the fixed jitter. */
    method RunScript(ch: Channel, mode: string, cands: seq<int>, req: SelectReq, env: SelectEnv) returns (idx: int, failed: bool)
      requires cands != [] && |env.draws| > |cands|
      requires forall i :: 0 <= i < |env.draws| ==> 0.0 <= env.draws[i] < 1.0
      requires mode == ScriptMode(req, ResolveMode(req.mode, env.settings, ch))
      modifies redis`cursor, redis`usage, redis`lastDecay
      ensures idx in cands && failed == !env.script.Delivered?
      ensures ChosenFor(ch, req, env, cands, old(redis.cursor), old(redis.lastDecay), old(redis.usage), idx)
      ensures var due := Due(ch.id, env, old(redis.LastDecay(ch.id)));
              && Snapshot() == (if mode == "usage" then SelectScriptStep(old(Snapshot()), ch.id, idx, req.est, due, Env(env.script, None, 0)).0
                                else old(Snapshot()))
              && redis.lastDecay == (if mode == "usage" && due.Some? && !env.script.NotExecuted? then old(redis.lastDecay)[ch.id := env.now]
                                     else old(redis.lastDecay))
      ensures redis.cursor == if Advances(mode) && !env.script.NotExecuted? then old(redis.cursor)[ch.id := old(redis.Cursor(ch.id)) + 1]
                              else old(redis.cursor)
    {
      idx, failed := cands[0], !env.script.Delivered?;
      if !env.script.NotExecuted? {
        ghost var at;
        idx, at := CallScript(ch, mode, cands, req, env);
        ChosenAt(mode, ch.id, cands, env, old(redis.Cursor(ch.id)),
                 AfterDecay(old(redis.usage), ch.id, Due(ch.id, env, old(redis.LastDecay(ch.id)))), at);
      }
    }

    method CallScript(ch: Channel, mode: string, cands: seq<int>, req: SelectReq, env: SelectEnv) returns (idx: int, ghost at: nat)
      requires cands != [] && |env.draws| > |cands|
      requires forall i :: 0 <= i < |env.draws| ==> 0.0 <= env.draws[i] < 1.0
      modifies redis`cursor, redis`usage, redis`lastDecay
      ensures at < |cands| && idx == cands[at]
      ensures mode == "peek" ==> at == old(redis.Cursor(ch.id)) % |cands|
      ensures Advances(mode) ==> at == (old(redis.Cursor(ch.id)) + 1) % |cands|
      ensures mode == "random" ==> Drew(env.draws[0], |cands|, at)
      ensures var due := Due(ch.id, env, old(redis.LastDecay(ch.id)));
              && (mode == "usage" ==> FirstLeast(AfterDecay(old(redis.usage), ch.id, due), ch.id, cands, env.draws, JITTER, at))
              && redis.usage == (if mode == "usage" then Charge(old(redis.usage), ch.id, idx, req.est, due) else old(redis.usage))
              && redis.lastDecay == if mode == "usage" && due.Some? then old(redis.lastDecay)[ch.id := env.now] else old(redis.lastDecay)
      ensures redis.cursor == if Advances(mode) then old(redis.cursor)[ch.id := old(redis.Cursor(ch.id)) + 1] else old(redis.cursor)
    {
      var (interval, factor) := DecayParams(env.settings, ch.id);
      idx, at := redis.SelectKey(mode, ch.id, cands, req.est, interval, factor, env.now, JITTER, env.draws);
    }

    /**
     * The remote calls of one selection among offered keys. A reply that is lost still
     * charges the key the script chose; chosen is that key.
     */
    method Choose(ch: Channel, cands: seq<int>, band: Option<BandInfo>, req: SelectReq, env: SelectEnv)
      returns (res: SelectResult, ghost chosen: int)
      requires cands != [] && |env.draws| > |cands|
      requires forall i :: 0 <= i < |env.draws| ==> 0.0 <= env.draws[i] < 1.0
      requires forall k :: k in cands ==> KeyEnabled(ch, k)
      modifies this`served, redis`cursor, redis`usage, redis`lastDecay, redis`leases, redis`nextId
      ensures chosen in cands && KeyEnabled(ch, chosen)
      ensures Serves(ch, req, env, chosen, old(redis.nextId), res)
      ensures res.Selected? ==> res.band == band
      ensures ChosenFor(ch, req, env, cands, old(redis.cursor), old(redis.lastDecay), old(redis.usage), chosen)
      ensures served == if res.Selected? then Tally(old(served), (ch.id, chosen)) else old(served)
      ensures Effects(old(Snapshot()), Snapshot(), old(redis.cursor), redis.cursor, old(redis.lastDecay), redis.lastDecay, ch, req, env, chosen)
    {
      var mode := ResolveMode(req.mode, env.settings, ch);
      var luaMode := mode;
      if !req.advanceCursor && mode == "polling" {
        luaMode := "peek";
      }
      var idx, failed := RunScript(ch, luaMode, cands, req, env);
      chosen := idx;
      assert KeyEnabled(ch, idx);
      if failed {
        return Refused(ScriptFailed), idx;
      }
      var leaseId := None;
      if mode == "usage" && req.est > 0.0 {
        leaseId := Some(redis.nextId);
        var refused := redis.DrawAndLease(Lease(req.est, ch.id, idx), env.lease);
        if refused {
          return Refused(LeaseFailed), idx;
        }
      }
      served := Tally(served, (ch.id, idx));
      res := Selected(ch.id, idx, ch.keys[idx], ch.epoch, mode, band, leaseId);
    }
  }

  /**
   * A usage-mode selection that reaches the script is one step of the balance model, with the
   * program's jitter and the channel's decay, so what is proved of the drift of the counters
   * holds of it.
   */
  lemma SelectionIsBalanceStep(sh: Shared, ch: Channel, req: SelectReq, env: SelectEnv, cands: seq<int>, cursor: map<int, int>,
                               lastDecay: map<int, int>, chosen: int, maxEst: real)
    returns (s: Balance.Selection)
    requires cands != [] && |env.draws| >= |cands| && forall i :: 0 <= i < |env.draws| ==> 0.0 <= env.draws[i] < 1.0
    requires ResolveMode(req.mode, env.settings, ch) == "usage" && !env.script.NotExecuted? && 0.0 <= req.est <= maxEst
    requires ChosenFor(ch, req, env, cands, cursor, lastDecay, sh.usage, chosen)
    ensures Balance.ValidSelection(sh.usage, ch.id, cands, JITTER, maxEst, s)
    ensures SelectRun(sh, ch.id, chosen, req.est, Due(ch.id, env, At(lastDecay, ch.id)), env.script, env.lease).0.usage
            == Balance.Apply(sh.usage, ch.id, cands, s)
  {
    var due := Due(ch.id, env, At(lastDecay, ch.id));
    assert ScriptMode(req, "usage") == "usage";
    var at: nat :| FirstLeast(AfterDecay(sh.usage, ch.id, due), ch.id, cands, env.draws, JITTER, at) && chosen == cands[at];
    s := Balance.Selection(env.draws, req.est, due, at);
  }

  /** A row the query returns: an enabled ability of a multi-key channel whose copies agree. */
  ghost predicate Listed(db: Database, a: Ability) {
    && a.channelId in db.channels
    && db.channels[a.channelId].info.isMultiKey
    && Consistent(db, a.channelId)
    && exists row :: row in db.abilities && row.channelId == a.channelId && db.abilities[row]
  }

  lemma ListedServes(db: Database, a: Ability, req: SelectReq, env: SelectEnv, shuffle: Shuffle)
    requires Fits(shuffle) && Listed(db, a) && req.exclude == [] && env.load.Delivered?
    ensures var r := LoadEnabled(db.channels, a.channelId, env.load);
            r.Found? && exists k :: Offered(r.ch, req, env, shuffle, k)
  {
    var ch := db.channels[a.channelId];
    assert ch.status == ENABLED && SomeKeyEnabled(ch);
    CandidateIffLive(ch, env.settings, env.now, shuffle(ch.id, |ch.keys|));
    var k :| Candidate(ch, env.settings, env.now, shuffle(ch.id, |ch.keys|), k);
    assert Offered(ch, req, env, shuffle, k);
  }

  /**
   * What the agreement of the three copies buys: a channel found through its ability rows has
   * a key to serve, whatever the rotation, the tier, the draw and the clock.
   */
  lemma AgreementServes(db: Database, req: SelectReq, env: SelectEnv, shuffle: Shuffle)
    requires Fits(shuffle)
    requires req.channelId <= 0 && req.abilities.Some? && req.abilities.value != [] && req.exclude == [] && env.load.Delivered?
    requires forall a :: a in req.abilities.value ==> Listed(db, a)
    ensures forall r :: Resolves(db.channels, req, env, r) ==> r.Found? && exists k :: Offered(r.ch, req, env, shuffle, k)
  {
    var abs := req.abilities.value;
    var tier := TierOf(abs, req.retry);
    WeightsPositive(tier);
    forall r | Resolves(db.channels, req, env, r)
      ensures r.Found? && exists k :: Offered(r.ch, req, env, shuffle, k)
    {
      var i: nat :| i < |tier| && Owns(Weights(tier), i, env.draw % TotalWeight(Weights(tier)))
                    && r == LoadEnabled(db.channels, tier[i].channelId, env.load);
      TierIsListed(abs, req.retry, tier[i]);
      assert Listed(db, tier[i]);
      ListedServes(db, tier[i], req, env, shuffle);
    }
  }

  /**
   * A probe moves the cursor exactly when it names a mode the script does not know: only
   * polling is turned into peeking, while an unknown mode falls back to a full poll.
   */
  lemma ProbeMovesCursorIff(sh: Shared, sh': Shared, cursor: map<int, int>, cursor': map<int, int>, lastDecay: map<int, int>,
                            lastDecay': map<int, int>, ch: Channel, req: SelectReq, env: SelectEnv, chosen: int)
    requires !req.advanceCursor && Effects(sh, sh', cursor, cursor', lastDecay, lastDecay', ch, req, env, chosen)
    ensures cursor' != cursor
            <==> !env.script.NotExecuted? && req.mode !in {"", "polling", "peek", "random", "usage"}
  {
    var mode := ResolveMode(req.mode, env.settings, ch);
    if Advances(ScriptMode(req, mode)) && !env.script.NotExecuted? {
      assert At(cursor', ch.id) == At(cursor, ch.id) + 1;
    }
  }

  const DOUBLING: Option<Settings> := Some(Settings(true, true, [], [], map[1 := BalanceCfg("usage", "", 0.0, 2.0)], map[]))

  /**
   * A configured factor of 2 is used as it stands, and the first selection after an interval
   * takes counts of 10 and 0 apart although it charges nothing.
   */
  lemma DoublingBreaksBound(env: SelectEnv) returns (usage: UsageTable, s: Balance.Selection)
    requires env.settings == DOUBLING && env.now > 3600
    ensures s.decay == Due(1, env, 0) == Some(2.0) && s.est == 0.0
    ensures Get(usage, (1, 0)) == 0.0 && Get(usage, (1, 1)) == 10.0
    ensures Balance.ValidSelection(usage, 1, [0, 1], JITTER, 0.0, s)
    ensures Balance.Balanced(usage, 1, [0, 1], 10.0, JITTER, 0.0)
    ensures !Balance.Balanced(Balance.Apply(usage, 1, [0, 1], s), 1, [0, 1], 10.0, JITTER, 0.0)
  {
    usage, s := Balance.BreakingSelection(2.0, 10.0, JITTER, 0.0);
  }
}

/**
 * What one selection comes to in terms of the request, the channel's row and the settings, and
 * how runs of polling selections share out a channel's keys.
 */
module Selections {
  import opened Common
  import opened ChannelModel
  import opened KeyTransaction
  import opened SettingsModel
  import opened Protocol
  import opened SelectScript
  import opened Rotation
  import opened Tiers
  import opened Selector
  import ScriptRuns

  // ----- the channel -----

  /** A stored channel whose status is 1, or why not. */
  function Loaded(channels: map<int, Channel>, cid: int, load: Reply): Resolved {
    if !load.Delivered? then Unresolved(DependencyFailed)
    else if cid !in channels then Unresolved(NoChannel)
    else if channels[cid].status == 1 then Found(channels[cid])
    else Unresolved(NoKey)
  }

  /** The draws below those of member i: ten more than its weight for each member before it. */
  function DrawsBefore(tier: seq<Ability>, i: nat): nat
    requires i <= |tier|
  {
    if i == 0 then 0 else DrawsBefore(tier, i - 1) + tier[i - 1].weight + 10
  }

  lemma {:induction false} DrawsAreWeights(tier: Tier, i: nat)
    requires i <= |tier|
    ensures WeightBefore(Weights(tier), i) == DrawsBefore(tier, i)
  {
    if i > 0 {
      DrawsAreWeights(tier, i - 1);
    }
  }

  /** Member i of the tier has the draw, among as many as all members have. */
  ghost predicate HasDraw(tier: Tier, i: nat, draw: nat)
    requires i < |tier|
  {
    && DrawsBefore(tier, |tier|) > 0
    && var x := draw % DrawsBefore(tier, |tier|);
       DrawsBefore(tier, i) <= x < DrawsBefore(tier, i) + tier[i].weight + 10
  }

  /** The channel a request gets: the one it names, or one of the tier for its retry, drawn by weight. */
  lemma ChannelOf(channels: map<int, Channel>, req: SelectReq, env: SelectEnv, r: Resolved)
    requires Resolves(channels, req, env, r)
    ensures req.channelId > 0 ==> r == Loaded(channels, req.channelId, env.load)
    ensures req.channelId <= 0 && req.abilities.None? ==> r == Unresolved(DependencyFailed)
    ensures req.channelId <= 0 && req.abilities == Some([]) ==> r == Unresolved(NoChannel)
    ensures req.channelId <= 0 && req.abilities.Some? && req.abilities.value != [] && HighestFirst(req.abilities.value) ==>
              exists tier: Tier, i: nat :: TierFor(req.abilities.value, req.retry, tier) && i < |tier| && HasDraw(tier, i, env.draw)
                                           && r == Loaded(channels, tier[i].channelId, env.load)
  {
    if req.channelId <= 0 && req.abilities.Some? && req.abilities.value != [] && HighestFirst(req.abilities.value) {
      var tier := TierOf(req.abilities.value, req.retry);
      TierOfRetry(req.abilities.value, req.retry);
      WeightsPositive(tier);
      var i: nat :| i < |tier| && Owns(Weights(tier), i, env.draw % TotalWeight(Weights(tier)))
                    && r == LoadEnabled(channels, tier[i].channelId, env.load);
      DrawsAreWeights(tier, i);
      DrawsAreWeights(tier, i + 1);
      DrawsAreWeights(tier, |tier|);
      assert HasDraw(tier, i, env.draw);
    }
  }

  // ----- which way of choosing is asked for -----

  /** The channel is balanced by usage. */
  predicate ByUsage(st: Option<Settings>, cid: int) {
    st.Some? && cid in st.value.balance && st.value.balance[cid].mode == "usage"
  }

  predicate AsksUsage(req: SelectReq, st: Option<Settings>, ch: Channel) {
    req.mode == "usage" || (req.mode == "" && ByUsage(st, ch.id))
  }

  predicate AsksRandom(req: SelectReq, st: Option<Settings>, ch: Channel) {
    req.mode == "random" || (req.mode == "" && !ByUsage(st, ch.id) && ch.info.multiKeyMode == "random")
  }

  predicate AsksPolling(req: SelectReq, st: Option<Settings>, ch: Channel) {
    req.mode == "polling" || (req.mode == "" && !ByUsage(st, ch.id) && ch.info.multiKeyMode != "random")
  }

  /** Polling that may move the cursor, or a mode nobody knows. */
  predicate Advancing(req: SelectReq, st: Option<Settings>, ch: Channel) {
    (AsksPolling(req, st, ch) && req.advanceCursor) || req.mode !in {"", "polling", "peek", "random", "usage"}
  }

  /** Looking at the cursor only: a probe of a polling channel, or "peek" by name. */
  predicate Peeking(req: SelectReq, st: Option<Settings>, ch: Channel) {
    (AsksPolling(req, st, ch) && !req.advanceCursor) || req.mode == "peek"
  }

  // ----- one selection -----

  /** The seconds between decays as configured if positive, else an hour. The factor likewise, else 0.5. */
  function Interval(st: Option<Settings>, cid: int): real {
    if st.Some? && cid in st.value.balance && st.value.balance[cid].decayInterval > 0.0 then st.value.balance[cid].decayInterval
    else 3600.0
  }

  function Factor(st: Option<Settings>, cid: int): real {
    if st.Some? && cid in st.value.balance && st.value.balance[cid].decayFactor > 0.0 then st.value.balance[cid].decayFactor
    else 0.5
  }

  predicate Fires(st: Option<Settings>, cid: int, last: int, now: int) {
    (now - last) as real > Interval(st, cid)
  }

  /** A counter of the table after the decay a usage-mode selection of the channel finds due. */
  function Faded(usage: UsageTable, st: Option<Settings>, cid: int, last: int, now: int, k: (int, int)): real {
    if k.0 == cid && Fires(st, cid, last, now) then Get(usage, k) * Factor(st, cid) else Get(usage, k)
  }

  /** How much a candidate counts as used: up to a twentieth more than its counter, by lot. */
  function Counted(usage: UsageTable, cands: seq<int>, env: SelectEnv, cid: int, last: int, i: nat): real
    requires i < |cands| && i < |env.draws|
  {
    Faded(usage, env.settings, cid, last, env.now, (cid, cands[i])) * (1.0 + env.draws[i] * 0.05)
  }

  ghost predicate LeastCounted(usage: UsageTable, cands: seq<int>, env: SelectEnv, cid: int, last: int, at: nat)
    requires |env.draws| >= |cands|
  {
    && at < |cands|
    && (forall i :: 0 <= i < |cands| ==> Counted(usage, cands, env, cid, last, at) <= Counted(usage, cands, env, cid, last, i))
    && (forall i :: 0 <= i < at ==> Counted(usage, cands, env, cid, last, at) < Counted(usage, cands, env, cid, last, i))
  }

  /** Which of the offered keys a selection whose script is carried out takes. */
  ghost predicate Takes(ch: Channel, req: SelectReq, env: SelectEnv, offered: seq<int>, cursor: int, last: int, usage: UsageTable, chosen: int)
    requires offered != [] && |env.draws| >= |offered|
  {
    var n := |offered|;
    !env.script.NotExecuted? ==>
    && (Advancing(req, env.settings, ch) ==> chosen == offered[(cursor + 1) % n])
    && (Peeking(req, env.settings, ch) ==> chosen == offered[cursor % n])
    && (AsksRandom(req, env.settings, ch) ==> exists at: nat :: at < n && Drew(env.draws[0], n, at) && chosen == offered[at])
    && (AsksUsage(req, env.settings, ch) ==> exists at: nat :: LeastCounted(usage, offered, env, ch.id, last, at) && chosen == offered[at])
  }

  lemma TakesAsked(ch: Channel, req: SelectReq, env: SelectEnv, offered: seq<int>, cursor: map<int, int>, lastDecay: map<int, int>,
                   usage: UsageTable, chosen: int)
    requires offered != [] && |env.draws| >= |offered|
    requires ChosenFor(ch, req, env, offered, cursor, lastDecay, usage, chosen)
    ensures Takes(ch, req, env, offered, At(cursor, ch.id), At(lastDecay, ch.id), usage, chosen)
  {
    if AsksUsage(req, env.settings, ch) && !env.script.NotExecuted? {
      LeastIsCounted(ch, req, env, offered, cursor, lastDecay, usage, chosen);
    }
  }

  lemma FadedCount(usage: UsageTable, cid: int, env: SelectEnv, last: int, k: (int, int))
    ensures Get(AfterDecay(usage, cid, Due(cid, env, last)), k) == Faded(usage, env.settings, cid, last, env.now, k)
  {
  }

  lemma CountedIsEffective(ch: Channel, env: SelectEnv, offered: seq<int>, last: int, usage: UsageTable, i: nat)
    requires i < |offered| <= |env.draws|
    ensures Counted(usage, offered, env, ch.id, last, i)
            == EffectiveAt(AfterDecay(usage, ch.id, Due(ch.id, env, last)), ch.id, offered, env.draws, JITTER, i)
  {
    FadedCount(usage, ch.id, env, last, (ch.id, offered[i]));
  }

  lemma LeastIsCounted(ch: Channel, req: SelectReq, env: SelectEnv, offered: seq<int>, cursor: map<int, int>, lastDecay: map<int, int>,
                       usage: UsageTable, chosen: int)
    requires offered != [] && |env.draws| >= |offered| && !env.script.NotExecuted? && AsksUsage(req, env.settings, ch)
    requires ChosenFor(ch, req, env, offered, cursor, lastDecay, usage, chosen)
    ensures exists at: nat :: LeastCounted(usage, offered, env, ch.id, At(lastDecay, ch.id), at) && chosen == offered[at]
  {
    var last := At(lastDecay, ch.id);
    var mid := AfterDecay(usage, ch.id, Due(ch.id, env, last));
    var at: nat :| FirstLeast(mid, ch.id, offered, env.draws, JITTER, at) && chosen == offered[at];
    forall i: nat | i < |offered|
      ensures Counted(usage, offered, env, ch.id, last, i) == EffectiveAt(mid, ch.id, offered, env.draws, JITTER, i)
    {
      CountedIsEffective(ch, env, offered, last, usage, i);
    }
    assert LeastCounted(usage, offered, env, ch.id, last, at);
  }

  /** The cells after a selection that takes the key. */
  ghost predicate Remains(sh: Shared, sh': Shared, cursor: map<int, int>, cursor': map<int, int>, lastDecay: map<int, int>, lastDecay': map<int, int>,
                          ch: Channel, req: SelectReq, env: SelectEnv, chosen: int)
  {
    var done, used := !env.script.NotExecuted?, AsksUsage(req, env.settings, ch);
    var last := At(lastDecay, ch.id);
    && sh'.db == sh.db && sh'.idem == sh.idem && sh'.locks == sh.locks
    && cursor' == (if done && Advancing(req, env.settings, ch) then cursor[ch.id := At(cursor, ch.id) + 1] else cursor)
    && lastDecay' == (if done && used && Fires(env.settings, ch.id, last, env.now) then lastDecay[ch.id := env.now] else lastDecay)
    && (forall k :: Get(sh'.usage, k)
                    == if done && used then Faded(sh.usage, env.settings, ch.id, last, env.now, k) + (if k == (ch.id, chosen) then req.est else 0.0)
                       else Get(sh.usage, k))
    && sh'.leases == if used && req.est > 0.0 && env.script.Delivered? && !env.lease.NotExecuted? then sh.leases[sh.nextId := Lease(req.est, ch.id, chosen)]
                     else sh.leases
  }

  /** The part about the counters and leases. */
  lemma CountersRemain(sh: Shared, sh': Shared, lastDecay: map<int, int>, ch: Channel, req: SelectReq, env: SelectEnv, chosen: int, k: (int, int))
    requires AsksUsage(req, env.settings, ch)
    requires sh' == SelectRun(sh, ch.id, chosen, req.est, Due(ch.id, env, At(lastDecay, ch.id)), env.script, env.lease).0
    ensures var last := At(lastDecay, ch.id);
            Get(sh'.usage, k)
            == if env.script.NotExecuted? then Get(sh.usage, k)
               else Faded(sh.usage, env.settings, ch.id, last, env.now, k) + if k == (ch.id, chosen) then req.est else 0.0
  {
    var last := At(lastDecay, ch.id);
    ChargedRun(sh, ch.id, chosen, req.est, Due(ch.id, env, last), env);
    FadedCount(sh.usage, ch.id, env, last, k);
  }

  lemma EffectsRemain(sh: Shared, sh': Shared, cursor: map<int, int>, cursor': map<int, int>, lastDecay: map<int, int>, lastDecay': map<int, int>,
                      ch: Channel, req: SelectReq, env: SelectEnv, chosen: int)
    requires Effects(sh, sh', cursor, cursor', lastDecay, lastDecay', ch, req, env, chosen)
    ensures Remains(sh, sh', cursor, cursor', lastDecay, lastDecay', ch, req, env, chosen)
  {
    if AsksUsage(req, env.settings, ch) {
      ChargedRun(sh, ch.id, chosen, req.est, Due(ch.id, env, At(lastDecay, ch.id)), env);
      forall k
        ensures Get(sh'.usage, k)
                == if env.script.NotExecuted? then Get(sh.usage, k)
                   else Faded(sh.usage, env.settings, ch.id, At(lastDecay, ch.id), env.now, k) + if k == (ch.id, chosen) then req.est else 0.0
      {
        CountersRemain(sh, sh', lastDecay, ch, req, env, chosen, k);
      }
    }
  }

  lemma ChargedRun(sh: Shared, cid: int, idx: int, est: real, due: Option<real>, env: SelectEnv)
    ensures var (sh', out) := SelectRun(sh, cid, idx, est, due, env.script, env.lease);
            && sh'.db == sh.db && sh'.idem == sh.idem && sh'.locks == sh.locks
            && sh'.usage == (if env.script.NotExecuted? then sh.usage
                             else AfterDecay(sh.usage, cid, due)[(cid, idx) := Get(AfterDecay(sh.usage, cid, due), (cid, idx)) + est])
            && sh'.leases == if est > 0.0 && env.script.Delivered? && !env.lease.NotExecuted? then sh.leases[sh.nextId := Lease(est, cid, idx)]
                             else sh.leases
  {
  }

  /** What the caller is told. */
  ghost predicate Tells(ch: Channel, req: SelectReq, env: SelectEnv, chosen: int, nextId: nat, res: SelectResult)
    requires 0 <= chosen < |ch.keys|
  {
    var leased := AsksUsage(req, env.settings, ch) && req.est > 0.0;
    if !env.script.Delivered? then res == Refused(ScriptFailed)
    else if leased && !env.lease.Delivered? then res == Refused(LeaseFailed)
    else
      && res.Selected?
      && res.cid == ch.id && res.idx == chosen && res.key == ch.keys[chosen] && res.epoch == ch.epoch
      && res.mode == (if req.mode != "" then req.mode
                      else if AsksUsage(req, env.settings, ch) then "usage"
                      else if AsksRandom(req, env.settings, ch) then "random"
                      else "polling")
      && res.leaseId == if leased then Some(nextId) else None
  }

  lemma ServesTell(ch: Channel, req: SelectReq, env: SelectEnv, chosen: int, nextId: nat, res: SelectResult)
    requires 0 <= chosen < |ch.keys| && Serves(ch, req, env, chosen, nextId, res)
    ensures Tells(ch, req, env, chosen, nextId, res)
  {
  }

  /**
   * One selection from start to end, when a key is offered: which key is taken, what is left in
   * every cell, and the answer.
   */
  method SelectTold(sel: Selector, req: SelectReq, env: SelectEnv)
    returns (res: SelectResult, ghost r: Resolved, ghost offered: seq<int>, ghost chosen: int)
    requires Fits(sel.shuffle)
    requires forall c :: c in sel.store.channels ==> |sel.store.channels[c].keys| < |env.draws|
    requires forall i :: 0 <= i < |env.draws| ==> 0.0 <= env.draws[i] < 1.0
    modifies sel`lookaheads, sel`served, sel.redis`cursor, sel.redis`usage, sel.redis`lastDecay, sel.redis`leases, sel.redis`nextId
    ensures Resolves(sel.store.channels, req, env, r)
    ensures Ascending(offered) && forall k :: k in offered <==> r.Found? && Offered(r.ch, req, env, sel.shuffle, k)
    ensures r.Unresolved? || offered == [] ==>
              && res == Refused(if r.Unresolved? then r.why else NoKey)
              && unchanged(sel`served, sel.redis`cursor, sel.redis`usage, sel.redis`lastDecay, sel.redis`leases, sel.redis`nextId)
    ensures r.Found? && offered != [] ==>
              && |offered| < |env.draws| && chosen in offered && KeyEnabled(r.ch, chosen)
              && Tells(r.ch, req, env, chosen, old(sel.redis.nextId), res)
              && Takes(r.ch, req, env, offered, At(old(sel.redis.cursor), r.ch.id), At(old(sel.redis.lastDecay), r.ch.id), old(sel.redis.usage), chosen)
              && Remains(old(sel.Snapshot()), sel.Snapshot(), old(sel.redis.cursor), sel.redis.cursor,
                         old(sel.redis.lastDecay), sel.redis.lastDecay, r.ch, req, env, chosen)
              && forall k :: ServedAt(sel.served, k) == ServedAt(old(sel.served), k) + if res.Selected? && k == (r.ch.id, chosen) then 1 else 0
  {
    res, r, offered, chosen := sel.Select(req, env);
    if r.Found? && offered != [] {
      ServesTell(r.ch, req, env, chosen, old(sel.redis.nextId), res);
      TakesAsked(r.ch, req, env, offered, old(sel.redis.cursor), old(sel.redis.lastDecay), old(sel.redis.usage), chosen);
      EffectsRemain(old(sel.Snapshot()), sel.Snapshot(), old(sel.redis.cursor), sel.redis.cursor,
                    old(sel.redis.lastDecay), sel.redis.lastDecay, r.ch, req, env, chosen);
    }
  }

  function ServedAt(served: map<(int, int), nat>, k: (int, int)): nat {
    if k in served then served[k] else 0
  }

  // ----- runs -----

  /** The script is run for the channel, with these keys on offer, and moves its cursor. */
  ghost predicate Steady(channels: map<int, Channel>, shuffle: Shuffle, req: SelectReq, env: SelectEnv, ch: Channel, keys: seq<int>)
    requires Fits(shuffle)
  {
    && !env.script.NotExecuted? && Advancing(req, env.settings, ch)
    && (forall r :: Resolves(channels, req, env, r) ==> r == Found(ch))
    && (forall k :: k in keys <==> Offered(ch, req, env, shuffle, k))
  }

  /** Nothing that could move the cursor of the channel: refused, of another channel, or not advancing. */
  ghost predicate Idle(channels: map<int, Channel>, req: SelectReq, env: SelectEnv, cid: int) {
    forall r :: Resolves(channels, req, env, r) && r.Found? && r.ch.id == cid ==> env.script.NotExecuted? || !Advancing(req, env.settings, r.ch)
  }

  lemma {:induction false} SameKeys(a: seq<int>, b: seq<int>)
    requires Ascending(a) && Ascending(b) && forall k :: k in a <==> k in b
    ensures a == b
  {
    assert |a| > 0 ==> a[|a| - 1] in a && a[|a| - 1] in b;
    assert |b| > 0 ==> b[|b| - 1] in b && b[|b| - 1] in a;
    if a != [] {
      var m, n := |a| - 1, |b| - 1;
      assert a[m] == b[n];
      forall k
        ensures k in a[..m] <==> k in b[..n]
      {
        assert k in a[..m] <==> k in a && k != a[m];
        assert k in b[..n] <==> k in b && k != b[n];
      }
      SameKeys(a[..m], b[..n]);
    }
  }

  /** The request is steady or idle, as said. */
  ghost predicate InRun(channels: map<int, Channel>, shuffle: Shuffle, req: SelectReq, env: SelectEnv, ch: Channel, keys: seq<int>, steady: bool)
    requires Fits(shuffle)
  {
    && (forall c :: c in channels ==> |channels[c].keys| < |env.draws|)
    && (forall i :: 0 <= i < |env.draws| ==> 0.0 <= env.draws[i] < 1.0)
    && if steady then Steady(channels, shuffle, req, env, ch, keys) else Idle(channels, req, env, ch.id)
  }

  /** How many of the first i requests are steady. */
  ghost function Turn(steady: seq<bool>, i: nat): nat
    requires i <= |steady|
  {
    if i == 0 then 0 else Turn(steady, i - 1) + if steady[i - 1] then 1 else 0
  }

  /** What the steady request that finds the cursor at cur takes and is told. */
  ghost predicate InTurn(env: SelectEnv, keys: seq<int>, cur: int, taken: int, res: SelectResult)
    requires keys != []
  {
    taken == keys[(cur + 1) % |keys|] && if env.script.Delivered? then res.Selected? && res.idx == taken else res == Refused(ScriptFailed)
  }

  /** The keys taken go round from the cursor, and every steady caller is told of the one taken at its turn. */
  ghost predicate TakenInTurn(envs: seq<SelectEnv>, keys: seq<int>, steady: seq<bool>, start: int, results: seq<SelectResult>, taken: seq<int>)
    requires keys != [] && |results| <= |steady| == |envs|
  {
    && |taken| == Turn(steady, |results|)
    && (forall t :: 0 <= t < |taken| ==> taken[t] == keys[(start + t + 1) % |keys|])
    && forall i :: 0 <= i < |results| && steady[i] ==>
         Turn(steady, i) < |taken| && InTurn(envs[i], keys, start + Turn(steady, i), taken[Turn(steady, i)], results[i])
  }

  lemma TakenNext(envs: seq<SelectEnv>, keys: seq<int>, steady: seq<bool>, start: int, results: seq<SelectResult>, taken: seq<int>,
                  res: SelectResult, one: int)
    requires keys != [] && |results| < |steady| == |envs| && TakenInTurn(envs, keys, steady, start, results, taken)
    requires steady[|results|] ==> InTurn(envs[|results|], keys, start + |taken|, one, res)
    ensures TakenInTurn(envs, keys, steady, start, results + [res], if steady[|results|] then taken + [one] else taken)
  {
    var i := |results|;
    assert Turn(steady, i + 1) == Turn(steady, i) + if steady[i] then 1 else 0;
  }

  /** One of the requests: a steady one takes the next key in the round, an idle one leaves the cursor. */
  method SelectInRun(sel: Selector, req: SelectReq, env: SelectEnv, ghost ch: Channel, ghost keys: seq<int>, ghost steady: bool)
    returns (res: SelectResult, ghost taken: int)
    requires Fits(sel.shuffle) && keys != [] && Ascending(keys)
    requires InRun(sel.store.channels, sel.shuffle, req, env, ch, keys, steady)
    modifies sel`lookaheads, sel`served, sel.redis`cursor, sel.redis`usage, sel.redis`lastDecay, sel.redis`leases, sel.redis`nextId
    ensures var cur := At(old(sel.redis.cursor), ch.id);
            && At(sel.redis.cursor, ch.id) == (if steady then cur + 1 else cur)
            && (steady ==> InTurn(env, keys, cur, taken, res))
  {
    ghost var r, offered;
    res, r, offered, taken := SelectTold(sel, req, env);
    if steady {
      assert r == Found(ch);
      SameKeys(offered, keys);
    }
  }

  /**
   * Runs the requests one after another. Those that run the script for the channel take its keys
   * in turn, from wherever the cursor stands, and tell them to their callers; whatever other
   * selections come in between, k turns over n keys take each of them k / n times or once more.
   */
  method SelectAll(sel: Selector, reqs: seq<SelectReq>, envs: seq<SelectEnv>, ghost ch: Channel, ghost keys: seq<int>, ghost steady: seq<bool>)
    returns (results: seq<SelectResult>, ghost taken: seq<int>)
    requires Fits(sel.shuffle) && keys != [] && Ascending(keys) && |envs| == |reqs| == |steady|
    requires forall i :: 0 <= i < |reqs| ==> InRun(sel.store.channels, sel.shuffle, reqs[i], envs[i], ch, keys, steady[i])
    modifies sel`lookaheads, sel`served, sel.redis`cursor, sel.redis`usage, sel.redis`lastDecay, sel.redis`leases, sel.redis`nextId
    ensures |results| == |reqs| && TakenInTurn(envs, keys, steady, At(old(sel.redis.cursor), ch.id), results, taken)
    ensures At(sel.redis.cursor, ch.id) == At(old(sel.redis.cursor), ch.id) + |taken|
    ensures forall q: nat :: q < |keys| ==> ScriptRuns.FairShare(taken, keys, q)
  {
    ghost var start := At(sel.redis.cursor, ch.id);
    results, taken := [], [];
    for i := 0 to |reqs|
      invariant |results| == i && TakenInTurn(envs, keys, steady, start, results, taken)
      invariant At(sel.redis.cursor, ch.id) == start + |taken|
    {
      ghost var one;
      var res;
      res, one := SelectInRun(sel, reqs[i], envs[i], ch, keys, steady[i]);
      TakenNext(envs, keys, steady, start, results, taken, res, one);
      results := results + [res];
      if steady[i] {
        taken := taken + [one];
      }
    }
    TurnsAreFair(start, keys, taken);
  }

  function Polls(k: nat): (calls: seq<SelectScript.Call>)
    ensures PollsIn(calls) == k
  {
    if k == 0 then [] else
      assert ([Poll] + Polls(k - 1))[1..] == Polls(k - 1);
      [Poll] + Polls(k - 1)
  }

  lemma TurnsAreFair(start: int, keys: seq<int>, taken: seq<int>)
    requires keys != [] && ScriptRuns.NoRepeats(keys)
    requires forall t :: 0 <= t < |taken| ==> taken[t] == keys[(start + t + 1) % |keys|]
    ensures forall q: nat :: q < |keys| ==> ScriptRuns.FairShare(taken, keys, q)
  {
    var n, k := |keys|, |taken|;
    var positions := RoundRobin(start, n, k);
    forall q: nat | q < n
      ensures ScriptRuns.FairShare(taken, keys, q)
    {
      PollingIsFair(start, n, Polls(k), q);
      PeeksAreInvisible(start, n, Polls(k));
      ScriptRuns.AnswersCount(keys, positions, taken, q);
    }
  }
}

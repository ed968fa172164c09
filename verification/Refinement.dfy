/** The straight-through calls are runs of the interleaving model in which one caller moves. */
module Refinement {
  import opened Common
  import opened ChannelModel
  import opened KeyTransaction
  import opened Protocol
  import opened Manager
  import Selector

  /** One caller moving alone. */
  ghost function Solo(sh: Shared, pr: Proc, envs: seq<Env>): (Shared, Proc) {
    if envs == [] then (sh, pr)
    else
      var (sh', pr') := Solo(sh, pr, envs[..|envs| - 1]);
      ProcStep(sh', pr', envs[|envs| - 1])
  }

  lemma SoloSnoc(sh: Shared, pr: Proc, envs: seq<Env>, env: Env)
    ensures Solo(sh, pr, envs + [env]) == ProcStep(Solo(sh, pr, envs).0, Solo(sh, pr, envs).1, env)
  {
    assert (envs + [env])[..|envs|] == envs;
  }

  lemma {:induction false} SoloCat(sh: Shared, pr: Proc, a: seq<Env>, b: seq<Env>)
    ensures Solo(sh, pr, a + b) == Solo(Solo(sh, pr, a).0, Solo(sh, pr, a).1, b)
  {
    if b == [] {
      assert a + b == a;
    } else {
      var b', e := b[..|b| - 1], b[|b| - 1];
      SoloCat(sh, pr, a, b');
      assert a + b == (a + b') + [e];
      SoloSnoc(sh, pr, a + b', e);
    }
  }

  ghost predicate Ends(sh: Shared, pr: Proc, envs: seq<Env>, sh': Shared, pr': Proc) {
    Solo(sh, pr, envs) == (sh', pr')
  }

  lemma OneStep(sh: Shared, pr: Proc, env: Env)
    ensures Ends(sh, pr, [env], ProcStep(sh, pr, env).0, ProcStep(sh, pr, env).1)
  {
    assert [] + [env] == [env];
    SoloSnoc(sh, pr, [], env);
    assert Solo(sh, pr, []) == (sh, pr);
  }

  /** A step, then the rest. */
  lemma Then(sh: Shared, pr: Proc, env: Env, sh1: Shared, pr1: Proc, rest: seq<Env>, sh2: Shared, pr2: Proc)
    requires ProcStep(sh, pr, env) == (sh1, pr1)
    requires Ends(sh1, pr1, rest, sh2, pr2)
    ensures Ends(sh, pr, [env] + rest, sh2, pr2)
  {
    OneStep(sh, pr, env);
    SoloCat(sh, pr, [env], rest);
  }

  lemma CriticalIsSolo(sh: Shared, r: ReportReq, held: bool, idx: int, token: nat, s: Script) returns (envs: seq<Env>)
    ensures var (sh', out) := CriticalRun(sh, r, idx, token, s);
            Ends(sh, RReread(r, held, idx, token), envs, sh', Finish(r, held, out))
  {
    var (sh', out) := CriticalRun(sh, r, idx, token, s);
    var (ch, e) := Load(sh, r.channelId, s.reread);
    if ch.None? {
      envs := [s.unlock];
      OneStep(sh, RUnlock(r, held, token, Failed(e)), s.unlock);
      Then(sh, RReread(r, held, idx, token), s.reread, sh, RUnlock(r, held, token, Failed(e)), envs, sh', Finish(r, held, out));
      envs := [s.reread] + envs;
    } else {
      envs := DecideIsSolo(sh, r, held, idx, token, ch.value, s);
      Then(sh, RReread(r, held, idx, token), s.reread, sh, RDecide(r, held, idx, token, ch.value), envs, sh', Finish(r, held, out));
      envs := [s.reread] + envs;
    }
  }

  lemma DecideIsSolo(sh: Shared, r: ReportReq, held: bool, idx: int, token: nat, ch: Channel, s: Script) returns (envs: seq<Env>)
    ensures var (sh1, pr) := ReportDecide(sh, r, false, idx, token, ch, s.decide);
            Ends(sh, RDecide(r, held, idx, token, ch), envs,
                 Unlock(sh1, r.channelId, token, s.unlock), Finish(r, held, pr.out))
  {
    var (sh1, pr) := ReportDecide(sh, r, false, idx, token, ch, s.decide);
    OneStep(sh1, RUnlock(r, held, token, pr.out), s.unlock);
    envs := [s.unlock];
    Then(sh, RDecide(r, held, idx, token, ch), s.decide, sh1, RUnlock(r, held, token, pr.out), envs,
         Unlock(sh1, r.channelId, token, s.unlock), Finish(r, held, pr.out));
    envs := [s.decide] + envs;
  }

  lemma LockedIsSolo(sh: Shared, r: ReportReq, held: bool, idx: int, s: Script) returns (envs: seq<Env>)
    ensures var (sh', out) := LockedRun(sh, r, idx, s);
            Ends(sh, RLock(r, held, idx), envs, sh', Finish(r, held, out))
  {
    var (sh1, token) := TryLock(sh, r.channelId, s.lock);
    if token.None? {
      envs := [s.lock];
      OneStep(sh, RLock(r, held, idx), s.lock);
    } else {
      envs := CriticalIsSolo(sh1, r, held, idx, token.value, s);
      var (sh', out) := CriticalRun(sh1, r, idx, token.value, s);
      Then(sh, RLock(r, held, idx), s.lock, sh1, RReread(r, held, idx, token.value), envs, sh', Finish(r, held, out));
      envs := [s.lock] + envs;
    }
  }

  /** After settling, the error return or the lock. */
  function AfterSettle(sh: Shared, err: Option<ErrorKind>, r: ReportReq, idx: int, s: Script): (Shared, Outcome) {
    if err.Some? then (sh, Failed(err.value)) else LockedRun(sh, r, idx, s)
  }

  lemma AddIsSolo(sh: Shared, r: ReportReq, held: bool, idx: int, actual: real, taken: Option<Lease>, s: Script) returns (envs: seq<Env>)
    ensures var (sh1, err) := AddRun(sh, r, idx, actual, taken, s);
            var (sh', out) := AfterSettle(sh1, err, r, idx, s);
            Ends(sh, RIncr(r, held, idx, actual, taken), envs, sh', Finish(r, held, out))
  {
    var (sh1, err) := AddRun(sh, r, idx, actual, taken, s);
    var (sh', out) := AfterSettle(sh1, err, r, idx, s);
    if err.Some? {
      envs := [s.incr];
      OneStep(sh, RIncr(r, held, idx, actual, taken), s.incr);
    } else {
      envs := LockedIsSolo(sh1, r, held, idx, s);
      Then(sh, RIncr(r, held, idx, actual, taken), s.incr, sh1, RLock(r, held, idx), envs, sh', Finish(r, held, out));
      envs := [s.incr] + envs;
    }
  }

  lemma TakeIsSolo(sh: Shared, r: ReportReq, held: bool, idx: int, s: Script) returns (envs: seq<Env>)
    requires r.usage.Some? && r.leaseId.Some?
    ensures var actual := UsageValue(Metric(s.load.settings, r.channelId), r.usage.value);
            var (sh1, err) := SettleRun(sh, r, idx, s);
            var (sh', out) := AfterSettle(sh1, err, r, idx, s);
            Ends(sh, RLease(r, held, idx, actual), envs, sh', Finish(r, held, out))
  {
    var actual := UsageValue(Metric(s.load.settings, r.channelId), r.usage.value);
    var (sh1, err) := SettleRun(sh, r, idx, s);
    var (sh', out) := AfterSettle(sh1, err, r, idx, s);
    var id := r.leaseId.value;
    if !s.lease.reply.Delivered? {
      envs := [s.lease];
      OneStep(sh, RLease(r, held, idx, actual), s.lease);
    } else {
      var taken := if id in sh.leases then Some(sh.leases[id]) else None;
      var sh0 := sh.(leases := sh.leases - {id});
      envs := AddIsSolo(sh0, r, held, idx, actual, taken, s);
      Then(sh, RLease(r, held, idx, actual), s.lease, sh0, RIncr(r, held, idx, actual, taken), envs, sh', Finish(r, held, out));
      envs := [s.lease] + envs;
    }
  }

  lemma HandleIsSolo(sh: Shared, r: ReportReq, held: bool, s: Script) returns (envs: seq<Env>)
    ensures var (sh', out) := HandleRun(sh, r, s);
            Ends(sh, RLoad(r, held), envs, sh', Finish(r, held, out))
  {
    var (sh', out) := HandleRun(sh, r, s);
    var (_, next) := ReportLoad(sh, r, held, s.load);
    if next.RLease? {
      envs := TakeIsSolo(sh, r, held, next.idx, s);
    } else if next.RIncr? {
      envs := AddIsSolo(sh, r, held, next.idx, next.actual, None, s);
    } else if next.RLock? {
      envs := LockedIsSolo(sh, r, held, next.idx, s);
    } else {
      envs := [s.load];
      OneStep(sh, RLoad(r, held), s.load);
      return;
    }
    Then(sh, RLoad(r, held), s.load, sh, next, envs, sh', Finish(r, held, out));
    envs := [s.load] + envs;
  }

  lemma ReportIsSolo(sh: Shared, r: ReportReq, s: Script) returns (envs: seq<Env>)
    ensures var (sh', out) := ReportRun(sh, r, s);
            Ends(sh, RStart(r), envs, sh', Done(r.idemKey, out))
  {
    var (sh', out) := ReportRun(sh, r, s);
    var (sh1, next) := ReportStart(sh, r, s.idem);
    if !next.RLoad? {
      envs := [s.idem];
      OneStep(sh, RStart(r), s.idem);
      return;
    }
    var held := r.idemKey != "";
    envs := HandleIsSolo(sh1, r, held, s);
    var (sh2, out2) := HandleRun(sh1, r, s);
    if held && out2.Failed? {
      OneStep(sh2, RRollback(r, out2), s.rollback);
      SoloCat(sh1, RLoad(r, held), envs, [s.rollback]);
      envs := envs + [s.rollback];
    }
    Then(sh, RStart(r), s.idem, sh1, RLoad(r, held), envs, sh', Done(r.idemKey, out));
    envs := [s.idem] + envs;
  }

  lemma ChangeIsSolo(sh: Shared, cid: int, idx: int, status: int, reason: string, token: nat, s: Script) returns (envs: seq<Env>)
    ensures var (sh1, pr) := SetApply(sh, cid, idx, status, reason, token, s.decide);
            forall ch :: Ends(sh, SApply(cid, idx, status, reason, token, ch), envs, Unlock(sh1, cid, token, s.unlock), Done("", pr.out))
  {
    var (sh1, pr) := SetApply(sh, cid, idx, status, reason, token, s.decide);
    OneStep(sh1, SUnlock(cid, token, pr.out), s.unlock);
    envs := [s.decide] + [s.unlock];
    forall ch
      ensures Ends(sh, SApply(cid, idx, status, reason, token, ch), envs, Unlock(sh1, cid, token, s.unlock), Done("", pr.out))
    {
      Then(sh, SApply(cid, idx, status, reason, token, ch), s.decide, sh1, SUnlock(cid, token, pr.out), [s.unlock],
           Unlock(sh1, cid, token, s.unlock), Done("", pr.out));
    }
  }

  lemma SetIsSolo(sh: Shared, cid: int, idx: int, status: int, reason: string, s: Script) returns (envs: seq<Env>)
    ensures var (sh', out) := SetRun(sh, cid, idx, status, reason, s);
            Ends(sh, SStart(cid, idx, status, reason), envs, sh', Done("", out))
  {
    var (sh', out) := SetRun(sh, cid, idx, status, reason, s);
    var (sh1, next) := SetStart(sh, cid, idx, status, reason, s.lock);
    if next.Done? {
      envs := [s.lock];
      OneStep(sh, SStart(cid, idx, status, reason), s.lock);
      return;
    }
    var token := next.token;
    var (sh2, after) := SetReread(sh1, cid, idx, status, reason, token, s.reread);
    if after.SUnlock? {
      envs := [s.unlock];
      OneStep(sh1, after, s.unlock);
    } else {
      envs := ChangeIsSolo(sh1, cid, idx, status, reason, token, s);
    }
    Then(sh1, next, s.reread, sh2, after, envs, sh', Done("", out));
    envs := [s.reread] + envs;
    Then(sh, SStart(cid, idx, status, reason), s.lock, sh1, next, envs, sh', Done("", out));
    envs := [s.lock] + envs;
  }

  // ----- alone in the world -----

  function Turns(p: nat, envs: seq<Env>): seq<Step> {
    seq(|envs|, i requires 0 <= i < |envs| => Run(p, envs[i]))
  }

  lemma {:induction false} SoloIsRun(w: World, p: nat, envs: seq<Env>)
    requires p in w.procs
    ensures var (sh', pr') := Solo(w.sh, w.procs[p], envs);
            Exec(w, Turns(p, envs)).sh == sh' && Exec(w, Turns(p, envs)).procs == w.procs[p := pr']
  {
    var steps := Turns(p, envs);
    if envs == [] {
      assert w.procs[p := w.procs[p]] == w.procs;
    } else {
      var n := |envs| - 1;
      assert steps[..n] == Turns(p, envs[..n]);
      SoloIsRun(w, p, envs[..n]);
    }
  }

  /**
   * A report run to its end without interference has the effect and the outcome of a run of
   * the interleaving model in which only this caller moves.
   */
  lemma ReportIsRun(w: World, p: nat, r: ReportReq, s: Script) returns (steps: seq<Step>)
    requires p in w.procs && w.procs[p] == RStart(r)
    ensures forall i :: 0 <= i < |steps| ==> steps[i].Run? && steps[i].p == p
    ensures var (sh', out) := ReportRun(w.sh, r, s);
            Exec(w, steps).sh == sh' && Exec(w, steps).procs == w.procs[p := Done(r.idemKey, out)]
  {
    var envs := ReportIsSolo(w.sh, r, s);
    SoloIsRun(w, p, envs);
    steps := Turns(p, envs);
  }

  lemma SetIsRun(w: World, p: nat, cid: int, idx: int, status: int, reason: string, s: Script) returns (steps: seq<Step>)
    requires p in w.procs && w.procs[p] == SStart(cid, idx, status, reason)
    ensures forall i :: 0 <= i < |steps| ==> steps[i].Run? && steps[i].p == p
    ensures var (sh', out) := SetRun(w.sh, cid, idx, status, reason, s);
            Exec(w, steps).sh == sh' && Exec(w, steps).procs == w.procs[p := Done("", out)]
  {
    var envs := SetIsSolo(w.sh, cid, idx, status, reason, s);
    SoloIsRun(w, p, envs);
    steps := Turns(p, envs);
  }

  lemma SelectIsSolo(sh: Shared, cid: int, idx: int, est: real, decay: Option<real>, script: Reply, lease: Reply) returns (envs: seq<Env>)
    ensures var (sh', out) := Selector.SelectRun(sh, cid, idx, est, decay, script, lease);
            Ends(sh, KSelect(cid, idx, est, decay), envs, sh', Done("", out))
  {
    var (sh', out) := Selector.SelectRun(sh, cid, idx, est, decay, script, lease);
    var first, second := Env(script, None, 0), Env(lease, None, 0);
    var (sh1, pr) := SelectScriptStep(sh, cid, idx, est, decay, first);
    envs := [first];
    OneStep(sh, KSelect(cid, idx, est, decay), first);
    if pr.KLease? {
      OneStep(sh1, pr, second);
      Then(sh, KSelect(cid, idx, est, decay), first, sh1, pr, [second], sh', Done("", out));
      envs := envs + [second];
    }
  }

  /** The remote calls of a usage-mode selection are a run of the model, so the ledger covers them. */
  lemma SelectIsRun(w: World, p: nat, cid: int, idx: int, est: real, decay: Option<real>, script: Reply, lease: Reply) returns (steps: seq<Step>)
    requires p in w.procs && w.procs[p] == KSelect(cid, idx, est, decay)
    ensures forall i :: 0 <= i < |steps| ==> steps[i].Run? && steps[i].p == p
    ensures var (sh', out) := Selector.SelectRun(w.sh, cid, idx, est, decay, script, lease);
            Exec(w, steps).sh == sh' && Exec(w, steps).procs == w.procs[p := Done("", out)]
  {
    var envs := SelectIsSolo(w.sh, cid, idx, est, decay, script, lease);
    SoloIsRun(w, p, envs);
    steps := Turns(p, envs);
  }
}

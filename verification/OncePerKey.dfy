/**
 * How often usage is settled under one idempotency key, over every interleaving: the key lets a
 * report in only when it is not set, and only a rollback or its expiry unsets it.
 */
module OncePerKey {
  import opened Protocol
  import opened Safety

  /** The caller's step carries out the settlement of a report under the key. */
  predicate SettlesUnder(pr: Proc, env: Env, key: string) {
    pr.RIncr? && pr.r.idemKey == key && !env.reply.NotExecuted?
  }

  /** The caller's step carries out the rollback of the key. */
  predicate RollsBack(pr: Proc, env: Env, key: string) {
    pr.RRollback? && pr.r.idemKey == key && !env.reply.NotExecuted?
  }

  function One(b: bool): nat { if b then 1 else 0 }

  /** Settlements carried out under the key in a run. */
  ghost function Settlements(w: World, steps: seq<Step>, key: string): nat {
    if steps == [] then 0
    else
      var prefix, s := steps[..|steps| - 1], steps[|steps| - 1];
      var before := Exec(w, prefix);
      Settlements(w, prefix, key) + One(s.Run? && s.p in before.procs && SettlesUnder(before.procs[s.p], s.env, key))
  }

  /** How often the key was given back by a rollback, or expired. */
  ghost function Releases(w: World, steps: seq<Step>, key: string): nat {
    if steps == [] then 0
    else
      var prefix, s := steps[..|steps| - 1], steps[|steps| - 1];
      var before := Exec(w, prefix);
      Releases(w, prefix, key)
      + One(s == ExpireIdem(key) || (s.Run? && s.p in before.procs && RollsBack(before.procs[s.p], s.env, key)))
  }

  /** A report that was let in under the key and may still settle. */
  predicate MaySettle(pr: Proc, key: string) {
    (pr.RLoad? || pr.RLease? || pr.RIncr?) && pr.r.idemKey == key
  }

  ghost function Waiting(w: World, key: string): set<nat> {
    set p | p in w.procs && MaySettle(w.procs[p], key)
  }

  /** Settlements done and still possible take up no more than what the key has let in. */
  ghost predicate Accounted(w: World, key: string, settled: int, released: int) {
    settled + |Waiting(w, key)| <= released + One(key in w.sh.idem)
  }

  /** What one step of a caller does to the account. */
  ghost predicate StepBalances(sh: Shared, pr: Proc, env: Env, key: string) {
    var (sh', pr') := ProcStep(sh, pr, env);
    One(SettlesUnder(pr, env, key)) + One(MaySettle(pr', key)) - One(MaySettle(pr, key))
    <= One(RollsBack(pr, env, key)) + One(key in sh'.idem) - One(key in sh.idem)
  }

  lemma BalancesStart(sh: Shared, pr: Proc, env: Env, key: string)
    requires key != "" && pr.RStart?
    ensures StepBalances(sh, pr, env, key)
  {
  }

  lemma BalancesEarly(sh: Shared, pr: Proc, env: Env, key: string)
    requires key != "" && Early(pr) && !pr.RStart?
    ensures StepBalances(sh, pr, env, key)
  {
  }

  lemma BalancesLate(sh: Shared, pr: Proc, env: Env, key: string)
    requires key != "" && Late(pr)
    ensures StepBalances(sh, pr, env, key)
  {
  }

  lemma BalancesWriting(sh: Shared, pr: Proc, env: Env, key: string)
    requires key != "" && Writing(pr)
    ensures StepBalances(sh, pr, env, key)
  {
  }

  lemma BalancesOther(sh: Shared, pr: Proc, env: Env, key: string)
    requires key != "" && Other(pr)
    ensures StepBalances(sh, pr, env, key)
  {
  }

  lemma CallerBalances(sh: Shared, pr: Proc, env: Env, key: string)
    requires key != ""
    ensures StepBalances(sh, pr, env, key)
  {
    if pr.RStart? {
      BalancesStart(sh, pr, env, key);
    } else if Early(pr) {
      BalancesEarly(sh, pr, env, key);
    } else if Late(pr) {
      BalancesLate(sh, pr, env, key);
    } else if Writing(pr) {
      BalancesWriting(sh, pr, env, key);
    } else {
      BalancesOther(sh, pr, env, key);
    }
  }

  lemma WaitingUpdate(w: World, w': World, p: nat, pr': Proc, key: string)
    requires w'.procs == w.procs[p := pr']
    ensures |Waiting(w', key)|
            == |Waiting(w, key)| + One(MaySettle(pr', key)) - One(p in w.procs && MaySettle(w.procs[p], key))
  {
    assert Waiting(w', key) - {p} == Waiting(w, key) - {p};
    SizeOfOneChange(Waiting(w, key), Waiting(w', key), p);
  }

  lemma RunKeepsAccount(w: World, p: nat, env: Env, key: string, settled: int, released: int)
    requires key != "" && p in w.procs && Accounted(w, key, settled, released)
    ensures Accounted(Next(w, Run(p, env)), key,
                      settled + One(SettlesUnder(w.procs[p], env, key)), released + One(RollsBack(w.procs[p], env, key)))
  {
    CallerBalances(w.sh, w.procs[p], env, key);
    WaitingUpdate(w, Next(w, Run(p, env)), p, ProcStep(w.sh, w.procs[p], env).1, key);
  }

  lemma OtherKeepsAccount(w: World, s: Step, key: string, settled: int, released: int)
    requires key != "" && !s.Run? && Accounted(w, key, settled, released)
    ensures Accounted(Next(w, s), key, settled, released + One(s == ExpireIdem(key)))
  {
    if s.Spawn? && s.p !in w.procs && Initial(s.pr) {
      WaitingUpdate(w, Next(w, s), s.p, s.pr, key);
    } else {
      assert Waiting(Next(w, s), key) == Waiting(w, key);
    }
  }

  /**
   * Over every interleaving of any number of callers: the settlements carried out under one
   * idempotency key are at most as many as its rollbacks carried out and its expiries together,
   * and one more if the key is set at the end.
   */
  lemma {:induction false} SettledOncePerRelease(w: World, steps: seq<Step>, key: string)
    requires w.procs == map[] && key != ""
    ensures var end := Exec(w, steps);
            Accounted(end, key, Settlements(w, steps, key), Releases(w, steps, key))
    ensures Settlements(w, steps, key) <= Releases(w, steps, key) + One(key in Exec(w, steps).sh.idem)
  {
    if steps == [] {
      assert Waiting(w, key) == {};
    } else {
      var prefix, s := steps[..|steps| - 1], steps[|steps| - 1];
      SettledOncePerRelease(w, prefix, key);
      var before := Exec(w, prefix);
      if s.Run? && s.p in before.procs {
        RunKeepsAccount(before, s.p, s.env, key, Settlements(w, prefix, key), Releases(w, prefix, key));
      } else if !s.Run? {
        OtherKeepsAccount(before, s, key, Settlements(w, prefix, key), Releases(w, prefix, key));
      }
    }
  }

  /** So usage is settled at most once under a key that is neither rolled back nor expires. */
  lemma SettledOnce(w: World, steps: seq<Step>, key: string)
    requires w.procs == map[] && key != "" && Releases(w, steps, key) == 0
    ensures Settlements(w, steps, key) <= 1
  {
    SettledOncePerRelease(w, steps, key);
  }
}

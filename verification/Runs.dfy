/** Putting runs of the interleaving model together. */
module Runs {
  import opened Common
  import opened KeyTransaction
  import opened SettingsModel
  import opened Protocol

  const AUTO_ON: Option<Settings> := Some(Settings(true, true, [], [], map[], map[]))

  /** A call that is carried out and answered, and one that is not carried out. */
  const OK: Env := Env(Delivered, AUTO_ON, 0)
  const FAILING: Env := Env(NotExecuted, None, 0)

  lemma ExecSnoc(w: World, steps: seq<Step>, s: Step)
    ensures Exec(w, steps + [s]) == Next(Exec(w, steps), s)
  {
    assert (steps + [s])[..|steps|] == steps;
  }

  lemma {:induction false} ExecCat(w: World, a: seq<Step>, b: seq<Step>)
    ensures Exec(w, a + b) == Exec(Exec(w, a), b)
  {
    if b == [] {
      assert a + b == a;
    } else {
      var b', s := b[..|b| - 1], b[|b| - 1];
      ExecCat(w, a, b');
      ExecSnoc(w, a + b', s);
      assert a + b == a + b' + [s];
    }
  }
}

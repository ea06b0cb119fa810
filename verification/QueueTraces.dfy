/** Runs of the queue machine, put together from shorter ones. */
module QueueTraces {
  import opened QueueMachine

  lemma ExecSnoc(w: World, steps: seq<Step>, st: Step)
    ensures Exec(w, steps + [st]) == Next(Exec(w, steps), st)
  {
    assert (steps + [st])[..|steps|] == steps;
  }

  lemma LastApart(a: seq<Step>, b: seq<Step>)
    requires b != []
    ensures b == b[..|b| - 1] + [b[|b| - 1]] && a + b == (a + b[..|b| - 1]) + [b[|b| - 1]]
  {}

  lemma {:induction false} ExecConcat(w: World, a: seq<Step>, b: seq<Step>)
    ensures Exec(w, a + b) == Exec(Exec(w, a), b)
    decreases |b|
  {
    if b == [] {
      assert a + b == a;
    } else {
      var c, st := b[..|b| - 1], b[|b| - 1];
      LastApart(a, b);
      ExecConcat(w, a, c);
      ExecSnoc(w, a + c, st);
      ExecSnoc(Exec(w, a), c, st);
    }
  }

  /** Two steps in a row, and three. */
  lemma ExecFew(w: World, s0: Step, s1: Step, s2: Step)
    ensures Exec(w, [s0, s1]) == Next(Next(w, s0), s1)
    ensures Exec(w, [s0, s1, s2]) == Next(Next(Next(w, s0), s1), s2)
  {
    ExecSnoc(w, [], s0);
    ExecSnoc(w, [s0], s1);
    ExecSnoc(w, [s0, s1], s2);
    assert [] + [s0] == [s0] && [s0] + [s1] == [s0, s1] && [s0, s1] + [s2] == [s0, s1, s2];
  }

  lemma ExecOne(w: World, st: Step)
    ensures Exec(w, [st]) == Next(w, st)
  {
    ExecSnoc(w, [], st);
    assert [] + [st] == [st];
  }
}

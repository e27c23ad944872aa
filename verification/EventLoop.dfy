/**
 The runs of the state machine that the main loop makes: callbacks while it waits, then a
 round over what is pending, with the stack's own callbacks after the timer.
 */
module EventLoop {
  import opened ArList
  import opened EventMachine

  /** The labels of one round of the main loop. */
  function RoundLabels(flags: set<Event>, demo: bool, callbacks: seq<Label>): seq<Label> {
    [Wake, Phase(false), Phase(false), Phase(demo)] + (if Timer in flags then callbacks else []) +
    [Phase(false), Phase(false)]
  }

  /** One turn of the endless loop. */
  datatype Doings = Doings(callbacks: seq<Label>, demo: bool, periodic: seq<Label>) {
    ghost predicate Valid() {
      && (forall l :: l in callbacks ==> !l.Wake? && !l.Phase?)
      && forall l :: l in periodic ==> !l.Wake? && !l.Phase?
    }
  }

  /** What a turn does when the machine waits in state `s`: no round without anything pending. */
  function TurnLabels(s: State, t: Doings): seq<Label> {
    var main := Run(s, t.callbacks).main;
    t.callbacks + if main == {} then [] else RoundLabels(main, t.demo, t.periodic)
  }

  function LoopLabels(s: State, turns: seq<Doings>): seq<Label> {
    if turns == [] then [] else
      var done := LoopLabels(s, turns[..|turns| - 1]);
      done + TurnLabels(Run(s, done), turns[|turns| - 1])
  }

  lemma {:induction false} RoundRun(s: State, demo: bool, cs: seq<Label>)
    ensures Run(s, [Wake, Phase(false), Phase(false), Phase(demo)] + cs + [Phase(false), Phase(false)]) ==
            Next(Next(Run(Next(Next(Next(Next(s, Wake), Phase(false)), Phase(false)), Phase(demo)), cs),
                      Phase(false)), Phase(false))
  {
    var head := [Wake, Phase(false), Phase(false), Phase(demo)];
    RunConcat(s, head + cs, [Phase(false), Phase(false)]);
    RunConcat(s, head, cs);
    RunFour(s, Wake, Phase(false), Phase(false), Phase(demo));
    RunTwo(Run(s, head + cs), Phase(false), Phase(false));
  }

  lemma {:induction false} RunTwo(s: State, k: Label, l: Label)
    ensures Run(s, [k, l]) == Next(Next(s, k), l)
  {
    assert [k, l][..1] == [k] && [k][..0] == [];
    assert Run(s, [k]) == Next(Run(s, []), k);
  }

  lemma {:induction false} RunThree(s: State, k: Label, l: Label, m: Label)
    ensures Run(s, [k, l, m]) == Next(Next(Next(s, k), l), m)
  {
    RunTwo(s, k, l);
    assert [k, l, m][..2] == [k, l];
  }

  lemma {:induction false} RunFour(s: State, j: Label, k: Label, l: Label, m: Label)
    ensures Run(s, [j, k, l, m]) == Next(Next(Next(Next(s, j), k), l), m)
  {
    RunThree(s, j, k, l);
    assert [j, k, l, m][..3] == [j, k, l];
  }
}

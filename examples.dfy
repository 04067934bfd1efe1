/**
 * The scenarios of the repository's tests, stated on the model
 * (fsm_test.go, example_test.go).
 */
module Examples {
  import opened States
  import opened Transitions
  import opened Registry

  const Todo: State := "todo"
  const InProgress: State := "in progress"
  const Verify: State := "verify"
  const Done: State := "done"

  lemma KanbanStatesDistinct()
    ensures Todo != InProgress && Todo != Verify && Todo != Done
    ensures InProgress != Verify && InProgress != Done && Verify != Done
    ensures ',' !in Todo && ',' !in InProgress && ',' !in Verify && ',' !in Done
  {
    assert Todo[0] != Done[0];
  }

  /** The kanban board of fsm_test.go:12-28. */
  function Kanban(): seq<Transition> {
    [ NewTransition([Todo, InProgress, Verify], Todo, []),
      NewTransition([Todo, InProgress, Verify], InProgress, []),
      NewTransition([InProgress, Verify], Verify, []),
      NewTransition([Verify], Done, []) ]
  }

  lemma KanbanWellFormed()
    ensures WellFormed(Kanban()) && CommaFreeSources(Kanban()) && Index(Kanban()).Built?
  {
    var k := Kanban();
    KanbanStatesDistinct();
    assert k[0].to == Todo && k[1].to == InProgress && k[2].to == Verify && k[3].to == Done;
    assert k[0].from == [Todo, InProgress, Verify] && k[1].from == [Todo, InProgress, Verify];
    assert k[2].from == [InProgress, Verify] && k[3].from == [Verify];
    assert ProperSources(k);
    assert CommaFreeSources(k);
    DisjointKeysIsDisjointEdges(k);
    WellFormedBuilds(k);
  }

  /** NewTransition without options leaves name and callback empty. */
  lemma KanbanShape()
    ensures |Kanban()| == 4
    ensures forall i :: 0 <= i < 4 ==> Kanban()[i].callback == None
    ensures Kanban()[0].to == Todo && Kanban()[1].to == InProgress && Kanban()[2].to == Verify && Kanban()[3].to == Done
    ensures Kanban()[0].from == [Todo, InProgress, Verify] && Kanban()[1].from == [Todo, InProgress, Verify]
    ensures Kanban()[2].from == [InProgress, Verify] && Kanban()[3].from == [Verify]
  {
  }

  /** The accepted rows of fsm_test.go:54-57, the self-loop verify -> verify among them. */
  lemma KanbanAccepts(invoke: Invoker)
    ensures Index(Kanban()).Built?
    ensures DoTransition(Index(Kanban()).edges, Todo, InProgress, [], invoke) == Ok
    ensures DoTransition(Index(Kanban()).edges, InProgress, Todo, [], invoke) == Ok
    ensures DoTransition(Index(Kanban()).edges, Verify, Done, [], invoke) == Ok
    ensures DoTransition(Index(Kanban()).edges, Verify, Verify, [], invoke) == Ok
  {
    var k := Kanban();
    KanbanWellFormed();
    KanbanShape();
    IndexSpec(k);
    DispatchRunsDeclared(k, 1, Todo, [], invoke);
    DispatchRunsDeclared(k, 0, InProgress, [], invoke);
    DispatchRunsDeclared(k, 3, Verify, [], invoke);
    DispatchRunsDeclared(k, 2, Verify, [], invoke);
  }

  /** With comma-free labels, a pair of Kanban() is accepted only if some transition declares it. */
  lemma KanbanRefusesUndeclared(from: State, to: State, invoke: Invoker)
    requires ',' !in from
    requires forall i :: 0 <= i < 4 && from in Kanban()[i].from ==> Kanban()[i].to != to
    ensures Index(Kanban()).Built?
    ensures DoTransition(Index(Kanban()).edges, from, to, [], invoke) == Fail(NotValidTransition(from, to))
  {
    KanbanWellFormed();
    DispatchRejectsUndeclared(Kanban(), from, to, [], invoke);
  }

  /** The refused rows of fsm_test.go:58-61. */
  lemma KanbanRefuses(invoke: Invoker)
    ensures Index(Kanban()).Built?
    ensures DoTransition(Index(Kanban()).edges, Todo, Done, [], invoke) == Fail(NotValidTransition(Todo, Done))
    ensures DoTransition(Index(Kanban()).edges, Done, Verify, [], invoke) == Fail(NotValidTransition(Done, Verify))
    ensures DoTransition(Index(Kanban()).edges, Done, Done, [], invoke) == Fail(NotValidTransition(Done, Done))
    ensures DoTransition(Index(Kanban()).edges, Todo, "foo", [], invoke) == Fail(NotValidTransition(Todo, "foo"))
  {
    KanbanShape();
    KanbanStatesDistinct();
    KanbanRefusesUndeclared(Todo, Done, invoke);
    KanbanRefusesUndeclared(Done, Verify, invoke);
    KanbanRefusesUndeclared(Done, Done, invoke);
    assert "foo" != Todo && "foo" != InProgress && "foo" != Verify && "foo" != Done;
    KanbanRefusesUndeclared(Todo, "foo", invoke);
  }

  const Red: State := "red"
  const Green: State := "green"
  const Yellow: State := "yellow"

  /** The traffic light of example_test.go:9-28. */
  function Lights(): seq<Transition> {
    [ NewTransition([Red], Green, []),
      NewTransition([Green], Yellow, []),
      NewTransition([Yellow], Red, []) ]
  }

  lemma LightsWellFormed()
    ensures WellFormed(Lights()) && CommaFreeSources(Lights()) && Index(Lights()).Built?
  {
    var l := Lights();
    assert Red != Green && Green != Yellow && Yellow != Red;
    assert l[0].from == [Red] && l[1].from == [Green] && l[2].from == [Yellow];
    assert l[0].to == Green && l[1].to == Yellow && l[2].to == Red;
    assert ProperSources(l);
    assert CommaFreeSources(l);
    DisjointKeysIsDisjointEdges(l);
    WellFormedBuilds(l);
  }

  /** The message printed for the refused green -> red (example_test.go:21-28). */
  lemma LightsMessage()
    ensures Message(NotValidTransition(Green, Red)) == "\"" + "Green" + "\" -> \"" + "Red" + "\" is not a valid transition"
  {
    DisplayAt(Green);
    DisplayAt(Red);
    assert Display(Green) == "Green";
    assert Display(Red) == "Red";
  }

  /** green -> red is refused, green -> yellow succeeds. */
  lemma LightsDispatch(invoke: Invoker)
    ensures Index(Lights()).Built?
    ensures DoTransition(Index(Lights()).edges, Green, Red, [], invoke) == Fail(NotValidTransition(Green, Red))
    ensures DoTransition(Index(Lights()).edges, Green, Yellow, [], invoke) == Ok
  {
    var l := Lights();
    LightsWellFormed();
    assert l[0].from == [Red] && l[1].from == [Green] && l[2].from == [Yellow];
    assert l[0].to == Green && l[1].to == Yellow && l[2].to == Red;
    assert l[1].callback == None;
    assert Red != Green && Yellow != Green;
    DispatchRejectsUndeclared(l, Green, Red, [], invoke);
    DispatchRunsDeclared(l, 1, Green, [], invoke);
  }

  /**
   * The single-transition tests of fsm_test.go:77-124: the declared callback
   * runs for the declared source, a per-call callback replaces it, and any
   * other source is refused.
   */
  lemma SingleTransition(invoke: Invoker, cb1: CallbackId, cb2: CallbackId)
    ensures TransitionFrom(NewTransition(["bad"], "good", [WithCallback(Some(cb1))]), "bad", [], invoke)
         == Returned(invoke(cb1, NewTransition(["bad"], "good", [WithCallback(Some(cb1))]), "bad", "good"))
    ensures TransitionFrom(NewTransition(["bad"], "good", [WithCallback(Some(cb1))]), "wut", [], invoke)
         == Returned(Fail(NotValidTransition("wut", "good")))
    ensures TransitionFrom(NewTransition(["bad"], "good", [WithCallback(Some(cb1))]), "bad", [WithCallback(Some(cb2))], invoke)
         == Returned(invoke(cb2, NewTransition(["bad"], "good", [WithCallback(Some(cb1))]), "bad", "good"))
  {
    var t := NewTransition(["bad"], "good", [WithCallback(Some(cb1))]);
    assert t.from == ["bad"] && t.callback == Some(cb1);
    assert NoRepeats(t.from);
    TransitionFromSpec(t, "bad", [], invoke);
    TransitionFromSpec(t, "wut", [], invoke);
    TransitionFromSpec(t, "bad", [WithCallback(Some(cb2))], invoke);
  }
}

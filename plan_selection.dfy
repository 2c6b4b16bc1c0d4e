/** The plan-selection wizard: five states, each with an ENTER callback that
    succeeds, driven through the same sequence of events as the example. */
module PlanSelection {
  import opened StateDef
  import opened Engine
  import opened Machine

  const Start: StateId := 0
  const Plan1: StateId := 1
  const Plan2: StateId := 2
  const Plan3: StateId := 3
  const End: StateId := 4

  /** A plan offers payment (to End) and a way back to the plan list. */
  function PlanState(id: StateId): State {
    AddEvent(AddEvent(AddCallback(NewState(id), Enter, Callback(false)),
      "payment", Handler(End, false)),
      "plans", Handler(Start, false))
  }

  function Definitions(): seq<State> {
    var start := AddEvent(AddEvent(AddEvent(AddCallback(NewState(Start), Enter, Callback(false)),
      "plan1", Handler(Plan1, false)),
      "plan2", Handler(Plan2, false)),
      "plan3", Handler(Plan3, false));
    var end := AddCallback(NewState(End), Enter, Callback(false));
    [start, PlanState(Plan1), PlanState(Plan2), PlanState(Plan3), end]
  }

  /** Every definition of the example is at the index of its id and has
      exactly one callback, on ENTER, which succeeds. */
  predicate WizardShape(defs: seq<State>) {
    |defs| == 5 &&
    forall j :: 0 <= j < 5 ==> defs[j].id == j && defs[j].callbacks == map[Enter := Callback(false)]
  }

  /** On such definitions, a succeeding handler of the state at `i` that
      names `k` takes the machine to `k`. */
  lemma WizardStep(defs: seq<State>, event: string, i: nat, k: nat)
    requires WizardShape(defs)
    requires i < 5 && k < 5
    requires event in defs[i].events && defs[i].events[event] == Handler(k, false)
    ensures Dispatch(defs, i, event).final == k
  {
  }

  /** The example's definitions have that shape. */
  lemma WizardShapeHolds()
    ensures WizardShape(Definitions())
  {
  }

  /** The six moves of the example, in order. */
  predicate WizardMoves(defs: seq<State>) {
    && Dispatch(defs, Start, "plan1").final == Plan1
    && Dispatch(defs, Plan1, "plans").final == Start
    && Dispatch(defs, Start, "plan2").final == Plan2
    && Dispatch(defs, Plan2, "plans").final == Start
    && Dispatch(defs, Start, "plan3").final == Plan3
    && Dispatch(defs, Plan3, "payment").final == End
  }

  /** The engine makes exactly those moves on the example's definitions. */
  lemma ScenarioSteps()
    ensures WizardMoves(Definitions())
  {
    var defs := Definitions();
    WizardShapeHolds();
    WizardStep(defs, "plan1", 0, 1);
    WizardStep(defs, "plans", 1, 0);
    WizardStep(defs, "plan2", 0, 2);
    WizardStep(defs, "plans", 2, 0);
    WizardStep(defs, "plan3", 0, 3);
    WizardStep(defs, "payment", 3, 4);
  }

  /** Builds the machine as the example does, starting in Start, and walks
      Start -> Plan1 -> Start -> Plan2 -> Start -> Plan3 -> End, returning
      each state observed through `CurrentState`. */
  method PlanSelectionScenario() returns (seen: seq<StateId>)
    ensures seen == [Start, Plan1, Start, Plan2, Start, Plan3, End]
  {
    var defs := Definitions();
    var fsm := new Fsm(Start);
    fsm := fsm.AddState(defs[0]);
    fsm := fsm.AddState(defs[1]);
    fsm := fsm.AddState(defs[2]);
    fsm := fsm.AddState(defs[3]);
    fsm := fsm.AddState(defs[4]);
    assert fsm.states == defs;
    ScenarioSteps();
    var s0 := fsm.CurrentState();
    fsm.Event("plan1");
    var s1 := fsm.CurrentState();
    fsm.Event("plans");
    var s2 := fsm.CurrentState();
    fsm.Event("plan2");
    var s3 := fsm.CurrentState();
    fsm.Event("plans");
    var s4 := fsm.CurrentState();
    fsm.Event("plan3");
    var s5 := fsm.CurrentState();
    fsm.Event("payment");
    var s6 := fsm.CurrentState();
    seen := [s0, s1, s2, s3, s4, s5, s6];
  }
}

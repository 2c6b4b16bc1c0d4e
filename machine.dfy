/** The machine: a current state and an append-only list of definitions.

    `Event`, `TriggerCallback` and `Fallback` are the engine's three
    first-match scans over the definitions; `ChangeState` sequences EXIT,
    the move and ENTER.  Each method is proved against its counterpart in
    module Engine.  Running a handler or callback is
    recorded in the ghost field `invoked`, in the order the closures run.
 */
module Machine {
  import opened StateDef
  import opened Engine

  class Fsm {
    var currentState: StateId
    var states: seq<State>
    /** Every handler and callback this machine has run, oldest first. */
    ghost var invoked: seq<Call>

    /** `NewFsm(initialState)`: in `initialState`, with no definitions. */
    constructor (initialState: StateId)
      ensures currentState == initialState && states == [] && invoked == []
    {
      currentState := initialState;
      states := [];
      invoked := [];
    }

    /** `AddState` works on a copy: the result is a new machine with `s`
        appended after the existing definitions; this machine is untouched. */
    method AddState(s: State) returns (r: Fsm)
      ensures fresh(r)
      ensures r.currentState == currentState && r.states == states + [s]
      ensures r.invoked == invoked
    {
      r := new Fsm(currentState);
      r.states := states + [s];
      r.invoked := invoked;
    }

    function CurrentState(): (s: StateId)
      reads this
      ensures s == currentState
    {
      currentState
    }

    /** Dispatch `event` to the handler of the current state's definition.
        Only the current state (and the record of run closures) changes. */
    method Event(event: string)
      modifies this`currentState, this`invoked
      ensures states == old(states)
      ensures currentState == Dispatch(states, old(currentState), event).final
      ensures invoked == old(invoked) + Dispatch(states, old(currentState), event).calls
    {
      var i := 0;
      while i < |states|
        invariant 0 <= i <= |states|
        invariant currentState == old(currentState) && invoked == old(invoked)
        invariant forall j :: 0 <= j < i ==> states[j].id != currentState
      {
        if states[i].id != currentState {
          i := i + 1;
          continue;
        }
        var state := states[i];
        if event !in state.events {
          return;
        }
        var h := state.events[event];
        invoked := invoked + [HandlerCall(i, event)];
        if h.fails {
          Fallback();
          return;
        }
        ChangeState(h.next);
        return;
      }
    }

    /** Run EXIT of the current state, move to `toState`, run its ENTER;
        recover through `Fallback` as soon as one of them fails. */
    method ChangeState(toState: StateId)
      modifies this`currentState, this`invoked
      ensures currentState == Transition(states, old(currentState), toState).final
      ensures invoked == old(invoked) + Transition(states, old(currentState), toState).calls
    {
      var err, ran := TriggerCallback(Exit, currentState);
      invoked := invoked + ran;
      if err {
        Fallback();
        return;
      }
      currentState := toState;
      err, ran := TriggerCallback(Enter, toState);
      invoked := invoked + ran;
      if err {
        Fallback();
        return;
      }
    }

    /** Run the `phase` callback of the current state's definition and report
        whether it failed.  The `state` argument is not consulted: the lookup
        always uses the current state. */
    method TriggerCallback(phase: Phase, state: StateId) returns (err: bool, ghost ran: seq<Call>)
      ensures err == CallbackFails(states, currentState, phase)
      ensures ran == CallbackCalls(states, currentState, phase)
    {
      var i := 0;
      while i < |states|
        invariant 0 <= i <= |states|
        invariant forall j :: 0 <= j < i ==> states[j].id != currentState
      {
        if states[i].id != currentState {
          i := i + 1;
          continue;
        }
        var s := states[i];
        if phase !in s.callbacks {
          return false, [];
        }
        err := s.callbacks[phase].fails;
        ran := [CallbackCall(i, phase)];
        return;
      }
      return false, [];
    }

    /** Jump to the current state's fallback if it has one; run no callback. */
    method Fallback()
      modifies this`currentState
      ensures currentState == Recover(states, old(currentState))
    {
      var i := 0;
      while i < |states|
        invariant 0 <= i <= |states|
        invariant currentState == old(currentState)
        invariant forall j :: 0 <= j < i ==> states[j].id != currentState
      {
        if states[i].id != currentState {
          i := i + 1;
          continue;
        }
        var s := states[i];
        if s.fallback != UNSET {
          currentState := s.fallback;
        }
        return;
      }
    }
  }
}

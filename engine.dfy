/** The meaning of one call of `Event`, as pure functions of the registered
    definitions and the current state.

    Each function follows one routine of the engine: `Lookup` is the
    first-match scan of `Event`, `triggerCallback` and `fallback`;
    `Recover` is `fallback`, `CallbackFails` is `triggerCallback`,
    `Transition` is `changeState` and `Dispatch` is `Event`.  Besides the final state, `Transition` and
    `Dispatch` report the closures they invoke, in order.
 */
module Engine {
  import opened StateDef

  datatype Option<T> = None | Some(value: T)

  /** An invoked closure: the handler `event` of definition `def`, or the
      `phase` callback of definition `def` (indices into the definitions). */
  datatype Call = HandlerCall(def: nat, event: string) | CallbackCall(def: nat, phase: Phase)

  /** What an `Event` call leaves behind: the new current state and the
      closures it ran. */
  datatype Run = Run(final: StateId, calls: seq<Call>)

  /** Index of the first definition whose id is `id`, if any. */
  function Lookup(states: seq<State>, id: StateId): (r: Option<nat>)
    ensures r.Some? ==> r.value < |states| && states[r.value].id == id
    ensures r.Some? ==> forall j :: 0 <= j < r.value ==> states[j].id != id
    ensures r.None? <==> forall j :: 0 <= j < |states| ==> states[j].id != id
  {
    if |states| == 0 then None
    else if states[0].id == id then Some(0)
    else match Lookup(states[1..], id)
      case None => None
      case Some(k) => Some(k + 1)
  }

  /** The state `fallback` moves to from `cur`: the fallback of the first
      definition of `cur` when one is set, otherwise `cur` itself. */
  function Recover(states: seq<State>, cur: StateId): (r: StateId)
    ensures Lookup(states, cur).None? ==> r == cur
    ensures r == cur
         || (Lookup(states, cur).Some? && HasFallback(states[Lookup(states, cur).value])
             && r == states[Lookup(states, cur).value].fallback)
    ensures r == UNSET ==> cur == UNSET
  {
    match Lookup(states, cur)
    case None => cur
    case Some(i) => if HasFallback(states[i]) then states[i].fallback else cur
  }

  /** The callback `triggerCallback` runs for `phase` while in `cur`. */
  function CallbackOf(states: seq<State>, cur: StateId, phase: Phase): (r: Option<nat>)
    ensures r.Some? ==> r == Lookup(states, cur) && phase in states[r.value].callbacks
    ensures r.None? ==> Lookup(states, cur).None? || phase !in states[Lookup(states, cur).value].callbacks
  {
    match Lookup(states, cur)
    case None => None
    case Some(i) => if phase in states[i].callbacks then Some(i) else None
  }

  /** The closures `triggerCallback` runs for `phase` while in `cur`. */
  function CallbackCalls(states: seq<State>, cur: StateId, phase: Phase): (r: seq<Call>)
    ensures |r| <= 1
    ensures forall c :: c in r ==> c.CallbackCall? && c.phase == phase && c.def < |states| && states[c.def].id == cur
  {
    match CallbackOf(states, cur, phase)
    case None => []
    case Some(i) => [CallbackCall(i, phase)]
  }

  /** Whether `triggerCallback` returns an error for `phase` in `cur`: only a
      registered callback that fails does; a missing definition or missing
      callback is a success. */
  function CallbackFails(states: seq<State>, cur: StateId, phase: Phase): (r: bool)
    ensures r ==> CallbackCalls(states, cur, phase) != []
  {
    match CallbackOf(states, cur, phase)
    case None => false
    case Some(i) => states[i].callbacks[phase].fails
  }

  /** `changeState(to)` from `cur`: EXIT of `cur`, then, if it succeeded,
      the move to `to` and ENTER of `to`; any failure recovers from the state
      the machine is in at that moment. */
  function Transition(states: seq<State>, cur: StateId, to: StateId): (r: Run)
    ensures r.final == to || r.final == Recover(states, cur) || r.final == Recover(states, to)
    ensures CallbackFails(states, cur, Exit) ==> r.calls == CallbackCalls(states, cur, Exit)
    ensures |r.calls| <= 2 && forall c :: c in r.calls ==> c.CallbackCall?
  {
    var exit := CallbackCalls(states, cur, Exit);
    if CallbackFails(states, cur, Exit) then
      Run(Recover(states, cur), exit)
    else
      var enter := CallbackCalls(states, to, Enter);
      if CallbackFails(states, to, Enter) then
        Run(Recover(states, to), exit + enter)
      else
        Run(to, exit + enter)
  }

  /** `Event(event)` from `cur`. */
  function Dispatch(states: seq<State>, cur: StateId, event: string): (r: Run)
    ensures r.calls == [] ==> r.final == cur
    ensures r.calls != [] ==>
      Lookup(states, cur).Some? && r.calls[0] == HandlerCall(Lookup(states, cur).value, event)
    ensures |r.calls| <= 3 && forall k :: 1 <= k < |r.calls| ==> r.calls[k].CallbackCall?
  {
    match Lookup(states, cur)
    case None => Run(cur, [])
    case Some(i) =>
      if event !in states[i].events then Run(cur, [])
      else
        var h := states[i].events[event];
        var rest := if h.fails then Run(Recover(states, cur), []) else Transition(states, cur, h.next);
        Run(rest.final, [HandlerCall(i, event)] + rest.calls)
  }

  /** The current state after `Event` is called with each name of `events`
      in turn, starting from `cur`. */
  function Replay(states: seq<State>, cur: StateId, events: seq<string>): (r: StateId)
    ensures events != [] ==>
      r == Dispatch(states, Replay(states, cur, events[..|events| - 1]), events[|events| - 1]).final
    decreases |events|
  {
    if events == [] then cur
    else
      var rest := events[1..];
      assert rest != [] ==> rest[..|rest| - 1] == events[..|events| - 1][1..];
      Replay(states, Dispatch(states, cur, events[0]).final, rest)
  }
}

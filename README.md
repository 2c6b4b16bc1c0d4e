# fsm — a verified model of a small generic state-machine engine

The engine (`main.go`) keeps a current state and an append-only list of
state definitions. A definition has an id, a fallback target, event handlers
keyed by name, and callbacks for the ENTER and EXIT phases. `Event(name)`
looks up the first definition of the current state and runs the named
handler. If the handler succeeds, `changeState` runs EXIT on the current
state, moves to the handler's target and runs ENTER there. Any failure goes
to `fallback`, which jumps to the fallback of the state the machine is in
at that moment (if one is set) and runs no callback.

## Layout

- `builder.dfy`, module `StateDef`: state ids, the `math.MinInt` sentinel
  `UNSET`, phases, handler and callback outcomes, the `State` definition,
  and the builder functions `NewState`, `AddEvent`, `AddCallback` and
  `WithFallback`, with lemmas on how registrations combine.
- `engine.dfy`, module `Engine`: what one `Event` call means, as pure
  functions of the definitions and the current state. `Lookup` is the
  first-match scan that `Event`, `triggerCallback` and `fallback` each
  perform. `Recover` models `fallback`,
  `CallbackFails`/`CallbackCalls` model `triggerCallback`, `Transition`
  models `changeState` and `Dispatch` models `Event`. `Transition` and
  `Dispatch` return the final state and the closures run, in order.
- `machine.dfy`, module `Machine`: class `Fsm`, with fields `currentState`
  and `states` and a ghost log `invoked` of the closures run. Its methods
  `Event`, `TriggerCallback` and `Fallback` repeat the three Go
  `for … range` scans (main.go:28, 65, 83) with their early returns;
  `ChangeState` has no loop and sequences EXIT, the move and ENTER. Each
  method is proved to match its function in `Engine`.
- `properties.dfy`, module `Properties`: the case analysis of `Event`:
  ignored event, handler error, EXIT error, ENTER error and success, each
  with the fallback set or unset. Also that a definition appended for an id
  already registered is never reached.
- `plan_selection.dfy`, module `PlanSelection`: the plan-selection wizard
  from `fsm_test.go`, built and driven through its six events.

State ids are Go's `int` on a 64-bit platform, because a type `T ~int` has
`int` as its underlying type. `UNSET` is `math.MinInt`, and a fallback is in
force when it differs from `UNSET`, as at main.go:89. So a fallback set to
`math.MinInt` is the same as no fallback. `WithFallbackLastWins` states this.

`fsm_test.go` uses a `SetState` operation and a zero-argument `NewFsm`.
`main.go` has no `SetState`, and its `NewFsm` takes the initial state, so the
test as written does not build against it. The model follows `main.go`: the
scenario builds its machine with `new Fsm(Start)` and adds no `SetState`.

## Model

| member | source | states |
|---|---|---|
| StateDef.NewState | main.go:111-119 | a new definition keeps its id, handles no event, has no callback, and has its fallback unset (the `math.MinInt` sentinel) |
| StateDef.AddEvent | main.go:127-130 | afterwards `name` maps to the new handler; every other name keeps its handler or stays unregistered; id, fallback and callbacks are unchanged |
| StateDef.AddCallback | main.go:136-139 | afterwards phase `p` has the new callback; the other phase keeps its callback; id, fallback and events are unchanged |
| StateDef.WithFallback | main.go:141-144 | the fallback is in force exactly when the new value is not the sentinel, and then equals it; id, events and callbacks are unchanged |
| StateDef.AddEventCommutes | main.go:127-130 | registering two different event names in either order gives the same definition |
| StateDef.AddEventOverwrites | main.go:127-130 | registering a name twice keeps only the second handler |
| StateDef.AddCallbackCommutes | main.go:136-139 | registering ENTER and EXIT in either order gives the same definition |
| StateDef.AddCallbackOverwrites | main.go:136-139 | registering a phase twice keeps only the second callback |
| StateDef.WithFallbackLastWins | main.go:141-144 | only the last fallback written counts; writing `math.MinInt` clears it (main.go:89) |
| Engine.Lookup | main.go:28-31 | the result is the index of the FIRST definition with the given id, and it is None exactly when no definition has that id |
| Engine.Recover | main.go:82-95 | recovery stays put when no definition matches; otherwise it stays put or moves to the first match's fallback, and only when that is set; it never moves to the sentinel |
| Engine.CallbackOf | main.go:64-80 | a callback is found exactly when the first matching definition registers one for the phase, and it is that definition's |
| Engine.CallbackCalls | main.go:64-80 | at most one callback runs, for the given phase, belonging to a definition of the current state |
| Engine.CallbackFails | main.go:64-80 | an error is reported only when a callback actually ran |
| Engine.Transition | main.go:49-62 | the machine ends at the target or at the recovery of the old state or of the target; after a failing EXIT only EXIT has run; at most two closures, both callbacks, run |
| Engine.Dispatch | main.go:27-47 | if nothing runs the state is unchanged; otherwise the first closure run is the named handler of the current state's first definition, followed by at most two callbacks |
| Engine.Replay | main.go:27-47 | replaying a list of events equals sending its last event from where replaying the rest leads, i.e. calling `Event` once per name in order |
| Machine.Fsm.constructor | main.go:12-16 | `NewFsm(x)`: current state `x`, no definitions, no closure run yet |
| Machine.Fsm.AddState | main.go:18-21 | a fresh machine with the same current state and the definition appended after all earlier ones; the receiver is left untouched |
| Machine.Fsm.CurrentState | main.go:23-25 | reads the current state and changes nothing |
| Machine.Fsm.Event | main.go:27-47 | the new current state and the closures run are those of `Dispatch` on the old current state; the definitions are unchanged, and `currentState` is the only real field written |
| Machine.Fsm.ChangeState | main.go:49-62 | the new current state and the closures run are those of `Transition`: EXIT on the old state, then the move and ENTER on the target, with recovery after either failure |
| Machine.Fsm.TriggerCallback | main.go:64-80 | returns whether the current state's first definition has a failing callback for the phase, and reports that callback as run; the `state` argument plays no part |
| Machine.Fsm.Fallback | main.go:82-95 | the new current state is the first matching definition's fallback if one is set, otherwise the old state; nothing else is written |
| Properties.IgnoredIffNothingRuns | main.go:27-36 | an event runs some closure exactly when the current state has a definition with a handler of that name; otherwise it leaves the state unchanged |
| Properties.IgnoredRepeatedly | main.go:27-36 | sending an ignored event any number of times keeps the current state fixed |
| Properties.ReplayConcat | main.go:27-47 | sending two lists of events one after the other ends where sending the second list from the end of the first does |
| Properties.AbsentCallbackSucceeds | main.go:64-80 | a missing callback, or a state with no definition, counts as success and runs nothing |
| Properties.RegisteredCallbackRuns | main.go:64-73 | the callback of the first matching definition is the one run, and its outcome is the one returned |
| Properties.LookupFirst | main.go:28-31 | any index that matches the id, with no earlier match, is the index `Lookup` returns |
| Properties.HandlerFailureRecovers | main.go:38-42 | a failing handler's target is discarded and no callback runs; the machine ends at the current state's fallback if set, else where it was |
| Properties.SuccessfulTransition | main.go:44-62 | a succeeding handler, with EXIT and ENTER absent or succeeding, ends at the handler's target after running handler, EXIT and ENTER in that order |
| Properties.ExitFailureRecovers | main.go:49-53 | a failing EXIT stops the move, and ENTER never runs; the machine ends at the old state's fallback if set, else at the old state |
| Properties.EnterFailureRecovers | main.go:56-60 | a failing ENTER on target `t` recovers from `t`: the machine ends at `t`'s fallback if set, else at `t` |
| Properties.LookupAppend | main.go:18-21 | appending a definition keeps every earlier match; the new definition is found only for an id no earlier definition has |
| Properties.ShadowedRecoveryAgrees | main.go:64-95 | when the appended definition's id is already registered, fallbacks and callbacks seen from every state are unchanged |
| Properties.ShadowedDefinitionUnreachable | main.go:27-47 | when the appended definition's id is already registered, every `Event` behaves exactly as before |
| PlanSelection.WizardShapeHolds | fsm_test.go:18-59 | every definition of the wizard sits at the index of its id and has only an ENTER callback, which succeeds |
| PlanSelection.WizardStep | fsm_test.go:18-59 | on definitions with only succeeding ENTER callbacks, a succeeding handler of state `i` naming `k` takes the machine to `k` |
| PlanSelection.ScenarioSteps | fsm_test.go:68-96 | on the wizard's definitions, the engine makes the six moves of the test |
| PlanSelection.PlanSelectionScenario | fsm_test.go:61-96 | building the wizard and sending its six events observes Start, Plan1, Start, Plan2, Start, Plan3, End |

## Left out

- Closures: a handler is modelled by its fixed outcome (its target and
  whether it errs), and a callback by whether it errs. A closure that
  returns different results on different calls is not modelled. Neither is
  a closure that touches the machine itself.
- A nil handler or callback stored in a map: Go treats it like a missing
  entry (main.go:34, main.go:71). The model cannot register one.
- Callback phases other than ENTER and EXIT: `EnCallbackPhase` is an `int`,
  so `AddCallback` accepts any value, but only these two are ever looked up.
  The model's `Phase` has only these two values.
- Shared map storage: in Go, `AddEvent` and `AddCallback` write into a map
  shared by every copy of the definition (main.go:128, main.go:137). The
  model treats a definition as a value with its own maps. So a change to a
  copy after it was registered is not seen by the machine here.
- AddState: Go's `append` (main.go:19) writes into the receiver's backing
  array when it has spare capacity, so two `AddState` calls on the same
  machine can overwrite each other's new slot, and a machine built earlier
  can see the later definition instead of its own. The model gives every
  result its own sequence (`r.states == states + [s]`), so this aliasing
  between copies is not captured.
- Zero-value definitions: a `State[T]{}` has nil maps, and `AddEvent` or
  `AddCallback` on it panics (main.go:128, main.go:137). Only definitions
  whose maps come from `NewState` are modelled; the nil-map panic is not.
- `SetState` and the zero-argument `NewFsm` used by `fsm_test.go`: neither
  exists in `main.go`.
- The `println` calls in the test's callbacks, which are output only.
- The sample constants `MyStates` (main.go:146-154): they are example data,
  not engine logic.
- Concurrency: the engine has none and provides no synchronisation.

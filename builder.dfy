/** State definitions and the fluent builder that produces them.

    A definition is a value: its id, its fallback target (with a reserved
    sentinel meaning "no fallback"), its event handlers keyed by event name
    and its phase callbacks keyed by ENTER/EXIT.  Handlers and callbacks are
    caller-supplied closures; the model keeps only their outcome.
 */
module StateDef {

  /** Bounds of Go's `int` on a 64-bit platform, the underlying type every
      state identifier `T ~int` shares. */
  const MIN_INT: int := -0x8000_0000_0000_0000
  const MAX_INT: int := 0x7fff_ffff_ffff_ffff

  type StateId = x: int | MIN_INT <= x <= MAX_INT

  /** `math.MinInt`: the fallback value that means "no fallback set". */
  const UNSET: StateId := MIN_INT

  /** The two callback phases, ENTER (= 1) and EXIT (= 2). */
  datatype Phase = Enter | Exit

  /** Outcome of an event handler `func() (T, error)`: the state it names
      and whether it returned a non-nil error. */
  datatype Handler = Handler(next: StateId, fails: bool)

  /** Outcome of a phase callback `func() error`. */
  datatype Callback = Callback(fails: bool)

  datatype State = State(
    id: StateId,
    fallback: StateId,
    events: map<string, Handler>,
    callbacks: map<Phase, Callback>)

  /** A fallback is in force exactly when it differs from the sentinel. */
  predicate HasFallback(s: State) {
    s.fallback != UNSET
  }

  /** A fresh definition handles no event, runs no callback and has no
      fallback, whatever its id. */
  function NewState(id: StateId): (s: State)
    ensures s.id == id
    ensures forall name :: name !in s.events
    ensures forall p :: p !in s.callbacks
    ensures !HasFallback(s)
  {
    State(id, UNSET, map[], map[])
  }

  /** Registers `h` under `name`, replacing any earlier handler of that name;
      every other registration and the id and fallback are kept. */
  function AddEvent(s: State, name: string, h: Handler): (r: State)
    ensures name in r.events && r.events[name] == h
    ensures forall n :: n != name ==> (n in r.events <==> n in s.events)
    ensures forall n :: n != name && n in s.events ==> r.events[n] == s.events[n]
    ensures r.id == s.id && r.fallback == s.fallback && r.callbacks == s.callbacks
  {
    s.(events := s.events[name := h])
  }

  /** Registers `cb` for phase `p`, replacing any earlier callback of that
      phase; the other phase, the id, fallback and events are kept. */
  function AddCallback(s: State, p: Phase, cb: Callback): (r: State)
    ensures p in r.callbacks && r.callbacks[p] == cb
    ensures forall q :: q != p ==> (q in r.callbacks <==> q in s.callbacks)
    ensures forall q :: q != p && q in s.callbacks ==> r.callbacks[q] == s.callbacks[q]
    ensures r.id == s.id && r.fallback == s.fallback && r.events == s.events
  {
    s.(callbacks := s.callbacks[p := cb])
  }

  /** Sets the fallback target; it is in force unless `f` is the sentinel. */
  function WithFallback(s: State, f: StateId): (r: State)
    ensures HasFallback(r) <==> f != UNSET
    ensures HasFallback(r) ==> r.fallback == f
    ensures r.id == s.id && r.events == s.events && r.callbacks == s.callbacks
  {
    s.(fallback := f)
  }

  /** Registrations under different event names commute. */
  lemma AddEventCommutes(s: State, a: string, ha: Handler, b: string, hb: Handler)
    requires a != b
    ensures AddEvent(AddEvent(s, a, ha), b, hb) == AddEvent(AddEvent(s, b, hb), a, ha)
  {
    assert s.events[a := ha][b := hb] == s.events[b := hb][a := ha];
  }

  /** Re-registering a name keeps only the last handler. */
  lemma AddEventOverwrites(s: State, a: string, h1: Handler, h2: Handler)
    ensures AddEvent(AddEvent(s, a, h1), a, h2) == AddEvent(s, a, h2)
  {
  }

  /** Callbacks for the two phases commute. */
  lemma AddCallbackCommutes(s: State, c1: Callback, c2: Callback)
    ensures AddCallback(AddCallback(s, Enter, c1), Exit, c2)
         == AddCallback(AddCallback(s, Exit, c2), Enter, c1)
  {
  }

  /** Re-registering a phase keeps only the last callback. */
  lemma AddCallbackOverwrites(s: State, p: Phase, c1: Callback, c2: Callback)
    ensures AddCallback(AddCallback(s, p, c1), p, c2) == AddCallback(s, p, c2)
  {
  }

  /** Only the last fallback written counts; writing the sentinel clears it. */
  lemma WithFallbackLastWins(s: State, f1: StateId, f2: StateId)
    ensures WithFallback(WithFallback(s, f1), f2) == WithFallback(s, f2)
    ensures !HasFallback(WithFallback(WithFallback(s, f1), UNSET))
  {
  }
}

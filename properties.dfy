/** What one `Event` call does, case by case, and how the first-match lookup
    behaves when definitions are appended.  Every lemma is about the
    functions of module Engine, which the methods of `Machine.Fsm` are
    proved to follow.
 */
module Properties {
  import opened StateDef
  import opened Engine

  /** The event is ignored: no definition for `cur`, or no handler named
      `event` in the first one. */
  predicate Ignored(states: seq<State>, cur: StateId, event: string) {
    match Lookup(states, cur)
    case None => true
    case Some(i) => event !in states[i].events
  }

  /** An event runs some closure exactly when it is not ignored, and an
      ignored event leaves the state where it was. */
  lemma IgnoredIffNothingRuns(states: seq<State>, cur: StateId, event: string)
    ensures Ignored(states, cur, event) <==> Dispatch(states, cur, event).calls == []
    ensures Ignored(states, cur, event) ==> Dispatch(states, cur, event).final == cur
  {
  }

  function Repeat(event: string, n: nat): (r: seq<string>)
    ensures |r| == n
  {
    if n == 0 then [] else [event] + Repeat(event, n - 1)
  }

  /** Sending an ignored event any number of times keeps the state fixed. */
  lemma {:induction false} IgnoredRepeatedly(states: seq<State>, cur: StateId, event: string, n: nat)
    requires Ignored(states, cur, event)
    ensures Replay(states, cur, Repeat(event, n)) == cur
  {
    if n > 0 {
      IgnoredIffNothingRuns(states, cur, event);
      var es := Repeat(event, n);
      assert es[0] == event && es[1..] == Repeat(event, n - 1);
      IgnoredRepeatedly(states, cur, event, n - 1);
    }
  }

  /** Sending `xs` and then `ys` ends where sending `ys` from the end of
      `xs` does: the machine's behaviour depends only on its current state. */
  lemma {:induction false} ReplayConcat(states: seq<State>, cur: StateId, xs: seq<string>, ys: seq<string>)
    ensures Replay(states, cur, xs + ys) == Replay(states, Replay(states, cur, xs), ys)
    decreases |xs|
  {
    if xs != [] {
      assert (xs + ys)[0] == xs[0] && (xs + ys)[1..] == xs[1..] + ys;
      ReplayConcat(states, Dispatch(states, cur, xs[0]).final, xs[1..], ys);
    } else {
      assert xs + ys == ys;
    }
  }

  /** A missing callback, or a missing definition, counts as a success and
      runs nothing; in particular ENTER on a state without definition. */
  lemma AbsentCallbackSucceeds(states: seq<State>, cur: StateId, phase: Phase)
    requires Lookup(states, cur).None? || phase !in states[Lookup(states, cur).value].callbacks
    ensures !CallbackFails(states, cur, phase)
    ensures CallbackCalls(states, cur, phase) == []
  {
  }

  /** A registered callback of the first matching definition is run, and
      its outcome is the one reported. */
  lemma RegisteredCallbackRuns(states: seq<State>, cur: StateId, phase: Phase, i: nat)
    requires i < |states| && states[i].id == cur && phase in states[i].callbacks
    requires forall j :: 0 <= j < i ==> states[j].id != cur
    ensures CallbackFails(states, cur, phase) == states[i].callbacks[phase].fails
    ensures CallbackCalls(states, cur, phase) == [CallbackCall(i, phase)]
  {
  }

  /** Any index meeting the first-match description is the one `Lookup`
      returns. */
  lemma LookupFirst(states: seq<State>, id: StateId, i: nat)
    requires i < |states| && states[i].id == id
    requires forall j :: 0 <= j < i ==> states[j].id != id
    ensures Lookup(states, id) == Some(i)
  {
  }

  /** A failing handler: its target is discarded, no callback runs, and the
      machine recovers from the state it was in. */
  lemma HandlerFailureRecovers(states: seq<State>, cur: StateId, event: string, i: nat)
    requires i < |states| && states[i].id == cur
    requires forall j :: 0 <= j < i ==> states[j].id != cur
    requires event in states[i].events && states[i].events[event].fails
    ensures Dispatch(states, cur, event).calls == [HandlerCall(i, event)]
    ensures HasFallback(states[i]) ==> Dispatch(states, cur, event).final == states[i].fallback
    ensures !HasFallback(states[i]) ==> Dispatch(states, cur, event).final == cur
  {
  }

  /** A succeeding handler whose EXIT (on the current state) and ENTER (on
      the target) succeed or are absent moves the machine to the target. */
  lemma SuccessfulTransition(states: seq<State>, cur: StateId, event: string, i: nat)
    requires i < |states| && states[i].id == cur
    requires forall j :: 0 <= j < i ==> states[j].id != cur
    requires event in states[i].events && !states[i].events[event].fails
    requires !CallbackFails(states, cur, Exit)
    requires !CallbackFails(states, states[i].events[event].next, Enter)
    ensures Dispatch(states, cur, event).final == states[i].events[event].next
    ensures Dispatch(states, cur, event).calls
         == [HandlerCall(i, event)] + CallbackCalls(states, cur, Exit)
            + CallbackCalls(states, states[i].events[event].next, Enter)
  {
  }

  /** A failing EXIT callback aborts the move: the target is never entered,
      and the machine recovers from the state it was in. */
  lemma ExitFailureRecovers(states: seq<State>, cur: StateId, event: string, i: nat)
    requires i < |states| && states[i].id == cur
    requires forall j :: 0 <= j < i ==> states[j].id != cur
    requires event in states[i].events && !states[i].events[event].fails
    requires Exit in states[i].callbacks && states[i].callbacks[Exit].fails
    ensures Dispatch(states, cur, event).calls == [HandlerCall(i, event), CallbackCall(i, Exit)]
    ensures HasFallback(states[i]) ==> Dispatch(states, cur, event).final == states[i].fallback
    ensures !HasFallback(states[i]) ==> Dispatch(states, cur, event).final == cur
  {
  }

  /** A failing ENTER callback of the target `t` (first defined at `k`)
      recovers from `t`, not from the state the event was sent in. */
  lemma EnterFailureRecovers(states: seq<State>, cur: StateId, event: string, i: nat, k: nat)
    requires i < |states| && states[i].id == cur
    requires forall j :: 0 <= j < i ==> states[j].id != cur
    requires event in states[i].events && !states[i].events[event].fails
    requires !CallbackFails(states, cur, Exit)
    requires k < |states| && states[k].id == states[i].events[event].next
    requires forall j :: 0 <= j < k ==> states[j].id != states[i].events[event].next
    requires Enter in states[k].callbacks && states[k].callbacks[Enter].fails
    ensures Dispatch(states, cur, event).calls
         == [HandlerCall(i, event)] + CallbackCalls(states, cur, Exit) + [CallbackCall(k, Enter)]
    ensures HasFallback(states[k]) ==> Dispatch(states, cur, event).final == states[k].fallback
    ensures !HasFallback(states[k]) ==> Dispatch(states, cur, event).final == states[i].events[event].next
  {
  }

  /** Appending a definition keeps every earlier match, and the new one is
      found only for an id no earlier definition has. */
  lemma LookupAppend(states: seq<State>, d: State, id: StateId)
    ensures Lookup(states, id).Some? ==> Lookup(states + [d], id) == Lookup(states, id)
    ensures Lookup(states, id).None? && d.id == id ==> Lookup(states + [d], id) == Some(|states|)
    ensures Lookup(states, id).None? && d.id != id ==> Lookup(states + [d], id).None?
  {
    var s := states + [d];
    match Lookup(states, id)
    case Some(i) =>
      assert s[i] == states[i];
      assert forall j :: 0 <= j < i ==> s[j] == states[j];
      LookupFirst(s, id, i);
    case None =>
      assert forall j :: 0 <= j < |states| ==> s[j] == states[j];
      if d.id == id {
        LookupFirst(s, id, |states|);
      } else {
        assert forall j :: 0 <= j < |s| ==> s[j].id != id by {
          forall j | 0 <= j < |s| ensures s[j].id != id {
            if j < |states| { assert s[j] == states[j]; }
          }
        }
      }
  }

  /** With `d.id` already registered, appending `d` changes neither the
      fallback nor the callbacks seen from any state `x`. */
  lemma ShadowedRecoveryAgrees(states: seq<State>, d: State, x: StateId)
    requires Lookup(states, d.id).Some?
    ensures Recover(states + [d], x) == Recover(states, x)
    ensures forall p :: CallbackFails(states + [d], x, p) == CallbackFails(states, x, p)
    ensures forall p :: CallbackCalls(states + [d], x, p) == CallbackCalls(states, x, p)
  {
    LookupAppend(states, d, x);
    if d.id == x {
      LookupAppend(states, d, d.id);
    }
    match Lookup(states, x)
    case None =>
    case Some(k) => assert (states + [d])[k] == states[k];
  }

  /** A definition appended for an id that is already registered is never
      reached: every `Event` behaves as it did before. */
  lemma ShadowedDefinitionUnreachable(states: seq<State>, d: State, cur: StateId, event: string)
    requires Lookup(states, d.id).Some?
    ensures Dispatch(states + [d], cur, event) == Dispatch(states, cur, event)
  {
    LookupAppend(states, d, cur);
    ShadowedRecoveryAgrees(states, d, cur);
    match Lookup(states, cur)
    case None =>
    case Some(i) =>
      assert (states + [d])[i] == states[i];
      if event in states[i].events && !states[i].events[event].fails {
        var next := states[i].events[event].next;
        ShadowedRecoveryAgrees(states, d, next);
        assert Transition(states + [d], cur, next) == Transition(states, cur, next);
      }
  }
}

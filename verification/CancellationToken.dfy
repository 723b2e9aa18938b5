/** The cancellation token shared by the thread that stops a chat and the thread
    that streams it (bc250_llm_mode/chat_lifecycle.py:104-131), as a state
    machine: any number of `cancel` and `bind_interrupt` calls, each by a thread
    of its own, interleaved at every atomic step. */
module CancellationToken {
  import opened Outcomes

  type Thread = nat
  type Callback = nat

  /** How far a call has come: `cancel` has set the event, or has read the
      callback under the lock; `bind_interrupt` has stored its callback under
      the lock, or has looked at the event; or the call has returned. */
  datatype Progress =
    | Flagged
    | Fetched(interrupt: Option<Callback>)
    | Stored(callback: Callback)
    | Looked(callback: Callback, cancelled: bool)
    | Returned

  datatype State = State(event: bool, interrupt: Option<Callback>, calls: map<Thread, Progress>, invoked: seq<Callback>)

  const FRESH := State(false, None, map[], [])

  datatype Step =
    | SetEvent(thread: Thread)
    | FetchInterrupt(thread: Thread)
    | FinishCancel(thread: Thread)
    | StoreInterrupt(thread: Thread, callback: Option<Callback>)
    | LookAtEvent(thread: Thread)
    | FinishBind(thread: Thread)

  /** One atomic step; None when the thread is not at that point. */
  function Act(s: State, step: Step): (r: Option<State>) {
    var t := step.thread;
    match step
    case SetEvent(_) => if t in s.calls then None else Some(s.(event := true, calls := s.calls[t := Flagged]))
    case FetchInterrupt(_) =>
      if t in s.calls && s.calls[t] == Flagged then Some(s.(calls := s.calls[t := Fetched(s.interrupt)])) else None
    case FinishCancel(_) =>
      if t in s.calls && s.calls[t].Fetched? then
        Some(s.(calls := s.calls[t := Returned],
                invoked := if s.calls[t].interrupt.Some? then s.invoked + [s.calls[t].interrupt.value] else s.invoked))
      else None
    case StoreInterrupt(_, callback) =>
      if t in s.calls then None
      else Some(s.(interrupt := callback,
                   calls := s.calls[t := if callback.Some? then Stored(callback.value) else Returned]))
    case LookAtEvent(_) =>
      if t in s.calls && s.calls[t].Stored? then Some(s.(calls := s.calls[t := Looked(s.calls[t].callback, s.event)])) else None
    case FinishBind(_) =>
      if t in s.calls && s.calls[t].Looked? then
        Some(s.(calls := s.calls[t := Returned],
                invoked := if s.calls[t].cancelled then s.invoked + [s.calls[t].callback] else s.invoked))
      else None
  }

  function Run(s: State, steps: seq<Step>): (r: Option<State>)
    decreases |steps|
  {
    if steps == [] then Some(s)
    else
      match Act(s, steps[0])
      case Some(next) => Run(next, steps[1..])
      case None => None
  }

  lemma {:induction false} RunSplits(s: State, before: seq<Step>, after: seq<Step>)
    ensures Run(s, before + after) ==
            match Run(s, before)
            case Some(m) => Run(m, after)
            case None => None
    decreases |before|
  {
    if before == [] {
      assert before + after == after;
    } else {
      assert (before + after)[1..] == before[1..] + after;
      match Act(s, before[0]) {
        case Some(next) => RunSplits(next, before[1..], after);
        case None =>
      }
    }
  }

  // ----------------------------------------------------------------- invariants

  /** A cancel that has begun has set the event, which is never cleared. */
  predicate EventIsSet(s: State) {
    forall t | t in s.calls && (s.calls[t].Flagged? || s.calls[t].Fetched?) :: s.event
  }

  lemma {:induction false} EventStaysSet(s: State, steps: seq<Step>)
    requires EventIsSet(s) && Run(s, steps).Some?
    ensures EventIsSet(Run(s, steps).value) && (s.event ==> Run(s, steps).value.event)
    decreases |steps|
  {
    if steps != [] {
      EventStaysSet(Act(s, steps[0]).value, steps[1..]);
    }
  }

  /** A bind that stored its callback after the event was set has invoked it or
      still will. */
  predicate BindWillInvoke(s: State, t: Thread, cb: Callback) {
    && s.event && t in s.calls
    && (s.calls[t] == Stored(cb) || s.calls[t] == Looked(cb, true) || (s.calls[t] == Returned && cb in s.invoked))
  }

  lemma {:induction false} BindInvokes(s: State, steps: seq<Step>, t: Thread, cb: Callback)
    requires BindWillInvoke(s, t, cb) && Run(s, steps).Some?
    ensures BindWillInvoke(Run(s, steps).value, t, cb)
    decreases |steps|
  {
    if steps != [] {
      BindInvokes(Act(s, steps[0]).value, steps[1..], t, cb);
    }
  }

  /** A cancel that fetched the callback has invoked it or still will. */
  predicate CancelWillInvoke(s: State, t: Thread, cb: Callback) {
    t in s.calls && (s.calls[t] == Fetched(Some(cb)) || (s.calls[t] == Returned && cb in s.invoked))
  }

  lemma {:induction false} CancelInvokes(s: State, steps: seq<Step>, t: Thread, cb: Callback)
    requires CancelWillInvoke(s, t, cb) && Run(s, steps).Some?
    ensures CancelWillInvoke(Run(s, steps).value, t, cb)
    decreases |steps|
  {
    if steps != [] {
      CancelInvokes(Act(s, steps[0]).value, steps[1..], t, cb);
    }
  }

  /** Only another bind replaces the stored callback. */
  lemma {:induction false} InterruptIsKept(s: State, steps: seq<Step>)
    requires Run(s, steps).Some? && forall i | 0 <= i < |steps| :: !steps[i].StoreInterrupt?
    ensures Run(s, steps).value.interrupt == s.interrupt
    decreases |steps|
  {
    if steps != [] {
      InterruptIsKept(Act(s, steps[0]).value, steps[1..]);
    }
  }

  // -------------------------------------------------------------- main results

  /** The bind stores first: the cancel that then fetches an unreplaced callback
      invokes it. */
  lemma StoredThenFetched(before: seq<Step>, bind: Thread, cb: Callback, between: seq<Step>, cancel: Thread, after: seq<Step>)
    requires forall i | 0 <= i < |between| :: !between[i].StoreInterrupt?
    requires var steps := before + ([StoreInterrupt(bind, Some(cb))] + (between + ([FetchInterrupt(cancel)] + after)));
             Run(FRESH, steps).Some? && cancel in Run(FRESH, steps).value.calls && Run(FRESH, steps).value.calls[cancel] == Returned
    ensures var steps := before + ([StoreInterrupt(bind, Some(cb))] + (between + ([FetchInterrupt(cancel)] + after)));
            cb in Run(FRESH, steps).value.invoked
  {
    hide Run;
    var rest := between + ([FetchInterrupt(cancel)] + after);
    RunSplits(FRESH, before, [StoreInterrupt(bind, Some(cb))] + rest);
    var s0 := Run(FRESH, before).value;
    RunFirst(s0, StoreInterrupt(bind, Some(cb)), rest);
    var s1 := Act(s0, StoreInterrupt(bind, Some(cb))).value;
    RunSplits(s1, between, [FetchInterrupt(cancel)] + after);
    var s2 := Run(s1, between).value;
    InterruptIsKept(s1, between);
    RunFirst(s2, FetchInterrupt(cancel), after);
    CancelInvokes(Act(s2, FetchInterrupt(cancel)).value, after, cancel, cb);
  }

  lemma RunFirst(s: State, step: Step, rest: seq<Step>)
    ensures Run(s, [step] + rest) ==
            match Act(s, step)
            case Some(next) => Run(next, rest)
            case None => None
  {
    assert ([step] + rest)[1..] == rest;
  }

  /** The cancel fetches first: the bind that stores later sees the event. */
  lemma FetchedThenStored(before: seq<Step>, cancel: Thread, between: seq<Step>, bind: Thread, cb: Callback, after: seq<Step>)
    requires var steps := before + ([FetchInterrupt(cancel)] + (between + ([StoreInterrupt(bind, Some(cb))] + after)));
             Run(FRESH, steps).Some? && bind in Run(FRESH, steps).value.calls && Run(FRESH, steps).value.calls[bind] == Returned
    ensures var steps := before + ([FetchInterrupt(cancel)] + (between + ([StoreInterrupt(bind, Some(cb))] + after)));
            cb in Run(FRESH, steps).value.invoked
  {
    hide Run;
    var rest := between + ([StoreInterrupt(bind, Some(cb))] + after);
    RunSplits(FRESH, before, [FetchInterrupt(cancel)] + rest);
    var s0 := Run(FRESH, before).value;
    EventStaysSet(FRESH, before);
    RunFirst(s0, FetchInterrupt(cancel), rest);
    var s1 := Act(s0, FetchInterrupt(cancel)).value;
    RunSplits(s1, between, [StoreInterrupt(bind, Some(cb))] + after);
    var s2 := Run(s1, between).value;
    EventStaysSet(s1, between);
    RunFirst(s2, StoreInterrupt(bind, Some(cb)), after);
    BindInvokes(Act(s2, StoreInterrupt(bind, Some(cb))).value, after, bind, cb);
  }

  lemma SplitAtTwo(steps: seq<Step>, i: nat, j: nat)
    requires i < j < |steps|
    ensures steps == steps[..i] + ([steps[i]] + (steps[i + 1..j] + ([steps[j]] + steps[j + 1..])))
  {
    assert steps[j..] == [steps[j]] + steps[j + 1..];
    assert steps[i + 1..] == steps[i + 1..j] + steps[j..];
    assert steps[i..] == [steps[i]] + steps[i + 1..];
    assert steps == steps[..i] + steps[i..];
  }

  /** No cancellation is lost: in every interleaving of any number of calls, if
      a bind of `cb` and a cancel have both returned, and no other bind replaced
      `cb` between its being stored and the cancel's fetch, `cb` was invoked. */
  lemma NoLostCancellation(steps: seq<Step>, i: nat, j: nat, cb: Callback)
    requires Run(FRESH, steps).Some? && i < |steps| && j < |steps|
    requires steps[i].StoreInterrupt? && steps[i].callback == Some(cb) && steps[j].FetchInterrupt?
    requires forall t | t == steps[i].thread || t == steps[j].thread ::
               t in Run(FRESH, steps).value.calls && Run(FRESH, steps).value.calls[t] == Returned
    requires forall k | i < k < j :: !steps[k].StoreInterrupt?
    ensures cb in Run(FRESH, steps).value.invoked
  {
    hide Run;
    if i < j {
      SplitAtTwo(steps, i, j);
      var between := steps[i + 1..j];
      StoredThenFetched(steps[..i], steps[i].thread, cb, between, steps[j].thread, steps[j + 1..]);
    } else {
      assert i != j;
      SplitAtTwo(steps, j, i);
      var between := steps[j + 1..i];
      FetchedThenStored(steps[..j], steps[j].thread, between, steps[i].thread, cb, steps[i + 1..]);
    }
  }

  /** What an invocation rests on: a call that will still invoke, or an invocation
      made, is of a callback that was bound, and comes after a cancellation. */
  predicate Grounded(s: State, cancelled: bool, bound: set<Callback>) {
    && (s.event ==> cancelled) && (s.interrupt.Some? ==> s.interrupt.value in bound)
    && (forall cb | cb in s.invoked :: cancelled && cb in bound)
    && forall t | t in s.calls ::
         match s.calls[t]
         case Flagged => cancelled
         case Fetched(interrupt) => cancelled && (interrupt.Some? ==> interrupt.value in bound)
         case Stored(callback) => callback in bound
         case Looked(callback, seen) => callback in bound && (seen ==> cancelled)
         case Returned => true
  }

  function BoundBy(step: Step): (bound: set<Callback>) {
    if step.StoreInterrupt? && step.callback.Some? then {step.callback.value} else {}
  }

  function AllBound(steps: seq<Step>): (bound: set<Callback>) {
    if steps == [] then {} else BoundBy(steps[0]) + AllBound(steps[1..])
  }

  lemma ActStaysGrounded(s: State, step: Step, cancelled: bool, bound: set<Callback>)
    requires Grounded(s, cancelled, bound) && Act(s, step).Some?
    ensures Grounded(Act(s, step).value, cancelled || step.SetEvent?, bound + BoundBy(step))
  {
  }

  lemma {:induction false} RunStaysGrounded(s: State, steps: seq<Step>, cancelled: bool, bound: set<Callback>)
    requires Grounded(s, cancelled, bound) && Run(s, steps).Some?
    ensures Grounded(Run(s, steps).value, cancelled || exists i | 0 <= i < |steps| :: steps[i].SetEvent?,
                     bound + AllBound(steps))
    decreases |steps|
  {
    hide Act, Grounded;
    if steps == [] {
      assert bound + {} == bound;
    } else {
      ActStaysGrounded(s, steps[0], cancelled, bound);
      RunStaysGrounded(Act(s, steps[0]).value, steps[1..], cancelled || steps[0].SetEvent?, bound + BoundBy(steps[0]));
      assert bound + BoundBy(steps[0]) + AllBound(steps[1..]) == bound + AllBound(steps);
      assert (exists i | 0 <= i < |steps| :: steps[i].SetEvent?)
             <==> steps[0].SetEvent? || exists i | 0 <= i < |steps[1..]| :: steps[1..][i].SetEvent? by {
        if i :| 0 <= i < |steps| && steps[i].SetEvent? {
          assert i > 0 ==> steps[1..][i - 1].SetEvent?;
        }
        if i :| 0 <= i < |steps[1..]| && steps[1..][i].SetEvent? {
          assert steps[i + 1].SetEvent?;
        }
      }
    }
  }

  lemma {:induction false} BoundMeansStored(steps: seq<Step>, cb: Callback)
    requires cb in AllBound(steps)
    ensures exists i | 0 <= i < |steps| :: steps[i].StoreInterrupt? && steps[i].callback == Some(cb)
  {
    if cb in BoundBy(steps[0]) {
      assert steps[0].StoreInterrupt? && steps[0].callback == Some(cb);
    } else {
      BoundMeansStored(steps[1..], cb);
      var i :| 0 <= i < |steps[1..]| && steps[1..][i].StoreInterrupt? && steps[1..][i].callback == Some(cb);
      assert steps[i + 1] == steps[1..][i];
    }
  }

  /** Nothing is invoked that was not bound, and nothing without a cancellation. */
  lemma InvokedMeansBoundAndCancelled(steps: seq<Step>, cb: Callback)
    requires Run(FRESH, steps).Some? && cb in Run(FRESH, steps).value.invoked
    ensures exists i | 0 <= i < |steps| :: steps[i].SetEvent?
    ensures exists i | 0 <= i < |steps| :: steps[i].StoreInterrupt? && steps[i].callback == Some(cb)
  {
    hide Run;
    RunStaysGrounded(FRESH, steps, false, {});
    BoundMeansStored(steps, cb);
  }

  /** No call in progress holds the callback. */
  predicate NotInProgress(s: State, cb: Callback) {
    forall t | t in s.calls ::
      match s.calls[t]
      case Fetched(interrupt) => interrupt != Some(cb)
      case Stored(callback) => callback != cb
      case Looked(callback, _) => callback != cb
      case _ => true
  }

  lemma UnheldStep(s: State, step: Step, cb: Callback)
    requires NotInProgress(s, cb) && s.interrupt != Some(cb) && Act(s, step).Some?
    requires step.StoreInterrupt? ==> step.callback != Some(cb)
    ensures var e := Act(s, step).value;
            && NotInProgress(e, cb) && e.interrupt != Some(cb)
            && multiset(e.invoked)[cb] == multiset(s.invoked)[cb]
  {
  }

  lemma {:induction false} UnheldIsNotInvoked(s: State, steps: seq<Step>, cb: Callback)
    requires NotInProgress(s, cb) && s.interrupt != Some(cb) && Run(s, steps).Some?
    requires forall k | 0 <= k < |steps| && steps[k].StoreInterrupt? :: steps[k].callback != Some(cb)
    ensures multiset(Run(s, steps).value.invoked)[cb] == multiset(s.invoked)[cb]
    decreases |steps|
  {
    hide Act, NotInProgress;
    if steps != [] {
      UnheldStep(s, steps[0], cb);
      UnheldIsNotInvoked(Act(s, steps[0]).value, steps[1..], cb);
    }
  }

  /** The condition is needed: once a bind of something else has replaced the
      callback, as a finished stream withdraws its own, and no call in progress
      holds it, no continuation that does not bind it again invokes it, whatever
      threads cancel or bind in it, and also if they began before. */
  lemma WithdrawnCallbackIsNotInvoked(s: State, bind: Thread, instead: Option<Callback>, cb: Callback, after: seq<Step>)
    requires NotInProgress(s, cb) && instead != Some(cb)
    requires forall k | 0 <= k < |after| && after[k].StoreInterrupt? :: after[k].callback != Some(cb)
    requires Run(s, [StoreInterrupt(bind, instead)] + after).Some?
    ensures multiset(Run(s, [StoreInterrupt(bind, instead)] + after).value.invoked)[cb] == multiset(s.invoked)[cb]
  {
    hide Run;
    RunFirst(s, StoreInterrupt(bind, instead), after);
    assert NotInProgress(Act(s, StoreInterrupt(bind, instead)).value, cb);
    UnheldIsNotInvoked(Act(s, StoreInterrupt(bind, instead)).value, after, cb);
  }

  // ------------------------------------------------------------------- the token

  /** The token itself, one call at a time; `invoked` stands for the effect of
      calling a callback. */
  class ChatCancellation {
    var event: bool
    var interrupt: Option<Callback>
    var invoked: seq<Callback>

    constructor ()
      ensures !event && interrupt == None && invoked == []
    {
      event, interrupt, invoked := false, None, [];
    }

    method Cancel(ghost others: map<Thread, Progress>, ghost t: Thread)
      requires t !in others
      modifies this
      ensures Run(State(old(event), old(interrupt), others, old(invoked)), [SetEvent(t)] + ([FetchInterrupt(t)] + [FinishCancel(t)]))
           == Some(State(event, interrupt, others[t := Returned], invoked))
    {
      event := true;
      var found := interrupt;
      if found.Some? {
        invoked := invoked + [found.value];
      }
      ghost var s := State(old(event), old(interrupt), others, old(invoked));
      ghost var s1 := Act(s, SetEvent(t)).value;
      ghost var s2 := Act(s1, FetchInterrupt(t)).value;
      RunFirst(s, SetEvent(t), [FetchInterrupt(t)] + [FinishCancel(t)]);
      RunFirst(s1, FetchInterrupt(t), [FinishCancel(t)]);
      assert [FinishCancel(t)] + [] == [FinishCancel(t)];
      RunFirst(s2, FinishCancel(t), []);
      assert others[t := Flagged][t := Fetched(found)][t := Returned] == others[t := Returned];
    }

    method BindInterrupt(callback: Option<Callback>, ghost others: map<Thread, Progress>, ghost t: Thread)
      requires t !in others
      modifies this
      ensures event == old(event)
      ensures callback == None ==>
                Act(State(event, old(interrupt), others, old(invoked)), StoreInterrupt(t, None))
                == Some(State(event, interrupt, others[t := Returned], invoked))
      ensures callback.Some? ==>
                Run(State(event, old(interrupt), others, old(invoked)),
                    [StoreInterrupt(t, callback)] + ([LookAtEvent(t)] + [FinishBind(t)]))
                == Some(State(event, interrupt, others[t := Returned], invoked))
    {
      interrupt := callback;
      if callback.Some? && event {
        invoked := invoked + [callback.value];
      }
      if callback.Some? {
        ghost var s := State(event, old(interrupt), others, old(invoked));
        ghost var s1 := Act(s, StoreInterrupt(t, callback)).value;
        ghost var s2 := Act(s1, LookAtEvent(t)).value;
        RunFirst(s, StoreInterrupt(t, callback), [LookAtEvent(t)] + [FinishBind(t)]);
        RunFirst(s1, LookAtEvent(t), [FinishBind(t)]);
        assert [FinishBind(t)] + [] == [FinishBind(t)];
        RunFirst(s2, FinishBind(t), []);
        assert others[t := Stored(callback.value)][t := Looked(callback.value, event)][t := Returned] == others[t := Returned];
      }
    }
  }
}

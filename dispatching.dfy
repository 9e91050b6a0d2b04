/** The dispatch of one message over the robot's ordered listeners
    (Robot.Receive), as a function of the listeners, the message and its
    Done flag on entry, with the ordering, early-stop and error-isolation
    facts proved about it. */
module Dispatching {
  import opened Messages
  import opened Listeners

  /** One listener call during a dispatch: which listener (its position in
      registration order), how the call ended, whether its callback ran, and
      the Done flag right after it. */
  datatype Step = Step(listener: nat, result: CallResult, invoked: bool, doneAfter: bool)

  /** The calls a dispatch made, in order, and the final Done flag. */
  datatype Dispatched = Dispatched(steps: seq<Step>, done: bool)

  /** A step after which dispatch stops: the call returned normally and the
      message is done. An exception skips the Done test, so a call that
      throws never stops dispatch. */
  predicate Stops(s: Step)
  {
    s.result.Returned? && s.doneAfter
  }

  /** The Done flag seen by the k-th call of a dispatch that started with `done`. */
  function DoneBefore(steps: seq<Step>, k: nat, done: bool): bool
    requires k <= |steps|
  {
    if k == 0 then done else steps[k - 1].doneAfter
  }

  /** Dispatch over listeners i.. of `ls`: call listener i; stop if it
      returned normally and Done is set; otherwise (no Done, or an exception,
      which is caught) go on with listener i + 1. */
  function DispatchFrom(ls: seq<Listener>, i: nat, m: MessageContent, done: bool): Dispatched
    requires i <= |ls|
    decreases |ls| - i
  {
    if i == |ls| then Dispatched([], done)
    else
      var step := CallStep(ls[i], i, m, done);
      if Stops(step) then Dispatched([step], step.doneAfter)
      else
        var rest := DispatchFrom(ls, i + 1, m, step.doneAfter);
        Dispatched([step] + rest.steps, rest.done)
  }

  /** Robot.Receive: the dispatch of a message over all listeners. */
  function Dispatch(ls: seq<Listener>, m: MessageContent, done: bool): Dispatched
  {
    DispatchFrom(ls, 0, m, done)
  }

  /** Listeners are called strictly in registration order, starting at i,
      each at most once. */
  lemma {:induction false} DispatchOrder(ls: seq<Listener>, i: nat, m: MessageContent, done: bool)
    requires i <= |ls|
    ensures var d := DispatchFrom(ls, i, m, done);
      |d.steps| <= |ls| - i &&
      forall k :: 0 <= k < |d.steps| ==> d.steps[k].listener == i + k
    decreases |ls| - i
  {
    if i < |ls| {
      var step := CallStep(ls[i], i, m, done);
      if !Stops(step) {
        DispatchOrder(ls, i + 1, m, step.doneAfter);
      }
    }
  }

  /** The step recorded for calling listener `l`, at position `index`, on a
      message whose Done flag is `done`. */
  function CallStep(l: Listener, index: nat, m: MessageContent, done: bool): Step
  {
    var o := Call(l, m, done);
    Step(index, o.result, o.invoked, o.done)
  }

  /** Every step of `steps` is the call of its own listener on the Done flag
      the previous call left (the flag on entry for the first). */
  predicate StepsAreCalls(ls: seq<Listener>, m: MessageContent, steps: seq<Step>, done: bool)
  {
    forall k :: 0 <= k < |steps| ==>
      steps[k].listener < |ls| &&
      steps[k] == CallStep(ls[steps[k].listener], steps[k].listener, m, DoneBefore(steps, k, done))
  }

  /** A call step followed by steps that start from the Done flag it left
      are calls in turn. */
  lemma StepsAreCallsCons(ls: seq<Listener>, m: MessageContent, step: Step, rest: seq<Step>, done: bool)
    requires step.listener < |ls| && step == CallStep(ls[step.listener], step.listener, m, done)
    requires StepsAreCalls(ls, m, rest, step.doneAfter)
    ensures StepsAreCalls(ls, m, [step] + rest, done)
  {
    var steps := [step] + rest;
    forall k | 1 <= k < |steps|
      ensures steps[k] == rest[k - 1]
      ensures DoneBefore(steps, k, done) == DoneBefore(rest, k - 1, step.doneAfter)
    {
    }
  }

  /** Each step of a dispatch is the call of its listener on the Done flag
      the previous call left. */
  lemma {:induction false} DispatchCalls(ls: seq<Listener>, i: nat, m: MessageContent, done: bool)
    requires i <= |ls|
    ensures StepsAreCalls(ls, m, DispatchFrom(ls, i, m, done).steps, done)
    decreases |ls| - i
  {
    if i < |ls| {
      var step := CallStep(ls[i], i, m, done);
      if !Stops(step) {
        DispatchCalls(ls, i + 1, m, step.doneAfter);
        StepsAreCallsCons(ls, m, step, DispatchFrom(ls, i + 1, m, step.doneAfter).steps, done);
      } else {
        StepsAreCallsCons(ls, m, step, [], done);
      }
    }
  }

  /** Dispatch stops right after the first call that returns normally with
      the message done, and only there: no earlier step stops, and a
      dispatch that ends before the last listener ends on a stopping step.
      The final Done flag is the one the last call left. */
  lemma {:induction false} DispatchStopsAtFirstDone(ls: seq<Listener>, i: nat, m: MessageContent, done: bool)
    requires i <= |ls|
    ensures var d := DispatchFrom(ls, i, m, done);
      (forall k :: 0 <= k < |d.steps| - 1 ==> !Stops(d.steps[k])) &&
      (|d.steps| < |ls| - i ==> |d.steps| > 0 && Stops(d.steps[|d.steps| - 1])) &&
      d.done == DoneBefore(d.steps, |d.steps|, done)
    decreases |ls| - i
  {
    DispatchOrder(ls, i, m, done);
    if i < |ls| {
      var step := CallStep(ls[i], i, m, done);
      if !Stops(step) {
        DispatchStopsAtFirstDone(ls, i + 1, m, step.doneAfter);
        var rest := DispatchFrom(ls, i + 1, m, step.doneAfter);
        var d := DispatchFrom(ls, i, m, done);
        assert d.steps == [step] + rest.steps;
        assert forall k :: 1 <= k < |d.steps| ==> d.steps[k] == rest.steps[k - 1];
      }
    }
  }

  /** Done is never cleared: once set (on entry or by a callback) it stays
      set for every later step and at the end. */
  lemma {:induction false} DispatchDoneMonotone(ls: seq<Listener>, i: nat, m: MessageContent, done: bool)
    requires i <= |ls|
    ensures var d := DispatchFrom(ls, i, m, done);
      (forall k :: 0 <= k < |d.steps| ==> (DoneBefore(d.steps, k, done) ==> d.steps[k].doneAfter)) &&
      (done ==> d.done)
    decreases |ls| - i
  {
    if i < |ls| {
      var step := CallStep(ls[i], i, m, done);
      CallKeepsDone(ls[i], m, done);
      if !Stops(step) {
        DispatchDoneMonotone(ls, i + 1, m, step.doneAfter);
        // the induction hypothesis, restated so that its quantifier is instantiated
        assert var d' := DispatchFrom(ls, i + 1, m, step.doneAfter);
          (forall k :: 0 <= k < |d'.steps| ==> (DoneBefore(d'.steps, k, step.doneAfter) ==> d'.steps[k].doneAfter));
        var rest := DispatchFrom(ls, i + 1, m, step.doneAfter);
        var d := DispatchFrom(ls, i, m, done);
        assert d.steps == [step] + rest.steps;
        assert d.steps[0] == step && step.doneAfter == Call(ls[i], m, done).done;
        forall k | 0 <= k < |d.steps|
          ensures DoneBefore(d.steps, k, done) ==> d.steps[k].doneAfter
        {
          if k > 0 {
            assert d.steps[k] == rest.steps[k - 1];
            assert DoneBefore(d.steps, k, done) == DoneBefore(rest.steps, k - 1, step.doneAfter);
          }
        }
      }
    }
  }

  /** If the message is not done at the end, no call stopped dispatch and
      every listener was called exactly once, in order. */
  lemma NotDoneCallsEveryListener(ls: seq<Listener>, m: MessageContent, done: bool)
    ensures var d := Dispatch(ls, m, done);
      !d.done ==> |d.steps| == |ls| && forall k :: 0 <= k < |ls| ==> d.steps[k].listener == k
  {
    var d := Dispatch(ls, m, done);
    DispatchOrder(ls, 0, m, done);
    DispatchStopsAtFirstDone(ls, 0, m, done);
  }

  /** Error isolation: a listener whose call throws never ends dispatch; the
      next listener, if there is one, is called. */
  lemma RaisedCallDoesNotStop(ls: seq<Listener>, m: MessageContent, done: bool)
    ensures var d := Dispatch(ls, m, done);
      forall k :: 0 <= k < |d.steps| && d.steps[k].result.Raised? && k + 1 < |ls| ==> k + 1 < |d.steps|
  {
    var d := Dispatch(ls, m, done);
    DispatchOrder(ls, 0, m, done);
    DispatchStopsAtFirstDone(ls, 0, m, done);
  }

  /** A message already done on entry: dispatch ends at the first listener
      whose call returns normally, matched or not; all listeners before it
      threw. In particular, if the first listener's call returns normally it
      is the only one called. */
  lemma DoneOnEntryStopsAtFirstReturn(ls: seq<Listener>, m: MessageContent)
    requires |ls| > 0
    ensures var d := Dispatch(ls, m, true);
      |d.steps| > 0 &&
      (forall k :: 0 <= k < |d.steps| - 1 ==> d.steps[k].result == Raised) &&
      (|d.steps| < |ls| ==> d.steps[|d.steps| - 1].result.Returned?) &&
      (Call(ls[0], m, true).result.Returned? ==> |d.steps| == 1)
  {
    var d := Dispatch(ls, m, true);
    DispatchDoneMonotone(ls, 0, m, true);
    DispatchStopsAtFirstDone(ls, 0, m, true);
    DispatchCalls(ls, 0, m, true);
    assert |d.steps| > 0;
    forall k | 0 <= k < |d.steps|
      ensures d.steps[k].doneAfter
    {
      DoneAfterByInduction(d.steps, k, true);
    }
  }

  /** Under the monotonicity fact of a dispatch starting done, every step ends done. */
  lemma {:induction false} DoneAfterByInduction(steps: seq<Step>, k: nat, done: bool)
    requires k < |steps| && done
    requires forall j :: 0 <= j < |steps| ==> (DoneBefore(steps, j, done) ==> steps[j].doneAfter)
    ensures steps[k].doneAfter
  {
    if k > 0 {
      DoneAfterByInduction(steps, k - 1, done);
    }
  }

  /** A listener that does not match the message leaves no trace but its
      call: the callback does not run, the call returns false, and Done is
      unchanged by it. */
  lemma UnmatchedListenerHasNoEffect(ls: seq<Listener>, m: MessageContent, done: bool)
    ensures var d := Dispatch(ls, m, done);
      |d.steps| <= |ls| &&
      forall k :: 0 <= k < |d.steps| && !Matcher(ls[k], m).isMatch ==>
        !d.steps[k].invoked && d.steps[k].result == Returned(false) &&
        d.steps[k].doneAfter == DoneBefore(d.steps, k, done)
  {
    DispatchOrder(ls, 0, m, done);
    DispatchCalls(ls, 0, m, done);
    var d := Dispatch(ls, m, done);
    forall k | 0 <= k < |d.steps|
      ensures !Matcher(ls[k], m).isMatch ==>
        !d.steps[k].invoked && d.steps[k].result == Returned(false) &&
        d.steps[k].doneAfter == DoneBefore(d.steps, k, done)
    {
      var before := DoneBefore(d.steps, k, done);
      assert d.steps[k] == CallStep(ls[k], k, m, before);
      CallDecision(ls[k], m, before);
    }
  }
}

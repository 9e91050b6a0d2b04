/** The collaborators of the robot's lifecycle (adapter and brain) and the
    ordered plans of calls that Run, Shutdown and Reset make on them. Each
    call is awaited in turn, so an exception from one ends the sequence and
    reaches the caller. */
module Lifecycle {

  /** A connectivity adapter instance, constructed for the robot's adapter type. */
  class Adapter {
    const adapterType: string

    constructor (adapterType: string)
      ensures this.adapterType == adapterType
    {
      this.adapterType := adapterType;
    }
  }

  /** The robot's brain (its persistent key-value store). */
  class Brain {
    constructor ()
    {
    }
  }

  /** An awaited call on a collaborator. */
  datatype Op =
    | BrainInitialize(brain: Brain)
    | BrainClose(brain: Brain)
    | AdapterRun(adapter: Adapter)
    | AdapterClose(adapter: Adapter)

  /** How a lifecycle operation ends: it completes, or the given call threw. */
  datatype Outcome = Completed | Faulted(op: Op)

  /** The calls actually made for a plan, and how the plan ended. */
  datatype Performed = Performed(ops: seq<Op>, outcome: Outcome)

  /** Whether a call on a collaborator throws, given every call made on the
      collaborators before it. */
  type FaultOracle = (seq<Op>, Op) -> bool

  /** Awaits the calls of `plan` in order, after the calls of `history`. The
      first call that throws ends the sequence and its exception is the
      outcome; no later call is made. */
  function Perform(plan: seq<Op>, history: seq<Op>, fails: FaultOracle): Performed
  {
    if plan == [] then Performed([], Completed)
    else if fails(history, plan[0]) then Performed([plan[0]], Faulted(plan[0]))
    else
      var rest := Perform(plan[1..], history + [plan[0]], fails);
      Performed([plan[0]] + rest.ops, rest.outcome)
  }

  /** The first call of a plan is made; the rest of the plan is performed
      only if it does not throw. */
  lemma PerformCons(op: Op, rest: seq<Op>, history: seq<Op>, fails: FaultOracle)
    ensures Perform([op] + rest, history, fails) ==
      if fails(history, op) then Performed([op], Faulted(op))
      else Performed([op] + Perform(rest, history + [op], fails).ops, Perform(rest, history + [op], fails).outcome)
  {
    assert ([op] + rest)[0] == op;
    assert ([op] + rest)[1..] == rest;
  }

  /** No call of `plan` throws when it is made after `history` and the
      calls of the plan before it. */
  ghost predicate FaultFree(plan: seq<Op>, history: seq<Op>, fails: FaultOracle)
  {
    forall k :: 0 <= k < |plan| ==> !fails(history + plan[..k], plan[k])
  }

  /** A plan is fault-free when its first call does not throw and the rest
      is fault-free after it. */
  lemma FaultFreeCons(plan: seq<Op>, history: seq<Op>, fails: FaultOracle)
    requires plan != []
    ensures FaultFree(plan, history, fails) <==>
      !fails(history, plan[0]) && FaultFree(plan[1..], history + [plan[0]], fails)
  {
    var rest := plan[1..];
    var h := history + [plan[0]];
    assert history + plan[..0] == history;
    forall k | 1 <= k < |plan|
      ensures history + plan[..k] == h + rest[..k - 1] && plan[k] == rest[k - 1]
    {
      assert plan[..k] == [plan[0]] + rest[..k - 1];
    }
    if !fails(history, plan[0]) && FaultFree(rest, h, fails) {
      forall k | 0 <= k < |plan|
        ensures !fails(history + plan[..k], plan[k])
      {
        if k > 0 {
          assert !fails(h + rest[..k - 1], rest[k - 1]);
        }
      }
    }
  }

  /** The calls made are a prefix of the plan; the plan completes exactly
      when none of its calls throws, and then every call was made. */
  lemma {:induction false} PerformCompletesIffFaultFree(plan: seq<Op>, history: seq<Op>, fails: FaultOracle)
    ensures var p := Perform(plan, history, fails);
      |p.ops| <= |plan| && p.ops == plan[..|p.ops|] &&
      (p.outcome.Completed? <==> FaultFree(plan, history, fails)) &&
      (p.outcome.Completed? ==> p.ops == plan)
  {
    if plan != [] {
      FaultFreeCons(plan, history, fails);
      PerformCons(plan[0], plan[1..], history, fails);
      assert [plan[0]] + plan[1..] == plan;
      if !fails(history, plan[0]) {
        PerformCompletesIffFaultFree(plan[1..], history + [plan[0]], fails);
        var r := Perform(plan[1..], history + [plan[0]], fails);
        assert plan[..|r.ops| + 1] == [plan[0]] + plan[1..][..|r.ops|];
      }
    }
  }

  /** A plan that does not complete ends on the first call that throws: the
      calls before it did not throw, it did, and it is the outcome. */
  lemma {:induction false} PerformStopsAtFirstFault(plan: seq<Op>, history: seq<Op>, fails: FaultOracle)
    ensures var p := Perform(plan, history, fails);
      p.outcome.Faulted? ==>
        |p.ops| > 0 && p.outcome.op == p.ops[|p.ops| - 1] &&
        fails(history + p.ops[..|p.ops| - 1], p.outcome.op) &&
        FaultFree(p.ops[..|p.ops| - 1], history, fails)
  {
    if plan != [] {
      PerformCons(plan[0], plan[1..], history, fails);
      assert [plan[0]] + plan[1..] == plan;
      var p := Perform(plan, history, fails);
      if fails(history, plan[0]) {
        assert p.ops[..0] == [];
        assert history + [] == history;
      } else {
        var h := history + [plan[0]];
        PerformStopsAtFirstFault(plan[1..], h, fails);
        var r := Perform(plan[1..], h, fails);
        if r.outcome.Faulted? {
          var before := r.ops[..|r.ops| - 1];
          assert p.ops[..|p.ops| - 1] == [plan[0]] + before;
          assert h + before == history + ([plan[0]] + before);
          FaultFreeCons([plan[0]] + before, history, fails);
          assert ([plan[0]] + before)[1..] == before;
        }
      }
    }
  }

  /** Performing two plans one after the other is performing the second only
      when the first completed. */
  lemma {:induction false} PerformAppend(p1: seq<Op>, p2: seq<Op>, history: seq<Op>, fails: FaultOracle)
    ensures var first := Perform(p1, history, fails);
      var second := Perform(p2, history + p1, fails);
      Perform(p1 + p2, history, fails) ==
        if first.outcome.Faulted? then first
        else Performed(p1 + second.ops, second.outcome)
  {
    if p1 == [] {
      assert p1 + p2 == p2;
      assert history + p1 == history;
    } else {
      PerformCons(p1[0], p1[1..] + p2, history, fails);
      assert p1 + p2 == [p1[0]] + (p1[1..] + p2);
      assert p1 == [p1[0]] + p1[1..];
      if !fails(history, p1[0]) {
        PerformAppend(p1[1..], p2, history + [p1[0]], fails);
        assert history + [p1[0]] + p1[1..] == history + p1;
      }
    }
  }

  /** Robot.Run: initialize the brain, then run the adapter. */
  function RunPlan(adapter: Adapter, brain: Brain): seq<Op>
  {
    [BrainInitialize(brain), AdapterRun(adapter)]
  }

  /** Robot.Shutdown: close the adapter, then the brain, skipping either when
      it is null. */
  function ShutdownPlan(adapter: Adapter?, brain: Brain?): seq<Op>
  {
    (if adapter != null then [AdapterClose(adapter)] else []) +
    (if brain != null then [BrainClose(brain)] else [])
  }

  /** Robot.Reset: Shutdown with the old adapter, then (after LoadAdapter)
      Run with the new one, then initialize the brain once more. */
  function ResetPlan(oldAdapter: Adapter?, newAdapter: Adapter, brain: Brain): seq<Op>
  {
    ShutdownPlan(oldAdapter, brain) + RunPlan(newAdapter, brain) + [BrainInitialize(brain)]
  }

  /** The adapter runs only after the brain's initialization completed; when
      initialization throws, the adapter is never run. */
  lemma RunInitializesBrainFirst(adapter: Adapter, brain: Brain, history: seq<Op>, fails: FaultOracle)
    ensures var p := Perform(RunPlan(adapter, brain), history, fails);
      |p.ops| > 0 && p.ops[0] == BrainInitialize(brain) &&
      (AdapterRun(adapter) in p.ops <==> !fails(history, BrainInitialize(brain))) &&
      (fails(history, BrainInitialize(brain)) ==>
        p == Performed([BrainInitialize(brain)], Faulted(BrainInitialize(brain))))
  {
    PerformCons(BrainInitialize(brain), [AdapterRun(adapter)], history, fails);
    PerformCons(AdapterRun(adapter), [], history + [BrainInitialize(brain)], fails);
  }

  /** Shutdown closes the adapter before the brain, each at most once, and
      makes no call for a collaborator that is null. */
  lemma ShutdownClosesAdapterFirst(adapter: Adapter?, brain: Brain?)
    ensures var plan := ShutdownPlan(adapter, brain);
      (forall op :: op in plan ==>
        (op.AdapterClose? && op.adapter == adapter) || (op.BrainClose? && op.brain == brain)) &&
      (adapter != null ==> plan[0] == AdapterClose(adapter)) &&
      (brain != null ==> plan[|plan| - 1] == BrainClose(brain)) &&
      |plan| == (if adapter != null then 1 else 0) + (if brain != null then 1 else 0)
  {
  }

  /** Shutdown with nothing to close completes without any call; and when
      no close throws, Shutdown completes after closing what is present,
      however often it is repeated. */
  lemma ShutdownCompletesWithoutFaults(adapter: Adapter?, brain: Brain?, history: seq<Op>, fails: FaultOracle)
    requires adapter != null ==> forall h :: !fails(h, AdapterClose(adapter))
    requires brain != null ==> forall h :: !fails(h, BrainClose(brain))
    ensures Perform(ShutdownPlan(adapter, brain), history, fails) ==
      Performed(ShutdownPlan(adapter, brain), Completed)
  {
    PerformCompletesIffFaultFree(ShutdownPlan(adapter, brain), history, fails);
  }

  /** Reset's plan is Shutdown's, then Run's with the new adapter, then one
      more brain initialization, performed in sequence. */
  lemma ResetPlanSplits(oldAdapter: Adapter?, newAdapter: Adapter, brain: Brain, history: seq<Op>, fails: FaultOracle)
    ensures var shutdown := ShutdownPlan(oldAdapter, brain);
      var run := RunPlan(newAdapter, brain);
      var init := [BrainInitialize(brain)];
      var tail := Perform(run + init, history + shutdown, fails);
      Perform(ResetPlan(oldAdapter, newAdapter, brain), history, fails) ==
        (if Perform(shutdown, history, fails).outcome.Faulted? then Perform(shutdown, history, fails)
         else Performed(shutdown + tail.ops, tail.outcome)) &&
      tail ==
        (if Perform(run, history + shutdown, fails).outcome.Faulted? then Perform(run, history + shutdown, fails)
         else Performed(run + Perform(init, history + shutdown + run, fails).ops, Perform(init, history + shutdown + run, fails).outcome))
  {
    var shutdown := ShutdownPlan(oldAdapter, brain);
    var run := RunPlan(newAdapter, brain);
    var init := [BrainInitialize(brain)];
    PerformAppend(shutdown, run + init, history, fails);
    PerformAppend(run, init, history + shutdown, fails);
    assert shutdown + (run + init) == ResetPlan(oldAdapter, newAdapter, brain);
    assert history + shutdown + run == (history + shutdown) + run;
  }

  /** A Shutdown that throws ends Reset: Reset's calls and outcome are
      Shutdown's, and no adapter runs. */
  lemma ResetStopsAtShutdownFault(oldAdapter: Adapter?, newAdapter: Adapter, brain: Brain, history: seq<Op>, fails: FaultOracle)
    requires Perform(ShutdownPlan(oldAdapter, brain), history, fails).outcome.Faulted?
    ensures Perform(ResetPlan(oldAdapter, newAdapter, brain), history, fails) ==
      Perform(ShutdownPlan(oldAdapter, brain), history, fails)
  {
    ResetPlanSplits(oldAdapter, newAdapter, brain, history, fails);
  }

  /** After a completed Shutdown, a Run that throws ends Reset: Reset makes
      all of Shutdown's calls, then Run's calls, and ends with Run's fault. */
  lemma ResetStopsAtRunFault(oldAdapter: Adapter?, newAdapter: Adapter, brain: Brain, history: seq<Op>, fails: FaultOracle)
    requires Perform(ShutdownPlan(oldAdapter, brain), history, fails).outcome.Completed?
    requires Perform(RunPlan(newAdapter, brain), history + ShutdownPlan(oldAdapter, brain), fails).outcome.Faulted?
    ensures var run := Perform(RunPlan(newAdapter, brain), history + ShutdownPlan(oldAdapter, brain), fails);
      Perform(ResetPlan(oldAdapter, newAdapter, brain), history, fails) ==
        Performed(ShutdownPlan(oldAdapter, brain) + run.ops, run.outcome)
  {
    ResetPlanSplits(oldAdapter, newAdapter, brain, history, fails);
    PerformCompletesIffFaultFree(ShutdownPlan(oldAdapter, brain), history, fails);
  }

  /** After a completed Shutdown and a completed Run, Reset initializes the
      brain once more, and that call decides Reset's outcome. */
  lemma ResetInitializesAfterRun(oldAdapter: Adapter?, newAdapter: Adapter, brain: Brain, history: seq<Op>, fails: FaultOracle)
    requires Perform(ShutdownPlan(oldAdapter, brain), history, fails).outcome.Completed?
    requires Perform(RunPlan(newAdapter, brain), history + ShutdownPlan(oldAdapter, brain), fails).outcome.Completed?
    ensures var before := history + ShutdownPlan(oldAdapter, brain) + RunPlan(newAdapter, brain);
      history + Perform(ResetPlan(oldAdapter, newAdapter, brain), history, fails).ops == before + [BrainInitialize(brain)] &&
      Perform(ResetPlan(oldAdapter, newAdapter, brain), history, fails).outcome ==
        if fails(before, BrainInitialize(brain)) then Faulted(BrainInitialize(brain)) else Completed
  {
    var shutdown := ShutdownPlan(oldAdapter, brain);
    var run := RunPlan(newAdapter, brain);
    ResetPlanSplits(oldAdapter, newAdapter, brain, history, fails);
    PerformCompletesIffFaultFree(shutdown, history, fails);
    PerformCompletesIffFaultFree(run, history + shutdown, fails);
    PerformCons(BrainInitialize(brain), [], history + shutdown + run, fails);
    assert [BrainInitialize(brain)] + [] == [BrainInitialize(brain)];
    assert history + (shutdown + (run + [BrainInitialize(brain)])) == history + shutdown + run + [BrainInitialize(brain)];
  }
}

/** The robot: its listeners and help registry, its adapter and brain, and
    the operations that register, dispatch and drive the lifecycle. */
module MMBot {
  import opened Wrappers
  import opened Messages
  import opened Listeners
  import opened Dispatching
  import opened Lifecycle
  import opened Registration
  import Configuration

  class Robot {
    const name: string
    const adapterType: string
    const config: Option<map<string, string>>
    /** The regex engine Respond compiles its patterns with. */
    const engine: RegexEngine

    var adapter: Adapter?
    var brain: Brain?
    var listeners: seq<Listener>
    var helpCommands: seq<string>
    /** The awaited calls made on the adapter and the brain, in order. */
    var ops: seq<Op>

    /** Once created, a robot always has an adapter and a brain. */
    ghost predicate Valid()
      reads this
    {
      adapter != null && brain != null
    }

    /** Robot.Create: the robot with a new brain, no listeners and no help,
        then LoadAdapter. */
    constructor Create(adapterType: string, name: string, config: Option<map<string, string>>, engine: RegexEngine)
      ensures Valid() && fresh(adapter) && fresh(brain)
      ensures adapter.adapterType == adapterType
      ensures this.adapterType == adapterType && this.name == name && this.config == config && this.engine == engine
      ensures listeners == [] && helpCommands == [] && ops == []
    {
      this.adapterType := adapterType;
      this.name := name;
      this.config := config;
      this.engine := engine;
      adapter := null;
      brain := new Brain();
      listeners := [];
      helpCommands := [];
      ops := [];
      new;
      LoadAdapter();
    }

    /** Hear(Regex, ...) registers nothing. */
    method Hear(regex: Regex, callback: Callback)
      ensures listeners == old(listeners) && helpCommands == old(helpCommands)
    {
    }

    /** Respond(Regex, ...) registers nothing. */
    method RespondRegex(regex: Regex, callback: Callback)
      ensures listeners == old(listeners) && helpCommands == old(helpCommands)
    {
    }

    /** Respond(string, ...): appends one text listener whose pattern is the
        regex prefixed with the robot's address; earlier listeners stay. */
    method Respond(regex: string, callback: Callback)
      modifies this`listeners
      ensures listeners == old(listeners) + [RespondListener(name, engine, regex, callback)]
    {
      var pattern := RespondPattern(name, regex);
      listeners := listeners + [TextListener(Regex(pattern, engine(pattern)), callback)];
    }

    /** Enter(...) registers nothing. */
    method Enter(callback: Callback)
      ensures listeners == old(listeners) && helpCommands == old(helpCommands)
    {
    }

    /** Leave(...) registers nothing. */
    method Leave(callback: Callback)
      ensures listeners == old(listeners) && helpCommands == old(helpCommands)
    {
    }

    /** Topic(...) registers nothing. */
    method Topic(callback: Callback)
      ensures listeners == old(listeners) && helpCommands == old(helpCommands)
    {
    }

    /** CatchAll(...) registers nothing. */
    method CatchAll(callback: Callback)
      ensures listeners == old(listeners) && helpCommands == old(helpCommands)
    {
    }

    /** Robot.Receive: calls the listeners in registration order; a call
        that throws is caught and dispatch goes on; after a call that
        returns, a done message ends dispatch. The ghost result is the
        sequence of calls made. */
    method Receive(message: Message) returns (ghost steps: seq<Step>)
      modifies message
      ensures var d := Dispatch(listeners, message.content, old(message.done));
        steps == d.steps && message.done == d.done
    {
      ghost var d := Dispatch(listeners, message.content, message.done);
      steps := [];
      var i := 0;
      while i < |listeners|
        invariant 0 <= i <= |listeners|
        invariant steps + DispatchFrom(listeners, i, message.content, message.done).steps == d.steps
        invariant DispatchFrom(listeners, i, message.content, message.done).done == d.done
      {
        // the listener's call; its callback's effect on Done is applied to the message
        var o := Call(listeners[i], message.content, message.done);
        message.done := o.done;
        steps := steps + [Step(i, o.result, o.invoked, o.done)];
        if o.result.Returned? && message.done {
          break;
        }
        i := i + 1;
      }
    }

    /** LoadAdapter: a new adapter of the robot's adapter type replaces the
        old one, which is not closed. */
    method LoadAdapter()
      modifies this`adapter
      ensures fresh(adapter) && adapter.adapterType == adapterType
    {
      adapter := new Adapter(adapterType);
    }

    /** RegisterScript: the script's registration calls, in order, then its
        help lines appended to the help registry. */
    method RegisterScript(script: Script)
      modifies this`listeners, this`helpCommands
      ensures listeners == old(listeners) + Registered(name, engine, script.registrations)
      ensures helpCommands == old(helpCommands) + script.help
    {
      var calls := script.registrations;
      var i := 0;
      while i < |calls|
        invariant 0 <= i <= |calls|
        invariant listeners == old(listeners) + Registered(name, engine, calls[..i])
        invariant helpCommands == old(helpCommands)
      {
        assert calls[..i + 1][..i] == calls[..i];
        match calls[i] {
          case RespondTo(pattern, callback) => Respond(pattern, callback);
          case RespondToRegex(regex, callback) => RespondRegex(regex, callback);
          case HearRegex(regex, callback) => Hear(regex, callback);
          case OnEnter(callback) => Enter(callback);
          case OnLeave(callback) => Leave(callback);
          case OnTopic(callback) => Topic(callback);
          case OnCatchAll(callback) => CatchAll(callback);
        }
        i := i + 1;
      }
      assert calls[..i] == calls;
      helpCommands := helpCommands + script.help;
    }

    /** LoadScript<T>: registers one script. */
    method LoadScript(script: Script)
      modifies this`listeners, this`helpCommands
      ensures listeners == old(listeners) + Registered(name, engine, script.registrations)
      ensures helpCommands == old(helpCommands) + script.help
    {
      RegisterScript(script);
    }

    /** LoadScripts: registers the discovered scripts one after another. */
    method LoadScripts(scripts: seq<Script>)
      modifies this`listeners, this`helpCommands
      ensures listeners == old(listeners) + RegisteredAll(name, engine, scripts)
      ensures helpCommands == old(helpCommands) + HelpOf(scripts)
    {
      var i := 0;
      while i < |scripts|
        invariant 0 <= i <= |scripts|
        invariant listeners == old(listeners) + RegisteredAll(name, engine, scripts[..i])
        invariant helpCommands == old(helpCommands) + HelpOf(scripts[..i])
      {
        ScriptsPrefixStep(name, engine, scripts, i);
        AppendAssociative(old(listeners), RegisteredAll(name, engine, scripts[..i]), Registered(name, engine, scripts[i].registrations));
        AppendAssociative(old(helpCommands), HelpOf(scripts[..i]), scripts[i].help);
        RegisterScript(scripts[i]);
        i := i + 1;
      }
      assert scripts[..i] == scripts;
    }

    /** GetConfigVariable: the configured value, else the environment's. */
    function GetConfigVariable(key: string, env: map<string, string>): (r: Option<string>)
      ensures key in Configuration.Configured(config) ==> r == Some(Configuration.Configured(config)[key])
      ensures key !in Configuration.Configured(config) ==> r == Configuration.EnvironmentVariable(env, key)
    {
      Configuration.GetConfigVariable(config, env, key)
    }

    /** Run: initializes the brain, then runs the adapter; the first call
        that throws ends Run with its exception. */
    method Run(fails: FaultOracle) returns (r: Outcome)
      requires Valid()
      modifies this`ops
      ensures var p := Perform(RunPlan(adapter, brain), old(ops), fails);
        ops == old(ops) + p.ops && r == p.outcome
    {
      PerformCons(BrainInitialize(brain), [AdapterRun(adapter)], ops, fails);
      PerformCons(AdapterRun(adapter), [], ops + [BrainInitialize(brain)], fails);
      if fails(ops, BrainInitialize(brain)) {
        ops := ops + [BrainInitialize(brain)];
        return Faulted(BrainInitialize(brain));
      }
      ops := ops + [BrainInitialize(brain)];
      if fails(ops, AdapterRun(adapter)) {
        ops := ops + [AdapterRun(adapter)];
        return Faulted(AdapterRun(adapter));
      }
      ops := ops + [AdapterRun(adapter)];
      return Completed;
    }

    /** Shutdown: closes the adapter, then the brain, each only when it is
        not null; the first close that throws ends Shutdown. */
    method Shutdown(fails: FaultOracle) returns (r: Outcome)
      modifies this`ops
      ensures var p := Perform(ShutdownPlan(adapter, brain), old(ops), fails);
        ops == old(ops) + p.ops && r == p.outcome
    {
      ghost var history := ops;
      ghost var closeBrain := if brain != null then [BrainClose(brain)] else [];
      if adapter != null {
        PerformCons(AdapterClose(adapter), closeBrain, ops, fails);
        if fails(ops, AdapterClose(adapter)) {
          ops := ops + [AdapterClose(adapter)];
          return Faulted(AdapterClose(adapter));
        }
        ops := ops + [AdapterClose(adapter)];
      } else {
        assert ShutdownPlan(adapter, brain) == closeBrain;
      }
      if brain != null {
        PerformCons(BrainClose(brain), [], ops, fails);
        if fails(ops, BrainClose(brain)) {
          ops := ops + [BrainClose(brain)];
          return Faulted(BrainClose(brain));
        }
        ops := ops + [BrainClose(brain)];
      }
      return Completed;
    }

    /** Reset: Shutdown, LoadAdapter, Run, then initialize the brain again.
        A fault ends Reset at that point; the adapter is new exactly when
        Shutdown completed. Listeners and help commands are kept. */
    method Reset(fails: FaultOracle) returns (r: Outcome)
      requires Valid()
      modifies this`ops, this`adapter
      ensures Valid() && brain == old(brain)
      ensures var p := Perform(ResetPlan(old(adapter), adapter, brain), old(ops), fails);
        ops == old(ops) + p.ops && r == p.outcome
      ensures Perform(ShutdownPlan(old(adapter), brain), old(ops), fails).outcome.Completed? ==>
        fresh(adapter) && adapter.adapterType == adapterType
      ensures Perform(ShutdownPlan(old(adapter), brain), old(ops), fails).outcome.Faulted? ==>
        adapter == old(adapter)
      ensures listeners == old(listeners) && helpCommands == old(helpCommands)
    {
      ghost var oldAdapter, history := adapter, ops;
      r := Shutdown(fails);
      if r.Faulted? {
        ResetStopsAtShutdownFault(oldAdapter, adapter, brain, history, fails);
        return;
      }
      PerformCompletesIffFaultFree(ShutdownPlan(oldAdapter, brain), history, fails);
      LoadAdapter();
      r := Run(fails);
      if r.Faulted? {
        ResetStopsAtRunFault(oldAdapter, adapter, brain, history, fails);
        return;
      }
      PerformCompletesIffFaultFree(RunPlan(adapter, brain), history + ShutdownPlan(oldAdapter, brain), fails);
      ResetInitializesAfterRun(oldAdapter, adapter, brain, history, fails);
      assert ops == history + ShutdownPlan(oldAdapter, brain) + RunPlan(adapter, brain);
      if fails(ops, BrainInitialize(brain)) {
        ops := ops + [BrainInitialize(brain)];
        r := Faulted(BrainInitialize(brain));
        return;
      }
      ops := ops + [BrainInitialize(brain)];
      r := Completed;
    }
  }
}

# MMBot robot core in Dafny

A model of the dispatch core of MMBot, a chat-bot runtime (`MMBot/Robot.cs`).
The robot keeps an ordered list of listeners and a help registry. It hands each
inbound message to its listeners in registration order. It drives its adapter
(the chat-network connection) and its brain (the key-value store) through
Run, Shutdown and Reset.

Modules, one concern each:

- `Messages`: message kinds (a closed variant instead of the Message subclasses).
  Also the `Message` class with its mutable Done flag, regex match collections,
  `MatchResult`, `Response`, and callbacks seen through their `Effect`.
  An effect says whether the callback sets Done and whether it then throws.
- `Listeners`: `Listener<T>` and `TextListener` as one datatype. `Match` is
  `TextListener.Match`. `Call` is the call decision of both `Call` methods; `CallDecision` states it.
- `Dispatching`: `Dispatch`, the specification of `Robot.Receive`. It is a
  recursive function over the listeners that records one `Step` per call.
  The ordering, early-stop and error-isolation lemmas are proved about it.
- `Lifecycle`: the `Adapter` and `Brain` collaborators and the awaited calls
  made on them (`Op`). `Perform` runs a plan of calls until the first one
  throws. Run, Shutdown and Reset each have a plan.
- `Registration`: the address-prefixed pattern built by `Respond(string, …)`
  and its inverse. Also scripts as sequences of registration calls plus help
  lines, and the listeners and help lines that registering them appends.
- `Configuration`: the two-tier configuration lookup, as written and corrected
  (see Findings).
- `MMBot`: the `Robot` class. Its fields are updated in place. Its methods
  are proved against the functions above.

Boundaries of the model:

- The regex engine is a parameter of the robot (`RegexEngine`: pattern to
  matcher). It is total: every pattern compiles. The regex engine and the
  environment are inputs.
- Collaborator faults are a `FaultOracle` parameter. It decides whether a
  call throws from the calls made before it.
- The log of adapter and brain calls is the robot field `ops`.

## Model

| member | source | states |
|---|---|---|
| Listeners.AnySuccess | MMBot/Robot.cs:246 | true exactly when some element of the match collection succeeded |
| Listeners.Match | MMBot/Robot.cs:239-249 | a non-text message never matches and has no captures. A text matches exactly when some regex match on its text succeeded. The collection is kept as captures exactly on a match |
| Listeners.Call | MMBot/Robot.cs:205-268 | the definition of both `Call` methods: a text listener rejects a non-text message with false; otherwise the matcher decides, and on a match the callback runs with the message and match and the call returns true. Its properties are stated by `Listeners.CallDecision` |
| Listeners.CallDecision | MMBot/Robot.cs:205-268 | the callback runs exactly when the listener's matcher reports a match. The call returns true exactly when the callback ran and did not throw, returns false exactly when it did not run, and throws exactly when the callback threw. Done changes only through a callback. A text listener rejects a non-text message with false, up front |
| Listeners.CallKeepsDone | MMBot/Robot.cs:205-268 | a listener call never clears Done |
| Dispatching.DispatchFrom | MMBot/Robot.cs:112-128 | the definition of the foreach from listener i on: call the listener; stop after a normal return with Done set; after a throw or without Done, go on with the next listener. Its properties are the `Dispatch…` lemmas below |
| Dispatching.Dispatch | MMBot/Robot.cs:109-129 | the definition of what `Receive` does with a message: `DispatchFrom` over all listeners, starting with the message's Done flag |
| Dispatching.DispatchOrder | MMBot/Robot.cs:112-128 | listeners are called strictly in registration order, each at most once |
| Dispatching.DispatchCalls | MMBot/Robot.cs:114-120 | each recorded step is its listener's call on the Done flag the previous call left |
| Dispatching.DispatchStopsAtFirstDone | MMBot/Robot.cs:116-120 | dispatch ends right after the first call that returns normally with Done set, and nowhere earlier. A dispatch that ends before the last listener ends on such a call. The final Done is the one the last call left |
| Dispatching.DispatchDoneMonotone | MMBot/Robot.cs:116-120 | once Done is set it stays set for every later step and at the end |
| Dispatching.NotDoneCallsEveryListener | MMBot/Robot.cs:112-128 | if the message is not done at the end, every listener was called exactly once, in order |
| Dispatching.RaisedCallDoesNotStop | MMBot/Robot.cs:114-126 | a listener whose call throws never ends dispatch; the next listener is called |
| Dispatching.DoneOnEntryStopsAtFirstReturn | MMBot/Robot.cs:116-120 | with Done already set on entry, dispatch ends at the first call that returns normally, matched or not. Every earlier call threw. If the first listener returns normally, it is the only one called |
| Dispatching.UnmatchedListenerHasNoEffect | MMBot/Robot.cs:205-217 | a listener that does not match a message has its callback skipped, returns false and leaves Done unchanged |
| MMBot.Robot.Receive | MMBot/Robot.cs:109-129 | the in-place loop with its try/catch and break. It leaves Done, and makes the calls, exactly as `Dispatch` says. Receive itself never throws |
| MMBot.Robot.Create | MMBot/Robot.cs:42-55 | a robot with the given name, configuration and adapter type, a new brain and a new adapter, no listeners, no help |
| MMBot.Robot.Respond | MMBot/Robot.cs:67-72 | appends exactly one text listener, over the compiled address-prefixed pattern, after the unchanged earlier listeners |
| Registration.RespondPattern | MMBot/Robot.cs:69 | the definition of the `string.Format` pattern: `^[@]?`, the robot name, `[:,]?\s*(?:`, the user regex, `)`. Its inverse is stated by `RespondPatternRoundTrip` and `UserPatternSound` |
| Registration.RespondListener | MMBot/Robot.cs:69-71 | the definition of the listener `Respond(string, …)` adds: a text listener over the compiled `RespondPattern` with the given callback |
| Registration.RespondPatternRoundTrip | MMBot/Robot.cs:69 | the user's regex is recovered intact from the pattern Respond builds for the robot's name, so the construction loses nothing |
| Registration.UserPatternSound | MMBot/Robot.cs:69 | every pattern accepted by the inverse is the Respond pattern of what it returns |
| MMBot.Robot.Hear | MMBot/Robot.cs:57-60 | registers nothing: listeners and help unchanged |
| MMBot.Robot.RespondRegex | MMBot/Robot.cs:62-65 | Respond(Regex, …) registers nothing |
| MMBot.Robot.Enter | MMBot/Robot.cs:81-84 | registers nothing |
| MMBot.Robot.Leave | MMBot/Robot.cs:86-89 | registers nothing |
| MMBot.Robot.Topic | MMBot/Robot.cs:91-94 | registers nothing |
| MMBot.Robot.CatchAll | MMBot/Robot.cs:96-99 | registers nothing |
| Registration.RegisteredListeners | MMBot/Robot.cs:57-99 | a script's registration calls add one listener per Respond(string, …) call and none for the others. Every listener added is a text listener whose pattern is an address-prefixed user regex |
| Registration.Registered | MMBot/Robot.cs:57-99 | the definition of the listeners a script's registration calls append, in call order: one per `Respond(string, …)` call, none for the stubs. Its properties are stated by `RegisteredListeners` |
| Registration.RegisteredAll | MMBot/Robot.cs:136-163 | the definition of the listeners appended by registering scripts one after another, in discovery order |
| Registration.HelpOf | MMBot/Robot.cs:136-163 | the definition of the help lines appended by registering scripts one after another: each script's `GetHelp` lines, in script order. Its properties are stated by `HelpOfUniform` and `HelpOfLength` |
| MMBot.Robot.RegisterScript | MMBot/Robot.cs:157-163 | runs the script's registration calls in order, then the help list becomes the old list followed by the script's help lines |
| MMBot.Robot.LoadScript | MMBot/Robot.cs:146-150 | registers one script with the same effect as RegisterScript |
| MMBot.Robot.LoadScripts | MMBot/Robot.cs:136-144 | registers the scripts in order. Listeners and help lines are appended script by script |
| Registration.HelpOfUniform | MMBot/Robot.cs:162 | N scripts with K help lines each give N × K help lines. Line j of script n is at position n × K + j |
| Registration.HelpOfLength | MMBot/Robot.cs:162 | N scripts with K help lines each give N × K help lines |
| Configuration.EnvironmentVariable | MMBot/Robot.cs:154 | an environment variable is present exactly when it is set, with its value |
| Configuration.GetConfigVariableAsWritten | MMBot/Robot.cs:152-155 | as written, the lookup throws exactly when the robot has no configuration dictionary |
| Configuration.GetConfigVariable | MMBot/Robot.cs:152-155 | a configured key gives the configured value, even if the environment also has it. Any other key gives the environment's value. The result is absent exactly when neither has the key |
| Configuration.AsWrittenAgreesWhenConfigured | MMBot/Robot.cs:152-155 | with a configuration present, the code as written does not throw and agrees with the intended lookup |
| Configuration.NullConfigurationThrows | MMBot/Robot.cs:42-55 | for a robot created with the default (null) configuration, the code as written throws where the intended lookup reads the environment |
| MMBot.Robot.GetConfigVariable | MMBot/Robot.cs:152-155 | the corrected lookup from "## Findings" (`Configuration.GetConfigVariable`) on the robot's configuration: configured first, then the environment. A robot without a configuration reads the environment instead of throwing |
| MMBot.Robot.LoadAdapter | MMBot/Robot.cs:131-134 | a newly created adapter of the robot's adapter type replaces the old one, which is not closed |
| Lifecycle.Perform | MMBot/Robot.cs:101-107 | the definition of a sequence of awaited calls: each call is made in order; the first that throws ends the sequence, and its exception is the outcome. Its properties are stated by `PerformCompletesIffFaultFree`, `PerformStopsAtFirstFault` and `PerformAppend` |
| Lifecycle.RunPlan | MMBot/Robot.cs:101-107 | the definition of Run's calls: brain initialization, then adapter run |
| Lifecycle.ShutdownPlan | MMBot/Robot.cs:165-175 | the definition of Shutdown's calls: adapter close if the adapter is not null, then brain close if the brain is not null. Its properties are stated by `ShutdownClosesAdapterFirst` |
| Lifecycle.ResetPlan | MMBot/Robot.cs:177-184 | the definition of Reset's calls: Shutdown's with the old adapter, Run's with the new adapter, then one more brain initialization |
| MMBot.Robot.Run | MMBot/Robot.cs:101-107 | logs and returns exactly what performing "initialize brain, run adapter" gives |
| MMBot.Robot.Shutdown | MMBot/Robot.cs:165-175 | logs and returns exactly what performing "close adapter if present, close brain if present" gives |
| MMBot.Robot.Reset | MMBot/Robot.cs:177-184 | logs and returns exactly what performing the Reset plan gives: Shutdown, a new adapter, Run, then brain initialization. The adapter is new exactly when Shutdown completed. Listeners, help and brain are unchanged |
| Lifecycle.PerformCompletesIffFaultFree | MMBot/Robot.cs:101-107 | the calls made are a prefix of the plan. The plan completes exactly when none of its calls throws, and then every call was made |
| Lifecycle.PerformStopsAtFirstFault | MMBot/Robot.cs:165-175 | a plan that faults ends on the first call that throws, and its exception is the outcome. All earlier calls did not throw |
| Lifecycle.PerformAppend | MMBot/Robot.cs:177-184 | awaiting two plans in sequence runs the second only when the first completed |
| Lifecycle.RunInitializesBrainFirst | MMBot/Robot.cs:101-107 | the brain is initialized first. The adapter runs exactly when that initialization did not throw |
| Lifecycle.ShutdownClosesAdapterFirst | MMBot/Robot.cs:165-175 | Shutdown closes the adapter before the brain, each at most once. It makes no call for a null collaborator |
| Lifecycle.ShutdownCompletesWithoutFaults | MMBot/Robot.cs:165-175 | when no close throws, Shutdown (first, second or later) completes after closing exactly what is present. With nothing present it makes no call |
| Lifecycle.ResetPlanSplits | MMBot/Robot.cs:177-184 | Reset awaits Shutdown, then Run on the new adapter, then one more brain initialization. Each part runs only when the part before it completed |
| Lifecycle.ResetStopsAtShutdownFault | MMBot/Robot.cs:179 | a Shutdown that throws ends Reset with Shutdown's calls and fault. Nothing is run |
| Lifecycle.ResetStopsAtRunFault | MMBot/Robot.cs:179-182 | after a completed Shutdown, a Run that throws ends Reset: all of Shutdown's calls, then Run's calls, then Run's fault |
| Lifecycle.ResetInitializesAfterRun | MMBot/Robot.cs:179-183 | after a completed Shutdown and Run, Reset makes exactly one more call, the brain initialization. Reset throws exactly when that call throws |

## Left out

- The .NET regex engine (`Regex`, `RegexOptions.Compiled | IgnoreCase`, `MatchCollection`) is a parameter, `RegexEngine`, that maps a pattern to its matches in a text. The model therefore does not establish which concrete texts a Respond pattern matches (such as "@bot: ping" against "ping").
- Reflection in `LoadScripts` (`Assembly.GetTypes`, constructor inspection, `Activator.CreateInstance`) is replaced by the given sequence of scripts, in discovery order.
- A script's `Register(robot)` is modelled as the sequence of registration calls it makes on the robot. Arbitrary script code, and a script constructor or `Register` that throws, are not modelled.
- `Activator.CreateInstance` in `LoadAdapter` is modelled by its effect: a new `Adapter` object of the robot's adapter type. The adapter's and brain's back-reference to the robot is not kept.
- Async/await, `Task` and `SynchronizationContext`/`AsyncSynchronizationContext` are left out. Awaited calls are the ordered `ops` log. Whether a call throws is the `FaultOracle` parameter.
- `Console.WriteLine` of a caught listener exception and of "Loading script" is output only and is left out.
- `Environment.GetEnvironmentVariable` is the `env` map parameter.
- The `Alias` property, the read-only getters (`Adapter`, `Brain`, `Name`, `HelpCommands`) and the unused `brain` field are not modelled. They hold no logic.
- `Response.Create` is the `Response` value (message plus match). The robot reference it carries is not modelled.
- Listener callbacks are seen only through their effect on dispatch: setting Done, then possibly throwing. A callback that clears Done, or that changes the listener list during dispatch, is not modelled. Replies sent through the adapter and brain writes are outside the core.
- A matcher that throws is not modelled. Regex matching and `Listener<T>` matchers are total functions.
- Dispatching.DispatchDoneMonotone: holds because a callback can only set Done, never clear it. That is a restriction of the model, not a promise of the code.
- MMBot.Robot.GetConfigVariable: uses the corrected lookup (see "## Findings"), so it does not throw the NullReferenceException that MMBot/Robot.cs:154 throws for a robot created without a configuration. The code as written is `Configuration.GetConfigVariableAsWritten`.
- MMBot.Robot.Respond: assumes the address-prefixed pattern always compiles. In the code, `new Regex` throws ArgumentException for an invalid pattern, such as a user regex "(" or a robot name with unbalanced regex metacharacters. No listener is then appended, and the exception propagates out of the script's `Register`. The model's `RegexEngine` is total, so `Respond` always appends one listener.
- Lifecycle.ShutdownCompletesWithoutFaults: that a repeated Shutdown does not throw is proved only for adapter and brain closes that do not throw. Closing an already-closed collaborator is the collaborator's business.
- `Hear`, `Respond(Regex, …)`, `Enter`, `Leave`, `Topic` and `CatchAll` have empty bodies (MMBot/Robot.cs:57-65, 81-99) and register nothing. The model gives them the same empty bodies.

## Findings

| source | as written | input that shows it | evidently intended | confidence | as-written member | corrected member |
|---|---|---|---|---|---|---|
| MMBot/Robot.cs:152-155 | `GetConfigVariable` calls `_config.ContainsKey` unconditionally. `Robot.Create` (line 42) defaults `config` to null. | a robot created without a configuration; environment PORT=8080; `GetConfigVariable("PORT")` throws NullReferenceException | a missing configuration reads as empty, so the lookup falls back to the environment and returns "8080" | medium; not executed | Configuration.GetConfigVariableAsWritten (exhibited by Configuration.NullConfigurationThrows) | Configuration.GetConfigVariable |

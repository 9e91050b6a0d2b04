/** What registering with the robot adds: the address-prefixed pattern built
    by Respond(string, ...), the listeners a script's registrations create,
    and the help lines scripts contribute. */
module Registration {
  import opened Wrappers
  import opened Messages
  import opened Listeners

  /** The part of a Respond pattern before the user's regex: an optional
      '@', the robot's name, an optional ':' or ',', white space, and the
      opening of a non-capturing group. */
  function AddressPrefix(name: string): string
  {
    "^[@]?" + name + "[:,]?\\s*(?:"
  }

  /** Respond(string, ...): the user's regex wrapped so that it only matches
      text addressed to the robot by name. */
  function RespondPattern(name: string, regex: string): string
  {
    AddressPrefix(name) + regex + ")"
  }

  /** Recovers the user's regex from a Respond pattern for `name`; None for
      a pattern that is not one. */
  function UserPattern(name: string, pattern: string): Option<string>
  {
    var head := AddressPrefix(name);
    if |pattern| > |head| && pattern[..|head|] == head && pattern[|pattern| - 1] == ')'
    then Some(pattern[|head|..|pattern| - 1])
    else None
  }

  /** The user's regex can be read back from the pattern Respond builds. */
  lemma RespondPatternRoundTrip(name: string, regex: string)
    ensures UserPattern(name, RespondPattern(name, regex)) == Some(regex)
  {
    var head := AddressPrefix(name);
    var p := RespondPattern(name, regex);
    assert p[..|head|] == head;
    assert p[|head|..|p| - 1] == regex;
  }

  /** Every pattern UserPattern accepts is the Respond pattern of what it
      returns; so Respond patterns for one name are exactly the accepted ones. */
  lemma UserPatternSound(name: string, pattern: string)
    ensures UserPattern(name, pattern).Some? ==>
      RespondPattern(name, UserPattern(name, pattern).value) == pattern
  {
    var head := AddressPrefix(name);
    if UserPattern(name, pattern).Some? {
      assert pattern == pattern[..|head|] + pattern[|head|..|pattern| - 1] + [pattern[|pattern| - 1]];
    }
  }

  /** The listener Respond(string, ...) appends: a text listener over the
      compiled address-prefixed pattern. */
  function RespondListener(name: string, engine: RegexEngine, regex: string, callback: Callback): Listener
  {
    var pattern := RespondPattern(name, regex);
    TextListener(Regex(pattern, engine(pattern)), callback)
  }

  /** A call a script makes on the robot's registration surface. */
  datatype RegistrationCall =
    | RespondTo(pattern: string, callback: Callback)
    | RespondToRegex(regex: Regex, callback: Callback)
    | HearRegex(regex: Regex, callback: Callback)
    | OnEnter(callback: Callback)
    | OnLeave(callback: Callback)
    | OnTopic(callback: Callback)
    | OnCatchAll(callback: Callback)

  /** A script: the registration calls its Register makes, in order, and
      the help lines GetHelp returns. */
  datatype Script = Script(registrations: seq<RegistrationCall>, help: seq<string>)

  /** The listeners one registration call appends: only Respond(string, ...)
      appends one; the other entry points register nothing. */
  function ListenersOf(name: string, engine: RegexEngine, call: RegistrationCall): seq<Listener>
  {
    match call
    case RespondTo(pattern, callback) => [RespondListener(name, engine, pattern, callback)]
    case _ => []
  }

  /** The listeners a sequence of registration calls appends, in order. */
  function Registered(name: string, engine: RegexEngine, calls: seq<RegistrationCall>): seq<Listener>
  {
    if calls == [] then []
    else Registered(name, engine, calls[..|calls| - 1]) + ListenersOf(name, engine, calls[|calls| - 1])
  }

  /** The number of Respond(string, ...) calls among `calls`. */
  function RespondCount(calls: seq<RegistrationCall>): nat
  {
    if calls == [] then 0
    else RespondCount(calls[..|calls| - 1]) + (if calls[|calls| - 1].RespondTo? then 1 else 0)
  }

  /** Registration calls add one listener per Respond(string, ...) call, and
      every listener they add is a text listener whose pattern is the
      address-prefixed form of some user regex. */
  lemma {:induction false} RegisteredListeners(name: string, engine: RegexEngine, calls: seq<RegistrationCall>)
    ensures var ls := Registered(name, engine, calls);
      |ls| == RespondCount(calls) &&
      forall k :: 0 <= k < |ls| ==> ls[k].TextListener? && UserPattern(name, ls[k].regex.pattern).Some?
  {
    if calls != [] {
      var init := calls[..|calls| - 1];
      RegisteredListeners(name, engine, init);
      var last := calls[|calls| - 1];
      if last.RespondTo? {
        RespondPatternRoundTrip(name, last.pattern);
      }
    }
  }

  /** The listeners a sequence of scripts appends, script by script. */
  function RegisteredAll(name: string, engine: RegexEngine, scripts: seq<Script>): seq<Listener>
  {
    if scripts == [] then []
    else RegisteredAll(name, engine, scripts[..|scripts| - 1]) +
         Registered(name, engine, scripts[|scripts| - 1].registrations)
  }

  /** The help lines a sequence of scripts appends, script by script. */
  function HelpOf(scripts: seq<Script>): seq<string>
  {
    if scripts == [] then []
    else HelpOf(scripts[..|scripts| - 1]) + scripts[|scripts| - 1].help
  }

  /** Appending to a sequence in two steps is appending once. */
  lemma AppendAssociative<T>(a: seq<T>, b: seq<T>, c: seq<T>)
    ensures a + (b + c) == (a + b) + c
  {
  }

  /** Registering one more script appends its listeners and help lines to
      those of the scripts before it. */
  lemma ScriptsPrefixStep(name: string, engine: RegexEngine, scripts: seq<Script>, i: nat)
    requires i < |scripts|
    ensures RegisteredAll(name, engine, scripts[..i + 1]) ==
      RegisteredAll(name, engine, scripts[..i]) + Registered(name, engine, scripts[i].registrations)
    ensures HelpOf(scripts[..i + 1]) == HelpOf(scripts[..i]) + scripts[i].help
  {
    var next := scripts[..i + 1];
    assert next[..|next| - 1] == scripts[..i];
  }

  /** Registering N scripts that declare K help lines each yields N * K help
      lines, in script-then-declaration order. */
  lemma {:induction false} HelpOfUniform(scripts: seq<Script>, width: nat, n: nat, j: nat)
    requires forall s :: 0 <= s < |scripts| ==> |scripts[s].help| == width
    requires n < |scripts| && j < width
    ensures |HelpOf(scripts)| == |scripts| * width
    ensures n * width + j < |HelpOf(scripts)| && HelpOf(scripts)[n * width + j] == scripts[n].help[j]
  {
    var init := scripts[..|scripts| - 1];
    var last := |scripts| - 1;
    if n == last {
      HelpOfLength(init, width);
      assert |init| * width + width == |scripts| * width;
    } else {
      HelpOfUniform(init, width, n, j);
      assert |init| * width + width == |scripts| * width;
    }
  }

  /** The help list of uniformly sized scripts has N * K lines. */
  lemma {:induction false} HelpOfLength(scripts: seq<Script>, width: nat)
    requires forall s :: 0 <= s < |scripts| ==> |scripts[s].help| == width
    ensures |HelpOf(scripts)| == |scripts| * width
  {
    if scripts != [] {
      var init := scripts[..|scripts| - 1];
      HelpOfLength(init, width);
      assert |init| * width + width == |scripts| * width;
    }
  }
}

/** The two listener kinds of the robot: Listener<T> (an arbitrary matcher)
    and TextListener (a compiled regular expression over text messages). */
module Listeners {
  import opened Wrappers
  import opened Messages

  /** A registered (matcher, callback) pair. Immutable once constructed. */
  datatype Listener =
    | GenericListener(matcher: MessageContent -> MatchResult, callback: Callback)
    | TextListener(regex: Regex, callback: Callback)

  /** How a call ends: it returns whether the listener matched, or it throws
      (the exception of the callback reaches the caller). */
  datatype CallResult = Returned(matched: bool) | Raised

  /** One call of a listener: how it ended, whether the callback ran, and the
      message's Done flag afterwards. */
  datatype CallOutcome = CallOutcome(result: CallResult, invoked: bool, done: bool)

  /** Whether some element of a match collection succeeded. */
  function AnySuccess(ms: seq<RegexMatch>): (b: bool)
    ensures b <==> exists i :: 0 <= i < |ms| && ms[i].success
  {
    if ms == [] then false
    else if ms[0].success then true
    else AnySuccess(ms[1..])
  }

  /** TextListener.Match: a message that is not text never matches; a text
      matches when some match the regex finds in it succeeded, and then the
      collection is kept as the captures. */
  function Match(regex: Regex, m: MessageContent): (r: MatchResult)
    ensures !m.TextMessage? ==> r == MatchResult(false, None)
    ensures m.TextMessage? ==>
      (r.isMatch <==> exists i :: 0 <= i < |regex.matches(m.text)| && regex.matches(m.text)[i].success)
    ensures r.isMatch ==> r.captures == Some(regex.matches(m.text))
    ensures !r.isMatch ==> r.captures == None
  {
    if !m.TextMessage? then MatchResult(false, None)
    else
      var ms := regex.matches(m.text);
      if AnySuccess(ms) then MatchResult(true, Some(ms)) else MatchResult(false, None)
  }

  /** The match a listener reports for a message. */
  function Matcher(l: Listener, m: MessageContent): MatchResult
  {
    match l
    case GenericListener(matcher, _) => matcher(m)
    case TextListener(regex, _) => Match(regex, m)
  }

  /** Runs a callback on a response: Done is set if the callback sets it,
      and the call throws if the callback throws. */
  function Invoke(callback: Callback, response: Response, done: bool): CallOutcome
  {
    var e := callback(response);
    CallOutcome(if e.raises then Raised else Returned(true), true, done || e.setsDone)
  }

  /** Listener<T>.Call and TextListener.Call on a message whose Done flag
      is `done`: run the matcher; on a match, invoke the callback and return
      true. TextListener rejects a message that is not text first. */
  function Call(l: Listener, m: MessageContent, done: bool): CallOutcome
  {
    match l
    case GenericListener(matcher, callback) =>
      var mr := matcher(m);
      if mr.isMatch then Invoke(callback, Response(m, mr), done)
      else CallOutcome(Returned(false), false, done)
    case TextListener(regex, callback) =>
      if !m.TextMessage? then CallOutcome(Returned(false), false, done)
      else
        var mr := Match(regex, m);
        if mr.isMatch then Invoke(callback, Response(m, mr), done)
        else CallOutcome(Returned(false), false, done)
  }

  /** The callback runs exactly when the listener's matcher reports a match;
      the call returns true exactly when the callback ran and did not throw,
      false exactly when it did not run, and throws exactly when the callback
      threw. Only a callback changes Done. A text listener rejects a message
      that is not text with false. */
  lemma CallDecision(l: Listener, m: MessageContent, done: bool)
    ensures var o := Call(l, m, done);
      var e := l.callback(Response(m, Matcher(l, m)));
      (o.invoked <==> Matcher(l, m).isMatch) &&
      (o.result == Returned(true) <==> o.invoked && !e.raises) &&
      (o.result == Returned(false) <==> !o.invoked) &&
      (o.result == Raised <==> o.invoked && e.raises) &&
      (!o.invoked ==> o.done == done) &&
      (o.invoked ==> o.done == (done || e.setsDone)) &&
      (l.TextListener? && !m.TextMessage? ==> o == CallOutcome(Returned(false), false, done))
  {
  }

  /** A call never clears Done. */
  lemma CallKeepsDone(l: Listener, m: MessageContent, done: bool)
    ensures done ==> Call(l, m, done).done
  {
  }
}

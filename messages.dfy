/** Inbound messages, regular-expression matches and the values handed to callbacks. */
module Messages {
  import opened Wrappers

  /** The payload of an inbound event. The kind replaces the run-time type test
      on the Message subclasses (TextMessage, EnterMessage, ...). */
  datatype MessageContent =
    | TextMessage(text: string)
    | EnterMessage
    | LeaveMessage
    | TopicMessage
    | CatchAllMessage

  /** An inbound message. Its content is fixed; its Done flag is set by a
      handler to stop the dispatch of this message to further listeners. */
  class Message {
    const content: MessageContent
    var done: bool

    constructor (content: MessageContent)
      ensures this.content == content && !done
    {
      this.content := content;
      done := false;
    }
  }

  /** One element of the collection a regular expression finds in a text. */
  datatype RegexMatch = RegexMatch(success: bool, value: string)

  /** A compiled regular expression: its pattern text, and the collection of
      matches the regex engine finds for it in a given text. */
  datatype Regex = Regex(pattern: string, matches: string -> seq<RegexMatch>)

  /** The regex engine: compiles a pattern (case-insensitively) into its matcher. */
  type RegexEngine = string -> (string -> seq<RegexMatch>)

  /** Outcome of one match attempt: the matched flag, and the match collection
      when there is one (null otherwise). */
  datatype MatchResult = MatchResult(isMatch: bool, captures: Option<seq<RegexMatch>>)

  /** What a callback receives: the message and the match that selected it. */
  datatype Response = Response(message: MessageContent, matchResult: MatchResult)

  /** What running a callback does to the dispatch: whether it sets the
      message's Done flag, and whether it then throws. A callback that throws
      before setting Done has setsDone == false. */
  datatype Effect = Effect(setsDone: bool, raises: bool)

  /** A listener's action, seen through its effect on the dispatch. */
  type Callback = Response -> Effect
}

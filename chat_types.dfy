/*
 * The data that flows between the dispatcher, the command handlers and the
 * chat service: the two event argument shapes, the calls the IChatService
 * interface offers, and what running asynchronous code against that interface
 * leaves behind (the calls it issued, what it logged, the exception it ended with).
 */
module ChatTypes {
  import opened Text

  /** ChatMessageEventArgs: a normalised chat message that carries one bot command. */
  datatype ChatMessageEventArgs = ChatMessageEventArgs(
    command: Option<string>,
    text: Option<string>,
    userId: int,
    chatId: int,
    messageId: int)

  /** CallbackEventArgs: a button press; `command` is the button's callback data. */
  datatype CallbackEventArgs = CallbackEventArgs(
    chatId: int,
    userId: int,
    messageId: int,
    command: Option<string>)

  /** A Dictionary<string, string> of buttons, as (label, callback data) entries in enumeration order. */
  type Buttons = seq<(string, string)>

  /** A call on the IChatService interface. */
  datatype ServiceCall =
    | Send(chatId: int, message: Option<string>, buttons: Option<Buttons>)
    | Update(chatId: int, messageId: int, newText: Option<string>, buttons: Option<Buttons>)
    | MemberName(chatId: int, userId: int)   // GetChatMemberName

  /** The exceptions the modelled code can raise. */
  datatype Fault =
    | NullReference       // a member accessed through null
    | InvalidOperation    // SingleOrDefault found more than one element
    | ArgumentEmpty       // String.Replace with an empty oldValue
    | ArgumentOutOfRange  // String.Substring with a span outside the string
    | HandlerFailure      // any exception raised inside a command handler

  datatype Result<+T> = Ok(value: T) | Err(fault: Fault)

  /** What the logger records (an outcome tag only; message templates and timestamps are not kept). */
  datatype LogEntry =
    | Critical(callback: CallbackEventArgs)   // LogCritical for an unusable callback
    | Logged(fault: Fault)                    // LogError for a caught exception

  /** The trace of one asynchronous operation: calls issued in order, log entries, and the exception its Task ended with. */
  datatype Execution = Execution(calls: seq<ServiceCall>, logged: seq<LogEntry>, raised: Option<Fault>)

  /** The trace of a single SendMessage call that completes normally. */
  function SendOnly(chatId: int, message: string, buttons: Option<Buttons>): Execution
  {
    Execution([Send(chatId, Some(message), buttons)], [], None)
  }
}

/*
 * IBotCommand: the contract every command handler implements (its token,
 * description, whether it is internal, and Execute), with the interface's
 * default SendMessage.  The handler kinds are the implementations the
 * registry can hold.
 */
module BotCommand {
  import opened Text
  import opened ChatTypes
  import PingCommand
  import HelpCommand

  /**
   * One thing a handler outside this repository does with the arguments it is
   * given, as the IChatService call it makes.
   */
  datatype Step =
    | Say(text: string)     // SendMessage(chatId, text)
    | Echo                  // SendMessage(chatId, commandText): the argument sent back, null included
    | Edit(text: string)    // UpdateMessage(chatId, messageId, text)
    | LookUpUser            // GetChatMemberName(chatId, userId)

  /**
   * The implementation behind a command.  Ping and Help are the handlers of
   * this repository; External stands for any other handler: it makes the
   * calls of its steps in order and then either completes or throws.
   */
  datatype Handler =
    | Ping
    | Help
    | External(steps: seq<Step>, fails: bool)

  /** One registered IBotCommand: Command, Description, InternalCommand and its implementation. */
  datatype Command = Command(name: string, description: string, internalCommand: bool, handler: Handler)

  const PingEntry: Command := Command(PingCommand.Name, PingCommand.Description, PingCommand.InternalCommand, Ping)
  const HelpEntry: Command := Command(HelpCommand.Name, HelpCommand.Description, HelpCommand.InternalCommand, Help)

  /** The commands of this repository, in the order the registry enumerates them. */
  const Registry: seq<Command> := [PingEntry, HelpEntry]

  /** The call one step makes, given the arguments of Execute. */
  function StepCall(step: Step, chatId: int, userId: int, messageId: int, commandText: Option<string>): ServiceCall
  {
    match step
    case Say(text) => Send(chatId, Some(text), None)
    case Echo => Send(chatId, commandText, None)
    case Edit(text) => Update(chatId, messageId, Some(text), None)
    case LookUpUser => MemberName(chatId, userId)
  }

  /**
   * IBotCommand.Execute, dispatched on the implementation.  Every handler only
   * calls the chat service about the chat it was invoked for, logs nothing, and
   * fails only if it is an External handler that throws; an External handler
   * makes one call per step, built from the arguments it was given.
   */
  function Execute(h: Handler, chatId: int, userId: int, messageId: int, commandText: Option<string>): (r: Execution)
    ensures forall k :: 0 <= k < |r.calls| ==> r.calls[k].chatId == chatId
    ensures !h.External? ==> |r.calls| == 1 && r.calls[0].Send? && r.calls[0].buttons == None
    ensures h.External? ==>
              && |r.calls| == |h.steps|
              && forall k :: 0 <= k < |h.steps| ==> r.calls[k] == StepCall(h.steps[k], chatId, userId, messageId, commandText)
    ensures r.logged == []
    ensures r.raised.Some? <==> h.External? && h.fails
    ensures r.raised.Some? ==> r.raised.value == HandlerFailure
  {
    match h
    case Ping => PingCommand.Execute(chatId, userId, messageId, commandText)
    case Help => HelpCommand.Execute(chatId, userId, messageId, commandText)
    case External(steps, fails) =>
      Execution(seq(|steps|, k requires 0 <= k < |steps| => StepCall(steps[k], chatId, userId, messageId, commandText)),
                [], if fails then Some(HandlerFailure) else None)
  }

  /** The default IBotCommand.SendMessage: one IChatService.SendMessage call, arguments forwarded unchanged. */
  function SendMessage(chatId: int, message: string, buttons: Option<Buttons>): (r: Execution)
    ensures r.calls == [Send(chatId, Some(message), buttons)]
    ensures r.logged == [] && r.raised == None
  {
    SendOnly(chatId, message, buttons)
  }

  /** Ping and help accept a null argument, and neither reads user, message or argument. */
  lemma {:induction false} ExecuteIgnoresUserMessageAndText(h: Handler, chatId: int, userId: int, messageId: int,
                                                            text: Option<string>, userId': int, messageId': int)
    requires h == Ping || h == Help
    ensures Execute(h, chatId, userId, messageId, text) == Execute(h, chatId, userId', messageId', None)
  {
    match h
    case Ping => PingCommand.ExecuteSendsPong(chatId, userId, messageId, text, userId', messageId', None);
    case Help => HelpCommand.ExecuteSendsTodo(chatId, userId, messageId, text, userId', messageId', None);
  }

  /** The calls of a handler that echoes its argument, edits its message with `t` and looks up its user. */
  lemma EchoEditLookUpCalls(t: string, fails: bool, chatId: int, userId: int, messageId: int, text: Option<string>)
    ensures Execute(External([Echo, Edit(t), LookUpUser], fails), chatId, userId, messageId, text).calls
            == [Send(chatId, text, None), Update(chatId, messageId, Some(t), None), MemberName(chatId, userId)]
  {
    var h := External([Echo, Edit(t), LookUpUser], fails);
    var calls := Execute(h, chatId, userId, messageId, text).calls;
    assert calls[0] == StepCall(h.steps[0], chatId, userId, messageId, text);
    assert calls[1] == StepCall(h.steps[1], chatId, userId, messageId, text);
    assert calls[2] == StepCall(h.steps[2], chatId, userId, messageId, text);
  }

  /**
   * A handler can see every argument of Execute: for one that echoes its
   * argument, edits its message and looks up its user, the calls it makes
   * determine chat, user, message and text.
   */
  lemma ExecuteSeesItsArguments(t: string, chatId: int, userId: int, messageId: int, text: Option<string>,
                                chatId': int, userId': int, messageId': int, text': Option<string>)
    requires Execute(External([Echo, Edit(t), LookUpUser], false), chatId, userId, messageId, text)
             == Execute(External([Echo, Edit(t), LookUpUser], false), chatId', userId', messageId', text')
    ensures chatId == chatId' && userId == userId' && messageId == messageId' && text == text'
  {
    EchoEditLookUpCalls(t, false, chatId, userId, messageId, text);
    EchoEditLookUpCalls(t, false, chatId', userId', messageId', text');
  }
}

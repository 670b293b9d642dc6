/*
 * Bot: the hosted service that dispatches chat messages and button callbacks
 * to the registered commands.
 *
 * The lookup is LINQ's SingleOrDefault over the registry, matching
 * "/" + Command against the token while ignoring case: no match falls back to
 * a fixed reply (chat messages) or a critical log entry (callbacks), one match
 * runs that handler, and several matches throw.  Every exception is caught per
 * event and logged, so no event affects the handling of another.
 */
module Dispatch {
  import opened Text
  import opened ChatTypes
  import opened BotCommand

  /** Bot.UnknownCommandMessage, written as its two sentences. */
  const UnknownCommandMessage: string := "Unknown command." + " Try /help for a list of available commands."

  /** The `sender` of an event: an IChatService, or some other object. */
  datatype Sender = ChatService | OtherSender

  // ---------------------------------------------------------------------
  // Lookup
  // ---------------------------------------------------------------------

  /** The matching predicate of the lookup: "/" + Command equals the token, ignoring case; null equals nothing. */
  predicate Selects(c: Command, token: Option<string>)
  {
    token.Some? && EqualsIgnoreCase("/" + c.name, token.value)
  }

  ghost predicate NoneSelects(commands: seq<Command>, token: Option<string>)
  {
    forall i :: 0 <= i < |commands| ==> !Selects(commands[i], token)
  }

  ghost predicate SeveralSelect(commands: seq<Command>, token: Option<string>)
  {
    exists i, j :: 0 <= i < j < |commands| && Selects(commands[i], token) && Selects(commands[j], token)
  }

  /** commands[i] is the one and only command the token selects. */
  ghost predicate OnlySelects(commands: seq<Command>, token: Option<string>, i: int)
  {
    && 0 <= i < |commands|
    && Selects(commands[i], token)
    && forall j :: 0 <= j < |commands| && j != i ==> !Selects(commands[j], token)
  }

  /**
   * SingleOrDefault(x => $"/{x.Command}".Equals(token, InvariantCultureIgnoreCase)):
   * the default (None) when nothing matches, the element when exactly one does,
   * and an InvalidOperationException when two or more do.
   */
  function SingleOrDefault(commands: seq<Command>, token: Option<string>): Result<Option<Command>>
  {
    if commands == [] then Ok(None)
    else
      var rest := SingleOrDefault(commands[1..], token);
      if !Selects(commands[0], token) then rest
      else if rest == Ok(None) then Ok(Some(commands[0]))
      else Err(InvalidOperation)
  }

  /**
   * The lookup is empty exactly when nothing matches, throws exactly when two or
   * more match, and otherwise is the one command that matches.
   */
  lemma {:induction false} SingleOrDefaultSpec(commands: seq<Command>, token: Option<string>)
    ensures var r := SingleOrDefault(commands, token);
            && (r == Ok(None) <==> NoneSelects(commands, token))
            && (r.Err? <==> SeveralSelect(commands, token))
            && (r.Err? ==> r.fault == InvalidOperation)
            && (forall i :: OnlySelects(commands, token, i) ==> r == Ok(Some(commands[i])))
  {
    if commands != [] {
      var tail := commands[1..];
      SingleOrDefaultSpec(tail, token);
      var rest := SingleOrDefault(tail, token);
      assert forall i :: 0 <= i < |tail| ==> tail[i] == commands[i + 1];
      if !Selects(commands[0], token) {
        assert SeveralSelect(tail, token) ==> SeveralSelect(commands, token) by {
          if SeveralSelect(tail, token) {
            var i, j :| 0 <= i < j < |tail| && Selects(tail[i], token) && Selects(tail[j], token);
            assert Selects(commands[i + 1], token) && Selects(commands[j + 1], token);
          }
        }
        forall i | OnlySelects(commands, token, i) ensures OnlySelects(tail, token, i - 1) {
          assert i != 0;
        }
      } else if rest == Ok(None) {
        forall i | 0 < i < |commands| ensures !OnlySelects(commands, token, i) {
          assert Selects(commands[0], token);
        }
      } else {
        assert SeveralSelect(commands, token) by {
          assert !NoneSelects(tail, token);
          var j :| 0 <= j < |tail| && Selects(tail[j], token);
          assert Selects(commands[0], token) && Selects(commands[j + 1], token);
        }
      }
    }
  }

  /** Ignore-case tokens that are equal select the same command, so they resolve alike. */
  lemma {:induction false} SingleOrDefaultIgnoresCase(commands: seq<Command>, t: string, t': string)
    requires EqualsIgnoreCase(t, t')
    ensures SingleOrDefault(commands, Some(t)) == SingleOrDefault(commands, Some(t'))
  {
    if commands != [] {
      EqualsIgnoreCaseEquivalence("/" + commands[0].name, t, t');
      EqualsIgnoreCaseEquivalence("/" + commands[0].name, t', t);
      EqualsIgnoreCaseEquivalence(t, t', t);
      SingleOrDefaultIgnoresCase(commands[1..], t, t');
    }
  }

  // ---------------------------------------------------------------------
  // Processing one event
  // ---------------------------------------------------------------------

  /** IBotCommand's default UnknownCommand: the fixed reply through the default SendMessage, without buttons. */
  function UnknownCommand(chatId: int): (r: Execution)
    ensures r.calls == [Send(chatId, Some(UnknownCommandMessage), None)]
    ensures r.logged == [] && r.raised == None
  {
    BotCommand.SendMessage(chatId, UnknownCommandMessage, None)
  }

  /**
   * Bot.ProcessChatMessage: nothing unless the sender is a chat service; the
   * unknown-command reply when no command matches (a null token included); the
   * matching handler, with the event's ids and text unchanged, when exactly one
   * matches; an InvalidOperationException, before anything is sent, when several do.
   */
  function ProcessChatMessage(commands: seq<Command>, sender: Sender, args: ChatMessageEventArgs): (r: Execution)
    ensures sender == OtherSender ==> r == Execution([], [], None)
    ensures sender == ChatService && NoneSelects(commands, args.command) ==>
              r == Execution([Send(args.chatId, Some(UnknownCommandMessage), None)], [], None)
    ensures sender == ChatService && SeveralSelect(commands, args.command) ==>
              r == Execution([], [], Some(InvalidOperation))
    ensures sender == ChatService ==>
              forall i :: OnlySelects(commands, args.command, i) ==>
                r == Execute(commands[i].handler, args.chatId, args.userId, args.messageId, args.text)
  {
    if sender == OtherSender then Execution([], [], None)
    else
      SingleOrDefaultSpec(commands, args.command);
      match SingleOrDefault(commands, args.command)
      case Err(f) => Execution([], [], Some(f))
      case Ok(None) => Execution([Send(args.chatId, Some(UnknownCommandMessage), None)], [], None)
      case Ok(Some(c)) => Execute(c.handler, args.chatId, args.userId, args.messageId, args.text)
  }

  /** The dispatcher's fallback reply is exactly what IBotCommand.UnknownCommand sends. */
  lemma FallbackIsUnknownCommand(commands: seq<Command>, args: ChatMessageEventArgs)
    requires NoneSelects(commands, args.command)
    ensures ProcessChatMessage(commands, ChatService, args) == UnknownCommand(args.chatId)
  {
  }

  /** The callback token: the payload up to its first space (Split(' ').First()), null for a null payload. */
  function CallbackToken(payload: Option<string>): (r: Option<string>)
    ensures r.None? <==> payload.None?
    ensures r.Some? ==> r.value <= payload.value && ' ' !in r.value
    ensures r.Some? ==> |r.value| == |payload.value| || payload.value[|r.value|] == ' '
  {
    if payload.None? then None else Some(UpToFirstSpace(payload.value))
  }

  /** The callback argument: the payload with every occurrence of the token removed, then trimmed. */
  function CallbackArgument(payload: string, token: string): string
    requires token != []
  {
    Trim(Replace(payload, token, ""))
  }

  /**
   * Bot.ProcessCallback: nothing unless the sender is a chat service; a critical
   * log entry and no message when the payload is null or empty or its token
   * matches nothing; the matching handler with the callback argument when
   * exactly one matches; an InvalidOperationException when several do.
   */
  function ProcessCallback(commands: seq<Command>, sender: Sender, args: CallbackEventArgs): (r: Execution)
    ensures sender == OtherSender ==> r == Execution([], [], None)
    ensures sender == ChatService && (args.command.None? || args.command == Some([])) ==>
              r == Execution([], [Critical(args)], None)
    ensures sender == ChatService && NoneSelects(commands, CallbackToken(args.command)) ==>
              r == Execution([], [Critical(args)], None)
    ensures sender == ChatService && SeveralSelect(commands, CallbackToken(args.command)) ==>
              r == Execution([], [], Some(InvalidOperation))
    ensures sender == ChatService ==>
              forall i :: OnlySelects(commands, CallbackToken(args.command), i) ==>
                r == Execute(commands[i].handler, args.chatId, args.userId, args.messageId,
                             Some(CallbackArgument(args.command.value, CallbackToken(args.command).value)))
  {
    if sender == OtherSender then Execution([], [], None)
    else
      var commandText := CallbackToken(args.command);
      SingleOrDefaultSpec(commands, commandText);
      match SingleOrDefault(commands, commandText)
      case Err(f) => Execution([], [], Some(f))
      case Ok(found) =>
        if found.Some? && commandText.Some? && commandText.value != [] then
          Execute(found.value.handler, args.chatId, args.userId, args.messageId,
                  Some(CallbackArgument(args.command.value, commandText.value)))
        else
          Execution([], [Critical(args)], None)
  }

  /**
   * The matching handler receives the event's chat, user, message and text
   * unchanged: a handler that echoes its argument, edits its message and looks
   * up its user makes exactly those calls with the event's values.
   */
  lemma ChatMessageArgumentsReachHandler(commands: seq<Command>, args: ChatMessageEventArgs, i: int, t: string, fails: bool)
    requires OnlySelects(commands, args.command, i)
    requires commands[i].handler == External([Echo, Edit(t), LookUpUser], fails)
    ensures ProcessChatMessage(commands, ChatService, args).calls
            == [Send(args.chatId, args.text, None), Update(args.chatId, args.messageId, Some(t), None),
                MemberName(args.chatId, args.userId)]
  {
    EchoEditLookUpCalls(t, fails, args.chatId, args.userId, args.messageId, args.text);
  }

  /**
   * The matching handler of a callback receives the callback argument and the
   * event's chat, user and message: an echoing handler sends the argument back.
   */
  lemma CallbackArgumentReachesHandler(commands: seq<Command>, args: CallbackEventArgs, i: int, t: string, fails: bool)
    requires OnlySelects(commands, CallbackToken(args.command), i)
    requires commands[i].handler == External([Echo, Edit(t), LookUpUser], fails)
    ensures args.command.Some? && CallbackToken(args.command).value != []
    ensures ProcessCallback(commands, ChatService, args).calls
            == [Send(args.chatId, Some(CallbackArgument(args.command.value, CallbackToken(args.command).value)), None),
                Update(args.chatId, args.messageId, Some(t), None), MemberName(args.chatId, args.userId)]
  {
    var token := CallbackToken(args.command);
    assert Selects(commands[i], token);
    assert |token.value| == |"/" + commands[i].name|;
    var arg := Some(CallbackArgument(args.command.value, token.value));
    assert ProcessCallback(commands, ChatService, args)
           == Execute(commands[i].handler, args.chatId, args.userId, args.messageId, arg);
    EchoEditLookUpCalls(t, fails, args.chatId, args.userId, args.messageId, arg);
  }

  /** A word without spaces, followed by a space, is what Split(' ').First() returns. */
  lemma {:induction false} UpToFirstSpaceOfWord(w: string, rest: string)
    requires ' ' !in w
    ensures UpToFirstSpace(w + " " + rest) == w
    decreases |w|
  {
    if w == [] {
      assert w + " " + rest == " " + rest;
    } else {
      assert (w + " " + rest)[0] == w[0];
      assert (w + " " + rest)[1..] == w[1..] + " " + rest;
      UpToFirstSpaceOfWord(w[1..], rest);
    }
  }

  /**
   * A payload made of a token, a space and a remainder in which the token does
   * not occur again splits into that token and the trimmed remainder.
   */
  lemma CallbackSplitsAtFirstSpace(token: string, rest: string)
    requires token != [] && ' ' !in token
    requires !Occurs(" " + rest, token)
    ensures CallbackToken(Some(token + " " + rest)) == Some(token)
    ensures CallbackArgument(token + " " + rest, token) == Trim(rest)
  {
    var payload := token + " " + rest;
    UpToFirstSpaceOfWord(token, rest);
    assert payload == token + (" " + rest);
    RemoveLeading(token, " " + rest);
    assert AllWhiteSpace(" ");
    TrimSkipsLeadingWhiteSpace(" ", rest);
  }

  // ---------------------------------------------------------------------
  // Per-event isolation
  // ---------------------------------------------------------------------

  /** An event as the chat service delivers it to the bot. */
  datatype InboundEvent =
    | ChatMessage(sender: Sender, message: ChatMessageEventArgs)
    | Callback(sender: Sender, callback: CallbackEventArgs)

  /** What the bot has done so far: the chat-service calls it issued and its log, both in order. */
  datatype Effects = Effects(calls: seq<ServiceCall>, log: seq<LogEntry>)

  function Then(a: Effects, b: Effects): Effects
  {
    Effects(a.calls + b.calls, a.log + b.log)
  }

  /** The processing of one event, before the catch. */
  function Process(commands: seq<Command>, ev: InboundEvent): Execution
  {
    match ev
    case ChatMessage(sender, args) => ProcessChatMessage(commands, sender, args)
    case Callback(sender, args) => ProcessCallback(commands, sender, args)
  }

  /** The try/catch of OnChatMessage and OnCallback: the exception, if any, becomes one LogError entry. */
  function Caught(e: Execution): Effects
  {
    Effects(e.calls, e.logged + if e.raised.Some? then [Logged(e.raised.value)] else [])
  }

  function Handle(commands: seq<Command>, ev: InboundEvent): Effects
  {
    Caught(Process(commands, ev))
  }

  /** The effects of running `handle` on each event in turn. */
  function RunEach(handle: InboundEvent -> Effects, events: seq<InboundEvent>): Effects
  {
    if events == [] then Effects([], [])
    else Then(RunEach(handle, events[..|events| - 1]), handle(events[|events| - 1]))
  }

  lemma {:induction false} RunEachAppend(handle: InboundEvent -> Effects, a: seq<InboundEvent>, b: seq<InboundEvent>)
    ensures RunEach(handle, a + b) == Then(RunEach(handle, a), RunEach(handle, b))
    decreases |b|
  {
    if b == [] {
      assert a + b == a;
    } else {
      assert (a + b)[..|a + b| - 1] == a + b[..|b| - 1];
      assert (a + b)[|a + b| - 1] == b[|b| - 1];
      RunEachAppend(handle, a, b[..|b| - 1]);
    }
  }

  /** The effects of the bot handling a sequence of events one after the other. */
  function HandleAll(commands: seq<Command>, events: seq<InboundEvent>): Effects
  {
    RunEach(ev => Handle(commands, ev), events)
  }

  /** Handling an event is processing it inside the try/catch. */
  lemma HandleIsCaught(commands: seq<Command>, ev: InboundEvent)
    ensures ev.ChatMessage? ==> Handle(commands, ev) == Caught(ProcessChatMessage(commands, ev.sender, ev.message))
    ensures ev.Callback? ==> Handle(commands, ev) == Caught(ProcessCallback(commands, ev.sender, ev.callback))
  {
  }

  /** Handling one more event appends that event's effects. */
  lemma HandleAllSnoc(commands: seq<Command>, events: seq<InboundEvent>, ev: InboundEvent)
    ensures HandleAll(commands, events + [ev]) == Then(HandleAll(commands, events), Handle(commands, ev))
  {
    assert (events + [ev])[..|events + [ev]| - 1] == events;
  }

  /** No event affects another: the effects of two runs of events are those of each run, concatenated. */
  lemma HandleAllAppend(commands: seq<Command>, a: seq<InboundEvent>, b: seq<InboundEvent>)
    ensures HandleAll(commands, a + b) == Then(HandleAll(commands, a), HandleAll(commands, b))
  {
    RunEachAppend(ev => Handle(commands, ev), a, b);
  }

  /**
   * An event whose processing throws leaves the calls it made before the throw
   * and one LogError entry; the events after it are handled exactly as if it
   * had not happened.
   */
  lemma FaultIsLoggedAndIsolated(commands: seq<Command>, before: seq<InboundEvent>, ev: InboundEvent,
                                 after: seq<InboundEvent>)
    requires Process(commands, ev).raised.Some?
    ensures HandleAll(commands, before + [ev] + after) ==
            Then(Then(HandleAll(commands, before),
                      Effects(Process(commands, ev).calls,
                              Process(commands, ev).logged + [Logged(Process(commands, ev).raised.value)])),
                 HandleAll(commands, after))
  {
    HandleAllAppend(commands, before + [ev], after);
    HandleAllAppend(commands, before, [ev]);
    assert [ev][..0] == [];
  }

  function Repeat<T>(x: T, n: nat): (r: seq<T>)
    ensures |r| == n && forall k :: 0 <= k < n ==> r[k] == x
  {
    seq(n, _ => x)
  }

  // ---------------------------------------------------------------------
  // The hosted service
  // ---------------------------------------------------------------------

  /**
   * Bot.  The subscription counts say how many times OnChatMessage and
   * OnCallback stand in the chat service's ChatMessage and Callback event lists
   * (an event handler may be added more than once).  `calls` and `log` record
   * what the bot has done; `handled` is the events its handlers have run for.
   */
  class Bot {
    const commands: seq<Command>
    var chatMessageSubscriptions: nat
    var callbackSubscriptions: nat
    var calls: seq<ServiceCall>
    var log: seq<LogEntry>
    ghost var handled: seq<InboundEvent>

    /** What the bot did is determined by the events it handled, each on its own. */
    ghost predicate Valid()
      reads this
    {
      Effects(calls, log) == HandleAll(commands, handled)
    }

    constructor(commands: seq<Command>)
      ensures Valid() && this.commands == commands && handled == [] && calls == [] && log == []
      ensures chatMessageSubscriptions == 0 && callbackSubscriptions == 0
    {
      this.commands := commands;
      chatMessageSubscriptions, callbackSubscriptions := 0, 0;
      calls, log := [], [];
      handled := [];
    }

    /** Bot.StartAsync: subscribes to both events. */
    method StartAsync()
      modifies this`chatMessageSubscriptions, this`callbackSubscriptions
      ensures chatMessageSubscriptions == old(chatMessageSubscriptions) + 1
      ensures callbackSubscriptions == old(callbackSubscriptions) + 1
    {
      chatMessageSubscriptions := chatMessageSubscriptions + 1;
      callbackSubscriptions := callbackSubscriptions + 1;
    }

    /** Bot.StopAsync: unsubscribes from chat messages only; callbacks stay subscribed. */
    method StopAsync()
      modifies this`chatMessageSubscriptions
      ensures chatMessageSubscriptions == if old(chatMessageSubscriptions) > 0 then old(chatMessageSubscriptions) - 1 else 0
      ensures callbackSubscriptions == old(callbackSubscriptions)
    {
      if chatMessageSubscriptions > 0 {
        chatMessageSubscriptions := chatMessageSubscriptions - 1;
      }
    }

    /** The try/catch of both handlers: keeps the calls `e` made and, if it threw, logs one error entry. */
    method Catch(ghost ev: InboundEvent, e: Execution)
      requires Valid() && Handle(commands, ev) == Caught(e)
      modifies this`calls, this`log, this`handled
      ensures Valid() && handled == old(handled) + [ev]
      ensures calls == old(calls) + e.calls
      ensures log == old(log) + Caught(e).log
    {
      calls := calls + e.calls;
      log := log + e.logged;
      if e.raised.Some? {
        log := log + [Logged(e.raised.value)];
      }
      HandleAllSnoc(commands, handled, ev);
      handled := handled + [ev];
    }

    /** Bot.OnChatMessage: processes the message and catches and logs whatever it throws. */
    method OnChatMessage(sender: Sender, args: ChatMessageEventArgs)
      requires Valid()
      modifies this`calls, this`log, this`handled
      ensures Valid() && handled == old(handled) + [ChatMessage(sender, args)]
      ensures calls == old(calls) + ProcessChatMessage(commands, sender, args).calls
      ensures log == old(log) + Handle(commands, ChatMessage(sender, args)).log
    {
      var e := ProcessChatMessage(commands, sender, args);
      HandleIsCaught(commands, ChatMessage(sender, args));
      Catch(ChatMessage(sender, args), e);
    }

    /** Bot.OnCallback: processes the callback and catches and logs whatever it throws. */
    method OnCallback(sender: Sender, args: CallbackEventArgs)
      requires Valid()
      modifies this`calls, this`log, this`handled
      ensures Valid() && handled == old(handled) + [Callback(sender, args)]
      ensures calls == old(calls) + ProcessCallback(commands, sender, args).calls
      ensures log == old(log) + Handle(commands, Callback(sender, args)).log
    {
      var e := ProcessCallback(commands, sender, args);
      HandleIsCaught(commands, Callback(sender, args));
      Catch(Callback(sender, args), e);
    }

    /** The chat service raising ChatMessage: OnChatMessage runs once per subscription, so not at all after StopAsync. */
    method DeliverChatMessage(sender: Sender, args: ChatMessageEventArgs)
      requires Valid()
      modifies this`calls, this`log, this`handled
      ensures Valid()
      ensures handled == old(handled) + Repeat(ChatMessage(sender, args), chatMessageSubscriptions)
      ensures chatMessageSubscriptions == 0 ==> calls == old(calls) && log == old(log)
    {
      var k := 0;
      while k < chatMessageSubscriptions
        invariant 0 <= k <= chatMessageSubscriptions
        invariant Valid()
        invariant handled == old(handled) + Repeat(ChatMessage(sender, args), k)
      {
        OnChatMessage(sender, args);
        k := k + 1;
      }
    }

    /** The chat service raising Callback: OnCallback runs once per subscription. */
    method DeliverCallback(sender: Sender, args: CallbackEventArgs)
      requires Valid()
      modifies this`calls, this`log, this`handled
      ensures Valid()
      ensures handled == old(handled) + Repeat(Callback(sender, args), callbackSubscriptions)
      ensures callbackSubscriptions == 0 ==> calls == old(calls) && log == old(log)
    {
      var k := 0;
      while k < callbackSubscriptions
        invariant 0 <= k <= callbackSubscriptions
        invariant Valid()
        invariant handled == old(handled) + Repeat(Callback(sender, args), k)
      {
        OnCallback(sender, args);
        k := k + 1;
      }
    }
  }
}

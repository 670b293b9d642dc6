/*
 * End-to-end consequences of the bot and the Telegram service working
 * together with the shipped registry of ping and help.
 */
module Scenarios {
  import opened Text
  import opened ChatTypes
  import opened BotCommand
  import opened Dispatch
  import opened Telegram

  function ChatArgs(command: string, chatId: int, userId: int, messageId: int): ChatMessageEventArgs
  {
    ChatMessageEventArgs(Some(command), Some([]), userId, chatId, messageId)
  }

  /** Any spelling of "/ping" that differs only in case selects ping and nothing else. */
  lemma PingSelectedAlone(t: string)
    requires EqualsIgnoreCase("/ping", t)
    ensures OnlySelects(Registry, Some(t), 0)
  {
    assert "/" + PingEntry.name == "/ping";
    assert "/" + HelpEntry.name == "/help";
    assert FoldCase("/help"[1]) != FoldCase(t[1]) by {
      assert FoldCase("/ping"[1]) == FoldCase(t[1]);
    }
  }

  /** "/PING" and "/ping" both select the ping command, so both get "pong". */
  lemma PingIgnoresCase(chatId: int, userId: int, messageId: int)
    ensures ProcessChatMessage(Registry, ChatService, ChatArgs("/PING", chatId, userId, messageId))
            == Execution([Send(chatId, Some("pong"), None)], [], None)
    ensures ProcessChatMessage(Registry, ChatService, ChatArgs("/ping", chatId, userId, messageId))
            == Execution([Send(chatId, Some("pong"), None)], [], None)
  {
    PingSelectedAlone("/PING");
    PingSelectedAlone("/ping");
  }

  /** A token without the leading "/" selects nothing: the user gets the unknown-command reply. */
  lemma BareNameIsUnknown(chatId: int, userId: int, messageId: int)
    ensures ProcessChatMessage(Registry, ChatService, ChatArgs("ping", chatId, userId, messageId))
            == UnknownCommand(chatId)
  {
    assert |"/" + PingEntry.name| == 5 != |"ping"|;
    assert |"/" + HelpEntry.name| == 5 != |"ping"|;
    assert NoneSelects(Registry, Some("ping"));
  }

  /**
   * A button whose data is "/ping" followed by a space and arguments without a
   * "/" runs ping, which is handed the trimmed arguments.
   */
  lemma CallbackWithArguments(rest: string, chatId: int, userId: int, messageId: int)
    requires '/' !in rest
    ensures CallbackToken(Some("/ping " + rest)) == Some("/ping")
    ensures CallbackArgument("/ping " + rest, "/ping") == Trim(rest)
    ensures ProcessCallback(Registry, ChatService, CallbackEventArgs(chatId, userId, messageId, Some("/ping " + rest)))
            == Execution([Send(chatId, Some("pong"), None)], [], None)
  {
    assert '/' !in " " + rest;
    NotOccursWhenHeadAbsent(" " + rest, "/ping");
    assert ' ' !in "/ping";
    CallbackSplitsAtFirstSpace("/ping", rest);
    assert "/ping" + " " + rest == "/ping " + rest;
    PingSelectedAlone("/ping");
  }

  /** With ping registered twice, the lookup throws; the bot replies nothing and logs the exception. */
  lemma DuplicateRegistrationOnlyLogs(chatId: int, userId: int, messageId: int)
    ensures HandleAll([PingEntry, PingEntry], [ChatMessage(ChatService, ChatArgs("/ping", chatId, userId, messageId))])
            == Effects([], [Logged(InvalidOperation)])
  {
    var args := ChatArgs("/ping", chatId, userId, messageId);
    assert "/" + PingEntry.name == "/ping";
    assert SeveralSelect([PingEntry, PingEntry], Some("/ping")) by {
      assert Selects([PingEntry, PingEntry][0], Some("/ping"));
      assert Selects([PingEntry, PingEntry][1], Some("/ping"));
    }
    HandleOne([PingEntry, PingEntry], ChatMessage(ChatService, args));
  }

  /** Handling a single event is handling that event. */
  lemma HandleOne(commands: seq<Command>, ev: InboundEvent)
    ensures HandleAll(commands, [ev]) == Handle(commands, ev)
  {
    var h := Handle(commands, ev);
    assert [ev][..0] == [] && [ev][|[ev]| - 1] == ev;
    assert RunEach(e => Handle(commands, e), [ev]) == Then(Effects([], []), h);
    assert [] + h.calls == h.calls && [] + h.log == h.log;
  }

  /** The command menu the shipped bot publishes: ping, then help, with their descriptions. */
  lemma PublishedRegistry()
    ensures Published(Registry) == [BotCommandInfo("ping", PingCommand.Description),
                                    BotCommandInfo("help", HelpCommand.Description)]
  {
  }

  /** A reply with no buttons becomes a MarkdownV2 text message carrying the escaped reply. */
  lemma SendServed(chatId: int, message: string)
    ensures Serve(Send(chatId, Some(message), None)) == Ok(SendTextMessage(chatId, MarkdownEscape(message), MarkdownV2, None))
  {
  }

  /** A reply without a reserved character reaches the client unchanged. */
  lemma PlainReplySentAsIs(chatId: int, message: string)
    requires forall c :: c in message ==> c !in Reserved
    ensures Serve(Send(chatId, Some(message), None)) == Ok(SendTextMessage(chatId, message, MarkdownV2, None))
  {
    PlainTextUnchanged(message, Reserved);
  }

  /** "pong" has no reserved character, so it is sent as it is. */
  lemma PongIsPlain(chatId: int)
    ensures Serve(Send(chatId, Some("pong"), None)) == Ok(SendTextMessage(chatId, "pong", MarkdownV2, None))
  {
    PongHasNothingToEscape();
    PlainReplySentAsIs(chatId, "pong");
  }

  /** None of the characters of "pong" is escaped. */
  lemma PongHasNothingToEscape()
    ensures forall c :: c in "pong" ==> c !in Reserved
  {
    forall c | c in "pong" ensures c !in Reserved {
      assert c == 'p' || c == 'o' || c == 'n' || c == 'g';
    }
  }

  /** Letters, spaces and slashes are not reserved. */
  predicate PlainChar(c: char)
  {
    'a' <= c <= 'z' || 'A' <= c <= 'Z' || c == ' ' || c == '/'
  }

  /** A text made of letters, spaces and slashes is left as it is by the escaping. */
  lemma PlainWordsUnchanged(s: string)
    requires forall k :: 0 <= k < |s| ==> PlainChar(s[k])
    ensures MarkdownEscape(s) == s
  {
    forall c | c in s ensures c !in Reserved {
      assert PlainChar(c);
    }
    PlainTextUnchanged(s, Reserved);
  }

  /** Escaping a text made of two plain pieces, each closed by a full stop, escapes just the two stops. */
  lemma {:induction false} EscapeTwoSentences(a: string, b: string)
    requires MarkdownEscape(a) == a && MarkdownEscape(b) == b
    ensures MarkdownEscape(a + "." + b + ".") == a + "\\." + b + "\\."
  {
    assert MarkdownEscape(".") == "\\." by {
      assert '.' in Reserved;
    }
    EscapeOnlyAppend(a + "." + b, ".", Reserved);
    EscapeOnlyAppend(a + ".", b, Reserved);
    EscapeOnlyAppend(a, ".", Reserved);
  }

  /** The unknown-command reply is two sentences, each closed by a full stop. */
  lemma UnknownReplySentences(a: string, b: string)
    requires a == "Unknown command" && b == " Try /help for a list of available commands"
    ensures UnknownCommandMessage == a + "." + b + "."
  {
    assert a + "." == "Unknown command.";
    assert b + "." == " Try /help for a list of available commands.";
  }

  /** The second sentence of the unknown-command reply, without its stop, holds no reserved character. */
  lemma TryHelpIsPlain(b: string)
    requires b == " Try /help for a list of available commands"
    ensures MarkdownEscape(b) == b
  {
    PlainWordsUnchanged(b);
  }

  /**
   * The unknown-command reply goes out with a backslash before each of its
   * two full stops, while its "/" (not a reserved character) is left alone.
   */
  lemma UnknownReplyEscaped(chatId: int)
    ensures Serve(Send(chatId, Some(UnknownCommandMessage), None))
            == Ok(SendTextMessage(chatId, "Unknown command" + "\\." + " Try /help for a list of available commands" + "\\.",
                                  MarkdownV2, None))
  {
    var a, b := "Unknown command", " Try /help for a list of available commands";
    UnknownReplySentences(a, b);
    PlainWordsUnchanged(a);
    TryHelpIsPlain(b);
    EscapeTwoSentences(a, b);
    SendServed(chatId, UnknownCommandMessage);
  }

  /** A Telegram message "/ping" makes the service raise a ChatMessage event for "/ping" with empty text. */
  lemma PingMessageRaises(username: string, chatId: int, fromId: int, messageId: int)
    ensures ReadMessage(Message(Some("/ping"), Some([MessageEntity(CommandEntity, 0, 5)]), chatId, fromId, messageId),
                        BotUserName(username), true)
            == Raised(ChatArgs("/ping", chatId, fromId, messageId))
  {
    NotOccursWhenHeadAbsent("/ping", BotUserName(username));
    NotOccursWhenHeadAbsent([], "/ping");
    CommandThenText("/ping", [], username, chatId, fromId, messageId);
    assert "/ping" + [] == "/ping";
    assert Trim([]) == [];
  }

  /**
   * A Telegram message "/ping" from any chat: the service raises a ChatMessage
   * event for "/ping", the bot answers "pong", and the service sends "pong" as
   * MarkdownV2 to the same chat.
   */
  lemma PingEndToEnd(username: string, chatId: int, fromId: int, messageId: int)
    ensures var m := Message(Some("/ping"), Some([MessageEntity(CommandEntity, 0, 5)]), chatId, fromId, messageId);
            var r := ReadMessage(m, BotUserName(username), true);
            && r.Raised?
            && var e := ProcessChatMessage(Registry, ChatService, r.args);
            && e == Execution([Send(chatId, Some("pong"), None)], [], None)
            && Serve(e.calls[0]) == Ok(SendTextMessage(chatId, "pong", MarkdownV2, None))
  {
    PingMessageRaises(username, chatId, fromId, messageId);
    PingIgnoresCase(chatId, fromId, messageId);
    PongIsPlain(chatId);
  }

  /** Pressing button k of a keyboard raises a Callback event carrying exactly that entry's value. */
  lemma PressedButtonCarriesItsValue(buttons: Buttons, k: int, fromId: int, chatId: int, messageId: int)
    requires 0 <= k < |buttons|
    ensures var button := KeyboardOf(Some(buttons)).value[k];
            && button.text == buttons[k].0
            && CallbackEventOf(CallbackQuery(Some(button.callbackData), fromId, chatId, messageId))
               == CallbackEventArgs(chatId, fromId, messageId, Some(buttons[k].1))
  {
  }

  /** A button whose data is just "/ping" runs ping. */
  lemma BarePingCallback(chatId: int, userId: int, messageId: int)
    ensures ProcessCallback(Registry, ChatService, CallbackEventArgs(chatId, userId, messageId, Some("/ping")))
            == Execution([Send(chatId, Some("pong"), None)], [], None)
  {
    var t := UpToFirstSpace("/ping");
    assert ' ' !in "/ping";
    assert t == "/ping";
    PingSelectedAlone("/ping");
  }

  /** After StopAsync, chat messages are no longer handled but button presses still are. */
  method StopKeepsCallbacks(chatId: int, userId: int, messageId: int)
    returns (chatCalls: seq<ServiceCall>, callbackCalls: seq<ServiceCall>)
    ensures chatCalls == []
    ensures callbackCalls == [Send(chatId, Some("pong"), None)]
  {
    var bot := new Bot(Registry);
    bot.StartAsync();
    bot.StopAsync();
    bot.DeliverChatMessage(ChatService, ChatArgs("/ping", chatId, userId, messageId));
    chatCalls := bot.calls;
    bot.DeliverCallback(ChatService, CallbackEventArgs(chatId, userId, messageId, Some("/ping")));
    callbackCalls := bot.calls;
    var ev := Callback(ChatService, CallbackEventArgs(chatId, userId, messageId, Some("/ping")));
    assert bot.handled == [ev];
    HandleOne(Registry, ev);
    BarePingCallback(chatId, userId, messageId);
  }

  /** Disposing the service unsubscribes OnMessage once; OnCallbackQuery stays subscribed, and a second Dispose does nothing. */
  method DisposeKeepsCallbackQueries(username: string) returns (messageSubs: nat, callbackSubs: nat)
    ensures messageSubs == 0 && callbackSubs == 1
  {
    var service := new TelegramService(Registry, username);
    service.Dispose();
    service.Dispose();
    messageSubs, callbackSubs := service.messageSubscriptions, service.callbackQuerySubscriptions;
  }
}

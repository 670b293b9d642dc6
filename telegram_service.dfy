/*
 * TelegramService: the chat service that binds the bot to the Telegram Bot
 * API client.  Inbound, it turns a client message into at most one
 * ChatMessage event and a button press into a Callback event; outbound, it
 * escapes text for MarkdownV2, builds inline keyboards and reports whether
 * the client call completed.  Calls into the client are recorded as
 * requests; the client's own behaviour is not modelled.
 */
module Telegram {
  import opened Text
  import opened ChatTypes
  import opened BotCommand

  // ---------------------------------------------------------------------
  // Shapes of the Telegram Bot API client
  // ---------------------------------------------------------------------

  datatype MessageEntityType = CommandEntity | OtherEntity

  /** A message entity: its type and the span of the message text it covers. */
  datatype MessageEntity = MessageEntity(kind: MessageEntityType, offset: int, length: int)

  datatype Message = Message(
    text: Option<string>,
    entities: Option<seq<MessageEntity>>,
    chatId: int,
    fromId: int,
    messageId: int)

  /** A button press: the button's data, who pressed it, and the message that carried the keyboard. */
  datatype CallbackQuery = CallbackQuery(data: Option<string>, fromId: int, chatId: int, messageId: int)

  datatype InlineKeyboardButton = InlineKeyboardButton(text: string, callbackData: string)

  /** The client's BotCommand: one entry of the published command menu. */
  datatype BotCommandInfo = BotCommandInfo(command: string, description: string)

  datatype ParseMode = PlainText | MarkdownV2

  /** A call made on the Telegram client. */
  datatype ClientRequest =
    | SetMyCommands(commands: seq<BotCommandInfo>)
    | StartReceiving
    | SendTextMessage(chatId: int, text: string, parseMode: ParseMode, replyMarkup: Option<seq<InlineKeyboardButton>>)
    | EditMessageText(chatId: int, messageId: int, text: string, parseMode: ParseMode,
                      replyMarkup: Option<seq<InlineKeyboardButton>>)
    | EditMessageReplyMarkup(chatId: int, messageId: int, replyMarkup: Option<seq<InlineKeyboardButton>>)
    | GetChatMember(chatId: int, userId: int)
    | GetMe

  /** The user of a chat member as the client returns it: an optional user name and a first name. */
  datatype ChatUser = ChatUser(username: Option<string>, firstName: string)

  /** The `sender` of a client event: the TelegramBotClient, or some other object. */
  datatype EventSource = BotClient | OtherSource

  const OneCommandMessage: string := "Please only send one command at a time."

  /** BotUserName: "@" followed by the bot's user name, which can be read back from it. */
  function BotUserName(username: string): (r: string)
    ensures |r| == |username| + 1 && r[0] == '@' && r[1..] == username
  {
    "@" + username
  }

  // ---------------------------------------------------------------------
  // The published command menu
  // ---------------------------------------------------------------------

  /** RegisterCommands' query: the non-internal commands as (Command, Description) pairs, in order. */
  function Published(commands: seq<Command>): (r: seq<BotCommandInfo>)
    ensures |r| <= |commands|
    ensures forall x :: x in r ==>
              exists c :: c in commands && !c.internalCommand && x == BotCommandInfo(c.name, c.description)
  {
    if commands == [] then []
    else
      (if commands[0].internalCommand then [] else [BotCommandInfo(commands[0].name, commands[0].description)])
      + Published(commands[1..])
  }

  /** Every non-internal command is published. */
  lemma {:induction false} PublishedComplete(commands: seq<Command>, c: Command)
    requires c in commands && !c.internalCommand
    ensures BotCommandInfo(c.name, c.description) in Published(commands)
  {
    if commands[0] != c {
      PublishedComplete(commands[1..], c);
    }
  }

  /** Publishing keeps the registry's order: the menu of a concatenation is the concatenation of the menus. */
  lemma {:induction false} PublishedAppend(a: seq<Command>, b: seq<Command>)
    ensures Published(a + b) == Published(a) + Published(b)
  {
    if a == [] {
      assert a + b == b;
    } else {
      assert (a + b)[0] == a[0];
      assert (a + b)[1..] == a[1..] + b;
      PublishedAppend(a[1..], b);
    }
  }

  // ---------------------------------------------------------------------
  // Inbound messages
  // ---------------------------------------------------------------------

  /**
   * The bot-command entities of a message, in order: each command entity as
   * often as the message has it, and no other entity.
   */
  function CommandEntities(entities: seq<MessageEntity>): (r: seq<MessageEntity>)
    ensures |r| <= |entities|
    ensures forall e :: e in r <==> e in entities && e.kind == CommandEntity
  {
    if entities == [] then []
    else (if entities[0].kind == CommandEntity then [entities[0]] else []) + CommandEntities(entities[1..])
  }

  /** Each command entity is kept as often as the message has it, and no other entity is kept. */
  lemma {:induction false} CommandEntitiesMultiset(entities: seq<MessageEntity>)
    ensures forall e :: multiset(CommandEntities(entities))[e] == if e.kind == CommandEntity then multiset(entities)[e] else 0
  {
    if entities != [] {
      CommandEntitiesMultiset(entities[1..]);
      assert entities == [entities[0]] + entities[1..];
    }
  }

  /** The command entities of two runs of entities are those of the first run, then those of the second. */
  lemma {:induction false} CommandEntitiesAppend(a: seq<MessageEntity>, b: seq<MessageEntity>)
    ensures CommandEntities(a + b) == CommandEntities(a) + CommandEntities(b)
  {
    if a == [] {
      assert a + b == b;
    } else {
      assert (a + b)[0] == a[0];
      assert (a + b)[1..] == a[1..] + b;
      CommandEntitiesAppend(a[1..], b);
    }
  }

  /** The message has exactly one bot-command entity. */
  predicate SingleCommand(m: Message)
  {
    m.entities.Some? && |CommandEntities(m.entities.value)| == 1
  }

  /** The entity's span is a valid Substring(Offset, Length) of `text`. */
  predicate SpanInText(e: MessageEntity, text: string)
  {
    0 <= e.offset && 0 <= e.length && e.offset + e.length <= |text|
  }

  /** A message with exactly one bot-command entity has text, and the entity lies within it. */
  predicate SingleCommandInRange(m: Message)
  {
    SingleCommand(m) ==> m.text.Some? && SpanInText(CommandEntities(m.entities.value)[0], m.text.value)
  }

  /** The message has one bot-command entity, and text that the entity lies within. */
  predicate ReadableCommand(m: Message)
  {
    SingleCommand(m) && m.text.Some? && SpanInText(CommandEntities(m.entities.value)[0], m.text.value)
  }

  /** Substring(Offset, Length): the text the one command entity covers. */
  function EntityText(m: Message): string
    requires ReadableCommand(m)
  {
    var e := CommandEntities(m.entities.value)[0];
    m.text.value[e.offset..e.offset + e.length]
  }

  /** The command OnMessage reads: the text the entity covers, with every "@botname" removed. */
  function CommandSpan(m: Message, botUserName: string): string
    requires ReadableCommand(m) && botUserName != []
  {
    Replace(EntityText(m), botUserName, "")
  }

  /** What OnMessage makes of a message. */
  datatype MessageOutcome =
    | NoCommand                              // no bot-command entity: nothing happens
    | TooManyCommands                        // several: the "one command" reply
    | Raised(args: ChatMessageEventArgs)     // one: a ChatMessage event
    | Unheard                                // one, but ChatMessage has no handler: nothing is raised
    | Crashed(fault: Fault)                  // an exception escapes the async void handler

  /**
   * OnMessage's reading of a message: the command is the entity's text with
   * every "@botname" removed; the event text is the message text with every
   * occurrence of that command removed, then trimmed.  A missing text or a span
   * outside the text makes it throw.  `listened` is whether ChatMessage has a
   * handler: without one, `?.Invoke` evaluates neither the event nor its
   * arguments, so the Replace that throws for an empty command never runs.
   */
  function ReadMessage(m: Message, botUserName: string, listened: bool): (r: MessageOutcome)
    requires botUserName != []
    ensures r == NoCommand <==>
              m.entities.None? || forall e :: e in m.entities.value ==> e.kind != CommandEntity
    ensures r == TooManyCommands <==> m.entities.Some? && |CommandEntities(m.entities.value)| > 1
    ensures r.Raised? ==>
              && r.args.chatId == m.chatId && r.args.userId == m.fromId && r.args.messageId == m.messageId
              && r.args.command.Some? && r.args.command.value != [] && r.args.text.Some?
    ensures SingleCommand(m) && m.text.None? ==> r == Crashed(NullReference)
    ensures SingleCommand(m) && m.text.Some? && !SpanInText(CommandEntities(m.entities.value)[0], m.text.value)
            ==> r == Crashed(ArgumentOutOfRange)
    ensures (r.Crashed? && r.fault != ArgumentEmpty) <==> !SingleCommandInRange(m)
    ensures r == Unheard <==> ReadableCommand(m) && !listened
    ensures r == Crashed(ArgumentEmpty) <==> ReadableCommand(m) && listened && CommandSpan(m, botUserName) == []
    ensures r.Raised? <==> ReadableCommand(m) && listened && CommandSpan(m, botUserName) != []
    ensures r.Raised? ==>
              var command := CommandSpan(m, botUserName);
              r.args.command == Some(command) && r.args.text == Some(Trim(Replace(m.text.value, command, "")))
  {
    if m.entities.None? then NoCommand
    else
      var commands := CommandEntities(m.entities.value);
      if |commands| == 0 then
        assert forall e :: e in m.entities.value ==> e.kind != CommandEntity;
        NoCommand
      else if |commands| > 1 then
        assert commands[0] in m.entities.value;
        TooManyCommands
      else
        assert commands[0] in m.entities.value;
        if m.text.None? then Crashed(NullReference)
        else if !SpanInText(commands[0], m.text.value) then Crashed(ArgumentOutOfRange)
        else
          var command := CommandSpan(m, botUserName);
          if !listened then Unheard
          else if command == [] then Crashed(ArgumentEmpty)
          else Raised(ChatMessageEventArgs(Some(command), Some(Trim(Replace(m.text.value, command, ""))),
                                           m.fromId, m.chatId, m.messageId))
  }

  /** Removing a pattern that does not start like the string keeps the string's first character. */
  lemma ReplaceKeepsHead(s: string, pat: string, newValue: string)
    requires pat != [] && s != [] && s[0] != pat[0]
    ensures Replace(s, pat, newValue) != [] && Replace(s, pat, newValue)[0] == s[0]
  {
    if |s| >= |pat| {
      assert s[..|pat|][0] != pat[0];
    }
  }

  /**
   * A bot-command entity whose text starts with "/", as the Bot API's entities
   * do, always yields a ChatMessage event whose command starts with "/", once
   * ChatMessage has a handler.
   */
  lemma SlashCommandRaisesEvent(m: Message, username: string)
    requires ReadableCommand(m)
    requires var e := CommandEntities(m.entities.value)[0];
             e.length > 0 && m.text.value[e.offset] == '/'
    ensures var r := ReadMessage(m, BotUserName(username), true);
            r.Raised? && r.args.command.value[0] == '/'
  {
    assert EntityText(m)[0] == '/';
    ReplaceKeepsHead(EntityText(m), BotUserName(username), "");
  }

  /** The message `text` with one bot-command entity at `offset`, `length`. */
  function CommandMessage(text: string, offset: int, length: int, chatId: int, fromId: int, messageId: int): (m: Message)
    ensures m.entities.Some? && CommandEntities(m.entities.value) == [MessageEntity(CommandEntity, offset, length)]
  {
    var e := MessageEntity(CommandEntity, offset, length);
    assert [e][1..] == [];
    Message(Some(text), Some([e]), chatId, fromId, messageId)
  }

  /**
   * A message that is a command followed by free text (in which the command does
   * not occur again), with the one entity covering the command, raises an event
   * whose command is that command and whose text is the trimmed remainder, once
   * ChatMessage has a handler.
   */
  lemma CommandThenText(cmd: string, rest: string, username: string, chatId: int, fromId: int, messageId: int)
    requires cmd != [] && !Occurs(cmd, BotUserName(username)) && !Occurs(rest, cmd)
    ensures ReadMessage(CommandMessage(cmd + rest, 0, |cmd|, chatId, fromId, messageId), BotUserName(username), true)
            == Raised(ChatMessageEventArgs(Some(cmd), Some(Trim(rest)), fromId, chatId, messageId))
  {
    var m := CommandMessage(cmd + rest, 0, |cmd|, chatId, fromId, messageId);
    assert EntityText(m) == cmd by {
      assert (cmd + rest)[0..|cmd|] == cmd;
    }
    assert CommandSpan(m, BotUserName(username)) == cmd by {
      ReplaceAbsent(cmd, BotUserName(username), "");
    }
    RemoveLeading(cmd, rest);
  }

  /**
   * A command addressed to the bot, "/cmd@botname rest", with the entity
   * covering "/cmd@botname": the command is "/cmd", but only "/cmd" is removed
   * from the text, so the event text still starts with "@botname".  This is
   * with a ChatMessage handler, as after the bot's StartAsync.
   */
  lemma CommandWithBotName(cmd: string, rest: string, username: string, chatId: int, fromId: int, messageId: int)
    requires cmd != [] && '@' !in cmd && !Occurs(BotUserName(username) + rest, cmd)
    ensures ReadMessage(CommandMessage(cmd + BotUserName(username) + rest, 0, |cmd| + |username| + 1,
                                          chatId, fromId, messageId),
                        BotUserName(username), true)
            == Raised(ChatMessageEventArgs(Some(cmd), Some(Trim(BotUserName(username) + rest)), fromId, chatId, messageId))
  {
    var name := BotUserName(username);
    var text := cmd + name + rest;
    var m := CommandMessage(text, 0, |cmd| + |name|, chatId, fromId, messageId);
    assert EntityText(m) == cmd + name by {
      assert text[0..|cmd| + |name|] == cmd + name;
    }
    assert CommandSpan(m, name) == cmd by {
      RemoveTrailing(cmd, name);
    }
    assert Replace(text, cmd, "") == name + rest by {
      assert text == cmd + (name + rest);
      RemoveLeading(cmd, name + rest);
    }
  }

  /**
   * OnMessage fails with an empty command exactly when ChatMessage has a handler
   * and the entity covers nothing but copies of "@botname".
   */
  lemma EmptyCommandIffOnlyBotName(m: Message, username: string, listened: bool)
    ensures ReadMessage(m, BotUserName(username), listened) == Crashed(ArgumentEmpty)
            <==> ReadableCommand(m) && listened && OnlyCopies(EntityText(m), BotUserName(username))
  {
    if ReadableCommand(m) {
      RemoveAllEmptyIffCopies(EntityText(m), BotUserName(username));
    }
  }

  /**
   * A command entity covering nothing but "@botname": with a ChatMessage
   * handler OnMessage throws for the empty command; without one (before the
   * bot's StartAsync, or after its StopAsync) nothing happens.
   */
  lemma BotNameAloneNeedsHandler(username: string, chatId: int, fromId: int, messageId: int, listened: bool)
    ensures ReadMessage(CommandMessage(BotUserName(username), 0, |username| + 1, chatId, fromId, messageId),
                        BotUserName(username), listened)
            == if listened then Crashed(ArgumentEmpty) else Unheard
  {
    var name := BotUserName(username);
    var m := CommandMessage(name, 0, |username| + 1, chatId, fromId, messageId);
    assert EntityText(m) == name by {
      assert name[0..|name|] == name;
    }
    assert CommandSpan(m, name) == [] by {
      ReplaceAtHead(name, [], "");
      assert name + [] == name;
    }
  }

  // ---------------------------------------------------------------------
  // Inbound button presses
  // ---------------------------------------------------------------------

  /** OnCallbackQuery's event: the callback data forwarded unchanged as the command, with the ids copied. */
  function CallbackEventOf(q: CallbackQuery): CallbackEventArgs
  {
    CallbackEventArgs(q.chatId, q.fromId, q.messageId, q.data)
  }

  // ---------------------------------------------------------------------
  // MarkdownV2 escaping
  // ---------------------------------------------------------------------

  /** The characters EscapeText escapes, each as the one-character string the code lists. */
  const CharactersToEscape: seq<string> :=
    ["_", "*", "[", "]", "(", ")", "~", "`", ">", "#", "+", "-", "=", "|", "{", "}", ".", "!"]

  /** The same 18 characters, the reserved characters of the MarkdownV2 style. */
  const Reserved: seq<char> := "_*[]()~`>#+-=|{}.!"

  lemma ReservedFacts()
    ensures |CharactersToEscape| == |Reserved| == 18
    ensures forall k :: 0 <= k < |Reserved| ==> CharactersToEscape[k] == [Reserved[k]]
    ensures '\\' !in Reserved
    ensures forall c :: c in Reserved ==> 0 < c as int <= 126
  {
  }

  /** No reserved character is listed twice. */
  lemma ReservedDistinct()
    ensures forall i, j :: 0 <= i < j < |Reserved| ==> Reserved[i] != Reserved[j]
  {
  }

  /** The k-th listed string is the k-th reserved character, which is no backslash and does not occur before position k. */
  lemma ListedCharacter(k: int)
    requires 0 <= k < |Reserved|
    ensures |CharactersToEscape| == |Reserved| && CharactersToEscape[k] == [Reserved[k]]
    ensures Reserved[k] != '\\' && Reserved[k] !in Reserved[..k]
  {
    ReservedFacts();
    ReservedDistinct();
    forall j | 0 <= j < k ensures Reserved[..k][j] != Reserved[k] {
      assert Reserved[..k][j] == Reserved[j];
    }
  }

  /** `s` with a backslash put before every character that is in `chars`. */
  function EscapeOnly(s: string, chars: seq<char>): (r: string)
    ensures |r| >= |s|
  {
    if s == [] then []
    else (if s[0] in chars then ['\\', s[0]] else [s[0]]) + EscapeOnly(s[1..], chars)
  }

  /** How often characters from `chars` occur in `s`. */
  function CountIn(s: string, chars: seq<char>): nat
  {
    if s == [] then 0 else (if s[0] in chars then 1 else 0) + CountIn(s[1..], chars)
  }

  /** The escaped text is longer than the original by exactly one backslash per escaped character. */
  lemma {:induction false} EscapeOnlyLength(s: string, chars: seq<char>)
    ensures |EscapeOnly(s, chars)| == |s| + CountIn(s, chars)
  {
    if s != [] {
      EscapeOnlyLength(s[1..], chars);
    }
  }

  /** Escaping works character by character: the escaped concatenation is the concatenation of the escaped parts. */
  lemma {:induction false} EscapeOnlyAppend(a: string, b: string, chars: seq<char>)
    ensures EscapeOnly(a + b, chars) == EscapeOnly(a, chars) + EscapeOnly(b, chars)
  {
    if a == [] {
      assert a + b == b;
    } else {
      assert (a + b)[0] == a[0];
      assert (a + b)[1..] == a[1..] + b;
      EscapeOnlyAppend(a[1..], b, chars);
    }
  }

  /** Every character of `t` that is in `chars` comes right after a backslash. */
  predicate AllPreceded(t: string, chars: seq<char>)
  {
    forall i :: 0 <= i < |t| && t[i] in chars ==> 0 < i && t[i - 1] == '\\'
  }

  /** In the escaped text every character from `chars` comes right after a backslash. */
  lemma {:induction false} EscapedCharsArePreceded(s: string, chars: seq<char>)
    requires '\\' !in chars
    ensures AllPreceded(EscapeOnly(s, chars), chars)
  {
    if s != [] {
      EscapedCharsArePreceded(s[1..], chars);
      var head := if s[0] in chars then ['\\', s[0]] else [s[0]];
      var tail := EscapeOnly(s[1..], chars);
      var r := head + tail;
      assert r == EscapeOnly(s, chars);
      forall i | 0 <= i < |r| ensures r[i] in chars ==> 0 < i && r[i - 1] == '\\' {
        if i < |head| {
          if s[0] in chars {
            assert r[0] == '\\' && r[1] == s[0];
          } else {
            assert r[0] == s[0];
          }
        } else if i == |head| {
          assert r[i] == tail[0] && tail[0] !in chars;
        } else {
          var j := i - |head|;
          assert r[i] == tail[j] && r[i - 1] == tail[j - 1];
          assert tail[j] in chars ==> tail[j - 1] == '\\';
        }
      }
    }
  }

  /**
   * One Replace pass of the escaping loops: replacing one more character escapes
   * it too.  The backslash itself can only come first, before any backslash has
   * been inserted.
   */
  lemma {:induction false} EscapeStep(s: string, chars: seq<char>, c: char)
    requires c !in chars && (c != '\\' || chars == [])
    ensures Replace(EscapeOnly(s, chars), [c], ['\\', c]) == EscapeOnly(s, chars + [c])
  {
    if s != [] {
      var head := if s[0] in chars then ['\\', s[0]] else [s[0]];
      ReplaceCharAppend(head, EscapeOnly(s[1..], chars), c, ['\\', c]);
      EscapeStep(s[1..], chars, c);
      if s[0] in chars {
        ReplaceCharAppend(['\\'], [s[0]], c, ['\\', c]);
        assert ['\\'] + [s[0]] == head;
      }
    }
  }

  /**
   * The k-th pass of the loop over CharactersToEscape escapes the k-th reserved
   * character on top of the earlier ones (and of the backslash, when that was
   * escaped first).
   */
  lemma EscapeTextStep(s: string, first: seq<char>, k: int)
    requires first == [] || first == ['\\']
    requires 0 <= k < |CharactersToEscape|
    ensures Replace(EscapeOnly(s, first + Reserved[..k]), CharactersToEscape[k], "\\" + CharactersToEscape[k])
            == EscapeOnly(s, first + Reserved[..k + 1])
  {
    ListedCharacter(k);
    assert "\\" + CharactersToEscape[k] == ['\\', Reserved[k]];
    EscapeStep(s, first + Reserved[..k], Reserved[k]);
    assert first + Reserved[..k + 1] == first + Reserved[..k] + [Reserved[k]];
  }

  /** Escaping no characters leaves the text as it is. */
  lemma {:induction false} EscapeNothing(s: string)
    ensures EscapeOnly(s, []) == s
  {
    if s != [] {
      EscapeNothing(s[1..]);
    }
  }

  /** A text with no character from `chars` is left as it is. */
  lemma {:induction false} PlainTextUnchanged(s: string, chars: seq<char>)
    requires forall c :: c in s ==> c !in chars
    ensures EscapeOnly(s, chars) == s
  {
    if s != [] {
      assert s[0] in s;
      assert forall c :: c in s[1..] ==> c in s;
      PlainTextUnchanged(s[1..], chars);
    }
  }

  /** MarkdownEscape: what EscapeText computes, a backslash before each of the 18 reserved characters. */
  function MarkdownEscape(s: string): string
  {
    EscapeOnly(s, Reserved)
  }

  /**
   * EscapeText: one pass of Replace per listed character.  A null text makes
   * the first Replace throw a NullReferenceException.
   */
  method EscapeText(source: Option<string>) returns (r: Result<string>)
    ensures source.None? ==> r == Err(NullReference)
    ensures source.Some? ==> r == Ok(MarkdownEscape(source.value))
  {
    if source.None? {
      return Err(NullReference);
    }
    var text := source.value;
    EscapeNothing(source.value);
    assert [] + Reserved[..0] == [];
    for k := 0 to |CharactersToEscape|
      invariant text == EscapeOnly(source.value, [] + Reserved[..k])
    {
      var item := CharactersToEscape[k];
      EscapeTextStep(source.value, [], k);
      text := Replace(text, item, "\\" + item);
    }
    assert [] + Reserved[..|CharactersToEscape|] == Reserved;
    return Ok(text);
  }

  /**
   * The plain text Telegram shows for a MarkdownV2 text without formatting: a
   * backslash before a character with code 1 to 126 escapes it, any other
   * character stands for itself; None when an unescaped reserved character
   * makes the text markup or a parse error.
   */
  function ReadMarkdownV2(t: string): Option<string>
  {
    if t == [] then Some([])
    else if t[0] == '\\' && |t| > 1 && 0 < t[1] as int <= 126 then
      var rest := ReadMarkdownV2(t[2..]);
      if rest.Some? then Some([t[1]] + rest.value) else None
    else if t[0] in Reserved then None
    else
      var rest := ReadMarkdownV2(t[1..]);
      if rest.Some? then Some([t[0]] + rest.value) else None
  }

  /** Escaping `chars` with `chars` holding every reserved character reads back as the original text, if it has no backslash left unescaped. */
  lemma {:induction false} ReadEscapeOnly(s: string, chars: seq<char>)
    requires forall k :: 0 <= k < |Reserved| ==> Reserved[k] in chars
    requires forall c :: c in chars ==> 0 < c as int <= 126
    requires '\\' in s ==> '\\' in chars
    ensures ReadMarkdownV2(EscapeOnly(s, chars)) == Some(s)
  {
    ReservedFacts();
    if s != [] {
      var tail := EscapeOnly(s[1..], chars);
      assert '\\' in s[1..] ==> '\\' in s;
      ReadEscapeOnly(s[1..], chars);
      assert [s[0]] + s[1..] == s;
      if s[0] in chars {
        var t := ['\\', s[0]] + tail;
        assert EscapeOnly(s, chars) == t;
        assert t[0] == '\\' && t[1] == s[0] && 0 < s[0] as int <= 126;
        assert t[2..] == tail;
      } else {
        assert s[0] !in Reserved by {
          forall k | 0 <= k < |Reserved| ensures Reserved[k] != s[0] {
            assert Reserved[k] in chars;
          }
        }
        assert EscapeOnly(s, chars) == [s[0]] + tail;
        assert ([s[0]] + tail)[1..] == tail;
      }
    }
  }

  /** Text without a backslash survives EscapeText: Telegram shows exactly the original. */
  lemma MarkdownEscapeRoundTrip(s: string)
    requires '\\' !in s
    ensures ReadMarkdownV2(MarkdownEscape(s)) == Some(s)
  {
    ReservedFacts();
    forall k | 0 <= k < |Reserved| ensures Reserved[k] in Reserved {
    }
    ReadEscapeOnly(s, Reserved);
  }

  /** A backslash in the text is not escaped, so Telegram reads it as an escape: "\a" is shown as "a". */
  lemma MarkdownEscapeLosesBackslash()
    ensures MarkdownEscape("\\a") == "\\a"
    ensures ReadMarkdownV2(MarkdownEscape("\\a")) == Some("a")
  {
    ReservedFacts();
    assert "\\a"[1..] == "a";
    assert "a"[1..] == [];
  }

  /** Reading escaped text without a backslash, then more text, reads the original text, then the rest. */
  lemma {:induction false} ReadAfterEscapedPrefix(a: string, t: string)
    requires '\\' !in a
    ensures ReadMarkdownV2(MarkdownEscape(a) + t)
            == if ReadMarkdownV2(t).Some? then Some(a + ReadMarkdownV2(t).value) else None
  {
    if a == [] {
      assert MarkdownEscape(a) + t == t;
      if ReadMarkdownV2(t).Some? {
        assert a + ReadMarkdownV2(t).value == ReadMarkdownV2(t).value;
      }
    } else {
      ReservedFacts();
      var head, tail := a[0], a[1..];
      assert '\\' !in tail by {
        assert forall k :: 0 <= k < |tail| ==> tail[k] == a[k + 1];
      }
      ReadAfterEscapedPrefix(tail, t);
      var u := MarkdownEscape(tail) + t;
      var w := (if head in Reserved then ['\\', head] else [head]) + u;
      assert MarkdownEscape(a) + t == w;
      assert ReadMarkdownV2(w) == if ReadMarkdownV2(u).Some? then Some([head] + ReadMarkdownV2(u).value) else None by {
        if head in Reserved {
          assert w[2..] == u;
        } else {
          assert w[1..] == u;
        }
      }
      if ReadMarkdownV2(t).Some? {
        assert a + ReadMarkdownV2(t).value == [head] + (tail + ReadMarkdownV2(t).value);
      }
    }
  }

  /**
   * The backslash is lost in general: when the text's first backslash is
   * followed by a character with code 1 to 126 that EscapeText leaves alone,
   * Telegram reads the two as one escape, so the text is not shown as written.
   */
  lemma MarkdownEscapeLosesFirstBackslash(a: string, c: char, b: string)
    requires '\\' !in a && c != '\\' && c !in Reserved && 0 < c as int <= 126
    ensures ReadMarkdownV2(MarkdownEscape(a + ['\\', c] + b)) != Some(a + ['\\', c] + b)
  {
    ReservedFacts();
    var t := ['\\', c] + MarkdownEscape(b);
    assert MarkdownEscape(a + ['\\', c] + b) == MarkdownEscape(a) + t by {
      EscapeOnlyAppend(a + ['\\', c], b, Reserved);
      EscapeOnlyAppend(a, ['\\', c], Reserved);
      assert ['\\', c][1..] == [c] && [c][1..] == [];
      assert EscapeOnly([c], Reserved) == [c] + EscapeOnly([], Reserved);
      assert EscapeOnly(['\\', c], Reserved) == ['\\'] + EscapeOnly([c], Reserved);
    }
    ReadAfterEscapedPrefix(a, t);
    assert t[2..] == MarkdownEscape(b);
    var r := ReadMarkdownV2(MarkdownEscape(a) + t);
    if r.Some? {
      assert r.value[|a|] == c;
      assert (a + ['\\', c] + b)[|a|] == '\\';
    }
  }

  /** The escaping the MarkdownV2 style calls for: the backslash itself and the 18 reserved characters. */
  function MarkdownEscapeWithBackslash(s: string): string
  {
    EscapeOnly(s, ['\\'] + Reserved)
  }

  /**
   * EscapeText corrected: backslashes are escaped first, in a pass of their
   * own, so that the backslashes the later passes insert are not doubled.
   */
  method EscapeTextWithBackslash(source: Option<string>) returns (r: Result<string>)
    ensures source.None? ==> r == Err(NullReference)
    ensures source.Some? ==> r == Ok(MarkdownEscapeWithBackslash(source.value))
  {
    if source.None? {
      return Err(NullReference);
    }
    EscapeNothing(source.value);
    EscapeStep(source.value, [], '\\');
    var text := Replace(source.value, "\\", "\\\\");
    assert ['\\'] + Reserved[..0] == [] + ['\\'];
    for k := 0 to |CharactersToEscape|
      invariant text == EscapeOnly(source.value, ['\\'] + Reserved[..k])
    {
      var item := CharactersToEscape[k];
      EscapeTextStep(source.value, ['\\'], k);
      text := Replace(text, item, "\\" + item);
    }
    assert Reserved[..|CharactersToEscape|] == Reserved;
    return Ok(text);
  }

  /** With the backslash escaped as well, every text reads back unchanged. */
  lemma MarkdownEscapeWithBackslashRoundTrip(s: string)
    ensures ReadMarkdownV2(MarkdownEscapeWithBackslash(s)) == Some(s)
  {
    ReservedFacts();
    var chars := ['\\'] + Reserved;
    forall k | 0 <= k < |Reserved| ensures Reserved[k] in chars {
      assert chars[k + 1] == Reserved[k];
    }
    forall c | c in chars ensures 0 < c as int <= 126 {
      assert c == '\\' || c in Reserved;
    }
    ReadEscapeOnly(s, chars);
  }

  // ---------------------------------------------------------------------
  // Inline keyboards and outbound requests
  // ---------------------------------------------------------------------

  /** The keyboard for a dictionary of buttons: one button per entry, label = key, callback data = value. */
  function KeyboardOf(buttons: Option<Buttons>): Option<seq<InlineKeyboardButton>>
  {
    if buttons.None? then None
    else Some(seq(|buttons.value|, k requires 0 <= k < |buttons.value| =>
                    InlineKeyboardButton(buttons.value[k].0, buttons.value[k].1)))
  }

  /** GetInlineKeyboard: null for null buttons; otherwise one button per entry, in enumeration order. */
  method GetInlineKeyboard(buttons: Option<Buttons>) returns (keyboard: Option<seq<InlineKeyboardButton>>)
    ensures keyboard.None? <==> buttons.None?
    ensures buttons.Some? ==>
              && |keyboard.value| == |buttons.value|
              && forall k :: 0 <= k < |buttons.value| ==>
                   keyboard.value[k] == InlineKeyboardButton(buttons.value[k].0, buttons.value[k].1)
    ensures keyboard == KeyboardOf(buttons)
  {
    keyboard := None;
    if buttons.Some? {
      var inlineKeyboardButtons: seq<InlineKeyboardButton> := [];
      for k := 0 to |buttons.value|
        invariant |inlineKeyboardButtons| == k
        invariant forall j :: 0 <= j < k ==>
                    inlineKeyboardButtons[j] == InlineKeyboardButton(buttons.value[j].0, buttons.value[j].1)
      {
        var (key, value) := buttons.value[k];
        inlineKeyboardButtons := inlineKeyboardButtons + [InlineKeyboardButton(key, value)];
      }
      assert inlineKeyboardButtons == KeyboardOf(buttons).value;
      keyboard := Some(inlineKeyboardButtons);
    }
  }

  /** The client request SendMessage issues, or the exception EscapeText throws for a null message. */
  function SendRequest(chatId: int, message: Option<string>, buttons: Option<Buttons>): Result<ClientRequest>
  {
    if message.None? then Err(NullReference)
    else Ok(SendTextMessage(chatId, MarkdownEscape(message.value), MarkdownV2, KeyboardOf(buttons)))
  }

  /** The client request UpdateMessage issues, or the exception EscapeText throws for a null text. */
  function UpdateRequest(chatId: int, messageId: int, newText: Option<string>, buttons: Option<Buttons>): Result<ClientRequest>
  {
    if newText.None? then Err(NullReference)
    else Ok(EditMessageText(chatId, messageId, MarkdownEscape(newText.value), MarkdownV2, KeyboardOf(buttons)))
  }

  /** What the chat service sends to the client for one IChatService call. */
  function Serve(call: ServiceCall): Result<ClientRequest>
  {
    match call
    case Send(chatId, message, buttons) => SendRequest(chatId, message, buttons)
    case Update(chatId, messageId, newText, buttons) => UpdateRequest(chatId, messageId, newText, buttons)
    case MemberName(chatId, userId) => Ok(GetChatMember(chatId, userId))
  }

  // ---------------------------------------------------------------------
  // The service object
  // ---------------------------------------------------------------------

  /**
   * TelegramService.  `requests` is every call made on the client, in order;
   * the subscription counts say how often OnMessage and OnCallbackQuery stand in
   * the client's event lists; `disposedValue` is the dispose guard.
   */
  class TelegramService {
    const commands: seq<Command>
    const username: string
    var requests: seq<ClientRequest>
    var messageSubscriptions: nat
    var callbackQuerySubscriptions: nat
    var disposedValue: bool

    /** The constructor: subscribes both client events, publishes the command menu, starts receiving. */
    constructor(commands: seq<Command>, username: string)
      ensures this.commands == commands && this.username == username
      ensures requests == [SetMyCommands(Published(commands)), StartReceiving]
      ensures messageSubscriptions == 1 && callbackQuerySubscriptions == 1 && !disposedValue
    {
      this.commands := commands;
      this.username := username;
      requests := [];
      messageSubscriptions, callbackQuerySubscriptions := 1, 1;
      disposedValue := false;
      new;
      RegisterCommands();
      requests := requests + [StartReceiving];
    }

    /** RegisterCommands: publishes the non-internal commands. */
    method RegisterCommands()
      modifies this`requests
      ensures requests == old(requests) + [SetMyCommands(Published(commands))]
    {
      requests := requests + [SetMyCommands(Published(commands))];
    }

    /**
     * OnMessage: no event for a message without a bot command; for several, the
     * "one command" reply (as plain text, only when the client sent the message);
     * for one, a GetMe call for the bot's user name once the entity has been
     * read, then the ChatMessage event ReadMessage describes.  `listened` is
     * whether ChatMessage has a handler.
     */
    method OnMessage(sender: EventSource, m: Message, listened: bool) returns (outcome: MessageOutcome)
      modifies this`requests
      ensures outcome == ReadMessage(m, BotUserName(username), listened)
      ensures requests == old(requests) +
                if outcome == TooManyCommands && sender == BotClient
                then [SendTextMessage(m.chatId, OneCommandMessage, PlainText, None)]
                else if ReadableCommand(m) then [GetMe] else []
    {
      outcome := ReadMessage(m, BotUserName(username), listened);
      if outcome == TooManyCommands && sender == BotClient {
        requests := requests + [SendTextMessage(m.chatId, OneCommandMessage, PlainText, None)];
      } else if ReadableCommand(m) {
        requests := requests + [GetMe];
      }
    }

    /** OnCallbackQuery: removes the keyboard from the message, then raises the Callback event. */
    method OnCallbackQuery(sender: EventSource, q: CallbackQuery) returns (raised: Option<CallbackEventArgs>)
      modifies this`requests
      ensures sender == BotClient ==>
                && raised == Some(CallbackEventOf(q))
                && requests == old(requests) + [EditMessageReplyMarkup(q.chatId, q.messageId, None)]
      ensures sender == OtherSource ==> raised == None && requests == old(requests)
    {
      raised := None;
      if sender == BotClient {
        requests := requests + [EditMessageReplyMarkup(q.chatId, q.messageId, None)];
        raised := Some(CallbackEventOf(q));
      }
    }

    /**
     * SendMessage: escapes the text with EscapeText and sends it as MarkdownV2
     * with the keyboard.  `delivered` is whether the client call completes.
     * Every exception, including the escaping's for a null message, becomes `false`.
     */
    method SendMessage(chatId: int, message: Option<string>, buttons: Option<Buttons>, delivered: bool)
      returns (ok: bool)
      modifies this`requests
      ensures ok <==> message.Some? && delivered
      ensures requests == old(requests) +
                if message.Some?
                then [SendTextMessage(chatId, MarkdownEscape(message.value), MarkdownV2, KeyboardOf(buttons))]
                else []
    {
      var escaped := EscapeText(message);
      if escaped.Err? {
        return false;
      }
      var keyboard := GetInlineKeyboard(buttons);
      requests := requests + [SendTextMessage(chatId, escaped.value, MarkdownV2, keyboard)];
      ok := delivered;
    }

    /** UpdateMessage: as SendMessage, editing the text of an existing message. */
    method UpdateMessage(chatId: int, messageId: int, newText: Option<string>, buttons: Option<Buttons>, delivered: bool)
      returns (ok: bool)
      modifies this`requests
      ensures ok <==> newText.Some? && delivered
      ensures requests == old(requests) +
                if newText.Some?
                then [EditMessageText(chatId, messageId, MarkdownEscape(newText.value), MarkdownV2, KeyboardOf(buttons))]
                else []
    {
      var escaped := EscapeText(newText);
      if escaped.Err? {
        return false;
      }
      var keyboard := GetInlineKeyboard(buttons);
      requests := requests + [EditMessageText(chatId, messageId, escaped.value, MarkdownV2, keyboard)];
      ok := delivered;
    }

    /**
     * GetChatMemberName: asks the client for the chat member; `member` is its
     * answer.  The name is the user name, or the first name when there is none.
     */
    method GetChatMemberName(chatId: int, userId: int, member: ChatUser) returns (name: string)
      modifies this`requests
      ensures requests == old(requests) + [GetChatMember(chatId, userId)]
      ensures member.username.Some? ==> name == member.username.value
      ensures member.username.None? ==> name == member.firstName
    {
      requests := requests + [GetChatMember(chatId, userId)];
      name := if member.username.Some? then member.username.value else member.firstName;
    }

    /** Dispose(bool disposing): the first call unsubscribes OnMessage (when disposing) and sets the guard; later calls do nothing. */
    method DisposeCore(disposing: bool)
      modifies this`messageSubscriptions, this`disposedValue
      ensures disposedValue
      ensures messageSubscriptions ==
                if !old(disposedValue) && disposing && old(messageSubscriptions) > 0
                then old(messageSubscriptions) - 1 else old(messageSubscriptions)
      ensures callbackQuerySubscriptions == old(callbackQuerySubscriptions)
    {
      if !disposedValue {
        if disposing && messageSubscriptions > 0 {
          messageSubscriptions := messageSubscriptions - 1;
        }
        disposedValue := true;
      }
    }

    /** Dispose(): Dispose(disposing: true).  OnCallbackQuery stays subscribed. */
    method Dispose()
      modifies this`messageSubscriptions, this`disposedValue
      ensures disposedValue
      ensures messageSubscriptions ==
                if !old(disposedValue) && old(messageSubscriptions) > 0
                then old(messageSubscriptions) - 1 else old(messageSubscriptions)
      ensures callbackQuerySubscriptions == old(callbackQuerySubscriptions)
    {
      DisposeCore(true);
    }
  }
}

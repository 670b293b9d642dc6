# TelegramBotTemplate command dispatch, in Dafny

This project models the core of TelegramBotTemplate, a .NET template for Telegram bots. The core has two halves.

**The hosted `Bot`** subscribes to a chat service's `ChatMessage` and `Callback` events. It resolves the command token of each event against the registered `IBotCommand`s with `SingleOrDefault` and a case-insensitive `"/" + Command` comparison, then:
- runs the one matching command;
- or answers with the unknown-command reply;
- or logs a critical entry for a callback that matches nothing.

Whatever processing throws is caught and logged for that event alone.

**The `TelegramService`** is the chat service over the Telegram Bot API client. It:
- publishes the non-internal commands as the bot's command menu;
- turns a message carrying exactly one bot-command entity into a `ChatMessage` event, stripping `@botname` from the command;
- answers a message with several commands with a fixed plain-text reply;
- removes the inline keyboard of a pressed button and raises a `Callback` event;
- sends or edits messages as MarkdownV2 after escaping the reserved characters, with an optional inline keyboard;
- unsubscribes from the client on `Dispose`.

Modules, one per source file, plus two shared ones:

- `Text`: the .NET string operations the code relies on, stated on Dafny strings. These are ordinal `String.Replace`, `String.Trim`, `Split(' ').First()` and the ignore-case comparison.
- `ChatTypes`: the event arguments, the chat-service calls, the exceptions and the log entries.
- `PingCommand`, `HelpCommand` and `BotCommand`: the two shipped commands and the `IBotCommand` interface. `BotCommand.Registry` is the shipped registration: ping, then help. A handler is `Ping`, `Help` or `External(steps, fails)`. `External` stands for any other command a user of the template adds: each step is one chat-service call built from the arguments of `Execute`.
- `Dispatch`: `Bot.cs`. The processing of one event is a function. The per-event try/catch and the run over a sequence of events are functions. The `Bot` class keeps its subscription counts, its calls to the chat service and its log, and is proved to stay equal to the run of the events it handled.
- `Telegram`: `TelegramService.cs`, as functions over the client's shapes and a `TelegramService` class whose `requests` field records every client call in order.
- `Scenarios`: consequences for the shipped registry, from a Telegram message through the bot back to the client.

## Model

| member | source | states |
|---|---|---|
| Text.EqualsIgnoreCaseIffFoldedEqual | src/Bot.cs:69 | two command tokens are equal ignoring case exactly when their case-folded forms are equal |
| Text.EqualsIgnoreCaseEquivalence | src/Bot.cs:69 | the ignore-case comparison is reflexive, symmetric and transitive |
| Text.Replace | src/Bot.cs:99 | removing (replacing by "") never makes a string longer |
| Text.IndexOfSpec | src/Bot.cs:99 | the ordinal search finds the first occurrence, and finds nothing exactly when the value does not occur |
| Text.ReplaceFirstOccurrence | src/Bot.cs:99 | when the old value occurs, Replace keeps what precedes its first occurrence, puts the new value in its place and goes on after it |
| Text.ReplaceWithoutIndex | src/Bot.cs:99 | when the search finds nothing, Replace returns the string unchanged |
| Text.ReplaceAbsent | src/Bot.cs:99 | a string in which the old value does not occur is returned unchanged |
| Text.ReplaceAtHead | src/Bot.cs:99 | removing a pattern that starts the string removes exactly that prefix and carries on with the rest |
| Text.ReplaceSkipsHeadFree | src/TelegramService.cs:77 | a prefix without the pattern's first character is kept as it is, and replacing goes on after it |
| Text.RemoveLeading | src/TelegramService.cs:81 | removing a pattern that starts the string and does not occur in the rest leaves the rest |
| Text.RemoveTrailing | src/TelegramService.cs:77 | removing a pattern that follows a string without the pattern's first character leaves that string |
| Text.RemoveAllEmptyIffCopies | src/TelegramService.cs:77 | removing a pattern leaves nothing exactly when the string is made of copies of the pattern |
| Text.ReplaceCharAppend | src/TelegramService.cs:170 | replacing a single character distributes over concatenation |
| Text.TrimStart | src/Bot.cs:99 | the result is a suffix of the input |
| Text.TrimStartSpec | src/Bot.cs:99 | everything TrimStart removes is white space, and its result does not start with white space |
| Text.TrimEnd | src/Bot.cs:99 | the result is a prefix of the input |
| Text.TrimEndSpec | src/Bot.cs:99 | everything TrimEnd removes is white space, and its result does not end with white space |
| Text.Trim | src/Bot.cs:99 | the result is no longer than the input |
| Text.TrimSpec | src/Bot.cs:99 | the result is the slice of the input that starts where TrimStart's result starts, and everything before and after that slice is white space |
| Text.TrimEnds | src/Bot.cs:99 | the result neither starts nor ends with white space |
| Text.TrimUnchanged | src/Bot.cs:99 | a string without white space at either end is its own trimmed form |
| Text.TrimSkipsLeadingWhiteSpace | src/Bot.cs:99 | leading white space makes no difference to the trimmed result |
| Text.UpToFirstSpace | src/Bot.cs:90 | the first element of Split(' ') is a space-free prefix that ends at the first space or at the end |
| PingCommand.ExecuteSendsPong | src/Commands/PingCommand.cs:13-16 | ping sends exactly "pong" to the chat, throws nothing, and ignores user, message and text |
| HelpCommand.ExecuteSendsTodo | src/Commands/HelpCommand.cs:21-24 | help sends exactly its fixed placeholder reply to the chat, throws nothing, and ignores user, message and text |
| BotCommand.Execute | src/Commands/IBotCommand.cs:12 | every call concerns the chat the command was invoked from; ping and help send one message without buttons; any other handler makes one call per step, each built from the chat, user, message and text it was given; nothing is logged; it throws exactly when it is a failing handler |
| BotCommand.SendMessage | src/Commands/IBotCommand.cs:19-22 | the default SendMessage forwards chat, text and buttons as one chat-service call |
| BotCommand.ExecuteIgnoresUserMessageAndText | src/Commands/IBotCommand.cs:12 | the effects of ping and help do not depend on the user id, the message id or the command text, and a null text is accepted |
| BotCommand.EchoEditLookUpCalls | src/IChatService.cs:13-15 | a handler that echoes its text, edits its message and looks up its user makes exactly SendMessage with the text, UpdateMessage of that message and GetChatMemberName of that user, in the invoked chat |
| BotCommand.ExecuteSeesItsArguments | src/Commands/IBotCommand.cs:12 | a handler can observe every argument: for the echoing, editing, looking-up handler, equal effects imply equal chat, user, message and text |
| Dispatch.SingleOrDefaultSpec | src/Bot.cs:69 | the lookup is empty exactly when no command's "/" + name equals the token ignoring case; it throws InvalidOperation exactly when two or more do; otherwise it is the one that does |
| Dispatch.SingleOrDefaultIgnoresCase | src/Bot.cs:69 | tokens that differ only in letter case select the same command |
| Dispatch.UnknownCommand | src/Commands/IBotCommand.cs:14-17 | the unknown-command reply is one message with the fixed text and no buttons |
| Dispatch.ProcessChatMessage | src/Bot.cs:65-84 | a sender other than a chat service gets nothing; a token matching nothing gets the unknown-command reply; several matches throw before anything is sent; a unique match runs that command with the event's chat, user, message and text |
| Dispatch.ChatMessageArgumentsReachHandler | src/Bot.cs:72-76 | the matched command receives the event's chat, user, message and text unchanged: an echoing, editing, looking-up handler makes exactly the calls built from them |
| Dispatch.FallbackIsUnknownCommand | src/Bot.cs:78-82 | the bot's fallback reply is exactly IBotCommand.UnknownCommand |
| Dispatch.CallbackToken | src/Bot.cs:90 | the token is null exactly for a null payload, and otherwise is the payload's prefix up to its first space |
| Dispatch.ProcessCallback | src/Bot.cs:86-106 | a null or empty payload, or a token matching nothing, gives one critical log entry and no message; several matches throw; a unique match runs that command with the payload minus the token, trimmed |
| Dispatch.CallbackArgumentReachesHandler | src/Bot.cs:93-99 | a matched callback has a non-empty token, and its command receives the payload minus the token, trimmed, together with the event's chat, user and message |
| Dispatch.UpToFirstSpaceOfWord | src/Bot.cs:90 | a word without spaces followed by a space is what Split(' ').First() returns |
| Dispatch.CallbackSplitsAtFirstSpace | src/Bot.cs:90-99 | "token rest", with the token not occurring again, splits into the token and the trimmed rest |
| Dispatch.RunEachAppend | src/Bot.cs:41-63 | running per-event handling over two runs of events gives the two runs' effects, concatenated |
| Dispatch.HandleAllSnoc | src/Bot.cs:41-63 | handling one more event appends exactly that event's effects |
| Dispatch.HandleAllAppend | src/Bot.cs:41-63 | no event affects how another is handled |
| Dispatch.FaultIsLoggedAndIsolated | src/Bot.cs:43-50 | an event whose processing throws leaves its calls made so far and one error log entry, and the events after it are handled as if it had not happened |
| Dispatch.Bot.constructor | src/Bot.cs:21-26 | a new bot has handled nothing, made no calls, logged nothing and is not subscribed |
| Dispatch.Bot.StartAsync | src/Bot.cs:28-33 | subscribes once more to both events |
| Dispatch.Bot.StopAsync | src/Bot.cs:35-39 | unsubscribes one chat-message subscription and leaves the callback subscription alone |
| Dispatch.Bot.Catch | src/Bot.cs:47-50 | keeps the calls the processing made, adds one error entry if it threw, and keeps the state equal to the handling of all events so far |
| Dispatch.Bot.OnChatMessage | src/Bot.cs:41-51 | appends the message's calls and its error entry, if it threw, and keeps the state equal to the handling of all events so far |
| Dispatch.Bot.OnCallback | src/Bot.cs:53-63 | appends the callback's calls and log entries and keeps the state equal to the handling of all events so far |
| Dispatch.Bot.DeliverChatMessage | src/Bot.cs:30 | a raised ChatMessage is handled once per subscription, and not at all when unsubscribed |
| Dispatch.Bot.DeliverCallback | src/Bot.cs:31 | a raised Callback is handled once per subscription |
| Telegram.BotUserName | src/TelegramService.cs:26 | the bot user name is "@" followed by the user name, which can be read back from it |
| Telegram.Published | src/TelegramService.cs:44-51 | every published entry is the name and description of a registered non-internal command |
| Telegram.PublishedComplete | src/TelegramService.cs:46 | every non-internal command is published |
| Telegram.PublishedAppend | src/TelegramService.cs:44-51 | publishing keeps the registration order |
| Telegram.CommandEntities | src/TelegramService.cs:59-65 | the result is no longer than the entities, and holds exactly the entities of bot-command type |
| Telegram.CommandEntitiesMultiset | src/TelegramService.cs:65-75 | each bot-command entity is kept as often as the message has it, and no other entity is kept, so the count OnMessage branches on is the number of bot-command entities |
| Telegram.CommandEntitiesAppend | src/TelegramService.cs:59-75 | the command entities of two runs of entities are those of the first, then those of the second, so their order is kept |
| Telegram.ReadMessage | src/TelegramService.cs:55-87 | no event when the message has no bot-command entity; the one-command reply exactly when it has several; NullReference without text and ArgumentOutOfRange when the entity lies outside the text; nothing at all when ChatMessage has no handler; ArgumentEmpty exactly when it has one and the entity's text with every "@botname" removed is empty; otherwise an event whose command is that text, whose text is the message text with every occurrence of the command removed and then trimmed, and which carries the message's chat, sender and id |
| Telegram.ReplaceKeepsHead | src/TelegramService.cs:77 | removing "@botname" from a command starting with another character keeps that first character |
| Telegram.SlashCommandRaisesEvent | src/TelegramService.cs:75-86 | with a ChatMessage handler, a single command entity starting with "/" always raises an event whose command starts with "/" |
| Telegram.CommandThenText | src/TelegramService.cs:75-86 | with a ChatMessage handler, a command followed by text raises an event with that command and the trimmed text |
| Telegram.CommandWithBotName | src/TelegramService.cs:76-81 | with a ChatMessage handler, for "/cmd@botname rest" with the entity covering "/cmd@botname", the command is "/cmd" and the text is "@botname rest" trimmed, because only "/cmd" is removed from the text |
| Telegram.EmptyCommandIffOnlyBotName | src/TelegramService.cs:76-81 | the empty-command exception happens exactly when ChatMessage has a handler and the entity covers nothing but copies of "@botname" |
| Telegram.BotNameAloneNeedsHandler | src/TelegramService.cs:79-81 | an entity covering just "@botname" throws the empty-command exception with a ChatMessage handler, and does nothing without one, because `?.Invoke` then skips the Replace in its arguments |
| Telegram.ReservedFacts | src/TelegramService.cs:167 | the 18 escaped characters are distinct single characters, none of them a backslash |
| Telegram.EscapeOnly | src/TelegramService.cs:165-173 | escaping never shortens a text |
| Telegram.EscapeOnlyAppend | src/TelegramService.cs:165-173 | escaping a concatenation escapes each part |
| Telegram.EscapeOnlyLength | src/TelegramService.cs:165-173 | escaping adds exactly one backslash per escaped character |
| Telegram.EscapedCharsArePreceded | src/TelegramService.cs:165-173 | in escaped text every escaped character comes right after a backslash |
| Telegram.EscapeStep | src/TelegramService.cs:168-171 | one Replace pass escapes one more character on top of those escaped before |
| Telegram.EscapeTextStep | src/TelegramService.cs:168-171 | the k-th loop pass escapes the k-th listed character |
| Telegram.PlainTextUnchanged | src/TelegramService.cs:165-173 | a text without characters to escape is unchanged |
| Telegram.EscapeText | src/TelegramService.cs:165-173 | a null text throws; otherwise the result puts a backslash before each of the 18 reserved characters and changes nothing else |
| Telegram.MarkdownEscapeRoundTrip | src/TelegramService.cs:165-173 | a text without a backslash, once escaped, is shown by Telegram exactly as written |
| Telegram.MarkdownEscapeLosesBackslash | src/TelegramService.cs:167 | the text `\a` is sent as `\a` and shown as `a` |
| Telegram.ReadAfterEscapedPrefix | src/TelegramService.cs:165-173 | escaped text without a backslash, followed by more text, reads back as itself followed by the reading of the rest |
| Telegram.MarkdownEscapeLosesFirstBackslash | src/TelegramService.cs:167 | a text whose first backslash is followed by a character with code 1 to 126 that is neither reserved nor a backslash is not shown as written |
| Telegram.EscapeTextWithBackslash | src/TelegramService.cs:165-173 | the corrected escaping, which the service does not use: backslashes first, then the 18 reserved characters |
| Telegram.ReadEscapeOnly | src/TelegramService.cs:165-173 | escaping every reserved character, and the backslash whenever the text has one, reads back as the original |
| Telegram.MarkdownEscapeWithBackslashRoundTrip | src/TelegramService.cs:165-173 | with the corrected escaping every text is shown exactly as written |
| Telegram.GetInlineKeyboard | src/TelegramService.cs:126-139 | null buttons give no keyboard; otherwise one button per entry, in order, labelled with the key and carrying the value as callback data |
| Telegram.TelegramService.constructor | src/TelegramService.cs:28-38 | subscribes both client events once, publishes the non-internal commands, then starts receiving |
| Telegram.TelegramService.RegisterCommands | src/TelegramService.cs:42-53 | publishes exactly the non-internal commands as name and description, in order |
| Telegram.TelegramService.OnMessage | src/TelegramService.cs:55-87 | raises what ReadMessage describes; sends the plain-text one-command reply only for several commands sent by the client; makes one GetMe call exactly when a single command entity lies within the text |
| Telegram.TelegramService.OnCallbackQuery | src/TelegramService.cs:89-106 | for the client, removes the message's keyboard and then raises a Callback event with the button data unchanged; for any other sender, does nothing |
| Telegram.TelegramService.SendMessage | src/TelegramService.cs:141-157 | returns true exactly when the message is not null and the client call completes; sends the text escaped as EscapeText escapes it (the 18 reserved characters, not the backslash) as MarkdownV2 with the keyboard |
| Telegram.TelegramService.UpdateMessage | src/TelegramService.cs:108-124 | returns true exactly when the text is not null and the client call completes; edits the message with the text escaped as EscapeText escapes it as MarkdownV2 with the keyboard |
| Telegram.TelegramService.GetChatMemberName | src/TelegramService.cs:159-163 | makes one GetChatMember call for the chat and user, and returns the user name, or the first name when there is none |
| Telegram.TelegramService.DisposeCore | src/TelegramService.cs:175-191 | the first call unsubscribes OnMessage when disposing; later calls change nothing; OnCallbackQuery stays subscribed |
| Telegram.TelegramService.Dispose | src/TelegramService.cs:200-205 | disposing unsubscribes OnMessage once and sets the guard |
| Scenarios.PingSelectedAlone | src/Bot.cs:69 | any capitalisation of "/ping" selects ping and nothing else in the shipped registry |
| Scenarios.PingIgnoresCase | src/Bot.cs:69-77 | "/PING" and "/ping" both get "pong" |
| Scenarios.BareNameIsUnknown | src/Bot.cs:78-82 | "ping" without the slash gets the unknown-command reply |
| Scenarios.CallbackWithArguments | src/Bot.cs:90-99 | a button with data "/ping args" runs ping with the trimmed arguments |
| Scenarios.BarePingCallback | src/Bot.cs:86-100 | a button with data "/ping" runs ping |
| Scenarios.DuplicateRegistrationOnlyLogs | src/Bot.cs:47-49 | with ping registered twice, "/ping" sends nothing and logs one InvalidOperation |
| Scenarios.PublishedRegistry | src/TelegramService.cs:44-52 | the shipped menu is ping, then help, with their descriptions |
| Scenarios.PlainReplySentAsIs | src/TelegramService.cs:141-157 | a reply without a reserved character reaches the client unchanged |
| Scenarios.UnknownReplyEscaped | src/TelegramService.cs:141-173 | the unknown-command reply reaches the client as "Unknown command\. Try /help for a list of available commands\." in MarkdownV2: both full stops are escaped and the "/" is not |
| Scenarios.PongIsPlain | src/Commands/PingCommand.cs:15 | "pong" reaches the client as "pong", in MarkdownV2 |
| Scenarios.PingMessageRaises | src/TelegramService.cs:75-86 | the Telegram message "/ping" raises a ChatMessage event for "/ping" with empty text |
| Scenarios.PingEndToEnd | src/TelegramService.cs:75-86 | the Telegram message "/ping" is answered with "pong" in the same chat |
| Scenarios.PressedButtonCarriesItsValue | src/TelegramService.cs:134 | pressing a keyboard button raises a Callback event carrying that entry's value |
| Scenarios.StopKeepsCallbacks | src/Bot.cs:35-39 | after StopAsync a chat message is ignored but a button press is still handled |
| Scenarios.DisposeKeepsCallbackQueries | src/TelegramService.cs:175-205 | disposing twice unsubscribes OnMessage once and leaves OnCallbackQuery subscribed |

## Left out

- Program.cs and ServiceCollectionExtensions.cs are not part of this model. This covers host setup, configuration and the reflection-based discovery of IBotCommand implementations. The registry is an explicit sequence, and the discovery order is not modelled.
- Asynchrony. Events are handled one at a time, in the order they arrive. The interleaving of `async void` handlers and awaits is not modelled.
- Logging. Trace messages, timestamps and message templates are not modelled. Only the critical entry for an invalid callback and the error entry for a caught exception are recorded.
- `InvariantCultureIgnoreCase` is modelled as an equal-length ASCII case fold. The real comparison is linguistic: it also folds case outside ASCII, ignores zero-weight code points such as U+00AD (soft hyphen), and treats canonically equivalent sequences as equal. None of this is modelled, so tokens that differ only in those ways select no command in the model.
- Strings are sequences of characters. Entity offsets and lengths count characters, not UTF-16 code units.
- Ids are unbounded integers. No arithmetic is done on them, so the source's `long` and `int` widths do not matter.
- The Telegram client's behaviour is not modelled: the network, delivery and errors. `SendMessage` and `UpdateMessage` take whether the client call completes as the parameter `delivered`. `SetMyCommands` and `StartReceiving` are only recorded.
- `BotUserName` takes the user name as a parameter, because the source reads it with a network call (`GetMeAsync`). The call itself is recorded as `GetMe`.
- `OnMessage` takes whether `ChatMessage` has a handler as the parameter `listened`. The service and the bot are separate objects in the model, so the bot's subscription count is not tied to it.
- `GetChatMemberName` takes the client's answer, the chat member, as the parameter `member`, because the source reads it with a network call.
- A null `From` on a message or a null `Message` on a callback query is not modelled. These are channel posts and inline-mode queries, and the source dereferences both without a check.
- The client's reading of MarkdownV2 (`ReadMarkdownV2`) covers text without formatting. An unescaped reserved character is only marked as not plain text. Markup parsing and a trailing lone backslash are not modelled.
- `GC.SuppressFinalize` and the commented-out finalizer are not modelled.
- HelpCommand's stored service provider is not modelled, because nothing reads it.
- Commands other than ping and help have no source in the repository. The handler kind `External(steps, fails)` stands for them: a list of chat-service calls and whether the handler throws. A step sends a fixed text, echoes the command text, edits the invoked message or looks up the user. A real command can compute any text from its arguments; the steps only let each argument reach a call unchanged.

## Findings

| source | as written | input that shows it | evidently intended | confidence | as-written member | corrected member |
|---|---|---|---|---|---|---|
| src/TelegramService.cs:165-173 | EscapeText escapes the 18 reserved MarkdownV2 characters but not the backslash. In MarkdownV2 a backslash before any character with code 1 to 126 is an escape, so a backslash that the text has before a character EscapeText leaves alone changes what Telegram shows. | the message `\a` is sent as `\a` and shown as `a` | the text is shown exactly as written, which needs the backslash escaped first | not executed; medium, from the MarkdownV2 escaping rule | Telegram.MarkdownEscapeLosesFirstBackslash | Telegram.MarkdownEscapeWithBackslashRoundTrip |

The service's `SendMessage` and `UpdateMessage` are modelled with the escaping as written, so every reply in the model reaches the client as the source sends it. The corrected escaping is defined and proved beside it, in `EscapeTextWithBackslash`.

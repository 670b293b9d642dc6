/*
 * HelpCommand: a placeholder that answers with a fixed TODO text.  The service
 * provider the class receives in its constructor is stored and never read, so
 * it does not appear here.
 */
module HelpCommand {
  import opened Text
  import opened ChatTypes

  const Name: string := "help"
  const Description: string := "Get information about the functionality available for this bot"
  const InternalCommand: bool := false

  const Reply: string := "TODO: Create a todo command"

  /** HelpCommand.Execute: sends the fixed reply to the chat, whatever the other arguments. */
  function Execute(chatId: int, userId: int, messageId: int, commandText: Option<string>): Execution
  {
    SendOnly(chatId, Reply, None)
  }

  /** Exactly one message, the TODO text, without buttons, to `chatId`; user, message and argument are ignored. */
  lemma ExecuteSendsTodo(chatId: int, userId: int, messageId: int, commandText: Option<string>,
                         userId': int, messageId': int, commandText': Option<string>)
    ensures Execute(chatId, userId, messageId, commandText).calls == [Send(chatId, Some("TODO: Create a todo command"), None)]
    ensures Execute(chatId, userId, messageId, commandText).raised == None
    ensures Execute(chatId, userId, messageId, commandText) == Execute(chatId, userId', messageId', commandText')
  {
  }
}

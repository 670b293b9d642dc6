/* PingCommand: a liveness check that answers "pong". */
module PingCommand {
  import opened Text
  import opened ChatTypes

  const Name: string := "ping"
  const Description: string := "This is a simple command that can be used to test if the bot is online"
  const InternalCommand: bool := false

  /** PingCommand.Execute: sends "pong" to the chat, whatever the other arguments. */
  function Execute(chatId: int, userId: int, messageId: int, commandText: Option<string>): Execution
  {
    SendOnly(chatId, "pong", None)
  }

  /** Exactly one message, "pong", without buttons, to `chatId`; user, message and argument (even a null one) are ignored. */
  lemma ExecuteSendsPong(chatId: int, userId: int, messageId: int, commandText: Option<string>,
                         userId': int, messageId': int, commandText': Option<string>)
    ensures Execute(chatId, userId, messageId, commandText).calls == [Send(chatId, Some("pong"), None)]
    ensures Execute(chatId, userId, messageId, commandText).raised == None
    ensures Execute(chatId, userId, messageId, commandText) == Execute(chatId, userId', messageId', commandText')
  {
  }
}

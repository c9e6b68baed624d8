/** The real-time events the client listens for, as a tagged union of
    their payloads. */
module Events {
  import opened Types

  datatype Event =
    | NewMessage(message: Message)
    | MessageUpdated(message: Message)
    | MessageDeleted(messageId: int, conversationId: int)
    | MessageReactionUpdate(updated: Message)
    | MessageRead(messageId: int, userId: int, username: string)
    | NewConversation(conversation: Conversation)
    | ConversationUpdated(conversation: Conversation)
    | ParticipantAdded(conversationId: int, participant: Participant)
    | ParticipantRemoved(conversationId: int, removedUserId: int)
    | PresenceUpdate(userId: int, status: string)
    | TypingUpdate(typingConversationId: int, typingUsers: seq<User>)

  /** The event adds, edits or deletes a message; its conversation id. */
  predicate IsMessageChange(e: Event)
  {
    e.NewMessage? || e.MessageUpdated? || e.MessageDeleted?
  }

  function ChangedConversation(e: Event): int
    requires IsMessageChange(e)
  {
    match e
    case NewMessage(m) => m.conversationId
    case MessageUpdated(m) => m.conversationId
    case MessageDeleted(_, c) => c
  }

  /** The event changes what the conversation list shows. */
  predicate IsConversationListChange(e: Event)
  {
    e.NewMessage? || e.NewConversation? || e.ConversationUpdated?
    || e.ParticipantAdded? || e.ParticipantRemoved?
  }
}

/** The records the services and storages exchange. */
module Dtos {
  import opened Common

  /** A conversation as the storage layer builds it: the two participants in
      the order they were given and the last-modified time. Its id is not a
      field; it is derived from the participants (GetConversationId). */
  datatype Conversation = Conversation(userId1: string, userId2: string, lastModifiedUnixTime: int64)

  datatype Message = Message(
    messageId: string,
    text: string,
    senderUsername: string,
    conversationId: string,
    unixTime: int64)

  datatype Profile = Profile(
    username: string,
    firstName: string,
    lastName: string,
    profilePictureId: Option<string>)

  /** The body of a profile update: everything but the username. */
  datatype PutProfileRequest = PutProfileRequest(firstName: string, lastName: string, profilePictureId: string)

  datatype SendMessageRequest = SendMessageRequest(messageId: string, senderUsername: string, text: string)

  datatype StartConversationRequest = StartConversationRequest(participants: seq<string>, firstMessage: SendMessageRequest)

  datatype StartConversationResponse = StartConversationResponse(conversationId: string, createdUnixTime: int64)

  /** A conversation listing as the conversation storage and service return it. */
  datatype EnumerateConversationsResponse = EnumerateConversationsResponse(
    conversations: seq<Conversation>,
    continuationToken: Option<Token>)

  /** A message listing as the message storage and service return it. */
  datatype EnumerateMessagesResponse = EnumerateMessagesResponse(
    messages: seq<Message>,
    continuationToken: Option<Token>)
}

/** The documents as they are stored: each carries its own partition key and id. */
module Entities {
  import opened Common

  datatype ConversationEntity = ConversationEntity(
    partitionKey: string,
    id: string,
    userId1: string,
    userId2: string,
    lastModifiedUnixTime: int64)

  datatype MessageEntity = MessageEntity(
    partitionKey: string,
    id: string,
    text: string,
    senderUsername: string,
    unixTime: int64)

  datatype ProfileEntity = ProfileEntity(
    partitionKey: string,
    id: string,
    firstName: string,
    lastName: string,
    profilePictureId: Option<string>)
}

# ChatService storage and services, modelled in Dafny

This project models the core of a chat backend:
- three document storages: conversations, messages and profiles;
- the two services that drive them: the conversation service and the profile service.

The backing store is a partitioned document container. Here it is a map
from partition key to a map from document id to document. Each storage is a class
whose one field is that map. Every method is tied to a pure function over the map.
The lemmas state the storages' and services' promises about those functions.

**Conversations.** A conversation between two users is stored twice, once in
each participant's partition. Both copies sit under the canonical id: the
ordinally smaller user id, `_`, then the other.

**Messages.** Messages live in the partition named by the conversation id.

**Profiles.** A profile lives at partition = id = username.

**Listings.** A listing is a query over one partition, filtered by a time
bound and ordered by ascending time. The store serves it as pages. The
storages drain every page into one list.

Modules, one per file:
- `Common`: 64/32-bit integers, `Option`, `Result<T>`, the `Error` variants. The variants stand for the exception classes, `ArgumentException`, and the two index exceptions `ArgumentOutOfRangeException` (a list) and `IndexOutOfRangeException` (an array).
- `Strings`: the whitespace test, ordinal comparison, `Split` and `Join`.
- `Dtos` and `Entities`: the records exchanged and stored.
- `Container`: read, upsert and delete of addressed documents.
- `Query`: the ordered, filtered answer of a partition query.
- `Paging`: pages, continuation tokens, the query iterator and the drain loop.
- `ConversationStorage`, `MessageStorage` and `ProfileStorage`: the three storages.
- `ProfileService` and `ConversationService`: the two services.

Each service is a class holding its storages. Its methods change what those storages hold. The method's contract ties the result and the new contents to a pure function of the old contents: `Send`, `Start`, `Add`, `Update`.

Where the expected behaviour and the code disagree, the model follows the code. The expected behaviour is visible in the service tests (ChatService.Tests/ConversationServiceTest.cs) and in the controller: its `catch (UserNotFoundException)` for a start (ChatService/Controllers/ConversationController.cs:154, ChatService.Tests/ConversationControllerTest.cs:239) and its `catch (SenderNotParticipantException)` for a start and a send (ConversationController.cs:69 and :164, ConversationControllerTest.cs:99 and :258).
- **Listings drain every page.** The storages' loops read every page, so `limit` sets only the page size. The whole filtered answer is returned, and the returned token is always null (`DrainPages`, `EnumerateConversationsForAGivenUser`).
- **Sending ignores the conversation.** `SendMessageToConversation` does not load the conversation, check the sender, reject a duplicate message id or update the conversation's timestamp.
- **Starting a conversation checks less than described.** `StartConversation` does not require the participants to have profiles, does not check the sender, and validates the first message only after the conversation is written.
- **Participants beyond the first two are ignored.** Fewer than two participants fails on the `List<string>` index as `ArgumentOutOfRange`, which stands for `ArgumentOutOfRangeException`, a subclass of `ArgumentException`; a caller catching `ArgumentException` treats it like a blank participant (`InvalidArgument`). An id without '_' fails on the `string[]` index of its split as `IndexOutOfRange`, which stands for `IndexOutOfRangeException` and is not an `ArgumentException`.

The repository declares some records twice, in different shapes:
- `Message`, `Profile` and `SendMessageRequest`;
- a `Conversation` with a `conversationId` field.

The model uses the shapes the core code constructs:
- `Conversation(userId1, userId2, lastModifiedUnixTime)`; the id is not a field, it is derived by `GetConversationId`;
- `Profile(username, firstName, lastName, profilePictureId?)`;
- `Message(messageId, text, senderUsername, conversationId, unixTime)`.

## Model

| member | source | states |
|---|---|---|
| Strings.OrdinalLessIrreflexive | ChatService/Storage/CosmosConversationStorage.cs:146 | no string compares ordinally below itself |
| Strings.OrdinalLessAsymmetric | ChatService/Storage/CosmosConversationStorage.cs:146 | two strings are never each ordinally below the other |
| Strings.OrdinalLessTotal | ChatService/Storage/CosmosConversationStorage.cs:146 | of two different strings one is ordinally below the other |
| Strings.Split | ChatService/Storage/CosmosConversationStorage.cs:98-99 | splitting on a separator gives at least one part; no part contains the separator; joining the parts with it gives the string back |
| Strings.SplitJoin | ChatService/Storage/CosmosConversationStorage.cs:98-99 | joining separator-free parts and splitting again gives back exactly those parts |
| Container.Read | ChatService/Storage/CosmosConversationStorage.cs:77-84 | a read finds a document exactly when one is stored at that partition and id |
| Container.Upsert | ChatService/Storage/CosmosConversationStorage.cs:67-68 | an upsert makes the document readable at its address and changes no other address |
| Container.DeleteItem | ChatService/Storage/CosmosConversationStorage.cs:114-127 | deleting a stored document makes its address unreadable and changes no other address |
| Container.UpsertOverwrites | ChatService/Storage/CosmosConversationStorage.cs:67-68 | of two upserts at one address only the later one counts |
| Container.UpsertCommutes | ChatService/Storage/CosmosConversationStorage.cs:67-68 | upserts at different addresses can be made in either order |
| Query.InsertByTimeMembers | ChatService/Storage/CosmosConversationStorage.cs:36-40 | inserting an id into a listing adds exactly that id |
| Query.InsertByTimeSorted | ChatService/Storage/CosmosConversationStorage.cs:36-40 | inserting by time keeps a listing in ascending time order and keeps it free of repeats |
| Query.Run | ChatService/Storage/CosmosConversationStorage.cs:36-40 | the query answers every document of the partition later than the bound (every document without one), each once, ascending by time, and nothing else |
| Paging.FlattenAppend | ChatService/Storage/CosmosConversationStorage.cs:46-49 | the items of pages read so far followed by one more page are those pages' items followed by that page's items |
| Paging.PaginateCovers | ChatService/Storage/CosmosConversationStorage.cs:43-50 | the served pages hold exactly the answer from the resume point, in order, with nothing lost or repeated, whatever the page size |
| Paging.PaginateShape | ChatService/Storage/CosmosConversationStorage.cs:33 | there is at least one page, only the last lacks a continuation token, and a positive limit bounds every page |
| Paging.PaginateResumes | ChatService/Storage/CosmosConversationStorage.cs:41 | resuming a query at a page's continuation token serves exactly the pages after that page |
| Paging.QueryIterator.HasMoreResults | ChatService/Storage/CosmosConversationStorage.cs:43 | the iterator has more results exactly while unread pages remain |
| Paging.QueryIterator.ReadNext | ChatService/Storage/CosmosConversationStorage.cs:45 | each read returns the next page in order and advances past it |
| Paging.MapItemsAppend | ChatService/Storage/CosmosConversationStorage.cs:46-49 | converting two runs of items one after the other equals converting them together |
| Paging.DrainPages | ChatService/Storage/CosmosConversationStorage.cs:42-53 | the drain loop converts every item of every page in order, and the token it reports, the last page's, is null |
| ConversationStorage.ConversationIdSymmetric | ChatService/Storage/CosmosConversationStorage.cs:144-147 | the conversation id of (a, b) is that of (b, a) |
| ConversationStorage.ConversationIdSplits | ChatService/Storage/CosmosConversationStorage.cs:144-147 | for user ids without '_', splitting the id gives exactly two parts, the two users, ordinally smaller first |
| ConversationStorage.ConversationIdInjective | ChatService/Storage/CosmosConversationStorage.cs:144-147 | for user ids without '_', equal ids mean the same pair of users |
| ConversationStorage.ConversationIdCollides | ChatService/Storage/CosmosConversationStorage.cs:146 | with '_' in user ids, ("a_b", "c") and ("a", "b_c") get the same id |
| ConversationStorage.ConversationIdNotBlank | ChatService/Services/ConversationService.cs:95 | a conversation id always holds '_', so it is never blank |
| ConversationStorage.ToConversationEntity | ChatService/Storage/CosmosConversationStorage.cs:149-158 | a replica is in the given partition, under the canonical id, and reads back as the conversation it was made from |
| ConversationStorage.EntityRoundTrip | ChatService/Storage/CosmosConversationStorage.cs:138-158 | a document under its canonical id, read back and stored again in its partition, is unchanged |
| ConversationStorage.Get | ChatService/Storage/CosmosConversationStorage.cs:72-94 | a lookup succeeds exactly when the first user's partition holds the pair's id; otherwise it fails with ConversationNotFound |
| ConversationStorage.PostKeepsPlaced | ChatService/Storage/CosmosConversationStorage.cs:65-70 | posting keeps every replica in a participant's partition, under its own canonical id |
| ConversationStorage.PostWritesReplicas | ChatService/Storage/CosmosConversationStorage.cs:65-70 | posting writes, under the canonical id, one replica with the same payload into each participant's partition, and no other document changes |
| ConversationStorage.PostReplaces | ChatService/Storage/CosmosConversationStorage.cs:67-68 | posting the same pair again, in either order, leaves the store as if only the later post had happened |
| ConversationStorage.GetAfterPost | ChatService/Storage/CosmosConversationStorage.cs:72-94 | after posting, the lookup in either order returns the posted conversation |
| ConversationStorage.GetByIdReadsOrdered | ChatService/Storage/CosmosConversationStorage.cs:96-101 | for user ids without '_', the lookup by id is the lookup of the pair with the ordinally smaller user first |
| ConversationStorage.GetByIdAfterPost | ChatService/Storage/CosmosConversationStorage.cs:96-101 | for user ids without '_', after posting, the lookup by the canonical id returns the posted conversation |
| ConversationStorage.GetByIdMissesUnderscoreIds | ChatService/Storage/CosmosConversationStorage.cs:98-99 | a conversation between "a_b" and "c", just posted, is not found by its own id |
| ConversationStorage.GetReturnsParticipants | ChatService/Storage/CosmosConversationStorage.cs:76-85 | a conversation that is found has the first user looked up as a participant, and its canonical id is the one asked for |
| ConversationStorage.DeleteOutcomes | ChatService/Storage/CosmosConversationStorage.cs:103-136 | a blank user is rejected and nothing is deleted; true exactly when two distinct replicas were present, and then both are gone; a missing first replica deletes nothing; a present first replica is deleted even when the second is missing; nothing is written and nothing else changes |
| ConversationStorage.DeleteKeepsPlaced | ChatService/Storage/CosmosConversationStorage.cs:103-136 | deleting keeps the placement of every remaining replica |
| ConversationStorage.DeleteAfterPost | ChatService/Storage/CosmosConversationStorage.cs:103-136 | deleting a just-posted conversation of two users succeeds, and afterwards neither lookup order finds it |
| ConversationStorage.ListedHasUser | ChatService/Storage/CosmosConversationStorage.cs:31 | every conversation listed from a user's partition has that user as a participant |
| ConversationStorage.CosmosConversationStorage.PostConversation | ChatService/Storage/CosmosConversationStorage.cs:65-70 | the two upserts make the store the posted store, and the canonical id is returned |
| ConversationStorage.CosmosConversationStorage.GetConversation | ChatService/Storage/CosmosConversationStorage.cs:72-94 | answers as `Get` does on the current store |
| ConversationStorage.CosmosConversationStorage.GetConversationById | ChatService/Storage/CosmosConversationStorage.cs:96-101 | fails with IndexOutOfRange for an id without '_', and otherwise looks up its first two parts |
| ConversationStorage.CosmosConversationStorage.DeleteConversation | ChatService/Storage/CosmosConversationStorage.cs:103-136 | answers, and leaves the store, as `Delete` does from the old store; the placement invariant is kept |
| ConversationStorage.CosmosConversationStorage.EnumerateConversationsForAGivenUser | ChatService/Storage/CosmosConversationStorage.cs:20-63 | the result lists the user's conversations later than the bound, ascending, each once, from the resume point on, whatever the limit; the token is null |
| MessageStorage.ToMessageEntity | ChatService/Storage/CosmosMessageStorage.cs:117-121 | a message's document is partitioned by its conversation, keyed by its id, and reads back as the same message |
| MessageStorage.MessageEntityRoundTrip | ChatService/Storage/CosmosMessageStorage.cs:111-121 | a document read back as a message and stored again is unchanged |
| MessageStorage.Get | ChatService/Storage/CosmosMessageStorage.cs:69-88 | a message is found exactly when its conversation's partition holds its id; otherwise none (null) |
| MessageStorage.PostKeepsPlaced | ChatService/Storage/CosmosMessageStorage.cs:64-67 | posting keeps every document at its own partition and id |
| MessageStorage.GetAfterPost | ChatService/Storage/CosmosMessageStorage.cs:64-88 | after posting, the message is found at its conversation and id, and every other message reads as before |
| MessageStorage.PostReplaces | ChatService/Storage/CosmosMessageStorage.cs:66 | a later post with the same conversation and id replaces the earlier one |
| MessageStorage.PostCommutes | ChatService/Storage/CosmosMessageStorage.cs:66 | posts of messages at different addresses can be reordered |
| MessageStorage.GetReturnsAddressed | ChatService/Storage/CosmosMessageStorage.cs:73-80 | a message found carries the conversation and id it was looked up by |
| MessageStorage.DeleteOutcomes | ChatService/Storage/CosmosMessageStorage.cs:90-109 | delete answers whether the message existed; afterwards it does not; no other message changes |
| MessageStorage.DeleteKeepsPlaced | ChatService/Storage/CosmosMessageStorage.cs:90-109 | deleting keeps every remaining document at its own address |
| MessageStorage.DeleteAfterPost | ChatService/Storage/CosmosMessageStorage.cs:90-109 | a just-posted message is deleted once: true, then not found, then a second delete answers false |
| MessageStorage.ListedInConversation | ChatService/Storage/CosmosMessageStorage.cs:31 | every message listed from a conversation's partition belongs to that conversation and carries the listed id |
| MessageStorage.CosmosMessageStorage.PostMessageToConversation | ChatService/Storage/CosmosMessageStorage.cs:64-67 | the store becomes the posted store; the placement invariant is kept |
| MessageStorage.CosmosMessageStorage.GetMessage | ChatService/Storage/CosmosMessageStorage.cs:69-88 | answers as `Get` does on the current store |
| MessageStorage.CosmosMessageStorage.DeleteMessage | ChatService/Storage/CosmosMessageStorage.cs:90-109 | answers, and leaves the store, as `Delete` does from the old store |
| MessageStorage.CosmosMessageStorage.EnumerateMessagesFromAGivenConversation | ChatService/Storage/CosmosMessageStorage.cs:20-62 | the result lists the conversation's messages later than the bound, ascending by time, each once, from the resume point on, whatever the limit; the token is null |
| ProfileStorage.ToEntity | ChatService/Storage/CosmosProfileStorage.cs:76-85 | a profile's document has the username as partition key and id, and reads back as the same profile |
| ProfileStorage.ProfileEntityRoundTrip | ChatService/Storage/CosmosProfileStorage.cs:76-94 | a document addressed by its username, read back and stored again, is unchanged |
| ProfileStorage.Get | ChatService/Storage/CosmosProfileStorage.cs:34-54 | a profile is found exactly when the username's partition holds the username; otherwise none (null) |
| ProfileStorage.WriteKeepsPlaced | ChatService/Storage/CosmosProfileStorage.cs:22-32 | upserting keeps every document at its username and complete |
| ProfileStorage.WriteOutcomes | ChatService/Storage/CosmosProfileStorage.cs:22-32 | the upsert succeeds exactly for a profile with non-blank username, first and last name; a rejected profile writes nothing; an accepted one reads back, replacing any earlier one; no other profile changes |
| ProfileStorage.GetReturnsAddressed | ChatService/Storage/CosmosProfileStorage.cs:38-46 | a profile found has the username looked up and is complete |
| ProfileStorage.DeleteOutcomes | ChatService/Storage/CosmosProfileStorage.cs:56-74 | after deleting, the profile is gone and no other profile changes; deleting a missing profile changes nothing |
| ProfileStorage.DeleteKeepsPlaced | ChatService/Storage/CosmosProfileStorage.cs:56-74 | deleting keeps every remaining document placed |
| ProfileStorage.CosmosProfileStorage.UpsertProfile | ChatService/Storage/CosmosProfileStorage.cs:22-32 | answers, and leaves the store, as `Write` does from the old store |
| ProfileStorage.CosmosProfileStorage.GetProfile | ChatService/Storage/CosmosProfileStorage.cs:34-54 | answers as `Get` does on the current store |
| ProfileStorage.CosmosProfileStorage.DeleteProfile | ChatService/Storage/CosmosProfileStorage.cs:56-74 | the store becomes `Delete` of the old store |
| ProfileService.GetOutcomes | ChatService/Services/ProfileService.cs:16-28 | a blank username is InvalidArgument, a missing profile UserNotFound; a success returns the stored profile of that username |
| ProfileService.AddOutcomes | ChatService/Services/ProfileService.cs:30-46 | an incomplete profile is InvalidArgument and a taken username UserConflict, both writing nothing; success exactly otherwise, and then the profile reads back and no other profile changes |
| ProfileService.AddTwiceConflicts | ChatService/Services/ProfileService.cs:39-43 | after a successful add, adding the same username again is UserConflict and changes nothing |
| ProfileService.UpdateOutcomes | ChatService/Services/ProfileService.cs:48-65 | a blank argument is InvalidArgument and a missing user UserNotFound, both writing nothing; a success returns the updated profile, which the store now holds for that user, and no other profile changes |
| ProfileService.UpdateCreatesNoUser | ChatService/Services/ProfileService.cs:58-62 | an update never creates a profile |
| ProfileService.ProfileService.GetProfile | ChatService/Services/ProfileService.cs:16-28 | answers as `Get` does on the profile store |
| ProfileService.ProfileService.AddProfile | ChatService/Services/ProfileService.cs:30-46 | answers, and leaves the profile store, as `Add` does |
| ProfileService.ProfileService.UpdateProfile | ChatService/Services/ProfileService.cs:48-65 | answers, and leaves the profile store, as `Update` does |
| ConversationService.UrlEncode | ChatService/Services/ConversationService.cs:60 | encoding a token keeps null as null and a token as a token |
| ConversationService.SendOutcomes | ChatService/Services/ConversationService.cs:21-44 | a blank conversation id, text, sender or message id is InvalidArgument and writes nothing; otherwise the returned message has the request's fields, the given conversation id and time now, and is what the message store holds at its address; nothing else changes |
| ConversationService.SendAcceptsUnknownConversation | ChatService/Services/ConversationService.cs:21-44 | a message is accepted for a conversation id the conversation store does not know |
| ConversationService.SendToKnownOutcomes | ChatService.Tests/ConversationServiceTest.cs:24-48 | the corrected send fails exactly on a blank argument or an unknown conversation, and then writes nothing; on success it returns the same message as the written send, stores it, and both lookups of the conversation show the message's time; no other conversation document, message or profile changes |
| ConversationService.SendToKnownRejectsMissing | ChatService.Tests/ConversationServiceTest.cs:66-85 | in the corrected send, a conversation that is not found is ConversationNotFound, and neither a message nor a conversation is written |
| ConversationService.StartRejects | ChatService/Services/ConversationService.cs:63-82 | fewer than two participants is ArgumentOutOfRange, a blank participant InvalidArgument, an existing conversation ConversationConflict, and none of them writes anything |
| ConversationService.StartSucceeds | ChatService/Services/ConversationService.cs:75-104 | success exactly for two non-blank participants with no conversation yet and a valid first message; it returns the canonical id and now; both lookup orders find the conversation with time now; the first message is stored under the canonical id with time now; no other conversation document, message or profile changes |
| ConversationService.StartKeepsConversationOnBadMessage | ChatService/Services/ConversationService.cs:85-101 | a blank first-message field is InvalidArgument, yet both replicas of the new conversation remain and no message is stored |
| ConversationService.StartBadMessageWrites | ChatService/Services/ConversationService.cs:85-101 | on empty stores, a start with blank text fails and still changes the stores |
| ConversationService.StartIgnoresProfiles | ChatService/Services/ConversationService.cs:72-73 | the profiles have no influence on a start: any other profile store gives the same answer and writes |
| ConversationService.StartAcceptsUnknownUsers | ChatService/Services/ConversationService.cs:72-73 | on empty stores, two users without a profile start a conversation with a first message from a third user |
| ConversationService.StartTwiceConflicts | ChatService/Services/ConversationService.cs:77-82 | after a successful start, a second start with the same two participants in either order is ConversationConflict and writes nothing |
| ConversationService.StartConflictsWithPosted | ChatService/Services/ConversationService.cs:77-82 | a conversation posted between the two users, in either order, makes a start ConversationConflict with no write |
| ConversationService.StartCheckedOutcomes | ChatService/Services/ConversationService.cs:63-105 | the corrected start writes nothing when it fails, reports a missing profile as UserNotFound, succeeds only when both participants have a profile, and otherwise behaves as the written start |
| ConversationService.ConversationService.SendMessageToConversation | ChatService/Services/ConversationService.cs:21-44 | answers, and leaves the stores, as `Send` does |
| ConversationService.ConversationService.SendMessageToKnownConversation | ChatService.Tests/ConversationServiceTest.cs:24-85 | answers, and leaves the stores, as `SendToKnown` does |
| ConversationService.ConversationService.EnumerateMessagesInAConversation | ChatService/Services/ConversationService.cs:46-61 | a blank id is InvalidArgument; an id the lookup by id rejects gives that error (IndexOutOfRange or ConversationNotFound); otherwise the conversation's messages later than the bound, ascending, from the resume point, and a null token |
| ConversationService.ConversationService.StartConversation | ChatService/Services/ConversationService.cs:63-106 | answers, and leaves the stores, as `Start` does |
| ConversationService.ConversationService.StartConversationChecked | ChatService/Services/ConversationService.cs:63-106 | answers, and leaves the stores, as `StartChecked` does |
| ConversationService.ConversationService.EnumerateConversationsOfAGivenUser | ChatService/Services/ConversationService.cs:108-125 | fails exactly for a blank user id, with InvalidArgument; otherwise the user's conversations later than the bound, ascending, from the resume point, and a null token |

## Left out

- Null strings are not modelled. `string.IsNullOrWhiteSpace` is modelled on strings only, so a null argument is not distinguished from an empty one.
- Strings.OrdinalLess: compares Unicode scalar values, while `string.CompareOrdinal` compares UTF-16 code units. The two orders differ only between characters above U+FFFF and those in U+E000–U+FFFF.
- The store orders documents with equal times as it likes. `Query.Run` may return them in any order, and every contract states only what `IsAnswer` fixes.
- Continuation tokens are opaque strings in the store. Here a token is an item offset into the answer, and a token past the end resumes at the end. Tokens the store would reject are not modelled.
- Paging.PageSize: no limit, or a non-positive one, lets the store choose the page size (`MaxItemCount = limit ?? -1`). The model serves such a query as one page.
- Store failures other than "not found" (throttling, network faults) propagate in the source. They are not modelled, nor is a failure between the two upserts of a conversation.
- The "not found" catch of the two enumerations is not modelled: a query over a partition of the map never fails. In the source, the conversation listing turns that case into ConversationNotFound and the message listing returns null.
- ConversationService.UrlEncode: percent-encoding is not modelled. On the abstract cursor it is the identity, so null stays null.
- The wall clock becomes a parameter `now`.
- Asynchronous interleaving and the check-then-write races of `StartConversation` and `AddProfile` are not modelled; every operation runs alone.
- Consistency levels are not modelled.
- The storage interfaces (`IConversationStorage`, `IMessageStorage`, `IProfileStorage`) are not modelled. The services hold the concrete storage classes.
- The HTTP controllers, the image and blob-storage path and the startup wiring are not part of this model.
- Not modelled, because the code does not make them: rejecting a sender who is not a participant, rejecting a duplicate message id, requiring exactly two participants, and the recipient projection of listings. So `SenderNotParticipant`, `MessageConflict` and `MessageNotFound` are declared but never produced. The corrected start validates the first message before writing anything, and requires both participants to have a profile. The corrected send repairs the first finding below and the corrected start repairs the other two; they add no sender check, because no service test states one and the controller tests only mock the exception.
- Some tests expect what the storage code does not do. The model follows the code:
  - a message found under the reversed conversation id;
  - validation in the message store and in `PostConversation`;
  - null instead of ConversationNotFound from a conversation lookup.
- Tests that use types absent from the modelled sources (`UpsertConversation`, `PostConversationRequest`) are not modelled.

## Findings

| source | as written | input that shows it | evidently intended | confidence | as-written member | corrected member |
|---|---|---|---|---|---|---|
| ChatService/Services/ConversationService.cs:21-44 | the message is posted without loading the conversation, and the conversation's timestamp is never updated | empty stores, conversation id "a_b", request ("m", "a", "hi"): the message is accepted although no conversation "a_b" exists | ConversationNotFound with no write for an unknown conversation, and on success the conversation upserted again with the message's time, as ConversationServiceTest.cs:45 and 67-85 expect | medium, not executed | ConversationService.SendAcceptsUnknownConversation | ConversationService.SendToKnownOutcomes |
| ChatService/Services/ConversationService.cs:85-101 | the first message is validated only after the conversation has been posted | empty stores, participants ["a", "b"], first message ("m", "a", " "): ArgumentException, yet both replicas are stored | validate the first message before writing anything | medium, not executed | ConversationService.StartBadMessageWrites | ConversationService.StartCheckedOutcomes |
| ChatService/Services/ConversationService.cs:72-73 | the results of the two profile lookups are discarded | empty stores, participants ["a", "b"]: the conversation starts though neither user has a profile | UserNotFound when a participant has no profile | medium, not executed | ConversationService.StartAcceptsUnknownUsers | ConversationService.StartCheckedOutcomes |

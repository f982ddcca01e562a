/** The message store: the messages of a conversation live in the partition
    named by the conversation id, each under its message id. */
module MessageStorage {
  import opened Common
  import opened Dtos
  import opened Entities
  import opened Container
  import opened Query
  import opened Paging

  type Store = Container<MessageEntity>

  function ToMessage(e: MessageEntity): Message {
    Message(e.id, e.text, e.senderUsername, e.partitionKey, e.unixTime)
  }

  /** The document of a message: partitioned by its conversation, keyed by its id. */
  function ToMessageEntity(m: Message): (e: MessageEntity)
    ensures ToMessage(e) == m
    ensures e.partitionKey == m.conversationId && e.id == m.messageId
  {
    MessageEntity(m.conversationId, m.messageId, m.text, m.senderUsername, m.unixTime)
  }

  /** Reading a document back as a message and storing it again gives the same document. */
  lemma MessageEntityRoundTrip(e: MessageEntity)
    ensures ToMessageEntity(ToMessage(e)) == e
  {
  }

  /** Every document sits at its own partition key and id. */
  ghost predicate Placed(s: Store) {
    forall pk, id :: pk in s && id in s[pk] ==> s[pk][id].partitionKey == pk && s[pk][id].id == id
  }

  /** PostMessageToConversation: one upsert, addressed by the document itself. */
  function Post(s: Store, m: Message): Store {
    Upsert(s, m.conversationId, m.messageId, ToMessageEntity(m))
  }

  /** GetMessage: None where the store answers "not found". */
  function Get(s: Store, conversationId: string, messageId: string): (r: Option<Message>)
    ensures r.Some? <==> Contains(s, conversationId, messageId)
  {
    match Read(s, conversationId, messageId)
    case Some(e) => Some(ToMessage(e))
    case None => None
  }

  /** DeleteMessage: true when the document was there and is now gone, false for "not found". */
  function Delete(s: Store, conversationId: string, messageId: string): Transition<bool, Store> {
    if Contains(s, conversationId, messageId) then Transition(true, DeleteItem(s, conversationId, messageId))
    else Transition(false, s)
  }

  lemma PostKeepsPlaced(s: Store, m: Message)
    requires Placed(s)
    ensures Placed(Post(s, m))
  {
    var s': Store := Post(s, m);
    forall pk: string, x: string | pk in s' && x in s'[pk]
      ensures s'[pk][x].partitionKey == pk && s'[pk][x].id == x
    {
      assert Read(s', pk, x) == Some(s'[pk][x]);
      if pk != m.conversationId || x != m.messageId {
        assert Read(s, pk, x) == Some(s'[pk][x]);
      }
    }
  }

  /** After posting m, reading its conversation and id returns m, and every other message is as before. */
  lemma GetAfterPost(s: Store, m: Message)
    ensures Get(Post(s, m), m.conversationId, m.messageId) == Some(m)
    ensures forall c, x :: c != m.conversationId || x != m.messageId ==> Get(Post(s, m), c, x) == Get(s, c, x)
  {
  }

  /** Posting a message with the same conversation and id replaces the earlier one. */
  lemma PostReplaces(s: Store, m: Message, m': Message)
    requires m.conversationId == m'.conversationId && m.messageId == m'.messageId
    ensures Post(Post(s, m), m') == Post(s, m')
  {
    UpsertOverwrites(s, m.conversationId, m.messageId, ToMessageEntity(m), ToMessageEntity(m'));
  }

  /** Posts of messages at different addresses can be reordered. */
  lemma PostCommutes(s: Store, m: Message, m': Message)
    requires m.conversationId != m'.conversationId || m.messageId != m'.messageId
    ensures Post(Post(s, m), m') == Post(Post(s, m'), m)
  {
    UpsertCommutes(s, m.conversationId, m.messageId, ToMessageEntity(m), m'.conversationId, m'.messageId, ToMessageEntity(m'));
  }

  /** Under the placement invariant a message read back carries the conversation and id it was read by. */
  lemma GetReturnsAddressed(s: Store, conversationId: string, messageId: string)
    requires Placed(s) && Get(s, conversationId, messageId).Some?
    ensures Get(s, conversationId, messageId).value.conversationId == conversationId
    ensures Get(s, conversationId, messageId).value.messageId == messageId
  {
  }

  /** DeleteMessage answers whether the message existed; afterwards it does not, and no other message changes. */
  lemma DeleteOutcomes(s: Store, conversationId: string, messageId: string)
    ensures Delete(s, conversationId, messageId).result <==> Contains(s, conversationId, messageId)
    ensures Get(Delete(s, conversationId, messageId).state, conversationId, messageId) == None
    ensures forall c, x :: c != conversationId || x != messageId ==>
      Get(Delete(s, conversationId, messageId).state, c, x) == Get(s, c, x)
  {
  }

  lemma DeleteKeepsPlaced(s: Store, conversationId: string, messageId: string)
    requires Placed(s)
    ensures Placed(Delete(s, conversationId, messageId).state)
  {
    var s': Store := Delete(s, conversationId, messageId).state;
    forall pk: string, x: string | pk in s' && x in s'[pk]
      ensures s'[pk][x].partitionKey == pk && s'[pk][x].id == x
    {
      assert Read(s', pk, x) == Some(s'[pk][x]);
      assert Read(s, pk, x) == Some(s'[pk][x]);
    }
  }

  /** A message just posted can be deleted once: the first delete answers
      true, a second one false, and the message is no longer found. */
  lemma {:induction false} DeleteAfterPost(s: Store, m: Message)
    ensures Delete(Post(s, m), m.conversationId, m.messageId).result
    ensures Get(Delete(Post(s, m), m.conversationId, m.messageId).state, m.conversationId, m.messageId) == None
    ensures !Delete(Delete(Post(s, m), m.conversationId, m.messageId).state, m.conversationId, m.messageId).result
  {
    GetAfterPost(s, m);
    DeleteOutcomes(Post(s, m), m.conversationId, m.messageId);
    DeleteOutcomes(Delete(Post(s, m), m.conversationId, m.messageId).state, m.conversationId, m.messageId);
  }

  /** The ordering field of each document of a partition. */
  function Times(part: map<string, MessageEntity>): (times: map<string, int64>)
    ensures times.Keys == part.Keys
  {
    map id | id in part :: part[id].unixTime
  }

  /** The messages of the listed documents of a partition, in order. */
  function Listed(part: map<string, MessageEntity>, ids: seq<string>): seq<Message>
    requires forall i :: 0 <= i < |ids| ==> ids[i] in part
  {
    seq(|ids|, i requires 0 <= i < |ids| => ToMessage(part[ids[i]]))
  }

  /** Under the placement invariant a conversation's listing holds only messages of that conversation. */
  lemma {:induction false} ListedInConversation(s: Store, conversationId: string, ids: seq<string>)
    requires Placed(s)
    requires forall i :: 0 <= i < |ids| ==> ids[i] in Partition(s, conversationId)
    ensures forall i :: 0 <= i < |ids| ==>
      Listed(Partition(s, conversationId), ids)[i].conversationId == conversationId
      && Listed(Partition(s, conversationId), ids)[i].messageId == ids[i]
  {
    forall i | 0 <= i < |ids|
      ensures Listed(Partition(s, conversationId), ids)[i].conversationId == conversationId
      ensures Listed(Partition(s, conversationId), ids)[i].messageId == ids[i]
    {
      assert ids[i] in Partition(s, conversationId);
      assert conversationId in s && ids[i] in s[conversationId];
    }
  }

  class CosmosMessageStorage {
    var container: Store

    ghost predicate Valid()
      reads this
    {
      Placed(container)
    }

    constructor()
      ensures Valid() && container == map[]
    {
      container := map[];
    }

    method PostMessageToConversation(message: Message)
      requires Valid()
      modifies this
      ensures Valid()
      ensures container == Post(old(container), message)
    {
      PostKeepsPlaced(container, message);
      var e := ToMessageEntity(message);
      container := Upsert(container, e.partitionKey, e.id, e);
    }

    method GetMessage(conversationId: string, messageId: string) returns (r: Option<Message>)
      requires Valid()
      ensures r == Get(container, conversationId, messageId)
    {
      var entity := Read(container, conversationId, messageId);
      match entity
      case Some(e) => r := Some(ToMessage(e));
      case None => r := None;
    }

    method DeleteMessage(conversationId: string, messageId: string) returns (deleted: bool)
      requires Valid()
      modifies this
      ensures Valid()
      ensures Transition(deleted, container) == Delete(old(container), conversationId, messageId)
    {
      DeleteKeepsPlaced(container, conversationId, messageId);
      if !Contains(container, conversationId, messageId) {
        return false;
      }
      container := DeleteItem(container, conversationId, messageId);
      deleted := true;
    }

    /** Drains the query over one conversation's partition into one list. */
    method EnumerateMessagesFromAGivenConversation(
      conversationId: string,
      continuationToken: Option<Token>,
      limit: Option<int32>,
      lastSeenMessageTime: Option<int64>)
      returns (response: EnumerateMessagesResponse, ghost answer: seq<string>)
      requires Valid()
      ensures IsAnswer(Times(Partition(container, conversationId)), lastSeenMessageTime, answer)
      ensures response.messages
              == Listed(Partition(container, conversationId), answer[StartOffset(continuationToken, |answer|)..])
      ensures response.continuationToken == None
    {
      var part := Partition(container, conversationId);
      var ids := Run(Times(part), lastSeenMessageTime);
      answer := ids;
      var rows := seq(|ids|, i requires 0 <= i < |ids| => part[ids[i]]);
      var start := StartOffset(continuationToken, |rows|);
      var size := PageSize(limit);
      PaginateShape(rows, start, size);
      PaginateCovers(rows, start, size);
      var feed := new QueryIterator(Paginate(rows, start, size));
      var messages, token := DrainPages(feed, ToMessage);
      assert Listed(part, ids[start..]) == MapItems(ToMessage, rows[start..]);
      response := EnumerateMessagesResponse(messages, token);
    }
  }
}

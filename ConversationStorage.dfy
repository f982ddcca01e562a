/** The conversation store: one replica of each conversation in the partition
    of each participant, both under the canonical conversation id. */
module ConversationStorage {
  import opened Common
  import opened Strings
  import opened Dtos
  import opened Entities
  import opened Container
  import opened Query
  import opened Paging

  type Store = Container<ConversationEntity>

  /** The canonical conversation id: the ordinally smaller user id, '_', the other. */
  function GetConversationId(userId1: string, userId2: string): string {
    if OrdinalLess(userId1, userId2) then userId1 + "_" + userId2 else userId2 + "_" + userId1
  }

  /** The id does not depend on the order of the participants. */
  lemma {:induction false} ConversationIdSymmetric(a: string, b: string)
    ensures GetConversationId(a, b) == GetConversationId(b, a)
  {
    OrdinalLessTotal(a, b);
    if OrdinalLess(a, b) {
      OrdinalLessAsymmetric(a, b);
    } else if OrdinalLess(b, a) {
      OrdinalLessAsymmetric(b, a);
    }
  }

  /** For user ids without '_', splitting the id on '_' gives back the two
      participants, the ordinally smaller one first. */
  lemma {:induction false} ConversationIdSplits(a: string, b: string)
    requires '_' !in a && '_' !in b
    ensures |Split(GetConversationId(a, b), '_')| == 2
    ensures multiset{Split(GetConversationId(a, b), '_')[0], Split(GetConversationId(a, b), '_')[1]} == multiset{a, b}
    ensures !OrdinalLess(Split(GetConversationId(a, b), '_')[1], Split(GetConversationId(a, b), '_')[0])
  {
    var lo, hi := if OrdinalLess(a, b) then a else b, if OrdinalLess(a, b) then b else a;
    assert [lo, hi][1..] == [hi];
    assert GetConversationId(a, b) == Join([lo, hi], '_');
    SplitJoin([lo, hi], '_');
    if OrdinalLess(a, b) {
      OrdinalLessAsymmetric(a, b);
    }
  }

  /** For user ids without '_', different pairs of users get different ids. */
  lemma {:induction false} ConversationIdInjective(a: string, b: string, c: string, d: string)
    requires '_' !in a && '_' !in b && '_' !in c && '_' !in d
    requires GetConversationId(a, b) == GetConversationId(c, d)
    ensures multiset{a, b} == multiset{c, d}
  {
    ConversationIdSplits(a, b);
    ConversationIdSplits(c, d);
  }

  /** With '_' inside a user id two different pairs share one id. */
  lemma ConversationIdCollides()
    ensures GetConversationId("a_b", "c") == GetConversationId("a", "b_c") == "a_b_c"
  {
    assert OrdinalLess("a_b", "c");
    assert OrdinalLess("a", "b_c");
  }

  /** A conversation id always holds '_', so it is never blank. */
  lemma {:induction false} ConversationIdNotBlank(a: string, b: string)
    ensures !IsNullOrWhiteSpace(GetConversationId(a, b))
  {
    var lo := if OrdinalLess(a, b) then a else b;
    assert GetConversationId(a, b)[|lo|] == '_';
  }

  function ToConversation(e: ConversationEntity): Conversation {
    Conversation(e.userId1, e.userId2, e.lastModifiedUnixTime)
  }

  /** The replica of a conversation for one partition. */
  function ToConversationEntity(c: Conversation, partitionKey: string): (e: ConversationEntity)
    ensures ToConversation(e) == c
    ensures e.partitionKey == partitionKey && e.id == GetConversationId(c.userId1, c.userId2)
  {
    ConversationEntity(partitionKey, GetConversationId(c.userId1, c.userId2), c.userId1, c.userId2, c.lastModifiedUnixTime)
  }

  /** A replica read back and written to its own partition is the stored document again. */
  lemma EntityRoundTrip(e: ConversationEntity)
    requires e.id == GetConversationId(e.userId1, e.userId2)
    ensures ToConversationEntity(ToConversation(e), e.partitionKey) == e
  {
  }

  /** Every replica sits at its own partition key and id, the id is the
      canonical id of its participants, and the partition is one of theirs. */
  ghost predicate Placed(s: Store) {
    forall pk, id :: pk in s && id in s[pk] ==>
      && s[pk][id].partitionKey == pk
      && s[pk][id].id == id
      && id == GetConversationId(s[pk][id].userId1, s[pk][id].userId2)
      && (pk == s[pk][id].userId1 || pk == s[pk][id].userId2)
  }

  /** UpsertItem: the container places a document by its own partition key and id. */
  function UpsertItem(s: Store, e: ConversationEntity): Store {
    Upsert(s, e.partitionKey, e.id, e)
  }

  /** PostConversation: one upsert in the partition of each participant. */
  function Post(s: Store, c: Conversation): Store {
    UpsertItem(UpsertItem(s, ToConversationEntity(c, c.userId1)), ToConversationEntity(c, c.userId2))
  }

  /** GetConversation(userId1, userId2): reads the partition of userId1. */
  function Get(s: Store, userId1: string, userId2: string): (r: Result<Conversation>)
    ensures r.Ok? <==> Contains(s, userId1, GetConversationId(userId1, userId2))
    ensures r.Err? ==> r.error == ConversationNotFound
  {
    match Read(s, userId1, GetConversationId(userId1, userId2))
    case Some(e) => Ok(ToConversation(e))
    case None => Err(ConversationNotFound)
  }

  /** GetConversation(conversationId): the first two '_'-separated parts are
      taken as the participants; an id without '_' has no second part. */
  function GetById(s: Store, conversationId: string): Result<Conversation> {
    var parts := Split(conversationId, '_');
    if |parts| < 2 then Err(IndexOutOfRange) else Get(s, parts[0], parts[1])
  }

  /** DeleteConversation: deletes the userId1 replica, then the userId2
      replica, and answers false at the first one that is not found. */
  function Delete(s: Store, userId1: string, userId2: string): Transition<Result<bool>, Store> {
    if IsNullOrWhiteSpace(userId1) || IsNullOrWhiteSpace(userId2) then Transition(Err(InvalidArgument), s)
    else
      var id := GetConversationId(userId1, userId2);
      if !Contains(s, userId1, id) then Transition(Ok(false), s)
      else
        var s1 := DeleteItem(s, userId1, id);
        if !Contains(s1, userId2, id) then Transition(Ok(false), s1)
        else Transition(Ok(true), DeleteItem(s1, userId2, id))
  }

  lemma PostKeepsPlaced(s: Store, c: Conversation)
    requires Placed(s)
    ensures Placed(Post(s, c))
  {
    var id := GetConversationId(c.userId1, c.userId2);
    var s': Store := Post(s, c);
    forall pk: string, x: string | pk in s' && x in s'[pk]
      ensures s'[pk][x].partitionKey == pk && s'[pk][x].id == x
      ensures x == GetConversationId(s'[pk][x].userId1, s'[pk][x].userId2)
      ensures pk == s'[pk][x].userId1 || pk == s'[pk][x].userId2
    {
      assert Read(s', pk, x) == Some(s'[pk][x]);
      if (pk != c.userId1 && pk != c.userId2) || x != id {
        assert Read(s, pk, x) == Some(s'[pk][x]);
      }
    }
  }

  /** PostConversation writes, at the canonical id, a replica with the same
      payload in each participant's partition, and changes nothing else. */
  lemma PostWritesReplicas(s: Store, c: Conversation)
    ensures Read(Post(s, c), c.userId1, GetConversationId(c.userId1, c.userId2)) == Some(ToConversationEntity(c, c.userId1))
    ensures Read(Post(s, c), c.userId2, GetConversationId(c.userId1, c.userId2)) == Some(ToConversationEntity(c, c.userId2))
    ensures forall pk, x :: (pk != c.userId1 && pk != c.userId2) || x != GetConversationId(c.userId1, c.userId2) ==>
      Read(Post(s, c), pk, x) == Read(s, pk, x)
  {
  }

  /** Posting a conversation again, with the same participants in either
      order, leaves only the later replicas: the store is as if only the
      later post had happened. Posting the same value twice changes nothing. */
  lemma {:induction false} PostReplaces(s: Store, c: Conversation, c': Conversation)
    requires {c.userId1, c.userId2} == {c'.userId1, c'.userId2}
    ensures Post(Post(s, c), c') == Post(s, c')
  {
    var a, b := c.userId1, c.userId2;
    ConversationIdSymmetric(a, b);
    var id := GetConversationId(a, b);
    var e1, e2 := ToConversationEntity(c, a), ToConversationEntity(c, b);
    var f1, f2 := ToConversationEntity(c', c'.userId1), ToConversationEntity(c', c'.userId2);
    var s1 := Upsert(s, a, id, e1);
    if a == b {
      assert c'.userId1 == a && c'.userId2 == a;
      UpsertOverwrites(s, a, id, e1, e2);
      UpsertOverwrites(s, a, id, e2, f1);
      UpsertOverwrites(s, a, id, f1, f2);
    } else if c'.userId1 == a {
      assert c'.userId2 == b;
      UpsertCommutes(s1, b, id, e2, a, id, f1);
      UpsertOverwrites(s, a, id, e1, f1);
      UpsertOverwrites(Upsert(s, a, id, f1), b, id, e2, f2);
    } else {
      assert c'.userId1 == b && c'.userId2 == a;
      UpsertOverwrites(s1, b, id, e2, f1);
      UpsertCommutes(s1, b, id, f1, a, id, f2);
      UpsertOverwrites(s, a, id, e1, f2);
      UpsertCommutes(s, a, id, f2, b, id, f1);
    }
  }

  /** After PostConversation(c), looking up either order of its participants returns c. */
  lemma {:induction false} GetAfterPost(s: Store, c: Conversation)
    ensures Get(Post(s, c), c.userId1, c.userId2) == Ok(c)
    ensures Get(Post(s, c), c.userId2, c.userId1) == Ok(c)
  {
    ConversationIdSymmetric(c.userId1, c.userId2);
    PostWritesReplicas(s, c);
  }

  /** For user ids without '_', the lookup by id reads the partition of the
      ordinally smaller participant, for the pair in that order. */
  lemma {:induction false} GetByIdReadsOrdered(s: Store, a: string, b: string)
    requires '_' !in a && '_' !in b
    ensures GetById(s, GetConversationId(a, b)) == if OrdinalLess(a, b) then Get(s, a, b) else Get(s, b, a)
  {
    var lo, hi := if OrdinalLess(a, b) then a else b, if OrdinalLess(a, b) then b else a;
    assert [lo, hi][1..] == [hi];
    assert GetConversationId(a, b) == Join([lo, hi], '_');
    SplitJoin([lo, hi], '_');
  }

  /** After PostConversation(c), looking up its id returns c, provided no user id holds '_'. */
  lemma {:induction false} GetByIdAfterPost(s: Store, c: Conversation)
    requires '_' !in c.userId1 && '_' !in c.userId2
    ensures GetById(Post(s, c), GetConversationId(c.userId1, c.userId2)) == Ok(c)
  {
    ConversationIdSplits(c.userId1, c.userId2);
    GetAfterPost(s, c);
    var parts := Split(GetConversationId(c.userId1, c.userId2), '_');
    assert parts[0] in multiset{c.userId1, c.userId2};
    if parts[0] == c.userId1 {
      assert parts[1] == c.userId2 by {
        assert multiset{parts[0], parts[1]} - multiset{parts[0]} == multiset{parts[1]};
        assert multiset{c.userId1, c.userId2} - multiset{c.userId1} == multiset{c.userId2};
      }
    } else {
      assert parts[0] == c.userId2;
      assert parts[1] == c.userId1 by {
        assert multiset{parts[0], parts[1]} - multiset{parts[0]} == multiset{parts[1]};
        assert multiset{c.userId1, c.userId2} - multiset{c.userId2} == multiset{c.userId1};
      }
    }
  }

  /** With '_' in a user id the lookup by id misses a conversation that was
      just posted: "a_b_c" splits into "a", "b", "c" and "a"'s partition is searched. */
  lemma GetByIdMissesUnderscoreIds()
    ensures GetById(Post(map[], Conversation("a_b", "c", 0)), GetConversationId("a_b", "c")) == Err(ConversationNotFound)
  {
    ConversationIdCollides();
    var parts := ["a", "b", "c"];
    assert parts[1..] == ["b", "c"] && parts[1..][1..] == ["c"];
    assert Join(parts, '_') == "a_b_c";
    SplitJoin(parts, '_');
    assert OrdinalLess("a", "b");
    assert GetConversationId("a", "b") == "a_b";
    assert Post(map[], Conversation("a_b", "c", 0)).Keys == {"a_b", "c"};
  }

  /** Under the placement invariant, a lookup returns a conversation of the
      user asked about, whose id is the id that was asked for. */
  lemma GetReturnsParticipants(s: Store, userId1: string, userId2: string)
    requires Placed(s) && Get(s, userId1, userId2).Ok?
    ensures userId1 == Get(s, userId1, userId2).value.userId1 || userId1 == Get(s, userId1, userId2).value.userId2
    ensures GetConversationId(Get(s, userId1, userId2).value.userId1, Get(s, userId1, userId2).value.userId2)
            == GetConversationId(userId1, userId2)
  {
  }

  /** The outcomes of DeleteConversation. */
  lemma DeleteOutcomes(s: Store, userId1: string, userId2: string)
    ensures var d := Delete(s, userId1, userId2); var id := GetConversationId(userId1, userId2);
      // a blank argument is rejected and nothing is deleted
      && (IsNullOrWhiteSpace(userId1) || IsNullOrWhiteSpace(userId2) ==> d.result == Err(InvalidArgument) && d.state == s)
      && (!IsNullOrWhiteSpace(userId1) && !IsNullOrWhiteSpace(userId2) ==>
        // true exactly when two distinct replicas were present, and then both are gone
        && d.result.Ok?
        && (d.result.value <==> userId1 != userId2 && Contains(s, userId1, id) && Contains(s, userId2, id))
        && (d.result.value ==> !Contains(d.state, userId1, id) && !Contains(d.state, userId2, id))
        // the userId1 replica missing: nothing is deleted
        && (!Contains(s, userId1, id) ==> d.state == s)
        // the userId1 replica present: it is deleted, whatever happens to the other
        && (Contains(s, userId1, id) ==> !Contains(d.state, userId1, id))
        && (Contains(s, userId1, id) && !Contains(s, userId2, id) ==> d.state == DeleteItem(s, userId1, id)))
      // no other document changes, and nothing is written
      && (forall pk, x :: (pk != userId1 && pk != userId2) || x != id ==> Read(d.state, pk, x) == Read(s, pk, x))
      && (forall pk, x :: Read(d.state, pk, x).Some? ==> Read(d.state, pk, x) == Read(s, pk, x))
  {
  }

  lemma DeleteKeepsPlaced(s: Store, userId1: string, userId2: string)
    requires Placed(s)
    ensures Placed(Delete(s, userId1, userId2).state)
  {
    var s': Store := Delete(s, userId1, userId2).state;
    DeleteOutcomes(s, userId1, userId2);
    forall pk: string, x: string | pk in s' && x in s'[pk]
      ensures s'[pk][x].partitionKey == pk && s'[pk][x].id == x
      ensures x == GetConversationId(s'[pk][x].userId1, s'[pk][x].userId2)
      ensures pk == s'[pk][x].userId1 || pk == s'[pk][x].userId2
    {
      assert Read(s', pk, x) == Some(s'[pk][x]);
      assert Read(s, pk, x) == Some(s'[pk][x]);
    }
  }

  /** Deleting a just-posted conversation between two different users
      succeeds, and neither lookup order finds it any more. */
  lemma {:induction false} DeleteAfterPost(s: Store, c: Conversation)
    requires !IsNullOrWhiteSpace(c.userId1) && !IsNullOrWhiteSpace(c.userId2) && c.userId1 != c.userId2
    ensures Delete(Post(s, c), c.userId1, c.userId2).result == Ok(true)
    ensures Get(Delete(Post(s, c), c.userId1, c.userId2).state, c.userId1, c.userId2) == Err(ConversationNotFound)
    ensures Get(Delete(Post(s, c), c.userId1, c.userId2).state, c.userId2, c.userId1) == Err(ConversationNotFound)
  {
    PostWritesReplicas(s, c);
    ConversationIdSymmetric(c.userId1, c.userId2);
    DeleteOutcomes(Post(s, c), c.userId1, c.userId2);
  }

  /** The ordering field of each document of a partition. */
  function Times(part: map<string, ConversationEntity>): (times: map<string, int64>)
    ensures times.Keys == part.Keys
  {
    map id | id in part :: part[id].lastModifiedUnixTime
  }

  /** The conversations of the listed documents of a partition, in order. */
  function Listed(part: map<string, ConversationEntity>, ids: seq<string>): seq<Conversation>
    requires forall i :: 0 <= i < |ids| ==> ids[i] in part
  {
    seq(|ids|, i requires 0 <= i < |ids| => ToConversation(part[ids[i]]))
  }

  /** Under the placement invariant, a user's listing holds only conversations of that user. */
  lemma {:induction false} ListedHasUser(s: Store, userId: string, ids: seq<string>)
    requires Placed(s)
    requires forall i :: 0 <= i < |ids| ==> ids[i] in Partition(s, userId)
    ensures forall i :: 0 <= i < |ids| ==>
      Listed(Partition(s, userId), ids)[i].userId1 == userId || Listed(Partition(s, userId), ids)[i].userId2 == userId
  {
    forall i | 0 <= i < |ids|
      ensures Listed(Partition(s, userId), ids)[i].userId1 == userId || Listed(Partition(s, userId), ids)[i].userId2 == userId
    {
      assert ids[i] in Partition(s, userId);
      assert userId in s && ids[i] in s[userId];
    }
  }

  class CosmosConversationStorage {
    var container: Store

    ghost predicate Valid()
      reads this
    {
      Placed(container)
    }

    constructor()
      ensures Valid() && container == map[]
    {
      container := map[];
    }

    method PostConversation(conversation: Conversation) returns (conversationId: string)
      requires Valid()
      modifies this
      ensures Valid()
      ensures container == Post(old(container), conversation)
      ensures conversationId == GetConversationId(conversation.userId1, conversation.userId2)
    {
      PostKeepsPlaced(container, conversation);
      container := UpsertItem(container, ToConversationEntity(conversation, conversation.userId1));
      container := UpsertItem(container, ToConversationEntity(conversation, conversation.userId2));
      conversationId := GetConversationId(conversation.userId1, conversation.userId2);
    }

    method GetConversation(userId1: string, userId2: string) returns (r: Result<Conversation>)
      requires Valid()
      ensures r == Get(container, userId1, userId2)
    {
      var conversationId := GetConversationId(userId1, userId2);
      var entity := Read(container, userId1, conversationId);
      match entity
      case Some(e) => r := Ok(ToConversation(e));
      case None => r := Err(ConversationNotFound);
    }

    method GetConversationById(conversationId: string) returns (r: Result<Conversation>)
      requires Valid()
      ensures r == GetById(container, conversationId)
    {
      var parts := Split(conversationId, '_');
      if |parts| < 2 {
        return Err(IndexOutOfRange);
      }
      r := GetConversation(parts[0], parts[1]);
    }

    method DeleteConversation(userId1: string, userId2: string) returns (r: Result<bool>)
      requires Valid()
      modifies this
      ensures Valid()
      ensures Transition(r, container) == Delete(old(container), userId1, userId2)
    {
      DeleteKeepsPlaced(container, userId1, userId2);
      if IsNullOrWhiteSpace(userId1) || IsNullOrWhiteSpace(userId2) {
        return Err(InvalidArgument);
      }
      var conversationId := GetConversationId(userId1, userId2);
      if !Contains(container, userId1, conversationId) {
        return Ok(false);
      }
      container := DeleteItem(container, userId1, conversationId);
      if !Contains(container, userId2, conversationId) {
        return Ok(false);
      }
      container := DeleteItem(container, userId2, conversationId);
      r := Ok(true);
    }

    /** Drains the query feed page by page into one list. */
    method EnumerateConversationsForAGivenUser(
      userId: string,
      continuationToken: Option<Token>,
      limit: Option<int32>,
      lastSeenConversationTime: Option<int64>)
      returns (response: EnumerateConversationsResponse, ghost answer: seq<string>)
      requires Valid()
      ensures IsAnswer(Times(Partition(container, userId)), lastSeenConversationTime, answer)
      ensures response.conversations
              == Listed(Partition(container, userId), answer[StartOffset(continuationToken, |answer|)..])
      ensures response.continuationToken == None
    {
      var part := Partition(container, userId);
      var ids := Run(Times(part), lastSeenConversationTime);
      answer := ids;
      var rows := seq(|ids|, i requires 0 <= i < |ids| => part[ids[i]]);
      var start := StartOffset(continuationToken, |rows|);
      var size := PageSize(limit);
      PaginateShape(rows, start, size);
      PaginateCovers(rows, start, size);
      var feed := new QueryIterator(Paginate(rows, start, size));
      var conversations, token := DrainPages(feed, ToConversation);
      assert Listed(part, ids[start..]) == MapItems(ToConversation, rows[start..]);
      response := EnumerateConversationsResponse(conversations, token);
    }
  }
}

/** The conversation service: the ordered reads and writes that starting a
    conversation, sending a message and listing make against the three stores. */
module ConversationService {
  import opened Common
  import opened Strings
  import opened Dtos
  import opened Container
  import opened Query
  import opened Paging
  import CS = ConversationStorage
  import MS = MessageStorage
  import PS = ProfileStorage

  /** The state of the three stores the service writes to and reads from. */
  datatype Stores = Stores(conversations: CS.Store, messages: MS.Store, profiles: PS.Store)

  /** HttpUtility.UrlEncode on the continuation token. The cursor is abstract
      here, so encoding keeps it; what matters to callers is that null stays null. */
  function UrlEncode(token: Option<Token>): (r: Option<Token>)
    ensures r.None? <==> token.None?
  {
    token
  }

  /** The non-blank checks on the fields of a message request. */
  predicate IsValidRequest(request: SendMessageRequest) {
    !IsNullOrWhiteSpace(request.text) && !IsNullOrWhiteSpace(request.senderUsername) && !IsNullOrWhiteSpace(request.messageId)
  }

  /** The message a request becomes in a conversation at a time. */
  function ToMessage(request: SendMessageRequest, conversationId: string, now: int64): Message {
    Message(request.messageId, request.text, request.senderUsername, conversationId, now)
  }

  /** SendMessageToConversation as written: validate, stamp with now, post.
      The conversation is neither looked up nor touched. */
  function Send(st: Stores, conversationId: string, request: SendMessageRequest, now: int64): Transition<Result<Message>, Stores> {
    if IsNullOrWhiteSpace(conversationId) then Transition(Err(InvalidArgument), st)
    else if !IsValidRequest(request) then Transition(Err(InvalidArgument), st)
    else
      var message := ToMessage(request, conversationId, now);
      Transition(Ok(message), st.(messages := MS.Post(st.messages, message)))
  }

  /** SendMessageToConversation as its unit tests expect it: the conversation
      is loaded first, a missing one is reported and nothing is written, and
      on success the conversation is upserted again with the message's time. */
  function SendToKnown(st: Stores, conversationId: string, request: SendMessageRequest, now: int64): Transition<Result<Message>, Stores> {
    if IsNullOrWhiteSpace(conversationId) then Transition(Err(InvalidArgument), st)
    else if !IsValidRequest(request) then Transition(Err(InvalidArgument), st)
    else match CS.GetById(st.conversations, conversationId)
      case Err(e) => Transition(Err(e), st)
      case Ok(c) =>
        var message := ToMessage(request, conversationId, now);
        Transition(Ok(message), Stores(
          CS.Post(st.conversations, c.(lastModifiedUnixTime := now)),
          MS.Post(st.messages, message),
          st.profiles))
  }

  /** StartConversation as written. The profile lookups it makes have no
      effect, and the first message is checked only after the conversation
      has been posted. */
  function Start(st: Stores, request: StartConversationRequest, now: int64): Transition<Result<StartConversationResponse>, Stores> {
    if |request.participants| < 2 then Transition(Err(ArgumentOutOfRange), st)
    else
      var userId1 := request.participants[0];
      var userId2 := request.participants[1];
      if IsNullOrWhiteSpace(userId1) || IsNullOrWhiteSpace(userId2) then Transition(Err(InvalidArgument), st)
      else if CS.Get(st.conversations, userId1, userId2).Ok? then Transition(Err(ConversationConflict), st)
      else
        var conversationId := CS.GetConversationId(userId1, userId2);
        var posted := st.(conversations := CS.Post(st.conversations, Conversation(userId1, userId2, now)));
        var message := ToMessage(request.firstMessage, conversationId, now);
        if IsNullOrWhiteSpace(message.conversationId) || !IsValidRequest(request.firstMessage) then
          Transition(Err(InvalidArgument), posted)
        else
          Transition(Ok(StartConversationResponse(conversationId, now)), posted.(messages := MS.Post(posted.messages, message)))
  }

  /** StartConversation with its checks all made before anything is written:
      the first message is validated and both participants must have a profile. */
  function StartChecked(st: Stores, request: StartConversationRequest, now: int64): Transition<Result<StartConversationResponse>, Stores> {
    if |request.participants| < 2 then Transition(Err(ArgumentOutOfRange), st)
    else
      var userId1 := request.participants[0];
      var userId2 := request.participants[1];
      if IsNullOrWhiteSpace(userId1) || IsNullOrWhiteSpace(userId2) then Transition(Err(InvalidArgument), st)
      else if !IsValidRequest(request.firstMessage) then Transition(Err(InvalidArgument), st)
      else if PS.Get(st.profiles, userId1).None? || PS.Get(st.profiles, userId2).None? then Transition(Err(UserNotFound), st)
      else Start(st, request, now)
  }

  /** The outcomes of SendMessageToConversation: a blank argument is
      InvalidArgument and writes nothing; otherwise the returned message has
      the request's fields, the given conversation id and time now, it is
      what the message store now holds at that address, and nothing else changes. */
  lemma {:induction false} SendOutcomes(st: Stores, conversationId: string, request: SendMessageRequest, now: int64)
    ensures Send(st, conversationId, request, now).result.Ok? <==> !IsNullOrWhiteSpace(conversationId) && IsValidRequest(request)
    ensures Send(st, conversationId, request, now).result.Err? ==>
      Send(st, conversationId, request, now) == Transition(Err(InvalidArgument), st)
    ensures Send(st, conversationId, request, now).result.Ok? ==>
      var m := Send(st, conversationId, request, now).result.value;
      var st' := Send(st, conversationId, request, now).state;
      && m.messageId == request.messageId && m.text == request.text && m.senderUsername == request.senderUsername
      && m.conversationId == conversationId && m.unixTime == now
      && MS.Get(st'.messages, conversationId, request.messageId) == Some(m)
      && (forall c, x :: c != conversationId || x != request.messageId ==> MS.Get(st'.messages, c, x) == MS.Get(st.messages, c, x))
      && st'.conversations == st.conversations && st'.profiles == st.profiles
  {
    if !IsNullOrWhiteSpace(conversationId) && IsValidRequest(request) {
      MS.GetAfterPost(st.messages, ToMessage(request, conversationId, now));
    }
  }

  /** As written, a message is accepted for a conversation that does not exist. */
  lemma SendAcceptsUnknownConversation()
    ensures CS.GetById(map[], "a_b") == Err(ConversationNotFound)
    ensures Send(Stores(map[], map[], map[]), "a_b", SendMessageRequest("m", "a", "hi"), 5).result.Ok?
  {
    assert !IsWhiteSpace("a_b"[0]) && !IsWhiteSpace("m"[0]) && !IsWhiteSpace("a"[0]) && !IsWhiteSpace("hi"[0]);
    var parts := ["a", "b"];
    assert parts[1..] == ["b"];
    assert Join(parts, '_') == "a_b";
    SplitJoin(parts, '_');
  }

  /** The corrected send: a missing conversation is reported with the
      lookup's error and nothing is written; on success the message is stored
      and the conversation, read back in either order, carries the message's
      time; no other conversation document, message or profile changes. */
  lemma {:induction false} SendToKnownOutcomes(st: Stores, conversationId: string, request: SendMessageRequest, now: int64)
    ensures SendToKnown(st, conversationId, request, now).result.Err? ==> SendToKnown(st, conversationId, request, now).state == st
    ensures !IsNullOrWhiteSpace(conversationId) && IsValidRequest(request) && CS.GetById(st.conversations, conversationId).Err? ==>
      SendToKnown(st, conversationId, request, now).result == Err(CS.GetById(st.conversations, conversationId).error)
    ensures SendToKnown(st, conversationId, request, now).result.Ok? <==>
      !IsNullOrWhiteSpace(conversationId) && IsValidRequest(request) && CS.GetById(st.conversations, conversationId).Ok?
    ensures SendToKnown(st, conversationId, request, now).result.Ok? ==>
      var c := CS.GetById(st.conversations, conversationId).value;
      var st' := SendToKnown(st, conversationId, request, now).state;
      && SendToKnown(st, conversationId, request, now).result == Send(st, conversationId, request, now).result
      && MS.Get(st'.messages, conversationId, request.messageId) == Some(ToMessage(request, conversationId, now))
      && CS.Get(st'.conversations, c.userId1, c.userId2) == Ok(Conversation(c.userId1, c.userId2, now))
      && CS.Get(st'.conversations, c.userId2, c.userId1) == Ok(Conversation(c.userId1, c.userId2, now))
      && (forall pk, x :: (pk != c.userId1 && pk != c.userId2) || x != CS.GetConversationId(c.userId1, c.userId2) ==>
            Read(st'.conversations, pk, x) == Read(st.conversations, pk, x))
      && (forall m, x :: m != conversationId || x != request.messageId ==> MS.Get(st'.messages, m, x) == MS.Get(st.messages, m, x))
      && st'.profiles == st.profiles
  {
    if SendToKnown(st, conversationId, request, now).result.Ok? {
      var c := CS.GetById(st.conversations, conversationId).value;
      CS.GetAfterPost(st.conversations, c.(lastModifiedUnixTime := now));
      CS.PostWritesReplicas(st.conversations, c.(lastModifiedUnixTime := now));
      MS.GetAfterPost(st.messages, ToMessage(request, conversationId, now));
    }
  }

  /** The unit tests' scenario: a conversation that is not found yields
      ConversationNotFound, and neither the message nor the conversation is written. */
  lemma {:induction false} SendToKnownRejectsMissing(st: Stores, conversationId: string, request: SendMessageRequest, now: int64)
    requires !IsNullOrWhiteSpace(conversationId) && IsValidRequest(request)
    requires CS.GetById(st.conversations, conversationId) == Err(ConversationNotFound)
    ensures SendToKnown(st, conversationId, request, now) == Transition(Err(ConversationNotFound), st)
  {
  }

  /** StartConversation's rejections that write nothing: fewer than two
      participants (the list index throws ArgumentOutOfRangeException), a
      blank participant, an existing conversation. */
  lemma {:induction false} StartRejects(st: Stores, request: StartConversationRequest, now: int64)
    ensures |request.participants| < 2 ==> Start(st, request, now) == Transition(Err(ArgumentOutOfRange), st)
    ensures |request.participants| >= 2 && (IsNullOrWhiteSpace(request.participants[0]) || IsNullOrWhiteSpace(request.participants[1]))
      ==> Start(st, request, now) == Transition(Err(InvalidArgument), st)
    ensures (|request.participants| >= 2 && !IsNullOrWhiteSpace(request.participants[0]) && !IsNullOrWhiteSpace(request.participants[1])
             && CS.Get(st.conversations, request.participants[0], request.participants[1]).Ok?)
      ==> Start(st, request, now) == Transition(Err(ConversationConflict), st)
  {
  }

  /** StartConversation succeeds exactly for two non-blank participants with no
      conversation yet and a valid first message. It then returns the canonical
      id and now; both replicas hold the conversation with time now; the first
      message is stored in the canonical partition with time now; no other
      conversation document, message or profile changes. */
  lemma {:induction false} StartSucceeds(st: Stores, request: StartConversationRequest, now: int64)
    ensures Start(st, request, now).result.Ok? <==>
      && |request.participants| >= 2
      && !IsNullOrWhiteSpace(request.participants[0]) && !IsNullOrWhiteSpace(request.participants[1])
      && CS.Get(st.conversations, request.participants[0], request.participants[1]).Err?
      && IsValidRequest(request.firstMessage)
    ensures Start(st, request, now).result.Ok? ==>
      var userId1, userId2 := request.participants[0], request.participants[1];
      var id := CS.GetConversationId(userId1, userId2);
      var st' := Start(st, request, now).state;
      && Start(st, request, now).result.value == StartConversationResponse(id, now)
      && CS.Get(st'.conversations, userId1, userId2) == Ok(Conversation(userId1, userId2, now))
      && CS.Get(st'.conversations, userId2, userId1) == Ok(Conversation(userId1, userId2, now))
      && MS.Get(st'.messages, id, request.firstMessage.messageId) == Some(ToMessage(request.firstMessage, id, now))
      && (forall pk, x :: (pk != userId1 && pk != userId2) || x != id ==> Read(st'.conversations, pk, x) == Read(st.conversations, pk, x))
      && (forall c, x :: c != id || x != request.firstMessage.messageId ==> MS.Get(st'.messages, c, x) == MS.Get(st.messages, c, x))
      && st'.profiles == st.profiles
  {
    if |request.participants| >= 2 {
      CS.ConversationIdNotBlank(request.participants[0], request.participants[1]);
    }
    if Start(st, request, now).result.Ok? {
      var userId1, userId2 := request.participants[0], request.participants[1];
      var id := CS.GetConversationId(userId1, userId2);
      CS.GetAfterPost(st.conversations, Conversation(userId1, userId2, now));
      CS.PostWritesReplicas(st.conversations, Conversation(userId1, userId2, now));
      MS.GetAfterPost(st.messages, ToMessage(request.firstMessage, id, now));
    }
  }

  /** As written, a blank first message is rejected only after the
      conversation has been posted: the error leaves both replicas behind,
      with no message in the conversation. */
  lemma {:induction false} StartKeepsConversationOnBadMessage(st: Stores, request: StartConversationRequest, now: int64)
    requires |request.participants| >= 2
    requires !IsNullOrWhiteSpace(request.participants[0]) && !IsNullOrWhiteSpace(request.participants[1])
    requires CS.Get(st.conversations, request.participants[0], request.participants[1]).Err?
    requires !IsValidRequest(request.firstMessage)
    ensures Start(st, request, now).result == Err(InvalidArgument)
    ensures CS.Get(Start(st, request, now).state.conversations, request.participants[0], request.participants[1]).Ok?
    ensures CS.Get(Start(st, request, now).state.conversations, request.participants[1], request.participants[0]).Ok?
    ensures Start(st, request, now).state.messages == st.messages
  {
    CS.GetAfterPost(st.conversations, Conversation(request.participants[0], request.participants[1], now));
    CS.ConversationIdNotBlank(request.participants[0], request.participants[1]);
  }

  /** The same on concrete values: an empty store, a blank text, a store that is no longer empty. */
  lemma StartBadMessageWrites()
    ensures var st := Stores(map[], map[], map[]);
      var r := Start(st, StartConversationRequest(["a", "b"], SendMessageRequest("m", "a", " ")), 1);
      r.result == Err(InvalidArgument) && r.state != st
  {
    var st := Stores(map[], map[], map[]);
    var request := StartConversationRequest(["a", "b"], SendMessageRequest("m", "a", " "));
    assert !IsValidRequest(request.firstMessage) by {
      assert IsWhiteSpace(" "[0]);
    }
    assert !IsWhiteSpace("a"[0]) && !IsWhiteSpace("b"[0]);
    StartKeepsConversationOnBadMessage(st, request, 1);
  }

  /** The profile store has no part in StartConversation: the same request
      against any other profiles gives the same answer and the same writes. */
  lemma {:induction false} StartIgnoresProfiles(st: Stores, profiles: PS.Store, request: StartConversationRequest, now: int64)
    ensures Start(st.(profiles := profiles), request, now)
            == Transition(Start(st, request, now).result, Start(st, request, now).state.(profiles := profiles))
  {
  }

  /** So, on concrete values, a conversation starts between users that have no
      profile, with a first message from someone who takes no part in it. */
  lemma StartAcceptsUnknownUsers()
    ensures PS.Get(map[], "a").None? && PS.Get(map[], "b").None?
    ensures Start(Stores(map[], map[], map[]), StartConversationRequest(["a", "b"], SendMessageRequest("m", "c", "hi")), 1).result.Ok?
  {
    var request := StartConversationRequest(["a", "b"], SendMessageRequest("m", "c", "hi"));
    assert !IsWhiteSpace("hi"[0]) && !IsWhiteSpace("c"[0]) && !IsWhiteSpace("m"[0]);
    assert !IsWhiteSpace("a"[0]) && !IsWhiteSpace("b"[0]);
    CS.ConversationIdNotBlank("a", "b");
  }

  /** Starting a conversation a second time, with the same two participants in
      either order, answers ConversationConflict and writes nothing. */
  lemma {:induction false} StartTwiceConflicts(st: Stores, request: StartConversationRequest, now: int64, again: StartConversationRequest, later: int64)
    requires Start(st, request, now).result.Ok?
    requires |again.participants| >= 2
    requires (again.participants[0], again.participants[1]) == (request.participants[0], request.participants[1])
          || (again.participants[0], again.participants[1]) == (request.participants[1], request.participants[0])
    ensures Start(Start(st, request, now).state, again, later) == Transition(Err(ConversationConflict), Start(st, request, now).state)
  {
    StartSucceeds(st, request, now);
  }

  /** A conversation posted with the two participants in either order makes StartConversation conflict. */
  lemma {:induction false} StartConflictsWithPosted(st: Stores, before: CS.Store, c: Conversation, request: StartConversationRequest, now: int64)
    requires st.conversations == CS.Post(before, c)
    requires |request.participants| >= 2
    requires !IsNullOrWhiteSpace(request.participants[0]) && !IsNullOrWhiteSpace(request.participants[1])
    requires (request.participants[0], request.participants[1]) == (c.userId1, c.userId2)
          || (request.participants[0], request.participants[1]) == (c.userId2, c.userId1)
    ensures Start(st, request, now) == Transition(Err(ConversationConflict), st)
  {
    CS.GetAfterPost(before, c);
  }

  /** The checked start writes nothing when it fails, succeeds only when both
      participants have a profile, reports a missing profile as UserNotFound,
      and otherwise behaves as StartConversation does. */
  lemma {:induction false} StartCheckedOutcomes(st: Stores, request: StartConversationRequest, now: int64)
    ensures StartChecked(st, request, now).result.Err? ==> StartChecked(st, request, now).state == st
    ensures StartChecked(st, request, now).result.Ok? ==>
      PS.Get(st.profiles, request.participants[0]).Some? && PS.Get(st.profiles, request.participants[1]).Some?
    ensures (|request.participants| >= 2
             && !IsNullOrWhiteSpace(request.participants[0]) && !IsNullOrWhiteSpace(request.participants[1])
             && IsValidRequest(request.firstMessage)
             && (PS.Get(st.profiles, request.participants[0]).None? || PS.Get(st.profiles, request.participants[1]).None?))
      ==> StartChecked(st, request, now) == Transition(Err(UserNotFound), st)
    ensures (|request.participants| >= 2 && IsValidRequest(request.firstMessage)
             && PS.Get(st.profiles, request.participants[0]).Some? && PS.Get(st.profiles, request.participants[1]).Some?)
      ==> StartChecked(st, request, now) == Start(st, request, now)
  {
    if StartChecked(st, request, now).result.Err? && |request.participants| >= 2 && IsValidRequest(request.firstMessage)
       && !IsNullOrWhiteSpace(request.participants[0]) && !IsNullOrWhiteSpace(request.participants[1])
       && PS.Get(st.profiles, request.participants[0]).Some? && PS.Get(st.profiles, request.participants[1]).Some? {
      CS.ConversationIdNotBlank(request.participants[0], request.participants[1]);
    }
  }

  class ConversationService {
    const conversationStorage: CS.CosmosConversationStorage
    const messageStorage: MS.CosmosMessageStorage
    const profileStorage: PS.CosmosProfileStorage

    ghost predicate Valid()
      reads this, conversationStorage, messageStorage, profileStorage
    {
      conversationStorage.Valid() && messageStorage.Valid() && profileStorage.Valid()
    }

    /** The contents of the three stores. */
    ghost function Snapshot(): Stores
      reads this, conversationStorage, messageStorage, profileStorage
    {
      Stores(conversationStorage.container, messageStorage.container, profileStorage.container)
    }

    constructor(conversationStorage: CS.CosmosConversationStorage, messageStorage: MS.CosmosMessageStorage, profileStorage: PS.CosmosProfileStorage)
      requires conversationStorage.Valid() && messageStorage.Valid() && profileStorage.Valid()
      ensures Valid()
      ensures this.conversationStorage == conversationStorage && this.messageStorage == messageStorage && this.profileStorage == profileStorage
    {
      this.conversationStorage := conversationStorage;
      this.messageStorage := messageStorage;
      this.profileStorage := profileStorage;
    }

    method SendMessageToConversation(conversationId: string, request: SendMessageRequest, now: int64) returns (r: Result<Message>)
      requires Valid()
      modifies messageStorage
      ensures Valid()
      ensures Transition(r, Snapshot()) == Send(old(Snapshot()), conversationId, request, now)
    {
      if IsNullOrWhiteSpace(conversationId) {
        return Err(InvalidArgument);
      }
      if IsNullOrWhiteSpace(request.text) || IsNullOrWhiteSpace(request.senderUsername) || IsNullOrWhiteSpace(request.messageId) {
        return Err(InvalidArgument);
      }
      var message := Message(request.messageId, request.text, request.senderUsername, conversationId, now);
      messageStorage.PostMessageToConversation(message);
      r := Ok(message);
    }

    /** The send the unit tests describe: look the conversation up, post the
        message, then upsert the conversation with the message's time. */
    method SendMessageToKnownConversation(conversationId: string, request: SendMessageRequest, now: int64) returns (r: Result<Message>)
      requires Valid()
      modifies conversationStorage, messageStorage
      ensures Valid()
      ensures Transition(r, Snapshot()) == SendToKnown(old(Snapshot()), conversationId, request, now)
    {
      if IsNullOrWhiteSpace(conversationId) {
        return Err(InvalidArgument);
      }
      if IsNullOrWhiteSpace(request.text) || IsNullOrWhiteSpace(request.senderUsername) || IsNullOrWhiteSpace(request.messageId) {
        return Err(InvalidArgument);
      }
      var found := conversationStorage.GetConversationById(conversationId);
      match found
      case Err(e) =>
        r := Err(e);
      case Ok(conversation) =>
        var message := Message(request.messageId, request.text, request.senderUsername, conversationId, now);
        messageStorage.PostMessageToConversation(message);
        var _ := conversationStorage.PostConversation(conversation.(lastModifiedUnixTime := now));
        r := Ok(message);
    }

    method EnumerateMessagesInAConversation(
      conversationId: string,
      continuationToken: Option<Token>,
      limit: Option<int32>,
      lastSeenMessageTime: Option<int64>)
      returns (r: Result<EnumerateMessagesResponse>, ghost answer: seq<string>)
      requires Valid()
      ensures IsNullOrWhiteSpace(conversationId) ==> r == Err(InvalidArgument)
      ensures !IsNullOrWhiteSpace(conversationId) && CS.GetById(conversationStorage.container, conversationId).Err? ==>
        r == Err(CS.GetById(conversationStorage.container, conversationId).error)
      ensures r.Ok? <==> !IsNullOrWhiteSpace(conversationId) && CS.GetById(conversationStorage.container, conversationId).Ok?
      ensures r.Ok? ==>
        && IsAnswer(MS.Times(Partition(messageStorage.container, conversationId)), lastSeenMessageTime, answer)
        && r.value.messages == MS.Listed(Partition(messageStorage.container, conversationId),
                                         answer[StartOffset(continuationToken, |answer|)..])
        && r.value.continuationToken == None
    {
      answer := [];
      if IsNullOrWhiteSpace(conversationId) {
        r := Err(InvalidArgument);
        return;
      }
      var conversation := conversationStorage.GetConversationById(conversationId);
      if conversation.Err? {
        r := Err(conversation.error);
        return;
      }
      var response;
      response, answer := messageStorage.EnumerateMessagesFromAGivenConversation(conversationId, continuationToken, limit, lastSeenMessageTime);
      r := Ok(EnumerateMessagesResponse(response.messages, UrlEncode(response.continuationToken)));
    }

    method StartConversation(request: StartConversationRequest, now: int64) returns (r: Result<StartConversationResponse>)
      requires Valid()
      modifies conversationStorage, messageStorage
      ensures Valid()
      ensures Transition(r, Snapshot()) == Start(old(Snapshot()), request, now)
    {
      if |request.participants| < 2 {
        return Err(ArgumentOutOfRange);
      }
      var userId1 := request.participants[0];
      var userId2 := request.participants[1];
      if IsNullOrWhiteSpace(userId1) || IsNullOrWhiteSpace(userId2) {
        return Err(InvalidArgument);
      }
      var _ := profileStorage.GetProfile(userId1);
      var _ := profileStorage.GetProfile(userId2);
      var conversation := Conversation(userId1, userId2, now);
      var existing := conversationStorage.GetConversation(conversation.userId1, conversation.userId2);
      if existing.Ok? {
        return Err(ConversationConflict);
      }
      var conversationId := conversationStorage.PostConversation(conversation);
      var first := request.firstMessage;
      var message := Message(first.messageId, first.text, first.senderUsername, conversationId, conversation.lastModifiedUnixTime);
      if IsNullOrWhiteSpace(message.conversationId) || IsNullOrWhiteSpace(message.text)
         || IsNullOrWhiteSpace(message.senderUsername) || IsNullOrWhiteSpace(message.messageId) {
        return Err(InvalidArgument);
      }
      messageStorage.PostMessageToConversation(message);
      r := Ok(StartConversationResponse(conversationId, conversation.lastModifiedUnixTime));
    }

    /** StartConversation with every check made before the first write. */
    method StartConversationChecked(request: StartConversationRequest, now: int64) returns (r: Result<StartConversationResponse>)
      requires Valid()
      modifies conversationStorage, messageStorage
      ensures Valid()
      ensures Transition(r, Snapshot()) == StartChecked(old(Snapshot()), request, now)
    {
      if |request.participants| < 2 {
        return Err(ArgumentOutOfRange);
      }
      var userId1 := request.participants[0];
      var userId2 := request.participants[1];
      if IsNullOrWhiteSpace(userId1) || IsNullOrWhiteSpace(userId2) {
        return Err(InvalidArgument);
      }
      var first := request.firstMessage;
      if IsNullOrWhiteSpace(first.text) || IsNullOrWhiteSpace(first.senderUsername) || IsNullOrWhiteSpace(first.messageId) {
        return Err(InvalidArgument);
      }
      var profile1 := profileStorage.GetProfile(userId1);
      var profile2 := profileStorage.GetProfile(userId2);
      if profile1.None? || profile2.None? {
        return Err(UserNotFound);
      }
      r := StartConversation(request, now);
    }

    method EnumerateConversationsOfAGivenUser(
      userId: string,
      continuationToken: Option<Token>,
      limit: Option<int32>,
      lastSeenConversationTime: Option<int64>)
      returns (r: Result<EnumerateConversationsResponse>, ghost answer: seq<string>)
      requires Valid()
      ensures r.Err? <==> IsNullOrWhiteSpace(userId)
      ensures r.Err? ==> r == Err(InvalidArgument)
      ensures r.Ok? ==>
        && IsAnswer(CS.Times(Partition(conversationStorage.container, userId)), lastSeenConversationTime, answer)
        && r.value.conversations == CS.Listed(Partition(conversationStorage.container, userId),
                                              answer[StartOffset(continuationToken, |answer|)..])
        && r.value.continuationToken == None
    {
      answer := [];
      if IsNullOrWhiteSpace(userId) {
        r := Err(InvalidArgument);
        return;
      }
      var _ := profileStorage.GetProfile(userId);
      var response;
      response, answer := conversationStorage.EnumerateConversationsForAGivenUser(userId, continuationToken, limit, lastSeenConversationTime);
      r := Ok(EnumerateConversationsResponse(response.conversations, UrlEncode(response.continuationToken)));
    }
  }
}

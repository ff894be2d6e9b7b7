/** The message history, send and mark-as-read handlers
    (app/api/messages/route.ts) over an in-memory message collection. */
module MessagesRoute {
  import opened Common
  import Text
  import Sorting
  import Auth
  import Conversation
  import opened MessageModel
  import Users

  const DefaultLimit: nat := 50

  // ---------------------------------------------------------------------
  // GET: the history query

  /** The `find` filter: this conversation and, when `before` is given,
      strictly older than it. */
  predicate InQuery(m: Message, conversationId: string, before: Option<Time>) {
    m.conversationId == conversationId && (before.None? || m.createdAt < before.value)
  }

  function Select(msgs: seq<Message>, conversationId: string, before: Option<Time>): (r: seq<Message>)
    ensures forall m :: m in r <==> m in msgs && InQuery(m, conversationId, before)
    ensures multiset(r) <= multiset(msgs)
  {
    if msgs == [] then []
    else
      var rest := Select(msgs[1..], conversationId, before);
      assert msgs == [msgs[0]] + msgs[1..];
      if InQuery(msgs[0], conversationId, before) then [msgs[0]] + rest else rest
  }

  predicate CreatedNoLater(a: Message, b: Message) {
    a.createdAt <= b.createdAt
  }

  lemma CreatedNoLaterIsPreorder()
    ensures Sorting.TotalPreorder(CreatedNoLater)
  {
  }

  /** The matching messages, oldest first. */
  function Ascending(msgs: seq<Message>, conversationId: string, before: Option<Time>): (r: seq<Message>)
    ensures Sorting.SortedBy(r, CreatedNoLater)
    ensures multiset(r) == multiset(Select(msgs, conversationId, before))
  {
    CreatedNoLaterIsPreorder();
    Sorting.Sort(Select(msgs, conversationId, before), CreatedNoLater)
  }

  /** Where the returned window starts in the ascending matches. */
  function WindowStart(n: nat, limit: nat): nat {
    if limit == 0 || limit >= n then 0 else n - limit
  }

  /** `find(query).sort({ createdAt: -1 }).limit(limit)` followed by
      `reverse()`: the newest `limit` matching messages, oldest first.
      A limit of 0 is no limit, as in MongoDB. */
  function History(msgs: seq<Message>, conversationId: string, before: Option<Time>, limit: nat): seq<Message>
  {
    var sorted := Ascending(msgs, conversationId, before);
    sorted[WindowStart(|sorted|, limit)..]
  }

  /** At most `limit` messages (all matches when there are fewer, or when
      the limit is 0). */
  lemma HistoryLength(msgs: seq<Message>, conversationId: string, before: Option<Time>, limit: nat)
    ensures var n := |Select(msgs, conversationId, before)|;
      |History(msgs, conversationId, before, limit)| == (if limit == 0 || limit >= n then n else limit)
  {
    var sorted := Ascending(msgs, conversationId, before);
    assert |sorted| == |multiset(sorted)| == |Select(msgs, conversationId, before)|;
  }

  /** Every returned message is stored and matches the filter. */
  lemma HistoryMatches(msgs: seq<Message>, conversationId: string, before: Option<Time>, limit: nat)
    ensures var r := History(msgs, conversationId, before, limit);
      multiset(r) <= multiset(msgs) && forall m :: m in r ==> InQuery(m, conversationId, before)
  {
    var sorted := Ascending(msgs, conversationId, before);
    var start := WindowStart(|sorted|, limit);
    WindowIsSubset(sorted, start);
    forall m | m in sorted[start..] ensures InQuery(m, conversationId, before) {
      assert m in multiset(sorted);
    }
  }

  /** A tail keeps a sub-multiset of the sequence. */
  lemma WindowIsSubset(sorted: seq<Message>, start: nat)
    requires start <= |sorted|
    ensures multiset(sorted[start..]) <= multiset(sorted)
  {
    assert sorted == sorted[..start] + sorted[start..];
  }

  /** The returned messages are in ascending `createdAt` order. */
  lemma HistoryAscending(msgs: seq<Message>, conversationId: string, before: Option<Time>, limit: nat)
    ensures var r := History(msgs, conversationId, before, limit);
      forall i, j :: 0 <= i < j < |r| ==> r[i].createdAt <= r[j].createdAt
  {
    var sorted := Ascending(msgs, conversationId, before);
    WindowAscending(sorted, WindowStart(|sorted|, limit));
  }

  /** No matching message that was left out is newer than one returned. */
  lemma HistoryNewest(msgs: seq<Message>, conversationId: string, before: Option<Time>, limit: nat)
    ensures var r := History(msgs, conversationId, before, limit);
      forall m, k :: m in msgs && InQuery(m, conversationId, before) && m !in r && 0 <= k < |r| ==>
        m.createdAt <= r[k].createdAt
  {
    var sorted := Ascending(msgs, conversationId, before);
    var start := WindowStart(|sorted|, limit);
    WindowNewest(sorted, start);
    forall m | m in msgs && InQuery(m, conversationId, before) ensures m in sorted {
      assert m in multiset(Select(msgs, conversationId, before));
    }
  }

  /** A tail of a sequence sorted by `createdAt` is sorted by `createdAt`. */
  lemma WindowAscending(sorted: seq<Message>, start: nat)
    requires start <= |sorted| && Sorting.SortedBy(sorted, CreatedNoLater)
    ensures forall i, j :: 0 <= i < j < |sorted| - start ==> sorted[start..][i].createdAt <= sorted[start..][j].createdAt
  {
    forall i, j | 0 <= i < j < |sorted| - start
      ensures sorted[start..][i].createdAt <= sorted[start..][j].createdAt
    {
      assert CreatedNoLater(sorted[start + i], sorted[start + j]);
    }
  }

  /** What a tail of a sequence sorted by `createdAt` leaves out is no newer
      than anything it keeps. */
  lemma WindowNewest(sorted: seq<Message>, start: nat)
    requires start <= |sorted| && Sorting.SortedBy(sorted, CreatedNoLater)
    ensures forall m, k :: m in sorted && m !in sorted[start..] && 0 <= k < |sorted| - start ==>
      m.createdAt <= sorted[start..][k].createdAt
  {
    forall m, k | m in sorted && m !in sorted[start..] && 0 <= k < |sorted| - start
      ensures m.createdAt <= sorted[start..][k].createdAt
    {
      var i :| 0 <= i < |sorted| && sorted[i] == m;
      assert i < start;
      assert CreatedNoLater(sorted[i], sorted[start + k]);
    }
  }

  // ---------------------------------------------------------------------
  // GET and PATCH: bulk mark-as-read

  /** The `updateMany` filter. */
  predicate Unread(m: Message, conversationId: string, reader: string) {
    m.conversationId == conversationId && m.receiver == reader && !m.isRead
  }

  function MarkOne(m: Message, conversationId: string, reader: string, now: Time): Message {
    if Unread(m, conversationId, reader) then m.(isRead := true, readAt := Some(now)) else m
  }

  /** `updateMany({ conversationId, receiver: reader, isRead: false },
      { isRead: true, readAt: now })` on the whole collection. */
  function MarkRead(msgs: seq<Message>, conversationId: string, reader: string, now: Time): seq<Message> {
    seq(|msgs|, i requires 0 <= i < |msgs| => MarkOne(msgs[i], conversationId, reader, now))
  }

  /** Afterwards the reader has no unread message in the conversation; the
      matched messages are stamped with `now`; every other message, the
      reader's own sent ones included, is untouched. */
  lemma MarkReadSpec(msgs: seq<Message>, conversationId: string, reader: string, now: Time)
    ensures var r := MarkRead(msgs, conversationId, reader, now);
      && |r| == |msgs|
      && (forall i :: 0 <= i < |r| ==> !Unread(r[i], conversationId, reader))
      && (forall i :: 0 <= i < |r| && Unread(msgs[i], conversationId, reader) ==>
            r[i] == msgs[i].(isRead := true, readAt := Some(now)))
      && (forall i :: 0 <= i < |r| && !Unread(msgs[i], conversationId, reader) ==> r[i] == msgs[i])
  {
  }

  /** A second bulk mark, at any later time, changes nothing. */
  lemma MarkReadIdempotent(msgs: seq<Message>, conversationId: string, reader: string, t1: Time, t2: Time)
    ensures MarkRead(MarkRead(msgs, conversationId, reader, t1), conversationId, reader, t2)
         == MarkRead(msgs, conversationId, reader, t1)
  {
    var once := MarkRead(msgs, conversationId, reader, t1);
    var twice := MarkRead(once, conversationId, reader, t2);
    forall i | 0 <= i < |once| ensures twice[i] == once[i] {
      assert !Unread(once[i], conversationId, reader);
    }
  }

  /** Marking keeps every stored message valid. */
  lemma MarkReadKeepsValid(msgs: seq<Message>, conversationId: string, reader: string, now: Time)
    requires forall m :: m in msgs ==> Valid(m)
    ensures forall m :: m in MarkRead(msgs, conversationId, reader, now) ==> Valid(m)
  {
    var r := MarkRead(msgs, conversationId, reader, now);
    forall m | m in r ensures Valid(m) {
      var i :| 0 <= i < |r| && r[i] == m;
      assert msgs[i] in msgs;
      MarkOneKeepsValid(msgs[i], conversationId, reader, now);
    }
  }

  /** Stamping one message as read touches neither its content nor any
      other field the schema validates. */
  lemma MarkOneKeepsValid(m: Message, conversationId: string, reader: string, now: Time)
    requires Valid(m)
    ensures Valid(MarkOne(m, conversationId, reader, now))
  {
    var r := MarkOne(m, conversationId, reader, now);
    assert r.content == m.content && r.sender == m.sender && r.receiver == m.receiver;
    assert r.senderUsername == m.senderUsername && r.receiverUsername == m.receiverUsername;
    assert r.conversationId == m.conversationId;
  }

  // ---------------------------------------------------------------------
  // POST: the validation ladder

  /** The decision of POST for an authenticated or anonymous caller: the
      stored message with status 201, or the first rejection that applies.
      A draft the schema refuses surfaces as the handler's 500. */
  function ComposeMessage(users: seq<Users.User>, caller: Option<Auth.TokenPayload>,
                          content: Option<string>, receiverId: Option<string>,
                          id: string, now: Time): Reply<Message>
  {
    if caller.None? then Failure(401, "Unauthorized")
    else if !Present(content) || Text.Trim(content.value) == "" then Failure(400, "Message content is required")
    else if !Present(receiverId) then Failure(400, "Receiver ID is required")
    else match Users.Find(users, Users.Id, receiverId.value)
      case None => Failure(404, "Receiver not found")
      case Some(receiver) =>
        var draft := Draft(caller.value.userId, receiverId.value, caller.value.username,
                           receiver.username, content.value,
                           Conversation.CreateConversationId(caller.value.userId, receiverId.value));
        match Create(draft, id, now, None)
        case Err(_) => Failure(500, "Failed to send message")
        case Ok(m) => Success(201, m)
  }

  /** The rejections come in the handler's order: an anonymous caller, then
      blank content, then a missing receiver id, then an unknown receiver. */
  lemma ComposeRejections(users: seq<Users.User>, caller: Option<Auth.TokenPayload>,
                          content: Option<string>, receiverId: Option<string>, id: string, now: Time)
    ensures caller.None? ==> ComposeMessage(users, caller, content, receiverId, id, now) == Failure(401, "Unauthorized")
    ensures caller.Some? && (content.None? || Text.AllSpace(content.value)) ==>
      ComposeMessage(users, caller, content, receiverId, id, now) == Failure(400, "Message content is required")
    ensures caller.Some? && content.Some? && !Text.AllSpace(content.value) && !Present(receiverId) ==>
      ComposeMessage(users, caller, content, receiverId, id, now) == Failure(400, "Receiver ID is required")
    ensures caller.Some? && content.Some? && !Text.AllSpace(content.value) && Present(receiverId)
            && (forall u :: u in users ==> u.id != receiverId.value) ==>
      ComposeMessage(users, caller, content, receiverId, id, now) == Failure(404, "Receiver not found")
  {
    if content.Some? {
      Text.TrimEmptyIff(content.value);
    }
    if receiverId.Some? {
      Users.FindSpec(users, Users.Id, receiverId.value);
    }
  }

  /** A successful send stores the trimmed content with the identity of the
      token's user as sender, the looked-up receiver's username, the derived
      conversation id, unread and created now. */
  lemma ComposeSuccess(users: seq<Users.User>, caller: Option<Auth.TokenPayload>,
                       content: Option<string>, receiverId: Option<string>, id: string, now: Time)
    requires ComposeMessage(users, caller, content, receiverId, id, now).Success?
    ensures var r := ComposeMessage(users, caller, content, receiverId, id, now);
      && r.status == 201 && caller.Some? && content.Some? && receiverId.Some?
      && Valid(r.body)
      && r.body.content == Text.Trim(content.value) && r.body.content != ""
      && r.body.sender == caller.value.userId && r.body.senderUsername == caller.value.username
      && r.body.receiver == receiverId.value
      && (exists u :: u in users && u.id == receiverId.value && r.body.receiverUsername == u.username)
      && r.body.conversationId == Conversation.CreateConversationId(caller.value.userId, receiverId.value)
      && !r.body.isRead && r.body.readAt == None && r.body.createdAt == now && r.body.id == id
  {
    Users.FindSpec(users, Users.Id, receiverId.value);
  }

  /** Past the four rejections, a send the schema accepts is stored: the
      reply is 201 with exactly that message. */
  lemma ComposeAccepted(users: seq<Users.User>, caller: Option<Auth.TokenPayload>,
                        content: Option<string>, receiverId: Option<string>, id: string, now: Time)
    requires caller.Some? && caller.value.userId != "" && caller.value.username != ""
    requires content.Some? && !Text.AllSpace(content.value) && |Text.Trim(content.value)| <= MaxContentLength
    requires Present(receiverId)
    requires Users.Find(users, Users.Id, receiverId.value).Some?
    requires Users.Find(users, Users.Id, receiverId.value).value.username != ""
    ensures ComposeMessage(users, caller, content, receiverId, id, now)
         == Success(201, Message(id, caller.value.userId, receiverId.value, caller.value.username,
                                 Users.Find(users, Users.Id, receiverId.value).value.username,
                                 Text.Trim(content.value),
                                 Conversation.CreateConversationId(caller.value.userId, receiverId.value),
                                 false, None, now))
  {
    Text.TrimEmptyIff(content.value);
  }

  /** Past the four rejections, a draft the schema refuses (an empty sender
      id or username, an empty receiver username, or content over 1000
      characters once trimmed) is the handler's 500. */
  lemma ComposeSchemaRejected(users: seq<Users.User>, caller: Option<Auth.TokenPayload>,
                              content: Option<string>, receiverId: Option<string>, id: string, now: Time)
    requires caller.Some? && content.Some? && !Text.AllSpace(content.value) && Present(receiverId)
    requires Users.Find(users, Users.Id, receiverId.value).Some?
    requires || caller.value.userId == "" || caller.value.username == ""
             || Users.Find(users, Users.Id, receiverId.value).value.username == ""
             || |Text.Trim(content.value)| > MaxContentLength
    ensures ComposeMessage(users, caller, content, receiverId, id, now) == Failure(500, "Failed to send message")
  {
    Text.TrimEmptyIff(content.value);
  }

  // ---------------------------------------------------------------------
  // The collection and the handlers

  datatype HistoryBody = HistoryBody(messages: seq<Message>, conversationId: string)

  /** The message collection. */
  class MessageStore {
    var messages: seq<Message>

    constructor ()
      ensures messages == []
    {
      messages := [];
    }

    /** `message.save()` of an accepted message. */
    method Save(m: Message)
      modifies this
      ensures messages == old(messages) + [m]
    {
      messages := messages + [m];
    }

    /** The `updateMany` of GET and PATCH, record by record. */
    method UpdateManyRead(conversationId: string, reader: string, now: Time)
      modifies this
      ensures messages == MarkRead(old(messages), conversationId, reader, now)
    {
      var i := 0;
      while i < |messages|
        invariant 0 <= i <= |messages| == |old(messages)|
        invariant forall k :: 0 <= k < i ==> messages[k] == MarkOne(old(messages)[k], conversationId, reader, now)
        invariant forall k :: i <= k < |messages| ==> messages[k] == old(messages)[k]
      {
        if Unread(messages[i], conversationId, reader) {
          messages := messages[i := messages[i].(isRead := true, readAt := Some(now))];
        }
        i := i + 1;
      }
    }
  }

  /** GET /api/messages?receiverId&limit&before. The response is read before
      the bulk mark, so it shows the read state as it was. */
  method Get(store: MessageStore, authorization: Option<string>, verify: Auth.Verifier,
             receiverId: Option<string>, limit: Option<nat>, before: Option<Time>, now: Time)
    returns (reply: Reply<HistoryBody>)
    modifies store
    ensures Auth.GetUserFromRequest(authorization, verify).None? ==>
      reply == Failure(401, "Unauthorized") && store.messages == old(store.messages)
    ensures Auth.GetUserFromRequest(authorization, verify).Some? && !Present(receiverId) ==>
      reply == Failure(400, "Receiver ID is required") && store.messages == old(store.messages)
    ensures Auth.GetUserFromRequest(authorization, verify).Some? && Present(receiverId) ==>
      var caller := Auth.GetUserFromRequest(authorization, verify).value;
      var cid := Conversation.CreateConversationId(caller.userId, receiverId.value);
      && reply == Success(200, HistoryBody(History(old(store.messages), cid, before, limit.GetOr(DefaultLimit)), cid))
      && store.messages == MarkRead(old(store.messages), cid, caller.userId, now)
  {
    var caller := Auth.GetUserFromRequest(authorization, verify);
    if caller.None? {
      return Failure(401, "Unauthorized");
    }
    if !Present(receiverId) {
      return Failure(400, "Receiver ID is required");
    }
    var cid := Conversation.CreateConversationId(caller.value.userId, receiverId.value);
    var found := History(store.messages, cid, before, limit.GetOr(DefaultLimit));
    store.UpdateManyRead(cid, caller.value.userId, now);
    reply := Success(200, HistoryBody(found, cid));
  }

  /** POST /api/messages { content, receiverId }: `id` is the generated
      `_id` and `now` the creation time. Exactly one message is stored on
      success and none on any rejection. */
  method Post(store: MessageStore, people: Users.UserStore, authorization: Option<string>, verify: Auth.Verifier,
              content: Option<string>, receiverId: Option<string>, id: string, now: Time)
    returns (reply: Reply<Message>)
    modifies store
    ensures reply == ComposeMessage(people.users, Auth.GetUserFromRequest(authorization, verify),
                                    content, receiverId, id, now)
    ensures store.messages == if reply.Success? then old(store.messages) + [reply.body] else old(store.messages)
  {
    reply := ComposeMessage(people.users, Auth.GetUserFromRequest(authorization, verify),
                            content, receiverId, id, now);
    if reply.Success? {
      store.Save(reply.body);
    }
  }

  /** PATCH /api/messages { conversationId }. */
  method Patch(store: MessageStore, authorization: Option<string>, verify: Auth.Verifier,
               conversationId: Option<string>, now: Time)
    returns (reply: Reply<bool>)
    modifies store
    ensures Auth.GetUserFromRequest(authorization, verify).None? ==>
      reply == Failure(401, "Unauthorized") && store.messages == old(store.messages)
    ensures Auth.GetUserFromRequest(authorization, verify).Some? && !Present(conversationId) ==>
      reply == Failure(400, "Conversation ID is required") && store.messages == old(store.messages)
    ensures Auth.GetUserFromRequest(authorization, verify).Some? && Present(conversationId) ==>
      && reply == Success(200, true)
      && store.messages == MarkRead(old(store.messages), conversationId.value,
                                    Auth.GetUserFromRequest(authorization, verify).value.userId, now)
  {
    var caller := Auth.GetUserFromRequest(authorization, verify);
    if caller.None? {
      return Failure(401, "Unauthorized");
    }
    if !Present(conversationId) {
      return Failure(400, "Conversation ID is required");
    }
    store.UpdateManyRead(conversationId.value, caller.value.userId, now);
    reply := Success(200, true);
  }
}

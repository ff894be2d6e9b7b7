/** The realtime server of lib/socket.ts: the connection handshake check,
    the presence registry (`onlineUsers`) and the per-connection event
    handlers. Transport is abstracted: a "room" named after a user id is
    the set of live sockets owned by that user, read off the connection
    table, and every `emit` is appended to `outbox` with the socket ids
    it reaches. */
module Socket {
  import opened Common
  import Auth
  import Presence

  /** The live copy of a message that `sendMessage` fans out; `id` is the
      millisecond clock reading (`Date.now().toString()`). */
  datatype LiveMessage = LiveMessage(
    id: Time,
    sender: string,
    receiver: string,
    senderUsername: string,
    receiverUsername: string,
    content: string,
    conversationId: string,
    isRead: bool,
    createdAt: Time)

  /** Server-to-client events. */
  datatype ServerEvent =
    | Message(message: LiveMessage)
    | PeerTyping(userId: string, username: string, isTyping: bool)
    | UserOnline(userId: string, username: string)
    | UserOffline(userId: string, username: string)
    | MessageRead(conversationId: string, readBy: string)
    | OnlineUsers(userIds: set<string>)

  /** One `emit`: the sockets it reaches and what they receive. */
  datatype Emit = Emit(to: set<string>, event: ServerEvent)

  /** Client-to-server events on an accepted connection. */
  datatype ClientEvent =
    | GetOnlineUsers
    | Typing(receiverId: string, isTyping: bool)
    | SendMessage(content: string, receiverId: string, receiverUsername: string, conversationId: string)
    | MarkAsRead(conversationId: string, senderId: string)
    | Disconnect

  /** The handshake middleware: a missing or empty token and a token the
      verifier refuses are both turned away, with different messages. */
  function Authenticate(token: Option<string>, verify: Auth.Verifier): (r: Result<Auth.TokenPayload, string>)
    ensures !Present(token) ==> r == Err("Authentication error")
    ensures Present(token) && verify(token.value).None? ==> r == Err("Invalid token")
    ensures r.Ok? <==> Present(token) && verify(token.value).Some?
    ensures r.Ok? ==> r.value == verify(token.value).value
  {
    if !Present(token) then Err("Authentication error")
    else match verify(token.value)
      case None => Err("Invalid token")
      case Some(p) => Ok(p)
  }

  /** The events socket `s` receives from a series of emits, in order. */
  function Received(emits: seq<Emit>, s: string): seq<ServerEvent>
    decreases |emits|
  {
    if emits == [] then []
    else (if s in emits[0].to then [emits[0].event] else []) + Received(emits[1..], s)
  }

  /** The fan-out of `sendMessage`: a socket in the receiver's room gets
      the message once, the originating socket gets it once more, and no
      other socket gets it. */
  lemma SendFanOut(room: set<string>, origin: string, ev: ServerEvent, s: string)
    ensures Received([Emit(room, ev), Emit({origin}, ev)], s)
         == (if s in room then [ev] else []) + (if s == origin then [ev] else [])
  {
    var e := [Emit(room, ev), Emit({origin}, ev)];
    assert e[1..] == [Emit({origin}, ev)];
    assert e[1..][1..] == [];
    assert Received(e[1..], s) == (if s == origin then [ev] else []) + Received([], s);
  }

  class SocketServer {
    /** `onlineUsers`: user id to that user's live socket ids. */
    var onlineUsers: Presence.Registry
    /** The accepted sockets and the identity each authenticated as (`socket.data.user`). */
    var connections: map<string, Auth.TokenPayload>
    /** Every event emitted so far. */
    var outbox: seq<Emit>

    /** The sockets in the room named `r`: those owned by user `r`. */
    function Room(r: string): set<string>
      reads this
    {
      RoomOf(connections, r)
    }

    /** The registry lists exactly the users with a live socket, each with
        exactly the sockets of that user's room. */
    ghost predicate Valid()
      reads this
    {
      Consistent(onlineUsers, connections)
    }

    /** `getOnlineUserIds()`. */
    function GetOnlineUserIds(): set<string>
      reads this
    {
      onlineUsers.Keys
    }

    /** The snapshot holds exactly the users that own a live socket. */
    lemma OnlineMeansConnected(u: string)
      requires Valid()
      ensures u in GetOnlineUserIds() <==> exists s :: s in connections && connections[s].userId == u
    {
      if u in onlineUsers {
        var s :| s in onlineUsers[u];
        assert s in Room(u);
      }
    }

    /** A registry entry is its user's room, and a user without an entry has an empty room. */
    lemma RoomIsEntry(u: string)
      requires Valid()
      ensures Room(u) == if u in onlineUsers then onlineUsers[u] else {}
    {
    }

    constructor ()
      ensures Valid()
      ensures onlineUsers == map[] && connections == map[] && outbox == []
    {
      onlineUsers := map[];
      connections := map[];
      outbox := [];
    }

    method AddUserSocket(u: string, s: string)
      modifies this`onlineUsers
      ensures onlineUsers == Presence.AddUserSocket(old(onlineUsers), u, s)
    {
      if u !in onlineUsers {
        onlineUsers := onlineUsers[u := {}];
      }
      onlineUsers := onlineUsers[u := onlineUsers[u] + {s}];
    }

    method RemoveUserSocket(u: string, s: string) returns (nowOffline: bool)
      modifies this`onlineUsers
      ensures (onlineUsers, nowOffline) == Presence.RemoveUserSocket(old(onlineUsers), u, s)
    {
      if u in onlineUsers {
        onlineUsers := onlineUsers[u := onlineUsers[u] - {s}];
        if onlineUsers[u] == {} {
          onlineUsers := onlineUsers - {u};
          assert old(onlineUsers)[u] - {s} == {};
          assert onlineUsers == old(onlineUsers) - {u};
          return true;
        }
      }
      return false;
    }

    /** The `connection` handler for a socket that passed the handshake:
        join the own room, register, tell every other socket when the user
        came online with this socket, and send the new socket the snapshot. */
    method OnConnection(sid: string, user: Auth.TokenPayload)
      requires Valid() && sid !in connections
      modifies this
      ensures Valid()
      ensures connections == old(connections)[sid := user]
      ensures onlineUsers == Presence.AddUserSocket(old(onlineUsers), user.userId, sid)
      ensures outbox == old(outbox)
        + (if user.userId !in old(onlineUsers) then [Emit(old(connections).Keys, UserOnline(user.userId, user.username))] else [])
        + [Emit({sid}, OnlineUsers(onlineUsers.Keys))]
      ensures user.userId in onlineUsers.Keys
    {
      JoinKeepsConsistent(onlineUsers, connections, sid, user);
      connections := connections[sid := user];
      var wasOffline := user.userId !in onlineUsers;
      AddUserSocket(user.userId, sid);
      if wasOffline {
        outbox := outbox + [Emit(connections.Keys - {sid}, UserOnline(user.userId, user.username))];
        assert connections.Keys - {sid} == old(connections).Keys;
      }
      outbox := outbox + [Emit({sid}, OnlineUsers(GetOnlineUserIds()))];
    }

    /** Handshake then `connection`: a refused socket changes nothing. */
    method Connect(sid: string, token: Option<string>, verify: Auth.Verifier)
      returns (outcome: Result<Auth.TokenPayload, string>)
      requires Valid() && sid !in connections
      modifies this
      ensures Valid()
      ensures outcome == Authenticate(token, verify)
      ensures outcome.Err? ==>
        onlineUsers == old(onlineUsers) && connections == old(connections) && outbox == old(outbox)
      ensures outcome.Ok? ==>
        && connections == old(connections)[sid := outcome.value]
        && onlineUsers == Presence.AddUserSocket(old(onlineUsers), outcome.value.userId, sid)
        && outbox == old(outbox)
          + (if outcome.value.userId !in old(onlineUsers)
             then [Emit(old(connections).Keys, UserOnline(outcome.value.userId, outcome.value.username))] else [])
          + [Emit({sid}, OnlineUsers(onlineUsers.Keys))]
    {
      outcome := Authenticate(token, verify);
      if outcome.Ok? {
        OnConnection(sid, outcome.value);
      }
    }

    /** `getOnlineUsers`: the snapshot, to the asking socket only. */
    method OnGetOnlineUsers(sid: string)
      requires Valid() && sid in connections
      modifies this`outbox
      ensures outbox == old(outbox) + [Emit({sid}, OnlineUsers(onlineUsers.Keys))]
    {
      outbox := outbox + [Emit({sid}, OnlineUsers(GetOnlineUserIds()))];
    }

    /** `typing`: relayed to the receiver's room under the sender's own identity. */
    method OnTyping(sid: string, receiverId: string, isTyping: bool)
      requires Valid() && sid in connections
      modifies this`outbox
      ensures outbox == old(outbox)
        + [Emit(Room(receiverId), PeerTyping(connections[sid].userId, connections[sid].username, isTyping))]
    {
      var user := connections[sid];
      outbox := outbox + [Emit(Room(receiverId), PeerTyping(user.userId, user.username, isTyping))];
    }

    /** `sendMessage`: the live copy, unread and attributed to the socket's
        own identity whatever the payload says, goes to the receiver's room
        and back to the originating socket. Nothing is stored. */
    method OnSendMessage(sid: string, content: string, receiverId: string, receiverUsername: string,
                         conversationId: string, now: Time)
      requires Valid() && sid in connections
      modifies this`outbox
      ensures var user := connections[sid];
        var live := LiveMessage(now, user.userId, receiverId, user.username, receiverUsername,
                                content, conversationId, false, now);
        outbox == old(outbox) + [Emit(Room(receiverId), Message(live)), Emit({sid}, Message(live))]
    {
      var user := connections[sid];
      var live := LiveMessage(now, user.userId, receiverId, user.username, receiverUsername,
                              content, conversationId, false, now);
      outbox := outbox + [Emit(Room(receiverId), Message(live))];
      outbox := outbox + [Emit({sid}, Message(live))];
    }

    /** `markAsRead`: relayed to the original sender's room, naming the
        socket's own user as reader. */
    method OnMarkAsRead(sid: string, conversationId: string, senderId: string)
      requires Valid() && sid in connections
      modifies this`outbox
      ensures outbox == old(outbox) + [Emit(Room(senderId), MessageRead(conversationId, connections[sid].userId))]
    {
      var user := connections[sid];
      outbox := outbox + [Emit(Room(senderId), MessageRead(conversationId, user.userId))];
    }

    /** `disconnect`: the socket leaves its room and the registry; the
        remaining sockets hear `userOffline` exactly when that was the
        user's last socket. */
    method OnDisconnect(sid: string)
      requires Valid() && sid in connections
      modifies this
      ensures Valid()
      ensures connections == old(connections) - {sid}
      ensures var user := old(connections)[sid];
        var (m, offline) := Presence.RemoveUserSocket(old(onlineUsers), user.userId, sid);
        && onlineUsers == m
        && outbox == old(outbox) + (if offline then [Emit(connections.Keys, UserOffline(user.userId, user.username))] else [])
        && (offline <==> old(Room(user.userId)) == {sid})
    {
      var user := connections[sid];
      LeaveKeepsConsistent(onlineUsers, connections, sid);
      connections := connections - {sid};
      var isNowOffline := RemoveUserSocket(user.userId, sid);
      if isNowOffline {
        outbox := outbox + [Emit(connections.Keys, UserOffline(user.userId, user.username))];
      }
    }

    /** One inbound event on an accepted connection, dispatched to its
        handler. Only `disconnect` touches the registry or the connections. */
    method Dispatch(sid: string, event: ClientEvent, now: Time)
      requires Valid() && sid in connections
      modifies this
      ensures Valid()
      ensures !event.Disconnect? ==> onlineUsers == old(onlineUsers) && connections == old(connections)
      ensures event.Disconnect? ==> connections == old(connections) - {sid}
      ensures |outbox| >= |old(outbox)| && outbox[..|old(outbox)|] == old(outbox)
    {
      match event
      case GetOnlineUsers => OnGetOnlineUsers(sid);
      case Typing(receiverId, isTyping) => OnTyping(sid, receiverId, isTyping);
      case SendMessage(content, receiverId, receiverUsername, conversationId) =>
        OnSendMessage(sid, content, receiverId, receiverUsername, conversationId, now);
      case MarkAsRead(conversationId, senderId) => OnMarkAsRead(sid, conversationId, senderId);
      case Disconnect => OnDisconnect(sid);
    }
  }

  /** The sockets of `conns` owned by user `r`: the room named `r`. */
  function RoomOf(conns: map<string, Auth.TokenPayload>, r: string): set<string> {
    set s | s in conns && conns[s].userId == r
  }

  /** The registry lists exactly the users with a live socket, each with
      exactly the sockets of that user's room, and no user without one. */
  ghost predicate Consistent(registry: Presence.Registry, conns: map<string, Auth.TokenPayload>) {
    && Presence.NoEmptyEntries(registry)
    && (forall u :: u in registry ==> registry[u] == RoomOf(conns, u))
    && (forall s :: s in conns ==> conns[s].userId in registry)
  }

  /** Registering a new socket under its user keeps registry and rooms in step. */
  lemma JoinKeepsConsistent(registry: Presence.Registry, conns: map<string, Auth.TokenPayload>,
                            sid: string, user: Auth.TokenPayload)
    requires Consistent(registry, conns) && sid !in conns
    ensures Consistent(Presence.AddUserSocket(registry, user.userId, sid), conns[sid := user])
  {
    var r := Presence.AddUserSocket(registry, user.userId, sid);
    var c := conns[sid := user];
    forall v | v in r ensures r[v] == RoomOf(c, v) {
      RoomAfterJoin(conns, sid, user, v);
      if v !in registry {
        OfflineRoomEmpty(conns, registry, v);
      }
    }
    forall s | s in c ensures c[s].userId in r {
      if s != sid {
        assert s in conns;
      }
    }
  }

  /** Removing a socket from its user's entry keeps registry and rooms in step. */
  lemma LeaveKeepsConsistent(registry: Presence.Registry, conns: map<string, Auth.TokenPayload>, sid: string)
    requires Consistent(registry, conns) && sid in conns
    ensures Consistent(Presence.RemoveUserSocket(registry, conns[sid].userId, sid).0, conns - {sid})
  {
    var r := Presence.RemoveUserSocket(registry, conns[sid].userId, sid).0;
    var c := conns - {sid};
    forall v | v in r ensures r[v] == RoomOf(c, v) {
      RoomAfterLeave(conns, sid, v);
    }
    forall s | s in c ensures c[s].userId in r {
      assert s in RoomOf(conns, c[s].userId);
    }
  }

  /** A new socket joins exactly its own user's room. */
  lemma RoomAfterJoin(conns: map<string, Auth.TokenPayload>, sid: string, user: Auth.TokenPayload, v: string)
    requires sid !in conns
    ensures RoomOf(conns[sid := user], v) == RoomOf(conns, v) + (if v == user.userId then {sid} else {})
  {
  }

  /** A closed socket leaves its room and no other. */
  lemma RoomAfterLeave(conns: map<string, Auth.TokenPayload>, sid: string, v: string)
    requires sid in conns
    ensures RoomOf(conns - {sid}, v) == RoomOf(conns, v) - {sid}
  {
  }

  /** When every socket's user is registered, an unregistered user's room is empty. */
  lemma OfflineRoomEmpty(conns: map<string, Auth.TokenPayload>, registry: Presence.Registry, v: string)
    requires forall s :: s in conns ==> conns[s].userId in registry
    requires v !in registry
    ensures RoomOf(conns, v) == {}
  {
  }

  /** A two-tab history, in steps. B is on socket c3 when A opens c1:
      A's first socket announces A to c3. */
  method TwoTabsFirst() returns (server: SocketServer)
    ensures fresh(server) && server.Valid()
    ensures server.connections == map["c3" := Bob, "c1" := Alice]
    ensures server.onlineUsers == map["B" := {"c3"}, "A" := {"c1"}]
    ensures server.outbox == [Emit({}, UserOnline("B", "bob")), Emit({"c3"}, OnlineUsers({"B"})),
                              Emit({"c3"}, UserOnline("A", "alice")), Emit({"c1"}, OnlineUsers({"A", "B"}))]
  {
    server := new SocketServer();
    assert server.connections.Keys == {};
    server.OnConnection("c3", Bob);
    assert server.connections == map["c3" := Bob];
    assert server.onlineUsers == map["B" := {"c3"}];
    assert server.onlineUsers.Keys == {"B"};
    assert server.outbox == [Emit({}, UserOnline("B", "bob")), Emit({"c3"}, OnlineUsers({"B"}))];
    assert server.connections.Keys == {"c3"} && "A" !in server.onlineUsers;
    server.OnConnection("c1", Alice);
    assert server.onlineUsers.Keys == {"A", "B"};
  }

  /** A opens a second tab c2: no one is told, and c2 gets the snapshot. */
  method TwoTabsSecond(server: SocketServer)
    requires server.Valid()
    requires server.connections == map["c3" := Bob, "c1" := Alice]
    requires server.onlineUsers == map["B" := {"c3"}, "A" := {"c1"}]
    modifies server
    ensures server.Valid()
    ensures server.connections == map["c3" := Bob, "c1" := Alice, "c2" := Alice]
    ensures server.onlineUsers == map["B" := {"c3"}, "A" := {"c1", "c2"}]
    ensures server.outbox == old(server.outbox) + [Emit({"c2"}, OnlineUsers({"A", "B"}))]
  {
    var mark := |server.outbox|;
    server.OnConnection("c2", Alice);
    assert server.onlineUsers == map["B" := {"c3"}, "A" := {"c1"} + {"c2"}];
    assert {"c1"} + {"c2"} == {"c1", "c2"};
    assert server.onlineUsers.Keys == {"A", "B"};
    assert server.outbox[mark..] == [Emit({"c2"}, OnlineUsers({"A", "B"}))];
  }

  /** A sends to B from c1: B's c3 and the originating c1 get the message
      once each, A's other tab c2 gets nothing. */
  method TwoTabsSend(server: SocketServer, now: Time)
    requires server.Valid()
    requires server.connections == map["c3" := Bob, "c1" := Alice, "c2" := Alice]
    requires server.onlineUsers == map["B" := {"c3"}, "A" := {"c1", "c2"}]
    modifies server
    ensures server.connections == old(server.connections) && server.onlineUsers == old(server.onlineUsers)
    ensures |server.outbox| >= |old(server.outbox)|
    ensures var live := Message(LiveMessage(now, "A", "B", "alice", "bob", "hi", "A_B", false, now));
      var sent := server.outbox[|old(server.outbox)|..];
      Received(sent, "c3") == [live] && Received(sent, "c1") == [live] && Received(sent, "c2") == []
  {
    var mark := |server.outbox|;
    server.RoomIsEntry("B");
    server.OnSendMessage("c1", "hi", "B", "bob", "A_B", now);
    var sent := server.outbox[mark..];
    var live := Message(LiveMessage(now, "A", "B", "alice", "bob", "hi", "A_B", false, now));
    assert sent == [Emit({"c3"}, live), Emit({"c1"}, live)];
    SendFanOut({"c3"}, "c1", live, "c3");
    SendFanOut({"c3"}, "c1", live, "c1");
    SendFanOut({"c3"}, "c1", live, "c2");
    assert Received(sent, "c3") == [live] && Received(sent, "c1") == [live] && Received(sent, "c2") == [];
  }

  /** A closes c1 while c2 stays open: A is still online and no one is told. */
  method TwoTabsCloseOne(server: SocketServer)
    requires server.Valid()
    requires server.connections == map["c3" := Bob, "c1" := Alice, "c2" := Alice]
    requires server.onlineUsers == map["B" := {"c3"}, "A" := {"c1", "c2"}]
    modifies server
    ensures server.Valid()
    ensures server.connections == map["c3" := Bob, "c2" := Alice]
    ensures server.onlineUsers == map["B" := {"c3"}, "A" := {"c2"}]
    ensures server.outbox == old(server.outbox)
  {
    assert {"c1", "c2"} - {"c1"} == {"c2"};
    server.OnDisconnect("c1");
    assert server.connections == map["c3" := Bob, "c2" := Alice];
  }

  /** A then closes c2, its last socket: `userOffline` for A goes to c3 alone. */
  method TwoTabsCloseLast(server: SocketServer)
    requires server.Valid()
    requires server.connections == map["c3" := Bob, "c2" := Alice]
    requires server.onlineUsers == map["B" := {"c3"}, "A" := {"c2"}]
    modifies server
    ensures server.Valid()
    ensures server.connections == map["c3" := Bob] && server.onlineUsers == map["B" := {"c3"}]
    ensures server.outbox == old(server.outbox) + [Emit({"c3"}, UserOffline("A", "alice"))]
  {
    assert {"c2"} - {"c2"} == {};
    server.OnDisconnect("c2");
    assert server.connections == map["c3" := Bob];
    assert server.connections.Keys == {"c3"};
  }

  const Alice := Auth.TokenPayload("A", "a@example.com", "alice")
  const Bob := Auth.TokenPayload("B", "b@example.com", "bob")
}

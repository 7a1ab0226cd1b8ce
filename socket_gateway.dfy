/** The connection handler of `funcionesSockets`: the live sockets (each in the private room
    of its user), the session store, the message table, and one method per socket event. */
module SocketGateway {
  import opened Wrappers
  import opened Seqs
  import opened Domain
  import opened SocketSessions
  import opened SocketChat
  import opened SocketTransport

  /** What the handshake attached to a socket. */
  datatype Conn = Conn(sessionID: string, userID: Email, username: string)

  function ConnectedEmit(friend: Email, socketId: nat, me: Email, username: string): Emit {
    Emit(ToRooms({friend}, Some(socketId)), UserConnected(me, username))
  }

  /** The "user connected" emits of a new connection, in friend order. */
  function OnlineSignals(friends: seq<FriendInfo>, all: seq<Session>, socketId: nat, me: Email, username: string): seq<Emit>
    decreases |friends|
  {
    if friends == [] then []
    else
      var f := friends[|friends| - 1];
      OnlineSignals(friends[..|friends| - 1], all, socketId, me, username) +
        (if SignalsOnline(all, f.userID) then [ConnectedEmit(f.userID, socketId, me, username)] else [])
  }

  /** A new connection signals exactly the friends whose first stored session (`find`) is
      marked connected. */
  lemma {:induction false} OnlineSignalsExact(friends: seq<FriendInfo>, all: seq<Session>, socketId: nat, me: Email, username: string)
    ensures forall e :: e in OnlineSignals(friends, all, socketId, me, username) ==>
      exists f :: f in friends && SignalsOnline(all, f.userID) && e == ConnectedEmit(f.userID, socketId, me, username)
    ensures forall f :: f in friends && SignalsOnline(all, f.userID) ==>
      ConnectedEmit(f.userID, socketId, me, username) in OnlineSignals(friends, all, socketId, me, username)
    decreases |friends|
  {
    if friends != [] {
      var init := friends[..|friends| - 1];
      OnlineSignalsExact(init, all, socketId, me, username);
      assert forall g :: g in friends <==> g in init || g == friends[|friends| - 1];
    }
  }

  function DisconnectedEmit(friend: Email, me: Email): Emit {
    Emit(ToRooms({friend}, None), UserDisconnected(me))
  }

  /** The "user disconnected" emits of a user's last socket closing: one per friend. */
  function OfflineSignals(friends: seq<FriendInfo>, me: Email): (r: seq<Emit>)
    ensures |r| == |friends|
    ensures forall i :: 0 <= i < |friends| ==> r[i] == DisconnectedEmit(friends[i].userID, me)
    decreases |friends|
  {
    if friends == [] then []
    else OfflineSignals(friends[..|friends| - 1], me) + [DisconnectedEmit(friends[|friends| - 1].userID, me)]
  }

  /** Every socket of every friend receives "user disconnected": unlike `socket.to`,
      `io.to` excludes no socket. */
  lemma OfflineSignalsReachFriends(friends: seq<FriendInfo>, me: Email, f: FriendInfo, socketId: nat)
    requires f in friends
    ensures exists e :: e in OfflineSignals(friends, me) && e.event == UserDisconnected(me) &&
                        Reaches(e.target, socketId, f.userID)
  {
    var i :| 0 <= i < |friends| && friends[i] == f;
    assert OfflineSignals(friends, me)[i] == DisconnectedEmit(f.userID, me);
  }

  /** The private-message emit of `socket.to(to).to(me)`. */
  function PrivateEmit(socketId: nat, me: Email, to: Email, content: string, now: int): Emit {
    Emit(ToRooms({to, me}, Some(socketId)), PrivateMessage(MessageView(content, me, to, now, Enviado)))
  }

  /** A private message reaches every socket of the recipient and the sender's other tabs,
      but not the socket that sent it. */
  lemma PrivateMessageReach(socketId: nat, me: Email, to: Email, content: string, now: int, other: nat, room: Email)
    ensures !Reaches(PrivateEmit(socketId, me, to, content, now).target, socketId, me)
    ensures other != socketId ==>
      (Reaches(PrivateEmit(socketId, me, to, content, now).target, other, room) <==> room == to || room == me)
  {
  }

  /** The `forEach` of a new connection over the friend list. */
  method SignalOnline(outbox: Outbox, friends: seq<FriendInfo>, all: seq<Session>, socketId: nat, me: Email, username: string)
    modifies outbox
    ensures outbox.ioReady == old(outbox.ioReady)
    ensures outbox.sent == old(outbox.sent) + OnlineSignals(friends, all, socketId, me, username)
  {
    var i := 0;
    while i < |friends|
      invariant 0 <= i <= |friends|
      invariant outbox.ioReady == old(outbox.ioReady)
      invariant outbox.sent == old(outbox.sent) + OnlineSignals(friends[..i], all, socketId, me, username)
    {
      var f := friends[i];
      assert friends[..i + 1][..i] == friends[..i];
      if SignalsOnline(all, f.userID) {
        outbox.Send(ConnectedEmit(f.userID, socketId, me, username));
      }
      i := i + 1;
    }
    assert friends[..|friends|] == friends;
  }

  /** The `forEach` of a last disconnect over the friend list. */
  method SignalOffline(outbox: Outbox, friends: seq<FriendInfo>, me: Email)
    modifies outbox
    ensures outbox.ioReady == old(outbox.ioReady)
    ensures outbox.sent == old(outbox.sent) + OfflineSignals(friends, me)
  {
    var i := 0;
    while i < |friends|
      invariant 0 <= i <= |friends|
      invariant outbox.ioReady == old(outbox.ioReady)
      invariant outbox.sent == old(outbox.sent) + OfflineSignals(friends[..i], me)
    {
      assert friends[..i + 1][..i] == friends[..i];
      outbox.Send(DisconnectedEmit(friends[i].userID, me));
      i := i + 1;
    }
    assert friends[..|friends|] == friends;
  }

  /** The `for` loop of "get friends list": for each friend, whether any of its sessions is
      connected, the unread count and the latest message of the pair. */
  method ChatRows(friends: seq<FriendInfo>, me: Email, all: seq<Session>, ms: seq<Mensaje>) returns (rows: seq<ChatEntry>)
    ensures rows == EntriesFor(friends, me, all, ms)
  {
    rows := [];
    var i := 0;
    while i < |friends|
      invariant 0 <= i <= |friends|
      invariant rows == EntriesFor(friends[..i], me, all, ms)
    {
      var f := friends[i];
      var connected := exists s :: s in all && s.userID == f.userID && s.connected;
      var unread := UnreadCount(ms, f.userID, me);
      var last := LastBetween(ms, f.userID, me);
      var row := ChatEntry(f.userID, f.username, f.fotoUrl, connected,
                           if last.Some? then Some(last.value.text) else None,
                           if last.Some? then Some(last.value.hora) else None,
                           unread);
      assert row == EntryFor(f, me, all, ms);
      assert friends[..i + 1][..i] == friends[..i];
      rows := rows + [row];
      i := i + 1;
    }
    assert friends[..|friends|] == friends;
  }

  class Gateway {
    const store: SessionStore
    const outbox: Outbox
    var users: seq<User>
    var edges: seq<Amigo>
    var messages: seq<Mensaje>
    var nextMessageId: nat
    var sockets: map<nat, Conn>
    var nextSocketId: nat

    ghost predicate Valid()
      reads this, store, outbox
    {
      store.Valid() && Registered(users, edges) &&
      (forall m :: m in messages ==> m.id < nextMessageId) &&
      (forall id :: id in sockets ==> id < nextSocketId)
    }

    constructor (store: SessionStore, outbox: Outbox, users: seq<User>, edges: seq<Amigo>)
      requires store.Valid() && Registered(users, edges)
      ensures Valid()
      ensures this.store == store && this.outbox == outbox
      ensures this.users == users && this.edges == edges
      ensures messages == [] && sockets == map[]
    {
      this.store := store;
      this.outbox := outbox;
      this.users := users;
      this.edges := edges;
      messages := [];
      nextMessageId := 0;
      sockets := map[];
      nextSocketId := 0;
    }

    /** The sockets in the private room of user `u`. */
    function Room(u: Email): set<nat>
      reads this
    {
      set id | id in sockets && sockets[id].userID == u
    }

    /** A new socket, under the next socket id. */
    method OpenSocket(c: Conn) returns (socketId: nat)
      requires Valid()
      modifies this
      ensures Valid()
      ensures socketId == old(nextSocketId) && socketId !in old(sockets)
      ensures sockets == old(sockets)[socketId := c]
      ensures users == old(users) && edges == old(edges) && messages == old(messages)
    {
      socketId := nextSocketId;
      nextSocketId := nextSocketId + 1;
      sockets := sockets[socketId := c];
    }

    /** "connection": join the private room, store the session as connected, answer
        "session", then tell every friend whose first stored session is connected. */
    method Connect(who: Identity) returns (socketId: nat)
      requires Valid()
      modifies this, store, outbox
      ensures Valid()
      ensures socketId == old(nextSocketId) && socketId !in old(sockets)
      ensures sockets == old(sockets)[socketId := Conn(who.sessionID, who.userID, who.username)]
      ensures store.sessions == old(store.sessions)[who.sessionID := Session(who.sessionID, who.userID, who.username, true)]
      ensures store.order == if who.sessionID in old(store.sessions) then old(store.order) else old(store.order) + [who.sessionID]
      ensures outbox.sent == old(outbox.sent) +
        [Emit(ToSocket(socketId), SessionEvent(who.sessionID, who.userID, who.username))] +
        OnlineSignals(GetFriends(edges, users, who.userID), store.AllSessions(), socketId, who.userID, who.username)
      ensures outbox.ioReady == old(outbox.ioReady)
      ensures users == old(users) && edges == old(edges) && messages == old(messages)
    {
      socketId := OpenSocket(Conn(who.sessionID, who.userID, who.username));
      store.SaveSession(who.sessionID, Session(who.sessionID, who.userID, who.username, true));
      outbox.Send(Emit(ToSocket(socketId), SessionEvent(who.sessionID, who.userID, who.username)));
      var friends := GetFriends(edges, users, who.userID);
      var all := store.AllSessions();
      SignalOnline(outbox, friends, all, socketId, who.userID, who.username);
    }

    /** "get friends list": one row per friend (any of its sessions connected, unread count,
        latest message), most recent conversation first. */
    method FriendsList(me: Email) returns (entries: seq<ChatEntry>)
      requires Valid()
      ensures NonIncreasing(entries, RecencyKey)
      ensures multiset(entries) == multiset(EntriesFor(GetFriends(edges, users, me), me, store.AllSessions(), messages))
      ensures forall k ::
                KeyClass(entries, RecencyKey, k) ==
                KeyClass(EntriesFor(GetFriends(edges, users, me), me, store.AllSessions(), messages), RecencyKey, k)
    {
      var rows := ChatRows(GetFriends(edges, users, me), me, store.AllSessions(), messages);
      entries := SortDesc(rows, RecencyKey);
    }

    /** Answers "get friends list" with "users" to the asking socket only. */
    method GetFriendsList(socketId: nat)
      requires Valid() && socketId in sockets
      modifies outbox
      ensures exists entries: seq<ChatEntry> ::
        NonIncreasing(entries, RecencyKey) &&
        multiset(entries) == multiset(EntriesFor(GetFriends(edges, users, sockets[socketId].userID), sockets[socketId].userID,
                                                 store.AllSessions(), messages)) &&
        (forall k :: KeyClass(entries, RecencyKey, k) ==
          KeyClass(EntriesFor(GetFriends(edges, users, sockets[socketId].userID), sockets[socketId].userID,
                              store.AllSessions(), messages), RecencyKey, k)) &&
        outbox.sent == old(outbox.sent) + [Emit(ToSocket(socketId), UsersEvent(entries))]
      ensures outbox.ioReady == old(outbox.ioReady)
    {
      var entries := FriendsList(sockets[socketId].userID);
      outbox.Send(Emit(ToSocket(socketId), UsersEvent(entries)));
    }

    /** "fetch messages": the conversation with `withUserID`, to the asking socket only. */
    method FetchMessages(socketId: nat, withUserID: Email)
      requires Valid() && socketId in sockets
      modifies outbox
      ensures outbox.sent == old(outbox.sent) +
        [Emit(ToSocket(socketId), ChatHistory(withUserID, ChatHistoryOf(messages, sockets[socketId].userID, withUserID)))]
      ensures outbox.ioReady == old(outbox.ioReady)
    {
      var me := sockets[socketId].userID;
      outbox.Send(Emit(ToSocket(socketId), ChatHistory(withUserID, ChatHistoryOf(messages, me, withUserID))));
    }

    /** "send notification": echoed back to the same socket. */
    method SendNotification(socketId: nat, data: string)
      requires Valid() && socketId in sockets
      modifies outbox
      ensures outbox.sent == old(outbox.sent) + [Emit(ToSocket(socketId), EchoNotification(data))]
      ensures outbox.ioReady == old(outbox.ioReady)
    {
      outbox.Send(Emit(ToSocket(socketId), EchoNotification(data)));
    }

    /** "private message": store the message as ENVIADO at `now`, then send it to the
        recipient's room and the sender's own room (other tabs). Sender and recipient are both
        foreign keys: when either is not a user the save fails and nothing is sent. */
    method SendPrivateMessage(socketId: nat, content: string, to: Email, now: int)
      requires Valid() && socketId in sockets
      modifies this, outbox
      ensures Valid()
      ensures users == old(users) && edges == old(edges) && sockets == old(sockets)
      ensures outbox.ioReady == old(outbox.ioReady)
      ensures var me := old(sockets[socketId].userID);
        if FindByCorreo(users, me).Some? && FindByCorreo(users, to).Some? then
          messages == old(messages) + [Mensaje(old(nextMessageId), content, me, to, now, Enviado)] &&
          nextMessageId == old(nextMessageId) + 1 &&
          outbox.sent == old(outbox.sent) + [PrivateEmit(socketId, me, to, content, now)]
        else
          messages == old(messages) && nextMessageId == old(nextMessageId) && outbox.sent == old(outbox.sent)
    {
      var me := sockets[socketId].userID;
      if FindByCorreo(users, me).Some? && FindByCorreo(users, to).Some? {
        messages := messages + [Mensaje(nextMessageId, content, me, to, now, Enviado)];
        nextMessageId := nextMessageId + 1;
        outbox.Send(PrivateEmit(socketId, me, to, content, now));
      }
    }

    /** "typing": "display typing" to the other user's sockets. */
    method Typing(socketId: nat, to: Email)
      requires Valid() && socketId in sockets
      modifies outbox
      ensures outbox.sent == old(outbox.sent) + [Emit(ToRooms({to}, Some(socketId)), DisplayTyping(sockets[socketId].userID))]
      ensures outbox.ioReady == old(outbox.ioReady)
    {
      outbox.Send(Emit(ToRooms({to}, Some(socketId)), DisplayTyping(sockets[socketId].userID)));
    }

    /** "stop typing": "hide typing" to the other user's sockets. */
    method StopTyping(socketId: nat, to: Email)
      requires Valid() && socketId in sockets
      modifies outbox
      ensures outbox.sent == old(outbox.sent) + [Emit(ToRooms({to}, Some(socketId)), HideTyping(sockets[socketId].userID))]
      ensures outbox.ioReady == old(outbox.ioReady)
    {
      outbox.Send(Emit(ToRooms({to}, Some(socketId)), HideTyping(sockets[socketId].userID)));
    }

    /** "mark messages received": every ENVIADO message from `withUserID` to me becomes
        RECIBIDO; the sender is told. */
    method MarkReceived(socketId: nat, withUserID: Email)
      requires Valid() && socketId in sockets
      modifies this, outbox
      ensures Valid()
      ensures users == old(users) && edges == old(edges) && sockets == old(sockets) && nextMessageId == old(nextMessageId)
      ensures messages == Raise(old(messages), withUserID, sockets[socketId].userID, Recibido)
      ensures outbox.sent == old(outbox.sent) +
        [Emit(ToRooms({withUserID}, Some(socketId)), MessageReceived(sockets[socketId].userID))]
      ensures outbox.ioReady == old(outbox.ioReady)
    {
      var me := sockets[socketId].userID;
      RaiseKeepsIdsBelow(messages, withUserID, me, Recibido, nextMessageId);
      messages := Raise(messages, withUserID, me, Recibido);
      outbox.Send(Emit(ToRooms({withUserID}, Some(socketId)), MessageReceived(me)));
    }

    /** "mark messages read": every message from `withUserID` to me below LEIDO becomes
        LEIDO; the sender is told. */
    method MarkRead(socketId: nat, withUserID: Email)
      requires Valid() && socketId in sockets
      modifies this, outbox
      ensures Valid()
      ensures users == old(users) && edges == old(edges) && sockets == old(sockets) && nextMessageId == old(nextMessageId)
      ensures messages == Raise(old(messages), withUserID, sockets[socketId].userID, Leido)
      ensures outbox.sent == old(outbox.sent) +
        [Emit(ToRooms({withUserID}, Some(socketId)), MessagesRead(sockets[socketId].userID))]
      ensures outbox.ioReady == old(outbox.ioReady)
    {
      var me := sockets[socketId].userID;
      RaiseKeepsIdsBelow(messages, withUserID, me, Leido, nextMessageId);
      messages := Raise(messages, withUserID, me, Leido);
      outbox.Send(Emit(ToRooms({withUserID}, Some(socketId)), MessagesRead(me)));
    }

    /** "disconnect": the socket leaves its room; only when the room is then empty (no other
        tab of the user) every friend is told and the session is stored as disconnected. */
    method Disconnect(socketId: nat)
      requires Valid() && socketId in sockets
      modifies this, store, outbox
      ensures Valid()
      ensures users == old(users) && edges == old(edges) && messages == old(messages)
      ensures sockets == old(sockets) - {socketId}
      ensures outbox.ioReady == old(outbox.ioReady)
      ensures var c := old(sockets[socketId]);
        if Room(c.userID) == {} then
          outbox.sent == old(outbox.sent) + OfflineSignals(GetFriends(edges, users, c.userID), c.userID) &&
          store.sessions == old(store.sessions)[c.sessionID := Session(c.sessionID, c.userID, c.username, false)] &&
          store.order == if c.sessionID in old(store.sessions) then old(store.order) else old(store.order) + [c.sessionID]
        else
          outbox.sent == old(outbox.sent) && store.sessions == old(store.sessions) && store.order == old(store.order)
    {
      var c := sockets[socketId];
      sockets := sockets - {socketId};
      if Room(c.userID) == {} {
        SignalOffline(outbox, GetFriends(edges, users, c.userID), c.userID);
        store.SaveSession(c.sessionID, Session(c.sessionID, c.userID, c.username, false));
      }
    }
  }
}

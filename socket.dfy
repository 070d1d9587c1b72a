/**
 * The socket server: the two presence maps that tie users to their live
 * socket, updated by the connection and disconnect handlers, and the
 * `sendMessage` handler that persists a message, re-reads it with both
 * parties' profiles and emits it to whichever of their sockets it found.
 */
module Socket {
  import opened Models
  import MessageController

  // ---------------------------------------------------------------------------
  // Presence maps

  /** `userSocketMap` (user to socket) and `socketToUserMap` (socket to user). */
  datatype Registry = Registry(userSocket: map<UserId, SocketId>, socketToUser: map<SocketId, UserId>)

  /** The connection handler: a truthy `userId` from the handshake query binds
      the user to the socket in both maps; otherwise nothing is recorded. */
  function Connected(r: Registry, socketId: SocketId, userId: Option<UserId>): (r': Registry)
    ensures !Truthy(userId) ==> r' == r
    ensures Truthy(userId) ==>
      Get(r'.userSocket, userId.value) == Some(socketId) && Get(r'.socketToUser, socketId) == Some(userId.value)
    ensures forall u :: userId != Some(u) ==> Get(r'.userSocket, u) == Get(r.userSocket, u)
    ensures forall s :: s != socketId ==> Get(r'.socketToUser, s) == Get(r.socketToUser, s)
  {
    if Truthy(userId) then
      Registry(r.userSocket[userId.value := socketId], r.socketToUser[socketId := userId.value])
    else r
  }

  /** The disconnect handler: when the socket maps back to a (truthy) user,
      that user's forward entry and the socket's reverse entry are deleted,
      whatever socket the forward entry now names. */
  function Disconnected(r: Registry, socketId: SocketId): (r': Registry)
    ensures !Truthy(Get(r.socketToUser, socketId)) ==> r' == r
    ensures Truthy(Get(r.socketToUser, socketId)) ==>
      socketId !in r'.socketToUser && r.socketToUser[socketId] !in r'.userSocket
    ensures forall u :: Get(r.socketToUser, socketId) != Some(u) ==> Get(r'.userSocket, u) == Get(r.userSocket, u)
    ensures forall s :: s != socketId ==> Get(r'.socketToUser, s) == Get(r.socketToUser, s)
  {
    var userId := Get(r.socketToUser, socketId);
    if Truthy(userId) then
      Registry(r.userSocket - {userId.value}, r.socketToUser - {socketId})
    else r
  }

  /** Every forward entry `u -> s` is matched by a reverse entry `s -> u`. */
  ghost predicate ForwardBacked(r: Registry)
  {
    forall u :: u in r.userSocket ==> r.userSocket[u] in r.socketToUser && r.socketToUser[r.userSocket[u]] == u
  }

  /** The maps hold only truthy ids, and every forward entry is backed. */
  ghost predicate Wellformed(r: Registry)
  {
    && ForwardBacked(r)
    && (forall u :: u in r.userSocket ==> u != "" && r.userSocket[u] != "")
    && (forall s :: s in r.socketToUser ==> s != "" && r.socketToUser[s] != "")
  }

  /** No two users share a socket while every forward entry is backed. */
  lemma NoSharedSocket(r: Registry, u1: UserId, u2: UserId)
    requires ForwardBacked(r)
    requires u1 in r.userSocket && u2 in r.userSocket && u1 != u2
    ensures r.userSocket[u1] != r.userSocket[u2]
  {
    assert r.socketToUser[r.userSocket[u1]] == u1;
  }

  /** Connecting a socket id that holds no reverse entry (socket.io never
      reuses an id) keeps the maps well formed. */
  lemma ConnectKeepsWellformed(r: Registry, socketId: SocketId, userId: Option<UserId>)
    requires Wellformed(r)
    requires socketId != "" && socketId !in r.socketToUser
    ensures Wellformed(Connected(r, socketId, userId))
  {
    var r' := Connected(r, socketId, userId);
    if Truthy(userId) {
      forall u | u in r'.userSocket
        ensures r'.userSocket[u] in r'.socketToUser && r'.socketToUser[r'.userSocket[u]] == u
      {
        if u != userId.value {
          assert Get(r'.userSocket, u) == Get(r.userSocket, u);
          assert r.userSocket[u] != socketId;
          assert Get(r'.socketToUser, r.userSocket[u]) == Get(r.socketToUser, r.userSocket[u]);
        }
      }
    }
  }

  /** Disconnecting keeps the maps well formed. */
  lemma DisconnectKeepsWellformed(r: Registry, socketId: SocketId)
    requires Wellformed(r)
    ensures Wellformed(Disconnected(r, socketId))
  {
    var r' := Disconnected(r, socketId);
    if Truthy(Get(r.socketToUser, socketId)) {
      var owner := r.socketToUser[socketId];
      forall u | u in r'.userSocket
        ensures r'.userSocket[u] in r'.socketToUser && r'.socketToUser[r'.userSocket[u]] == u
      {
        assert u != owner;
        assert r.socketToUser[r.userSocket[u]] == u;
      }
    }
  }

  /** A second disconnect of the same socket changes nothing. */
  lemma DisconnectIdempotent(r: Registry, socketId: SocketId)
    ensures Disconnected(Disconnected(r, socketId), socketId) == Disconnected(r, socketId)
  {
  }

  /** Reconnecting a user on a new socket moves the forward entry to the new
      socket but leaves the old socket's reverse entry pointing at the user. */
  lemma ReconnectKeepsStaleReverse(r: Registry, u: UserId, s1: SocketId, s2: SocketId)
    requires u != "" && s1 != s2
    ensures var r2 := Connected(Connected(r, s1, Some(u)), s2, Some(u));
      && Get(r2.userSocket, u) == Some(s2)
      && Get(r2.socketToUser, s1) == Some(u)
      && Get(r2.socketToUser, s2) == Some(u)
  {
  }

  /** After such a reconnect, disconnecting the stale socket deletes the
      user's current forward entry: the user, still connected on `s2`, can no
      longer be found. */
  lemma StaleDisconnectUnbindsCurrent(r: Registry, u: UserId, s1: SocketId, s2: SocketId)
    requires u != "" && s1 != s2
    ensures var r3 := Disconnected(Connected(Connected(r, s1, Some(u)), s2, Some(u)), s1);
      && u !in r3.userSocket
      && Get(r3.socketToUser, s2) == Some(u)
      && s1 !in r3.socketToUser
  {
    ReconnectKeepsStaleReverse(r, u, s1, s2);
  }

  // ---------------------------------------------------------------------------
  // sendMessage

  /** The socket event both parties receive. */
  const ReceiveEvent := "recieveMessage"

  /** The `sendMessage` event's payload. */
  datatype Payload = Payload(
    sender: UserId,
    recipient: UserId,
    messageType: MessageType,
    content: Option<string>,
    fileUrl: Option<string>)

  /** The message re-read with `populate` on sender and recipient; a party
      without a user record populates to null. */
  datatype EnrichedMessage = EnrichedMessage(
    id: nat,
    sender: Option<Profile>,
    recipient: Option<Profile>,
    messageType: MessageType,
    content: Option<string>,
    fileUrl: Option<string>,
    timestamp: int)

  /** One `io.to(socket).emit(event, data)`. */
  datatype Emit = Emit(socket: SocketId, event: string, data: EnrichedMessage)

  /** `Message.create(message)`: the store assigns the next id and the time. */
  function Created(p: Payload, id: nat, now: int): Message
  {
    Message(id, p.sender, p.recipient, p.messageType, p.content, p.fileUrl, now)
  }

  function Populate(users: map<UserId, User>, id: UserId): Option<Profile>
  {
    if id in users then Some(ProfileOf(id, users[id])) else None
  }

  /** `findById(...).populate("sender", ...).populate("recipient", ...)`. */
  function Enrich(m: Message, users: map<UserId, User>): EnrichedMessage
  {
    EnrichedMessage(m.id, Populate(users, m.sender), Populate(users, m.recipient),
                    m.messageType, m.content, m.fileUrl, m.timestamp)
  }

  /** The emitted data is the stored message `messages[data.id]`. */
  ghost predicate Persisted(data: EnrichedMessage, messages: seq<Message>)
  {
    && data.id < |messages|
    && var m := messages[data.id];
    && m.messageType == data.messageType && m.content == data.content
    && m.fileUrl == data.fileUrl && m.timestamp == data.timestamp
    && (data.sender.Some? ==> data.sender.value.id == m.sender)
    && (data.recipient.Some? ==> data.recipient.value.id == m.recipient)
  }

  /** The emits for one message, given the sockets looked up for its
      recipient and sender: the recipient's first, then the sender's, each
      only when a socket was found. */
  function FanOut(recipientSocket: Option<SocketId>, senderSocket: Option<SocketId>, data: EnrichedMessage)
    : (emits: seq<Emit>)
    ensures |emits| == (if Truthy(recipientSocket) then 1 else 0) + (if Truthy(senderSocket) then 1 else 0)
    ensures forall e :: e in emits ==>
      e.event == ReceiveEvent && e.data == data
      && (Some(e.socket) == recipientSocket || Some(e.socket) == senderSocket)
    ensures Truthy(recipientSocket) ==> emits[0].socket == recipientSocket.value
    ensures Truthy(senderSocket) ==> emits[|emits| - 1].socket == senderSocket.value
  {
    (if Truthy(recipientSocket) then [Emit(recipientSocket.value, ReceiveEvent, data)] else [])
    + (if Truthy(senderSocket) then [Emit(senderSocket.value, ReceiveEvent, data)] else [])
  }

  /** The fan-out of `p` with the presence maps `r` as they stood at lookup. */
  function Delivery(r: Registry, p: Payload, data: EnrichedMessage): seq<Emit>
  {
    FanOut(Get(r.userSocket, p.recipient), Get(r.userSocket, p.sender), data)
  }

  /** Both parties online and distinct: exactly one emit to each, recipient first. */
  lemma DeliveryToBoth(r: Registry, p: Payload, data: EnrichedMessage)
    requires Wellformed(r)
    requires p.sender != p.recipient && p.sender in r.userSocket && p.recipient in r.userSocket
    ensures var cs, cr := r.userSocket[p.sender], r.userSocket[p.recipient];
      cs != cr && Delivery(r, p, data) == [Emit(cr, ReceiveEvent, data), Emit(cs, ReceiveEvent, data)]
  {
    NoSharedSocket(r, p.sender, p.recipient);
  }

  /** An offline recipient gets nothing; only the sender's socket, if any, is emitted to. */
  lemma DeliveryRecipientOffline(r: Registry, p: Payload, data: EnrichedMessage)
    requires Wellformed(r)
    requires p.recipient !in r.userSocket
    ensures Delivery(r, p, data) ==
      if p.sender in r.userSocket then [Emit(r.userSocket[p.sender], ReceiveEvent, data)] else []
  {
  }

  /** A message to oneself is emitted twice to the same socket. */
  lemma DeliveryToSelf(r: Registry, p: Payload, data: EnrichedMessage)
    requires Wellformed(r)
    requires p.sender == p.recipient && p.sender in r.userSocket
    ensures var s := r.userSocket[p.sender];
      Delivery(r, p, data) == [Emit(s, ReceiveEvent, data), Emit(s, ReceiveEvent, data)]
  {
  }

  /** A message created by `sendMessage` is part of the conversation between
      its two parties, which is returned oldest first. */
  lemma SentMessageInConversation(messages: seq<Message>, p: Payload, now: int)
    requires p.sender != "" && p.recipient != ""
    ensures var r := MessageController.GetMessages(Some(p.sender), Some(p.recipient), messages + [Created(p, |messages|, now)]);
      r.Ok? && Created(p, |messages|, now) in r.value
  {
    var m := Created(p, |messages|, now);
    assert m in messages + [m];
    assert MessageController.InConversation(m, p.sender, p.recipient);
  }

  // ---------------------------------------------------------------------------
  // The server

  class ChatServer {
    var userSocketMap: map<UserId, SocketId>
    var socketToUserMap: map<SocketId, UserId>
    /** The message collection; a message's id is its position. */
    var messages: seq<Message>
    /** Every emit issued so far, in order. */
    var outbox: seq<Emit>
    /** Every socket id that has connected so far. */
    ghost var sockets: set<SocketId>

    function Presence(): Registry
      reads this
    {
      Registry(userSocketMap, socketToUserMap)
    }

    ghost predicate Valid()
      reads this
    {
      && Wellformed(Presence())
      && socketToUserMap.Keys <= sockets
      && (forall i :: 0 <= i < |messages| ==> messages[i].id == i)
      && (forall e :: e in outbox ==> Persisted(e.data, messages))
    }

    constructor (stored: seq<Message>)
      requires forall i :: 0 <= i < |stored| ==> stored[i].id == i
      ensures Valid()
      ensures userSocketMap == map[] && socketToUserMap == map[]
      ensures messages == stored && outbox == [] && sockets == {}
    {
      userSocketMap := map[];
      socketToUserMap := map[];
      messages := stored;
      outbox := [];
      sockets := {};
    }

    /** `io.on("connection")` for a new socket with handshake query `userId`. */
    method Connect(socketId: SocketId, userId: Option<UserId>)
      requires Valid()
      requires socketId != "" && socketId !in sockets
      modifies this
      ensures Valid()
      ensures Presence() == Connected(old(Presence()), socketId, userId)
      ensures messages == old(messages) && outbox == old(outbox)
      ensures sockets == old(sockets) + {socketId}
    {
      ConnectKeepsWellformed(Presence(), socketId, userId);
      if Truthy(userId) {
        userSocketMap := userSocketMap[userId.value := socketId];
        socketToUserMap := socketToUserMap[socketId := userId.value];
      }
      sockets := sockets + {socketId};
    }

    /** The socket's `disconnect` handler. */
    method Disconnect(socketId: SocketId)
      requires Valid()
      modifies this
      ensures Valid()
      ensures Presence() == Disconnected(old(Presence()), socketId)
      ensures messages == old(messages) && outbox == old(outbox) && sockets == old(sockets)
    {
      DisconnectKeepsWellformed(Presence(), socketId);
      var userId := Get(socketToUserMap, socketId);
      if Truthy(userId) {
        userSocketMap := userSocketMap - {userId.value};
        socketToUserMap := socketToUserMap - {socketId};
      }
    }

    /** The `sendMessage` handler. Both sockets are looked up before the
        message is persisted. `createOk` and `readOk` say whether the store's
        create and the populated re-read succeed; `now` is the time the store
        stamps; `users` is the user collection the re-read joins. A failure
        is caught and logged: nothing is emitted. */
    method SendMessage(message: Payload, now: int, users: map<UserId, User>, createOk: bool, readOk: bool)
      requires Valid()
      modifies this
      ensures Valid()
      ensures Presence() == old(Presence()) && sockets == old(sockets)
      ensures messages == if createOk then old(messages) + [Created(message, |old(messages)|, now)] else old(messages)
      ensures outbox == if createOk && readOk
                        then old(outbox) + Delivery(old(Presence()), message, Enrich(messages[|old(messages)|], users))
                        else old(outbox)
    {
      var senderSocketId := Get(userSocketMap, message.sender);
      var recipientSocketId := Get(userSocketMap, message.recipient);

      if !createOk {
        return;
      }
      var createdMessage := Created(message, |messages|, now);
      messages := messages + [createdMessage];

      if !readOk {
        return;
      }
      var messageData := Enrich(messages[createdMessage.id], users);
      assert Persisted(messageData, messages);

      if Truthy(recipientSocketId) {
        outbox := outbox + [Emit(recipientSocketId.value, ReceiveEvent, messageData)];
      }
      if Truthy(senderSocketId) {
        outbox := outbox + [Emit(senderSocketId.value, ReceiveEvent, messageData)];
      }
    }
  }
}

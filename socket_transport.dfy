/** What the socket layer sends: events, who they are addressed to, and the notifier the
    HTTP controllers use (`initSocketIO` / `notificarUsuario`). Every emit is appended to an
    outbox; which live socket an emit reaches is the function `Reaches`. */
module SocketTransport {
  import opened Wrappers
  import opened Text
  import opened Domain
  import opened SocketChat

  /** `socket.emit` (the caller only), `socket.to(rooms)` (every socket in the rooms except
      the caller) and `io.to(rooms)` (every socket in the rooms). */
  datatype Target = ToSocket(socketId: nat) | ToRooms(rooms: set<Email>, except: Option<nat>)

  /** A live socket reached by `t`: each socket is in exactly the room of its user. */
  predicate Reaches(t: Target, socketId: nat, room: Email) {
    match t
    case ToSocket(id) => id == socketId
    case ToRooms(rooms, except) => room in rooms && except != Some(socketId)
  }

  /** `linkId` is a user key (a correo) or a numeric resource id, depending on the caller. */
  datatype LinkId = LinkText(text: string) | LinkNumber(number: nat)

  /** The `data` argument of `notificarUsuario`. */
  datatype NotificationData = NotificationData(
    tipo: string,
    actorName: Option<string>,
    actorUsername: string,
    actorAvatar: Option<string>,
    mensaje: string,
    linkId: LinkId)

  /** The "receive notification" payload in the front end's format. */
  datatype NotificationPayload = NotificationPayload(
    id: int,
    tipo: string,
    leido: bool,
    fecha: int,
    actorNombre: Option<string>,
    actorAvatar: string,
    actorUsername: string,
    previewMensaje: string,
    previewLinkId: LinkId,
    linkId: LinkId)

  const DefaultAvatar: string := "/img/angel.jpg"

  /** The payload built from `data` at time `now` (`Date.now()` is both the temporary id
      and the date). */
  function Envelope(data: NotificationData, now: int): (p: NotificationPayload)
    ensures !p.leido && p.id == now && p.fecha == now
    ensures p.tipo == data.tipo && p.actorNombre == data.actorName && p.actorUsername == data.actorUsername
    ensures p.previewMensaje == data.mensaje && p.previewLinkId == data.linkId && p.linkId == data.linkId
    ensures Truthy(data.actorAvatar) ==> p.actorAvatar == data.actorAvatar.value
    ensures !Truthy(data.actorAvatar) ==> p.actorAvatar == DefaultAvatar
  {
    NotificationPayload(now, data.tipo, false, now, data.actorName,
                        if Truthy(data.actorAvatar) then data.actorAvatar.value else DefaultAvatar,
                        data.actorUsername, data.mensaje, data.linkId, data.linkId)
  }

  /** A notification always carries a non-empty avatar, and the two link ids agree. */
  lemma EnvelopeAvatarNeverBlank(data: NotificationData, now: int)
    ensures Envelope(data, now).actorAvatar != []
    ensures Envelope(data, now).previewLinkId == Envelope(data, now).linkId
  {
  }

  datatype Event =
    | SessionEvent(sessionID: string, userID: Email, username: string)
    | UsersEvent(entries: seq<ChatEntry>)
    | UserConnected(userID: Email, username: string)
    | UserDisconnected(userID: Email)
    | ChatHistory(withUserID: Email, messages: seq<MessageView>)
    | ReceiveNotification(payload: NotificationPayload)
    | EchoNotification(data: string)
    | PrivateMessage(message: MessageView)
    | DisplayTyping(userID: Email)
    | HideTyping(userID: Email)
    | MessageReceived(byUserID: Email)
    | MessagesRead(byUserID: Email)

  datatype Emit = Emit(target: Target, event: Event)

  /** The emit of `notificarUsuario(userId, data)` to the user's private room. */
  function NotificationEmit(userId: Email, data: NotificationData, now: int): Emit {
    Emit(ToRooms({userId}, None), ReceiveNotification(Envelope(data, now)))
  }

  /** What `notificarUsuario` adds to the outbox: nothing when the server is not set. */
  function Notified(ready: bool, userId: Email, data: NotificationData, now: int): seq<Emit> {
    if ready then [NotificationEmit(userId, data, now)] else []
  }

  /** A notification reaches every socket of the addressed user and no other. */
  lemma NotificationReachesOnlyTheUser(userId: Email, data: NotificationData, now: int, socketId: nat, room: Email)
    ensures Reaches(NotificationEmit(userId, data, now).target, socketId, room) <==> room == userId
  {
  }

  /** The server's emits, in order, and whether the notifier has been given the server. */
  class Outbox {
    var ioReady: bool
    var sent: seq<Emit>

    constructor ()
      ensures !ioReady && sent == []
    {
      ioReady := false;
      sent := [];
    }

    /** `initSocketIO(server)`. */
    method InitSocketIO()
      modifies this
      ensures ioReady && sent == old(sent)
    {
      ioReady := true;
    }

    method Send(e: Emit)
      modifies this
      ensures ioReady == old(ioReady) && sent == old(sent) + [e]
    {
      sent := sent + [e];
    }

    /** `notificarUsuario(userId, data)`: silently nothing before `initSocketIO`. */
    method NotifyUser(userId: Email, data: NotificationData, now: int)
      modifies this
      ensures ioReady == old(ioReady)
      ensures sent == old(sent) + Notified(old(ioReady), userId, data, now)
    {
      if ioReady {
        sent := sent + [NotificationEmit(userId, data, now)];
      }
    }
  }
}

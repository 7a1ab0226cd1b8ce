/** The records the controllers read and write (the TypeORM entities), as values.
    Relations are stored by key: a user by `correo`, a publication by its id. */
module Domain {
  import opened Wrappers
  import opened Seqs

  /** A user's e-mail address, the primary key of the user table. */
  type Email = string

  /** `UserRole` ("admin", "user", "moderator"). */
  datatype UserRole = RoleAdmin | RoleUser | RoleModerator

  function RoleName(r: UserRole): string {
    match r
    case RoleAdmin => "admin"
    case RoleUser => "user"
    case RoleModerator => "moderator"
  }

  /** A password hash as produced by `Bun.password.hash`, as an injective stand-in: the
      salted digest is not modelled, only that `Bun.password.verify` accepts exactly the
      password that was hashed. */
  datatype Digest = Hashed(secret: string)

  function Hash(password: string): Digest {
    Hashed(password)
  }

  /** `Bun.password.verify(password, digest)`. */
  predicate VerifyPassword(password: string, digest: Digest) {
    digest == Hash(password)
  }

  datatype User = User(
    correo: Email,
    username: string,
    password: Digest,
    nombreCompleto: string,
    fotoUrl: Option<string>,
    role: UserRole,
    privacityMode: bool)

  /** `FriendRequestState` (PENDING, FRIEND, REJECTED, LOCKED). */
  datatype FriendRequestState = Pending | Friend | Rejected | Locked

  /** A friendship edge (`Amigo`): directed from the requesting user to the receiving one. */
  datatype Amigo = Amigo(
    id: nat,
    requesting: Email,
    receiving: Email,
    status: FriendRequestState,
    fechaAmistad: Option<int>)

  /** `MessageStatus`: ENVIADO (0), RECIBIDO (1), LEIDO (2). */
  type MessageStatus = s: int | 0 <= s <= 2
  const Enviado: MessageStatus := 0
  const Recibido: MessageStatus := 1
  const Leido: MessageStatus := 2

  /** A chat message (`Mensaje`); `hora` is `horaMensaje` in milliseconds. */
  datatype Mensaje = Mensaje(
    id: nat,
    text: string,
    emisor: Email,
    receptor: Email,
    hora: int,
    status: MessageStatus)

  /** `NotificationType`. */
  datatype NotificationType =
    FriendRequestNotice | PostNotice | CommentNotice | ReportNotice | FriendAcceptedNotice | FriendRejectedNotice

  /** The string value of each notification type. */
  function TypeName(t: NotificationType): string {
    match t
    case FriendRequestNotice => "friend_request"
    case PostNotice => "new_post"
    case CommentNotice => "comment"
    case ReportNotice => "report"
    case FriendAcceptedNotice => "friend_accepted"
    case FriendRejectedNotice => "friend_rejected"
  }

  /** A stored notification (`Notificacion`). */
  datatype Notificacion = Notificacion(
    kind: NotificationType,
    isRead: bool,
    emisor: Email,
    receptor: Email,
    resourceId: nat,
    previewText: string)

  /** A shared itinerary (`Publicacion`). `states` are the `mexican_state` values of the
      places of its itinerary's activities; `rating` is its average review score, which the
      feed only uses to order publications. */
  datatype Publicacion = Publicacion(
    id: nat,
    owner: Email,
    descripcion: string,
    privacityMode: bool,
    states: seq<string>,
    rating: int)

  datatype Foto = Foto(url: string, publicacionId: nat)

  /** A review (`Resena`) of a publication. */
  datatype Resena = Resena(
    id: nat,
    publicacionId: nat,
    author: Email,
    score: int,
    commentario: Option<string>)

  /** A report (`Reporte`) of a publication, by the user `reporter`, and a history entry
      (`History`) attached to a report. */
  datatype Reporte = Reporte(id: nat, description: string, publicacionId: nat, reporter: Email)
  datatype History = History(reporteId: nat, actionDescription: string)

  /** A place (`Lugar`), keyed by `id_api_place`. */
  datatype Lugar = Lugar(id: string, category: string, mexicanState: string, nombre: string)

  datatype Actividad = Actividad(fecha: Option<string>, lugarId: string)

  datatype Itinerario = Itinerario(id: nat, title: string, owner: Email, actividades: seq<Actividad>)

  /** A user's questionnaire answers (`Preferencias`); only the visited states are used. */
  datatype Preferencias = Preferencias(correo: Email, estadosVisitados: Option<seq<string>>)

  /** The identity a verified token carries (`Payload`). */
  datatype Payload = Payload(correo: Email, username: string, role: string)

  /** `correo` is the primary key of the user table: no two rows share it. */
  predicate UniqueCorreos(users: seq<User>) {
    forall i, j :: 0 <= i < j < |users| ==> users[i].correo != users[j].correo
  }

  function CorreoOf(u: User): Email {
    u.correo
  }

  lemma UniqueCorreosAsKeys(users: seq<User>)
    ensures UniqueCorreos(users) <==> KeysDistinct(users, CorreoOf)
  {
  }

  /** `findOneBy({ correo })` on the user table: the first user with that address. */
  function FindByCorreo(users: seq<User>, correo: Email): (r: Option<User>)
    ensures r.Some? ==> r.value in users && r.value.correo == correo
    ensures r.None? <==> forall u :: u in users ==> u.correo != correo
  {
    if users == [] then None
    else if users[0].correo == correo then Some(users[0])
    else FindByCorreo(users[1..], correo)
  }

  /** `users[i]` is the first user named `username`. */
  predicate FirstNamed(users: seq<User>, username: string, i: int) {
    0 <= i < |users| && users[i].username == username &&
    forall j :: 0 <= j < i ==> users[j].username != username
  }

  /** `users[i]` is the first user whose address or user name is `key`. */
  predicate FirstKeyed(users: seq<User>, key: string, i: int) {
    0 <= i < |users| && (users[i].correo == key || users[i].username == key) &&
    forall j :: 0 <= j < i ==> users[j].correo != key && users[j].username != key
  }

  /** Past a first user that does not match, first matches move down by one. */
  lemma FirstNamedShift(users: seq<User>, username: string)
    requires users != [] && users[0].username != username
    ensures forall i :: FirstNamed(users, username, i) <==> i > 0 && FirstNamed(users[1..], username, i - 1)
  {
    forall i ensures FirstNamed(users, username, i) <==> i > 0 && FirstNamed(users[1..], username, i - 1) {
      if i > 0 {
        assert forall j :: 0 < j <= i && j < |users| ==> users[j] == users[1..][j - 1];
      }
    }
  }

  lemma FirstKeyedShift(users: seq<User>, key: string)
    requires users != [] && users[0].correo != key && users[0].username != key
    ensures forall i :: FirstKeyed(users, key, i) <==> i > 0 && FirstKeyed(users[1..], key, i - 1)
  {
    forall i ensures FirstKeyed(users, key, i) <==> i > 0 && FirstKeyed(users[1..], key, i - 1) {
      if i > 0 {
        assert forall j :: 0 < j <= i && j < |users| ==> users[j] == users[1..][j - 1];
      }
    }
  }

  /** `findOneBy({ username })` on the user table: the first user with that name (the
      column is not unique, so there may be several). */
  function FindByUsername(users: seq<User>, username: string): (r: Option<User>)
    ensures r.Some? ==> r.value in users && r.value.username == username
    ensures r.None? <==> forall u :: u in users ==> u.username != username
    ensures forall i :: FirstNamed(users, username, i) ==> r == Some(users[i])
    ensures r.Some? ==> exists i :: FirstNamed(users, username, i) && r.value == users[i]
  {
    if users == [] then None
    else if users[0].username == username then
      assert FirstNamed(users, username, 0);
      Some(users[0])
    else
      FirstNamedShift(users, username);
      FindByUsername(users[1..], username)
  }

  /** `findOne({ where: [{ correo: key }, { username: key }] })`: the first user whose
      address or user name is `key`. */
  function FindByCorreoOrUsername(users: seq<User>, key: string): (r: Option<User>)
    ensures r.Some? ==> r.value in users && (r.value.correo == key || r.value.username == key)
    ensures r.None? <==> forall u :: u in users ==> u.correo != key && u.username != key
    ensures forall i :: FirstKeyed(users, key, i) ==> r == Some(users[i])
    ensures r.Some? ==> exists i :: FirstKeyed(users, key, i) && r.value == users[i]
  {
    if users == [] then None
    else if users[0].correo == key || users[0].username == key then
      assert FirstKeyed(users, key, 0);
      Some(users[0])
    else
      FirstKeyedShift(users, key);
      FindByCorreoOrUsername(users[1..], key)
  }
}

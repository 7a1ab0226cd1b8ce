/** The friendship controller (`AmigoController`): a table of directed edges
    `requesting -> receiving` with a status, the user table it resolves names against, the
    notifications it stores, and the transitions send, cancel, respond, remove, block and
    unblock. */
module Friendship {
  import opened Wrappers
  import opened Text
  import opened Seqs
  import opened Domain
  import opened SocketChat
  import opened SocketTransport

  /** One object of a TypeORM `where` array over the edge table: an absent end matches any user. */
  datatype EdgeFilter = EdgeFilter(requesting: Option<Email>, receiving: Option<Email>, status: FriendRequestState)

  predicate Matches(e: Amigo, f: EdgeFilter) {
    (f.requesting.None? || e.requesting == f.requesting.value) &&
    (f.receiving.None? || e.receiving == f.receiving.value) &&
    e.status == f.status
  }

  /** A `where` array matches when any of its objects does. */
  predicate MatchesAny(e: Amigo, fs: seq<EdgeFilter>) {
    exists f :: f in fs && Matches(e, f)
  }

  /** `e` connects `a` and `b` in either direction. */
  predicate Joins(e: Amigo, a: Email, b: Email) {
    (e.requesting == a && e.receiving == b) || (e.requesting == b && e.receiving == a)
  }

  /** `e` has `a` at either end. */
  predicate Touches(e: Amigo, a: Email) {
    e.requesting == a || e.receiving == a
  }

  /** `friend(a, b?, status = FRIEND)`: with a (truthy) `b`, both orientations of the pair;
      without one, every edge with `a` at either end; always with the given status. */
  function FriendFilter(a: Email, b: Option<Email>, s: FriendRequestState := Friend): (r: seq<EdgeFilter>)
    ensures |r| == 2
    ensures Truthy(b) ==> forall e :: MatchesAny(e, r) <==> e.status == s && Joins(e, a, b.value)
    ensures !Truthy(b) ==> forall e :: MatchesAny(e, r) <==> e.status == s && Touches(e, a)
  {
    var r := if Truthy(b) then [EdgeFilter(Some(a), Some(b.value), s), EdgeFilter(Some(b.value), Some(a), s)]
             else [EdgeFilter(Some(a), None, s), EdgeFilter(None, Some(a), s)];
    assert forall e :: MatchesAny(e, r) <==> Matches(e, r[0]) || Matches(e, r[1]) by {
      forall e ensures MatchesAny(e, r) <==> Matches(e, r[0]) || Matches(e, r[1]) {
        if MatchesAny(e, r) {
          var f :| f in r && Matches(e, f);
        }
      }
    }
    r
  }

  /** An empty second user is falsy: `friend(a, "")` is `friend(a)`, so a raw empty name
      matches every edge of `a`. */
  lemma EmptyNameWidensFilter(a: Email, s: FriendRequestState, e: Amigo)
    ensures MatchesAny(e, FriendFilter(a, Some(""), s)) <==> MatchesAny(e, FriendFilter(a, None, s))
  {
  }

  /** `findOne({ where })`: the first edge in table order that matches. */
  function FirstMatch(edges: seq<Amigo>, fs: seq<EdgeFilter>): (r: Option<nat>)
    ensures r.Some? ==> r.value < |edges| && MatchesAny(edges[r.value], fs)
    ensures r.Some? ==> forall j :: 0 <= j < r.value ==> !MatchesAny(edges[j], fs)
    ensures r.None? <==> forall e :: e in edges ==> !MatchesAny(e, fs)
  {
    if edges == [] then None
    else if MatchesAny(edges[0], fs) then Some(0)
    else
      var rest := FirstMatch(edges[1..], fs);
      assert forall e :: e in edges ==> e == edges[0] || e in edges[1..];
      if rest.Some? then Some(rest.value + 1) else None
  }

  /** `findOne({ where: { id } })`. */
  function FindById(edges: seq<Amigo>, id: nat): (r: Option<nat>)
    ensures r.Some? ==> r.value < |edges| && edges[r.value].id == id
    ensures r.None? <==> forall e :: e in edges ==> e.id != id
  {
    if edges == [] then None
    else if edges[0].id == id then Some(0)
    else
      var rest := FindById(edges[1..], id);
      if rest.Some? then Some(rest.value + 1) else None
  }

  /** Some edge goes from `a` to `b`, whatever its status. */
  predicate HasDirected(edges: seq<Amigo>, a: Email, b: Email) {
    exists e :: e in edges && e.requesting == a && e.receiving == b
  }

  /** The user name of the user stored under address `c`. */
  function NameAt(users: seq<User>, c: Email): (r: Option<string>)
    ensures r.Some? <==> exists u :: u in users && u.correo == c
  {
    match FindByCorreo(users, c)
    case None => None
    case Some(u) => Some(u.username)
  }

  /** Some edge goes from a user named `a` to a user named `b`, whatever its status: the
      earlier-request lookup of `sendRequest`, which joins both ends of each edge and
      compares their user names. */
  predicate HasDirectedByName(users: seq<User>, edges: seq<Amigo>, a: string, b: string) {
    exists e :: e in edges && NameAt(users, e.requesting) == Some(a) && NameAt(users, e.receiving) == Some(b)
  }

  /** No two users share a user name (the table does not enforce it). */
  predicate UniqueUsernames(users: seq<User>) {
    forall i, j :: 0 <= i < j < |users| ==> users[i].username != users[j].username
  }

  lemma SameNameSameUser(users: seq<User>, x: User, y: User)
    requires UniqueUsernames(users) && x in users && y in users && x.username == y.username
    ensures x == y
  {
    var i :| 0 <= i < |users| && users[i] == x;
    var j :| 0 <= j < |users| && users[j] == y;
  }

  lemma SameCorreoSameUser(users: seq<User>, x: User, y: User)
    requires UniqueCorreos(users) && x in users && y in users && x.correo == y.correo
    ensures x == y
  {
    var i :| 0 <= i < |users| && users[i] == x;
    var j :| 0 <= j < |users| && users[j] == y;
  }

  /** When user names are unique, the lookup by user name finds exactly the edges from
      one user to the other. */
  lemma ByNameIsByAddress(users: seq<User>, edges: seq<Amigo>, su: User, ru: User)
    requires UniqueCorreos(users) && UniqueUsernames(users) && su in users && ru in users
    ensures HasDirectedByName(users, edges, su.username, ru.username) <==> HasDirected(edges, su.correo, ru.correo)
  {
    if HasDirectedByName(users, edges, su.username, ru.username) {
      var e :| e in edges && NameAt(users, e.requesting) == Some(su.username) && NameAt(users, e.receiving) == Some(ru.username);
      SameNameSameUser(users, FindByCorreo(users, e.requesting).value, su);
      SameNameSameUser(users, FindByCorreo(users, e.receiving).value, ru);
    }
    if HasDirected(edges, su.correo, ru.correo) {
      var e :| e in edges && e.requesting == su.correo && e.receiving == ru.correo;
      SameCorreoSameUser(users, FindByCorreo(users, su.correo).value, su);
      SameCorreoSameUser(users, FindByCorreo(users, ru.correo).value, ru);
    }
  }

  /** A user who shares a user name with someone else inherits that user's requests: with
      an edge from the namesake `o` to `b`, a request from `a` to `b` is refused although
      no edge goes from `a` to `b`. */
  lemma NamesakeRequestRefused()
    ensures var a := User("a", "ana", Hashed("pw"), "Ana", None, RoleUser, false);
      var b := User("b", "bea", Hashed("pw"), "Bea", None, RoleUser, false);
      var o := User("o", "ana", Hashed("pw"), "Otra", None, RoleUser, false);
      var edge := Amigo(0, "o", "b", Pending, None);
      !HasDirected([edge], "a", "b") &&
      SendRequestCheck([a, b, o], [edge], "a", "b") == Err(BadRequest)
  {
    var a := User("a", "ana", Hashed("pw"), "Ana", None, RoleUser, false);
    var b := User("b", "bea", Hashed("pw"), "Bea", None, RoleUser, false);
    var o := User("o", "ana", Hashed("pw"), "Otra", None, RoleUser, false);
    var users := [a, b, o];
    var edge := Amigo(0, "o", "b", Pending, None);
    NamesakeLookups(a, b, o);
    NamesakeEdge(users, edge, o, b);
    EarlierRequestRefuses(users, [edge], "a", "b");
  }

  lemma NamesakeLookups(a: User, b: User, o: User)
    requires a.correo == "a" && a.username == "ana" && b.correo == "b" && b.username == "bea"
    requires o.correo == "o"
    ensures FindByCorreoOrUsername([a, b, o], "a") == Some(a)
    ensures FindByCorreoOrUsername([a, b, o], "b") == Some(b)
    ensures FindByCorreo([a, b, o], "b") == Some(b)
    ensures FindByCorreo([a, b, o], "o") == Some(o)
  {
    assert [a, b, o][1..] == [b, o] && [a, b, o][2..] == [o];
  }

  /** An earlier request between the two user names refuses the new one. */
  lemma EarlierRequestRefuses(users: seq<User>, edges: seq<Amigo>, sender: string, receiving: string)
    requires sender != receiving
    requires FindByCorreoOrUsername(users, sender).Some? && FindByCorreoOrUsername(users, receiving).Some?
    requires HasDirectedByName(users, edges, FindByCorreoOrUsername(users, sender).value.username,
                               FindByCorreoOrUsername(users, receiving).value.username)
    ensures SendRequestCheck(users, edges, sender, receiving) == Err(BadRequest)
  {
  }

  lemma NamesakeEdge(users: seq<User>, edge: Amigo, otra: User, bea: User)
    requires FindByCorreo(users, otra.correo) == Some(otra) && FindByCorreo(users, bea.correo) == Some(bea)
    requires edge.requesting == otra.correo && edge.receiving == bea.correo
    ensures HasDirectedByName(users, [edge], otra.username, bea.username)
  {
    assert edge in [edge];
  }

  /** Some FRIEND edge joins `a` and `b`. */
  predicate AreFriends(edges: seq<Amigo>, a: Email, b: Email) {
    exists e :: e in edges && e.status == Friend && Joins(e, a, b)
  }

  /** Some edge matches the `where` array. */
  predicate HasMatch(edges: seq<Amigo>, fs: seq<EdgeFilter>) {
    exists e :: e in edges && MatchesAny(e, fs)
  }

  /** For a non-empty second address, the friendship test of `sendRequest` is exactly "some
      FRIEND edge joins the two". */
  lemma FriendshipTest(edges: seq<Amigo>, a: Email, b: Email)
    requires b != []
    ensures HasMatch(edges, FriendFilter(a, Some(b))) <==> AreFriends(edges, a, b)
  {
    if HasMatch(edges, FriendFilter(a, Some(b))) {
      var e :| e in edges && MatchesAny(e, FriendFilter(a, Some(b)));
    }
    if AreFriends(edges, a, b) {
      var e :| e in edges && e.status == Friend && Joins(e, a, b);
      assert MatchesAny(e, FriendFilter(a, Some(b)));
    }
  }

  /** The guards of `sendRequest` as written: the self test compares the two raw arguments
      before they are resolved, so a user's address and the same user's username pass it. */
  function SendRequestCheckAsWritten(users: seq<User>, edges: seq<Amigo>, sender: string, receiving: string): (r: Result<(User, User)>)
    ensures r.Ok? ==> r.value.0 in users && r.value.1 in users
  {
    if sender == receiving then Err(BadRequest)
    else
      var su := FindByCorreoOrUsername(users, sender);
      var ru := FindByCorreoOrUsername(users, receiving);
      if su.None? || ru.None? then Err(NotFound)
      else if HasDirectedByName(users, edges, su.value.username, ru.value.username) then Err(BadRequest)
      else if FirstMatch(edges, FriendFilter(su.value.correo, Some(ru.value.correo))).Some? then Err(BadRequest)
      else Ok((su.value, ru.value))
  }

  /** With only one user stored, asking by address to befriend the same user's username
      passes every guard of the code as written. */
  lemma SelfRequestPassesAsWritten()
    ensures var ana := User("ana@mail.mx", "ana", Hashed("pw"), "Ana", None, RoleUser, false);
      SendRequestCheckAsWritten([ana], [], "ana@mail.mx", "ana") == Ok((ana, ana))
  {
    var ana := User("ana@mail.mx", "ana", Hashed("pw"), "Ana", None, RoleUser, false);
    assert FindByCorreoOrUsername([ana], "ana@mail.mx") == Some(ana);
    assert FindByCorreoOrUsername([ana], "ana") == Some(ana);
  }

  /** The guards of `sendRequest`, with the self test also applied to the resolved users. */
  function SendRequestCheck(users: seq<User>, edges: seq<Amigo>, sender: string, receiving: string): (r: Result<(User, User)>)
    ensures sender == receiving ==> r == Err(BadRequest)
    ensures (sender != receiving &&
             (FindByCorreoOrUsername(users, sender).None? || FindByCorreoOrUsername(users, receiving).None?)) ==>
            r == Err(NotFound)
    ensures r.Err? ==> r.status == BadRequest || r.status == NotFound
    ensures r.Ok? ==> r.value.0 == FindByCorreoOrUsername(users, sender).value &&
                      r.value.1 == FindByCorreoOrUsername(users, receiving).value
    ensures r.Ok? <==>
      sender != receiving &&
      FindByCorreoOrUsername(users, sender).Some? && FindByCorreoOrUsername(users, receiving).Some? &&
      var a := FindByCorreoOrUsername(users, sender).value.correo;
      var b := FindByCorreoOrUsername(users, receiving).value.correo;
      a != b &&
      !HasDirectedByName(users, edges, FindByCorreoOrUsername(users, sender).value.username,
                         FindByCorreoOrUsername(users, receiving).value.username) &&
      !HasMatch(edges, FriendFilter(a, Some(b)))
  {
    if sender == receiving then Err(BadRequest)
    else
      var su := FindByCorreoOrUsername(users, sender);
      var ru := FindByCorreoOrUsername(users, receiving);
      if su.None? || ru.None? then Err(NotFound)
      else if su.value.correo == ru.value.correo then Err(BadRequest)
      else if HasDirectedByName(users, edges, su.value.username, ru.value.username) then Err(BadRequest)
      else
        var m := FirstMatch(edges, FriendFilter(su.value.correo, Some(ru.value.correo)));
        if m.Some? then
          assert edges[m.value] in edges;
          Err(BadRequest)
        else Ok((su.value, ru.value))
  }

  /** The corrected guards refuse the same request with 400. */
  lemma SelfRequestRefused()
    ensures var ana := User("ana@mail.mx", "ana", Hashed("pw"), "Ana", None, RoleUser, false);
      SendRequestCheck([ana], [], "ana@mail.mx", "ana") == Err(BadRequest)
  {
    var ana := User("ana@mail.mx", "ana", Hashed("pw"), "Ana", None, RoleUser, false);
    assert FindByCorreoOrUsername([ana], "ana@mail.mx") == Some(ana);
    assert FindByCorreoOrUsername([ana], "ana") == Some(ana);
  }

  /** Where the raw arguments already name different users, the two versions agree. */
  lemma SendRequestChecksAgree(users: seq<User>, edges: seq<Amigo>, sender: string, receiving: string)
    requires FindByCorreoOrUsername(users, sender).Some? && FindByCorreoOrUsername(users, receiving).Some?
    requires FindByCorreoOrUsername(users, sender).value.correo != FindByCorreoOrUsername(users, receiving).value.correo
    ensures SendRequestCheck(users, edges, sender, receiving) == SendRequestCheckAsWritten(users, edges, sender, receiving)
  {
  }

  /** The route's mapping of the requested state: 1 accepts, 2 rejects, anything else is a
      plain error (500). */
  datatype ResponseAction = Accept | Reject

  function ActionOfState(state: int): (r: Result<ResponseAction>)
    ensures r == Ok(Accept) <==> state == 1
    ensures r == Ok(Reject) <==> state == 2
    ensures r.Err? ==> r.status == InternalError
  {
    if state == 1 then Ok(Accept) else if state == 2 then Ok(Reject) else Err(InternalError)
  }

  /** The public fields of a user that `listBlock` and `getFriendsOfFriends` return. */
  datatype UserCard = UserCard(username: string, nombreCompleto: string, correo: Email, fotoUrl: Option<string>)

  function CardOf(users: seq<User>, correo: Email): UserCard
    requires FindByCorreo(users, correo).Some?
  {
    var u := FindByCorreo(users, correo).value;
    UserCard(u.username, u.nombreCompleto, u.correo, u.fotoUrl)
  }

  /** The correos of `me`'s direct friends (`correosAmigosDirectos`), one per FRIEND edge. */
  function DirectFriends(edges: seq<Amigo>, me: Email): (r: seq<Email>)
    ensures forall x :: x in r <==> IsFriend(edges, me, x)
  {
    if edges == [] then []
    else
      var rest := DirectFriends(edges[1..], me);
      assert forall e :: e in edges <==> e == edges[0] || e in edges[1..];
      if FriendEdgeOf(edges[0], me) then [Counterpart(edges[0], me)] + rest else rest
  }

  /** `x` is suggested to `me`: not `me`, not a direct friend, and at the other end of a
      FRIEND edge from one of `me`'s direct friends. */
  predicate IsSuggestion(edges: seq<Amigo>, me: Email, x: Email) {
    x != me && !IsFriend(edges, me, x) &&
    exists e :: e in edges && SuggestsVia(edges, me, e, x)
  }

  /** The FRIEND edge `e` leads from a direct friend of `me` to `x` (either orientation). */
  predicate SuggestsVia(edges: seq<Amigo>, me: Email, e: Amigo, x: Email) {
    e.status == Friend &&
    ((IsFriend(edges, me, e.requesting) && e.receiving == x) || (IsFriend(edges, me, e.receiving) && e.requesting == x))
  }

  /** The two `sugerenciasMap.set` tests for one edge of `amigosDeAmigos`. */
  predicate SetsRequesting(direct: seq<Email>, me: Email, e: Amigo) {
    e.receiving in direct && e.requesting != me && e.requesting !in direct
  }

  predicate SetsReceiving(direct: seq<Email>, me: Email, e: Amigo) {
    e.requesting in direct && e.receiving != me && e.receiving !in direct
  }

  /** One more edge in front adds the user at its far end when it is a FRIEND edge of
      `correo`. */
  lemma FriendUsersCons(users: seq<User>, es: seq<Amigo>, correo: Email, rest: seq<User>, r: seq<User>)
    requires es != [] && Registered(users, es)
    requires forall u :: u in rest <==>
      (u in users &&
       exists e :: e in es[1..] && FriendEdgeOf(e, correo) && Counterpart(e, correo) == u.correo && u == FindByCorreo(users, u.correo).value)
    requires r == if FriendEdgeOf(es[0], correo) then [FindByCorreo(users, Counterpart(es[0], correo)).value] + rest else rest
    ensures forall u :: u in r <==>
      (u in users &&
       exists e :: e in es && FriendEdgeOf(e, correo) && Counterpart(e, correo) == u.correo && u == FindByCorreo(users, u.correo).value)
  {
    assert forall e :: e in es <==> e == es[0] || e in es[1..];
    if FriendEdgeOf(es[0], correo) {
      assert es[0] in es;
      var c := Counterpart(es[0], correo);
      assert FindByCorreo(users, c).Some?;
    }
  }

  /** A new edge between two users, with a fresh id, keeps the edge table valid. */
  lemma EdgeAppended(users: seq<User>, edges: seq<Amigo>, e: Amigo, nextId: nat)
    requires Registered(users, edges) && forall x :: x in edges ==> x.id < nextId
    requires FindByCorreo(users, e.requesting).Some? && FindByCorreo(users, e.receiving).Some? && e.id == nextId
    ensures Registered(users, edges + [e]) && forall x :: x in edges + [e] ==> x.id < nextId + 1
  {
    assert forall x :: x in edges + [e] <==> x in edges || x == e;
  }

  /** Changing an edge's status or date keeps the edge table valid. */
  lemma EdgeReplaced(users: seq<User>, edges: seq<Amigo>, k: nat, e: Amigo, nextId: nat)
    requires Registered(users, edges) && forall x :: x in edges ==> x.id < nextId
    requires k < |edges| && e.requesting == edges[k].requesting && e.receiving == edges[k].receiving && e.id == edges[k].id
    ensures Registered(users, edges[k := e]) && forall x :: x in edges[k := e] ==> x.id < nextId
  {
    assert edges[k] in edges;
    forall x | x in edges[k := e] ensures x in edges || x == e {
      var j :| 0 <= j < |edges[k := e]| && edges[k := e][j] == x;
      if j != k { assert edges[j] == x; }
    }
  }

  /** The preview and message texts of the two friendship notifications. */
  const RequestText: string := "te ha enviado una solicitud de amistad"
  const AcceptedText: string := "ha aceptado tu solicitud de amistad"

  /** The edge after `respondRequest`: FRIEND with the friendship date, or REJECTED. */
  function Responded(e: Amigo, action: ResponseAction, now: int): (r: Amigo)
    ensures r.id == e.id && r.requesting == e.requesting && r.receiving == e.receiving
    ensures action == Accept ==> r.status == Friend && r.fechaAmistad == Some(now)
    ensures action != Accept ==> r.status == Rejected && r.fechaAmistad == e.fechaAmistad
  {
    if action == Accept then e.(status := Friend, fechaAmistad := Some(now)) else e.(status := Rejected)
  }

  /** The FRIEND_ACCEPTED push: the accepting user as actor, the edge id as link. */
  function AcceptedData(receiver: User, edgeId: nat): NotificationData {
    NotificationData("FRIEND_ACCEPTED", Some(receiver.nombreCompleto), receiver.username, receiver.fotoUrl,
                     AcceptedText, LinkNumber(edgeId))
  }

  class AmigoController {
    var edges: seq<Amigo>
    var users: seq<User>
    var notifications: seq<Notificacion>
    var nextId: nat
    const outbox: Outbox

    /** Edge endpoints are users and every edge id was issued before. */
    ghost predicate Valid()
      reads this
    {
      Registered(users, edges) && forall e :: e in edges ==> e.id < nextId
    }

    constructor (users: seq<User>, outbox: Outbox)
      ensures Valid()
      ensures this.users == users && edges == [] && notifications == [] && this.outbox == outbox
    {
      this.users := users;
      this.outbox := outbox;
      edges := [];
      notifications := [];
      nextId := 0;
    }

    /** `sendRequest(sender, receiving)`: on success exactly one PENDING edge
        sender -> receiving is added, a FRIEND_REQUEST notification is stored for the
        receiver and pushed to the receiver's room. */
    method SendRequest(sender: string, receiving: string, now: int) returns (r: Result<Amigo>)
      requires Valid()
      modifies this, outbox
      ensures Valid()
      ensures users == old(users) && outbox.ioReady == old(outbox.ioReady)
      ensures var c := SendRequestCheck(old(users), old(edges), sender, receiving);
        if c.Err? then
          r == Err(c.status) && edges == old(edges) && notifications == old(notifications) && outbox.sent == old(outbox.sent)
        else
          var su := c.value.0;
          var ru := c.value.1;
          r == Ok(Amigo(old(nextId), su.correo, ru.correo, Pending, None)) &&
          edges == old(edges) + [r.value] &&
          notifications == old(notifications) +
            [Notificacion(FriendRequestNotice, false, su.correo, ru.correo, r.value.id, RequestText)] &&
          outbox.sent == old(outbox.sent) + Notified(old(outbox.ioReady), ru.correo,
            NotificationData("FRIEND_REQUEST", Some(su.username), su.correo, None,
                             RequestText, LinkText(su.correo)), now)
    {
      var c := SendRequestCheck(users, edges, sender, receiving);
      if c.Err? {
        return Err(c.status);
      }
      var su := c.value.0;
      var ru := c.value.1;
      var edge := Amigo(nextId, su.correo, ru.correo, Pending, None);
      EdgeAppended(users, edges, edge, nextId);
      edges := edges + [edge];
      nextId := nextId + 1;
      Notify(Notificacion(FriendRequestNotice, false, su.correo, ru.correo, edge.id, RequestText), ru.correo,
             NotificationData("FRIEND_REQUEST", Some(su.username), su.correo, None, RequestText, LinkText(su.correo)), now);
      r := Ok(edge);
    }

    /** Stores notification `n` and pushes `data` to the room of `to` (`notificarUsuario`). */
    method Notify(n: Notificacion, to: Email, data: NotificationData, now: int)
      requires Valid()
      modifies this, outbox
      ensures Valid()
      ensures edges == old(edges) && users == old(users) && nextId == old(nextId)
      ensures notifications == old(notifications) + [n]
      ensures outbox.ioReady == old(outbox.ioReady)
      ensures outbox.sent == old(outbox.sent) + Notified(old(outbox.ioReady), to, data, now)
    {
      notifications := notifications + [n];
      outbox.NotifyUser(to, data, now);
    }

    /** `cancelRequest(sender, receiving)`: removes the first PENDING edge between the two
        users, in either direction. */
    method CancelRequest(sender: string, receiving: string) returns (r: Result<Amigo>)
      requires Valid()
      modifies this
      ensures Valid()
      ensures users == old(users) && notifications == old(notifications) && nextId == old(nextId)
      ensures var su := FindByCorreoOrUsername(old(users), sender);
              var ru := FindByCorreoOrUsername(old(users), receiving);
        if su.None? || ru.None? then r == Err(NotFound) && edges == old(edges)
        else
          var k := FirstMatch(old(edges), FriendFilter(su.value.correo, Some(ru.value.correo), Pending));
          if k.None? then r == Err(NotFound) && edges == old(edges)
          else r == Ok(old(edges)[k.value]) && edges == RemoveAt(old(edges), k.value)
    {
      var su := FindByCorreoOrUsername(users, sender);
      var ru := FindByCorreoOrUsername(users, receiving);
      if su.None? || ru.None? {
        return Err(NotFound);
      }
      var k := FirstMatch(edges, FriendFilter(su.value.correo, Some(ru.value.correo), Pending));
      if k.None? {
        return Err(NotFound);
      }
      r := Ok(edges[k.value]);
      edges := RemoveAt(edges, k.value);
    }

    /** `respondRequest(id, action)`: FRIEND stamps the friendship date, anything else marks
        the edge REJECTED. Neither the caller nor the current status is checked, and the
        FRIEND_ACCEPTED notice goes to the requester in both cases. */
    method RespondRequest(requestId: nat, action: ResponseAction, now: int) returns (r: Result<Amigo>)
      requires Valid()
      modifies this, outbox
      ensures Valid()
      ensures users == old(users) && nextId == old(nextId) && outbox.ioReady == old(outbox.ioReady)
      ensures var k := FindById(old(edges), requestId);
        if k.None? then
          r == Err(NotFound) && edges == old(edges) && notifications == old(notifications) && outbox.sent == old(outbox.sent)
        else
          var e := old(edges)[k.value];
          var updated := Responded(e, action, now);
          r == Ok(updated) && edges == old(edges)[k.value := updated] &&
          notifications == old(notifications) +
            [Notificacion(FriendAcceptedNotice, false, e.receiving, e.requesting, e.id, AcceptedText)] &&
          outbox.sent == old(outbox.sent) +
            Notified(old(outbox.ioReady), e.requesting, AcceptedData(FindByCorreo(users, e.receiving).value, e.id), now)
    {
      var k := FindById(edges, requestId);
      if k.None? {
        return Err(NotFound);
      }
      var e := edges[k.value];
      assert e in edges;
      var updated := Responded(e, action, now);
      EdgeReplaced(users, edges, k.value, updated, nextId);
      Notify(Notificacion(FriendAcceptedNotice, false, e.receiving, e.requesting, e.id, AcceptedText), e.requesting,
             AcceptedData(FindByCorreo(users, e.receiving).value, e.id), now);
      edges := edges[k.value := updated];
      r := Ok(updated);
    }

    /** `listRequest(correo)`: the PENDING edges received by `correo`; 400 when there are none. */
    function ListRequest(correo: Email): (r: Result<seq<Amigo>>)
      reads this
      ensures r.Err? <==> forall e :: e in edges ==> !(e.receiving == correo && e.status == Pending)
      ensures r.Err? ==> r.status == BadRequest
      ensures r.Ok? ==> forall e :: e in r.value <==> e in edges && e.receiving == correo && e.status == Pending
    {
      var l := Filter(edges, (e: Amigo) => e.receiving == correo && e.status == Pending);
      if |l| == 0 then Err(BadRequest) else Ok(l)
    }

    /** `listFriend(correo)`: the FRIEND edges with `correo` at either end; 400 when there are none. */
    function ListFriend(correo: Email): (r: Result<seq<Amigo>>)
      reads this
      ensures r.Err? <==> forall e :: e in edges ==> !(e.status == Friend && Touches(e, correo))
      ensures r.Err? ==> r.status == BadRequest
      ensures r.Ok? ==> forall e :: e in r.value <==> e in edges && e.status == Friend && Touches(e, correo)
    {
      var fs := FriendFilter(correo, None);
      var l := Filter(edges, (e: Amigo) => MatchesAny(e, fs));
      if |l| == 0 then Err(BadRequest) else Ok(l)
    }

    /** `searchFriend(correo, query)`: the friends of `correo` whose lower-cased username
        contains the lower-cased query. */
    function SearchFriend(correo: Email, query: string): (r: seq<User>)
      requires Valid()
      reads this
      ensures forall u :: u in r <==>
        (u in users && Contains(Lower(u.username), Lower(query)) &&
         exists e :: e in edges && FriendEdgeOf(e, correo) && Counterpart(e, correo) == u.correo && u == FindByCorreo(users, u.correo).value)
    {
      var friends := FriendUsers(edges, correo);
      Filter(friends, (u: User) => Contains(Lower(u.username), Lower(query)))
    }

    /** The user records at the other end of `correo`'s FRIEND edges, in edge order. */
    function FriendUsers(es: seq<Amigo>, correo: Email): (r: seq<User>)
      requires Registered(users, es)
      reads this
      ensures forall u :: u in r <==>
        (u in users &&
         exists e :: e in es && FriendEdgeOf(e, correo) && Counterpart(e, correo) == u.correo && u == FindByCorreo(users, u.correo).value)
    {
      if es == [] then []
      else
        assert Registered(users, es[1..]) by {
          assert forall e :: e in es[1..] ==> e in es;
        }
        var rest := FriendUsers(es[1..], correo);
        var r := if FriendEdgeOf(es[0], correo) then [FindByCorreo(users, Counterpart(es[0], correo)).value] + rest else rest;
        FriendUsersCons(users, es, correo, rest, r);
        r
    }

    /** `removeFriend(user, friend)`: 400 for oneself; otherwise removes the first FRIEND edge
        between the two raw names, or 404. */
    method RemoveFriend(user: Email, friend: string) returns (r: Result<Amigo>)
      requires Valid()
      modifies this
      ensures Valid()
      ensures users == old(users) && notifications == old(notifications) && nextId == old(nextId)
      ensures user == friend ==> r == Err(BadRequest) && edges == old(edges)
      ensures user != friend ==>
        var k := FirstMatch(old(edges), FriendFilter(user, Some(friend)));
        if k.None? then r == Err(NotFound) && edges == old(edges)
        else r == Ok(old(edges)[k.value]) && edges == RemoveAt(old(edges), k.value)
    {
      if user == friend {
        return Err(BadRequest);
      }
      var k := FirstMatch(edges, FriendFilter(user, Some(friend)));
      if k.None? {
        return Err(NotFound);
      }
      r := Ok(edges[k.value]);
      edges := RemoveAt(edges, k.value);
    }

    /** `block(user, block)`: an existing FRIEND edge between the two (either direction)
        becomes LOCKED, keeping its direction; otherwise a LOCKED edge user -> block is added. */
    method Block(user: string, block: string) returns (r: Result<Amigo>)
      requires Valid()
      modifies this
      ensures Valid()
      ensures users == old(users) && notifications == old(notifications)
      ensures var su := FindByCorreoOrUsername(old(users), user);
              var ru := FindByCorreoOrUsername(old(users), block);
        if su.None? || ru.None? then r == Err(NotFound) && edges == old(edges) && nextId == old(nextId)
        else
          var k := FirstMatch(old(edges), FriendFilter(su.value.correo, Some(ru.value.correo)));
          if k.Some? then
            r == Ok(old(edges)[k.value].(status := Locked)) && edges == old(edges)[k.value := r.value] && nextId == old(nextId)
          else
            r == Ok(Amigo(old(nextId), su.value.correo, ru.value.correo, Locked, None)) &&
            edges == old(edges) + [r.value] && nextId == old(nextId) + 1
    {
      var su := FindByCorreoOrUsername(users, user);
      var ru := FindByCorreoOrUsername(users, block);
      if su.None? || ru.None? {
        return Err(NotFound);
      }
      var k := FirstMatch(edges, FriendFilter(su.value.correo, Some(ru.value.correo)));
      if k.Some? {
        var locked := edges[k.value].(status := Locked);
        EdgeReplaced(users, edges, k.value, locked, nextId);
        edges := edges[k.value := locked];
        return Ok(locked);
      }
      var edge := Amigo(nextId, su.value.correo, ru.value.correo, Locked, None);
      EdgeAppended(users, edges, edge, nextId);
      edges := edges + [edge];
      nextId := nextId + 1;
      r := Ok(edge);
    }

    /** `unblock(user, block)`: the first LOCKED edge between the two (either direction)
        becomes FRIEND; 404 when there is none. */
    method Unblock(user: string, block: string) returns (r: Result<Amigo>)
      requires Valid()
      modifies this
      ensures Valid()
      ensures users == old(users) && notifications == old(notifications) && nextId == old(nextId)
      ensures var su := FindByCorreoOrUsername(old(users), user);
              var ru := FindByCorreoOrUsername(old(users), block);
        if su.None? || ru.None? then r == Err(NotFound) && edges == old(edges)
        else
          var k := FirstMatch(old(edges), FriendFilter(su.value.correo, Some(ru.value.correo), Locked));
          if k.None? then r == Err(NotFound) && edges == old(edges)
          else r == Ok(old(edges)[k.value].(status := Friend)) && edges == old(edges)[k.value := r.value]
    {
      var su := FindByCorreoOrUsername(users, user);
      var ru := FindByCorreoOrUsername(users, block);
      if su.None? || ru.None? {
        return Err(NotFound);
      }
      var k := FirstMatch(edges, FriendFilter(su.value.correo, Some(ru.value.correo), Locked));
      if k.None? {
        return Err(NotFound);
      }
      var unlocked := edges[k.value].(status := Friend);
      EdgeReplaced(users, edges, k.value, unlocked, nextId);
      edges := edges[k.value := unlocked];
      r := Ok(unlocked);
    }

    /** `listBlock(user)`: the users `user` blocked (LOCKED edges it requested). */
    function ListBlock(user: string): (r: Result<seq<UserCard>>)
      requires Valid()
      reads this
      ensures FindByCorreoOrUsername(users, user).None? <==> r == Err(NotFound)
      ensures r.Ok? ==> var me := FindByCorreoOrUsername(users, user).value.correo;
        forall c :: c in r.value <==>
          exists e :: e in edges && e.requesting == me && e.status == Locked && c == CardOf(users, e.receiving)
    {
      var su := FindByCorreoOrUsername(users, user);
      if su.None? then Err(NotFound)
      else Ok(BlockedCards(edges, su.value.correo))
    }

    function BlockedCards(es: seq<Amigo>, me: Email): (r: seq<UserCard>)
      requires Registered(users, es)
      reads this
      ensures forall c :: c in r <==>
        exists e :: e in es && e.requesting == me && e.status == Locked && c == CardOf(users, e.receiving)
    {
      if es == [] then []
      else
        var rest := BlockedCards(es[1..], me);
        assert forall e :: e in es <==> e == es[0] || e in es[1..];
        if es[0].requesting == me && es[0].status == Locked then
          assert es[0] in es;
          [CardOf(users, es[0].receiving)] + rest
        else rest
    }

    /** `getFriendsOfFriends(me)`: every user at the other end of a FRIEND edge from a direct
        friend, except `me` and the direct friends, once each, with its public fields. */
    method GetFriendsOfFriends(me: Email) returns (r: seq<UserCard>)
      requires Valid()
      ensures DirectFriends(edges, me) == [] ==> r == []
      ensures forall i, j :: 0 <= i < j < |r| ==> r[i].correo != r[j].correo
      ensures forall c :: c in r ==> IsSuggestion(edges, me, c.correo) && FindByCorreo(users, c.correo).Some? && c == CardOf(users, c.correo)
      ensures forall x :: IsSuggestion(edges, me, x) ==> exists c :: c in r && c.correo == x
    {
      var direct := DirectFriends(edges, me);
      if direct == [] {
        return [];
      }
      var candidates := Filter(edges, (e: Amigo) => e.status == Friend && (e.requesting in direct || e.receiving in direct));
      assert Registered(users, candidates);
      var keys, cards := CollectSuggestions(users, candidates, direct, me);
      r := CardsInOrder(cards, keys);
      SuggestionsFromCards(edges, users, me, direct, candidates, keys, cards, r);
    }
  }

  /** The cards listed in key order are the suggestions, each once. */
  lemma SuggestionsFromCards(edges: seq<Amigo>, users: seq<User>, me: Email, direct: seq<Email>, candidates: seq<Amigo>,
                             keys: seq<Email>, cards: map<Email, UserCard>, r: seq<UserCard>)
    requires forall y :: y in direct <==> IsFriend(edges, me, y)
    requires forall e :: e in candidates <==> e in edges && e.status == Friend && (e.requesting in direct || e.receiving in direct)
    requires Distinct(keys) && forall x :: x in keys <==> x in cards
    requires forall x :: x in cards ==> FindByCorreo(users, x).Some? && cards[x] == CardOf(users, x)
    requires forall x :: x in cards <==> Collected(candidates, direct, me, x)
    requires |r| == |keys| && forall i :: 0 <= i < |keys| ==> r[i] == cards[keys[i]]
    ensures forall i, j :: 0 <= i < j < |r| ==> r[i].correo != r[j].correo
    ensures forall c :: c in r ==> IsSuggestion(edges, me, c.correo) && FindByCorreo(users, c.correo).Some? && c == CardOf(users, c.correo)
    ensures forall x :: IsSuggestion(edges, me, x) ==> exists c :: c in r && c.correo == x
  {
    forall i | 0 <= i < |r| ensures r[i].correo == keys[i] && IsSuggestion(edges, me, keys[i]) {
      CollectedIsSuggestion(edges, me, direct, candidates, keys[i]);
    }
    forall x | IsSuggestion(edges, me, x) ensures exists c :: c in r && c.correo == x {
      CollectedIsSuggestion(edges, me, direct, candidates, x);
      var k :| 0 <= k < |keys| && keys[k] == x;
      assert r[k].correo == x;
    }
  }

  /** One more edge of the query result records what the earlier ones did plus its own. */
  lemma CollectedStep(candidates: seq<Amigo>, i: nat, direct: seq<Email>, me: Email)
    requires i < |candidates|
    ensures forall x :: Collected(candidates[..i + 1], direct, me, x) <==>
      Collected(candidates[..i], direct, me, x) || Records(direct, me, candidates[i], x)
  {
    assert candidates[..i + 1] == candidates[..i] + [candidates[i]];
  }

  /** Edge `e` of `amigosDeAmigos` makes the loop record `x`. */
  predicate Records(direct: seq<Email>, me: Email, e: Amigo, x: Email) {
    (SetsReceiving(direct, me, e) && e.receiving == x) || (SetsRequesting(direct, me, e) && e.requesting == x)
  }

  predicate Collected(candidates: seq<Amigo>, direct: seq<Email>, me: Email, x: Email) {
    exists e :: e in candidates && Records(direct, me, e, x)
  }

  /** The `forEach` filling `sugerenciasMap`: keys in first-insertion order, each mapped to
      the card of that user. */
  method CollectSuggestions(users: seq<User>, candidates: seq<Amigo>, direct: seq<Email>, me: Email)
    returns (keys: seq<Email>, cards: map<Email, UserCard>)
    requires Registered(users, candidates)
    ensures Distinct(keys) && forall x :: x in keys <==> x in cards
    ensures forall x :: x in cards ==> FindByCorreo(users, x).Some? && cards[x] == CardOf(users, x)
    ensures forall x :: x in cards <==> Collected(candidates, direct, me, x)
  {
    keys := [];
    cards := map[];
    var i := 0;
    while i < |candidates|
      invariant 0 <= i <= |candidates|
      invariant Distinct(keys) && forall x :: x in keys <==> x in cards
      invariant forall x :: x in cards ==> FindByCorreo(users, x).Some? && cards[x] == CardOf(users, x)
      invariant forall x :: x in cards <==> Collected(candidates[..i], direct, me, x)
    {
      var e := candidates[i];
      assert e in candidates;
      CollectedStep(candidates, i, direct, me);
      keys, cards := Visit(users, keys, cards, direct, me, e);
      i := i + 1;
    }
    assert candidates[..|candidates|] == candidates;
  }

  /** One step of the `forEach`: edge `e` records the users it sets. */
  method Visit(users: seq<User>, keys: seq<Email>, cards: map<Email, UserCard>, direct: seq<Email>, me: Email, e: Amigo)
    returns (keys': seq<Email>, cards': map<Email, UserCard>)
    requires FindByCorreo(users, e.requesting).Some? && FindByCorreo(users, e.receiving).Some?
    requires Distinct(keys) && forall y :: y in keys <==> y in cards
    requires forall y :: y in cards ==> FindByCorreo(users, y).Some? && cards[y] == CardOf(users, y)
    ensures Distinct(keys') && forall y :: y in keys' <==> y in cards'
    ensures forall y :: y in cards' ==> FindByCorreo(users, y).Some? && cards'[y] == CardOf(users, y)
    ensures forall y :: y in cards' <==> y in cards || Records(direct, me, e, y)
  {
    keys', cards' := keys, cards;
    if SetsReceiving(direct, me, e) {
      keys', cards' := Remember(users, keys', cards', e.receiving);
    }
    if SetsRequesting(direct, me, e) {
      keys', cards' := Remember(users, keys', cards', e.requesting);
    }
  }

  /** `sugerenciasMap.set(x, card)`: a key not seen before goes to the end of the key
      order, and the card of `x` is (re)written. */
  method Remember(users: seq<User>, keys: seq<Email>, cards: map<Email, UserCard>, x: Email)
    returns (keys': seq<Email>, cards': map<Email, UserCard>)
    requires FindByCorreo(users, x).Some?
    requires Distinct(keys) && forall y :: y in keys <==> y in cards
    requires forall y :: y in cards ==> FindByCorreo(users, y).Some? && cards[y] == CardOf(users, y)
    ensures Distinct(keys') && forall y :: y in keys' <==> y in cards'
    ensures forall y :: y in cards' ==> FindByCorreo(users, y).Some? && cards'[y] == CardOf(users, y)
    ensures forall y :: y in cards' <==> y in cards || y == x
    ensures keys' == if x in cards then keys else keys + [x]
  {
    keys' := keys;
    if x !in cards {
      keys' := keys + [x];
    }
    cards' := cards[x := CardOf(users, x)];
  }

  /** What the loop collects from the query result is exactly the suggestion set. */
  lemma CollectedIsSuggestion(edges: seq<Amigo>, me: Email, direct: seq<Email>, candidates: seq<Amigo>, x: Email)
    requires forall y :: y in direct <==> IsFriend(edges, me, y)
    requires forall e :: e in candidates <==> e in edges && e.status == Friend && (e.requesting in direct || e.receiving in direct)
    ensures Collected(candidates, direct, me, x) <==> IsSuggestion(edges, me, x)
  {
    if Collected(candidates, direct, me, x) {
      var e :| e in candidates && Records(direct, me, e, x);
      assert SuggestsVia(edges, me, e, x);
    }
    if IsSuggestion(edges, me, x) {
      var e :| e in edges && SuggestsVia(edges, me, e, x);
      assert Records(direct, me, e, x);
    }
  }

  /** The values of a `Map` in insertion order (`Array.from(map.values())`). */
  function CardsInOrder(cards: map<Email, UserCard>, keys: seq<Email>): (r: seq<UserCard>)
    requires forall x :: x in keys ==> x in cards
    ensures |r| == |keys|
    ensures forall i :: 0 <= i < |keys| ==> r[i] == cards[keys[i]]
  {
    if keys == [] then [] else [cards[keys[0]]] + CardsInOrder(cards, keys[1..])
  }
}

/** The session registry (`InMemorySessionStore`), the handshake decision of the
    Socket.IO authentication middleware, and the two ways the presence code reads the
    registry. */
module SocketSessions {
  import opened Wrappers
  import opened Text
  import opened Seqs
  import opened Domain

  datatype Session = Session(sessionID: string, userID: Email, username: string, connected: bool)

  /** The values of `m` for the keys `ks`, in the order of `ks`. */
  function ValuesInOrder(m: map<string, Session>, ks: seq<string>): (r: seq<Session>)
    requires forall k :: k in ks ==> k in m
    ensures |r| == |ks|
    ensures forall i :: 0 <= i < |ks| ==> r[i] == m[ks[i]]
  {
    if ks == [] then [] else [m[ks[0]]] + ValuesInOrder(m, ks[1..])
  }

  /** `InMemorySessionStore`: a `Map` from session id to session. A JavaScript `Map`
      iterates in first-insertion order, which `order` records. */
  class SessionStore {
    var sessions: map<string, Session>
    var order: seq<string>

    ghost predicate Valid()
      reads this
    {
      Distinct(order) && forall k :: k in sessions <==> k in order
    }

    constructor ()
      ensures Valid() && sessions == map[] && order == []
    {
      sessions := map[];
      order := [];
    }

    /** `findSession(id)`. */
    function FindSession(id: string): (r: Option<Session>)
      reads this
      ensures r.Some? <==> id in sessions
      ensures r.Some? ==> r.value == sessions[id]
    {
      if id in sessions then Some(sessions[id]) else None
    }

    /** `saveSession(id, session)`: `Map.set`, which overwrites the record of an existing
        key in place and appends a new key at the end of the iteration order. */
    method SaveSession(id: string, s: Session)
      requires Valid()
      modifies this
      ensures Valid()
      ensures sessions == old(sessions)[id := s]
      ensures order == if id in old(sessions) then old(order) else old(order) + [id]
    {
      if id !in sessions {
        order := order + [id];
      }
      sessions := sessions[id := s];
    }

    /** `findAllSessions()`: the stored sessions in iteration order. */
    function AllSessions(): (r: seq<Session>)
      reads this
      requires Valid()
      ensures |r| == |order|
      ensures forall i :: 0 <= i < |order| ==> r[i] == sessions[order[i]]
    {
      ValuesInOrder(sessions, order)
    }
  }

  /** The position of a user's first session in `all`. */
  function FirstSessionIndex(all: seq<Session>, userID: Email): (r: Option<nat>)
    ensures r.Some? ==> r.value < |all| && all[r.value].userID == userID
    ensures r.Some? ==> forall j :: 0 <= j < r.value ==> all[j].userID != userID
    ensures r.None? <==> forall s :: s in all ==> s.userID != userID
  {
    if all == [] then None
    else if all[0].userID == userID then Some(0)
    else
      match FirstSessionIndex(all[1..], userID)
      case None => None
      case Some(i) => Some(i + 1)
  }

  /** `allOnlineSessions.find(s => s.userID === userID)`: the first session of a user. */
  function FirstSessionOf(all: seq<Session>, userID: Email): Option<Session> {
    match FirstSessionIndex(all, userID)
    case None => None
    case Some(i) => Some(all[i])
  }

  /** The test the connection handler applies before telling a friend "user connected":
      the friend's first stored session is marked connected. */
  predicate SignalsOnline(all: seq<Session>, userID: Email) {
    var first := FirstSessionOf(all, userID);
    first.Some? && first.value.connected
  }

  /** The test the friends list applies for its `connected` flag: some session of the user
      is marked connected. */
  predicate AnySessionConnected(all: seq<Session>, userID: Email) {
    exists s :: s in all && s.userID == userID && s.connected
  }

  lemma SignalsOnlineImpliesConnected(all: seq<Session>, userID: Email)
    requires SignalsOnline(all, userID)
    ensures AnySessionConnected(all, userID)
  {
    assert all[FirstSessionIndex(all, userID).value] in all;
  }

  /** The two tests disagree when a user's first session is closed but a later one is
      open: the friends list shows the user online, the connection signal is not sent. */
  lemma PresenceTestsDisagree()
    ensures exists all: seq<Session>, u: Email :: AnySessionConnected(all, u) && !SignalsOnline(all, u)
  {
    var all := [Session("s1", "ana@mail", "ana", false), Session("s2", "ana@mail", "ana", true)];
    assert all[1] in all;
    assert AnySessionConnected(all, "ana@mail");
    assert !SignalsOnline(all, "ana@mail");
  }

  datatype HandshakeAuth = HandshakeAuth(sessionID: Option<string>, token: Option<string>)

  /** The body the `/user` endpoint answers with (`null` when absent). */
  datatype UserData = UserData(correo: Option<string>, username: Option<string>)

  /** What the token check against the backend yields: the request or the JSON parse
      throws, the response is not ok, or a JSON body. */
  datatype BackendReply = FetchFailed | NotOk | Body(data: Option<UserData>)

  /** The three `next(new Error(...))` rejections of the middleware. */
  datatype HandshakeError = NoToken | IncompleteUserData | AssignFailed

  /** What the middleware attaches to an accepted socket. */
  datatype Identity = Identity(sessionID: string, userID: Email, username: string)

  datatype Handshake = Accepted(identity: Identity) | Refused(error: HandshakeError)

  /** The handshake names a session id the registry knows. */
  predicate Resumes(auth: HandshakeAuth, sessions: map<string, Session>) {
    Truthy(auth.sessionID) && auth.sessionID.value in sessions
  }

  predicate CompleteUserData(reply: BackendReply) {
    reply.Body? && reply.data.Some? && Truthy(reply.data.value.correo) && Truthy(reply.data.value.username)
  }

  /** The authentication middleware: a known session id is accepted as it is; otherwise
      the token is checked by `verify` (the `/user` request) and a new session id
      `freshID` (the random bytes) is issued. */
  function Authenticate(auth: HandshakeAuth, sessions: map<string, Session>,
                        verify: string -> BackendReply, freshID: string): (r: Handshake)
    ensures Resumes(auth, sessions) ==>
      var s := sessions[auth.sessionID.value];
      r == Accepted(Identity(auth.sessionID.value, s.userID, s.username))
    ensures !Resumes(auth, sessions) ==>
      (r.Accepted? <==> Truthy(auth.token) && CompleteUserData(verify(auth.token.value)))
    ensures !Resumes(auth, sessions) && r.Accepted? ==>
      var data := verify(auth.token.value).data.value;
      r.identity == Identity(freshID, data.correo.value, data.username.value)
    ensures !Resumes(auth, sessions) && !Truthy(auth.token) ==> r == Refused(NoToken)
  {
    if Resumes(auth, sessions) then
      var s := sessions[auth.sessionID.value];
      Accepted(Identity(auth.sessionID.value, s.userID, s.username))
    else if !Truthy(auth.token) then Refused(NoToken)
    else
      match verify(auth.token.value)
      case FetchFailed => Refused(AssignFailed)
      case NotOk => Refused(AssignFailed)
      case Body(data) =>
        if data.None? || !Truthy(data.value.correo) || !Truthy(data.value.username) then
          Refused(IncompleteUserData)
        else
          Accepted(Identity(freshID, data.value.correo.value, data.value.username.value))
  }

  /** Reconnecting with a known session id does not depend on the token check or on the
      random source at all. */
  lemma ReconnectSkipsTokenCheck(auth: HandshakeAuth, sessions: map<string, Session>,
                                 verify1: string -> BackendReply, verify2: string -> BackendReply,
                                 fresh1: string, fresh2: string)
    requires Resumes(auth, sessions)
    ensures Authenticate(auth, sessions, verify1, fresh1) == Authenticate(auth, sessions, verify2, fresh2)
    ensures Authenticate(auth, sessions, verify1, fresh1).identity.sessionID == auth.sessionID.value
  {
  }

  /** A connection that presents neither a known session nor a token is rejected,
      whatever the backend would have said. */
  lemma UnauthenticatedRefused(auth: HandshakeAuth, sessions: map<string, Session>,
                                verify: string -> BackendReply, freshID: string)
    requires !Resumes(auth, sessions) && !Truthy(auth.token)
    ensures Authenticate(auth, sessions, verify, freshID).Refused?
  {
  }
}

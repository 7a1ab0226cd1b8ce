/** The message service of the socket handler as functions over the message table:
    chat history (`misMensajes`), the bulk status updates of "mark messages received" /
    "mark messages read", the unread count and last message of the chat list, and the
    friend lookup (`getFriends`). */
module SocketChat {
  import opened Wrappers
  import opened Seqs
  import opened Domain
  import opened SocketSessions

  /** `m` was sent from `a` to `b` or from `b` to `a`. */
  predicate Between(m: Mensaje, a: Email, b: Email) {
    (m.emisor == a && m.receptor == b) || (m.emisor == b && m.receptor == a)
  }

  function Hora(m: Mensaje): int { m.hora }

  /** The messages between `a` and `b`, in table order. */
  function Conversation(ms: seq<Mensaje>, a: Email, b: Email): (r: seq<Mensaje>)
    ensures forall m :: m in r <==> m in ms && Between(m, a, b)
    ensures forall m :: multiset(r)[m] == if Between(m, a, b) then multiset(ms)[m] else 0
  {
    Filter(ms, m => Between(m, a, b))
  }

  /** The shape the front end receives: `{content, from, to, createdAt, status}`. */
  datatype MessageView = MessageView(content: string, from: Email, to: Email, createdAt: int, status: MessageStatus)

  function View(m: Mensaje): MessageView {
    MessageView(m.text, m.emisor, m.receptor, m.hora, m.status)
  }

  function CreatedAt(v: MessageView): int { v.createdAt }

  function Views(ms: seq<Mensaje>): (r: seq<MessageView>)
    ensures |r| == |ms|
    ensures forall i :: 0 <= i < |ms| ==> r[i] == View(ms[i])
  {
    if ms == [] then [] else [View(ms[0])] + Views(ms[1..])
  }

  /** Views of a list sorted by time are sorted by `createdAt`. */
  lemma ViewsKeepOrder(ms: seq<Mensaje>)
    requires NonDecreasing(ms, Hora)
    ensures NonDecreasing(Views(ms), CreatedAt)
  {
    var r := Views(ms);
    forall i, j | 0 <= i < j < |r| ensures CreatedAt(r[i]) <= CreatedAt(r[j]) {
      assert Hora(ms[i]) <= Hora(ms[j]);
    }
  }

  /** The views of a list are exactly the views of its members. */
  lemma ViewsMembers(ms: seq<Mensaje>, v: MessageView)
    ensures v in Views(ms) <==> exists m :: m in ms && View(m) == v
  {
    var r := Views(ms);
    if v in r {
      var i :| 0 <= i < |r| && r[i] == v;
      assert ms[i] in ms;
    }
    if exists m :: m in ms && View(m) == v {
      var m :| m in ms && View(m) == v;
      var i :| 0 <= i < |ms| && ms[i] == m;
      assert r[i] == v;
    }
  }

  /** Views of a concatenation are the concatenation of the views. */
  lemma ViewsAppend(x: seq<Mensaje>, y: seq<Mensaje>)
    ensures Views(x + y) == Views(x) + Views(y)
  {
    var l, r, t := Views(x), Views(y), Views(x + y);
    forall i | 0 <= i < |t| ensures t[i] == (l + r)[i] {
      if i < |x| {
        assert (x + y)[i] == x[i];
      } else {
        assert (x + y)[i] == y[i - |x|];
      }
    }
  }

  /** The views of `s` are those of `s` without its element at `k`, plus that one's. */
  lemma ViewsWithout(s: seq<Mensaje>, k: nat)
    requires k < |s|
    ensures multiset(Views(s)) == multiset(Views(RemoveAt(s, k))) + multiset{View(s[k])}
  {
    SplitAt(s, k);
    assert RemoveAt(s, k) == s[..k] + s[k + 1..];
    ViewsOfSplit(s[..k], s[k], s[k + 1..]);
  }

  lemma ViewsOfSplit(pre: seq<Mensaje>, m: Mensaje, post: seq<Mensaje>)
    ensures multiset(Views((pre + [m]) + post)) == multiset(Views(pre + post)) + multiset{View(m)}
  {
    ViewsAppend(pre + [m], post);
    ViewsAppend(pre, [m]);
    ViewsAppend(pre, post);
    assert Views([m]) == [View(m)];
  }

  lemma SplitAt<T>(s: seq<T>, k: nat)
    requires k < |s|
    ensures s == (s[..k] + [s[k]]) + s[k + 1..]
  {
  }

  /** Two lists holding the same messages as often give the same views as often. */
  lemma {:induction false} ViewsOfPermutation(a: seq<Mensaje>, b: seq<Mensaje>)
    requires multiset(a) == multiset(b)
    ensures multiset(Views(a)) == multiset(Views(b))
    decreases |a|
  {
    if a != [] {
      assert a[0] in multiset(b);
      var k :| 0 <= k < |b| && b[k] == a[0];
      assert RemoveAt(a, 0) == a[1..];
      ViewsOfPermutation(RemoveAt(a, 0), RemoveAt(b, k));
      ViewsWithout(a, 0);
      ViewsWithout(b, k);
    }
  }

  /** `misMensajes(me, other)`: the conversation of the two users in either direction,
      oldest first, in the front end's shape. */
  function ChatHistoryOf(ms: seq<Mensaje>, me: Email, other: Email): (r: seq<MessageView>)
    ensures NonDecreasing(r, CreatedAt)
    ensures forall v :: v in r <==> exists m :: m in ms && Between(m, me, other) && View(m) == v
    ensures |r| == |Conversation(ms, me, other)|
    ensures multiset(r) == multiset(Views(Conversation(ms, me, other)))
  {
    var conv := Conversation(ms, me, other);
    var sorted := SortAsc(conv, Hora);
    ViewsKeepOrder(sorted);
    ViewsOfPermutation(sorted, conv);
    forall v ensures v in Views(sorted) <==> exists m :: m in ms && Between(m, me, other) && View(m) == v {
      ViewsMembers(sorted, v);
      forall m ensures m in sorted <==> m in conv {
        SortedKeepsMembers(conv, sorted, m);
      }
    }
    Views(sorted)
  }

  /** One message under the bulk update: status `target` when it is from `from` to `to`
      and its status is below `target`. */
  function RaiseOne(m: Mensaje, from: Email, to: Email, target: MessageStatus): Mensaje {
    if m.emisor == from && m.receptor == to && m.status < target then m.(status := target) else m
  }

  /** The bulk update of the mark handlers:
      `SET edoMensaje = target WHERE emisor = from AND receptor = to AND edoMensaje < target`. */
  function Raise(ms: seq<Mensaje>, from: Email, to: Email, target: MessageStatus): (r: seq<Mensaje>)
    ensures |r| == |ms|
    ensures forall i :: 0 <= i < |ms| ==> r[i] == ms[i].(status := r[i].status)
    ensures forall i :: 0 <= i < |ms| ==> r[i].status >= ms[i].status
    ensures forall i :: 0 <= i < |ms| && !(ms[i].emisor == from && ms[i].receptor == to) ==> r[i] == ms[i]
    ensures forall i :: 0 <= i < |ms| && ms[i].emisor == from && ms[i].receptor == to ==> r[i].status >= target
    ensures forall i :: 0 <= i < |ms| && ms[i].status >= target ==> r[i] == ms[i]
  {
    if ms == [] then [] else [RaiseOne(ms[0], from, to, target)] + Raise(ms[1..], from, to, target)
  }

  /** The bulk update keeps every message id, so a bound on the ids survives it. */
  lemma RaiseKeepsIdsBelow(ms: seq<Mensaje>, from: Email, to: Email, target: MessageStatus, bound: nat)
    requires forall m :: m in ms ==> m.id < bound
    ensures forall m :: m in Raise(ms, from, to, target) ==> m.id < bound
  {
    var r := Raise(ms, from, to, target);
    forall m | m in r ensures m.id < bound {
      var i :| 0 <= i < |r| && r[i] == m;
      assert ms[i] in ms;
    }
  }

  /** Applying the same bulk update twice changes nothing the first did not. */
  lemma {:induction false} RaiseIdempotent(ms: seq<Mensaje>, from: Email, to: Email, target: MessageStatus)
    ensures Raise(Raise(ms, from, to, target), from, to, target) == Raise(ms, from, to, target)
  {
    if ms != [] {
      RaiseIdempotent(ms[1..], from, to, target);
      assert Raise(ms, from, to, target)[1..] == Raise(ms[1..], from, to, target);
    }
  }

  /** Marking read after marking received is the same as marking read directly. */
  lemma {:induction false} ReadAfterReceived(ms: seq<Mensaje>, from: Email, to: Email)
    ensures Raise(Raise(ms, from, to, Recibido), from, to, Leido) == Raise(ms, from, to, Leido)
  {
    if ms != [] {
      ReadAfterReceived(ms[1..], from, to);
      assert Raise(ms, from, to, Recibido)[1..] == Raise(ms[1..], from, to, Recibido);
    }
  }

  /** `m` is counted as unread from `friend` by `me`: `edoMensaje IN (0, 1)`. */
  predicate UnreadFrom(m: Mensaje, friend: Email, me: Email) {
    m.emisor == friend && m.receptor == me && m.status < Leido
  }

  /** The `sinLeer` count of the chat list. */
  function UnreadCount(ms: seq<Mensaje>, friend: Email, me: Email): (n: nat)
    ensures n <= |ms|
    ensures n == 0 <==> forall m :: m in ms ==> !UnreadFrom(m, friend, me)
  {
    if ms == [] then 0
    else (if UnreadFrom(ms[0], friend, me) then 1 else 0) + UnreadCount(ms[1..], friend, me)
  }

  /** After "mark messages read" from a friend, nothing from that friend is unread. */
  lemma {:induction false} MarkReadClearsUnread(ms: seq<Mensaje>, friend: Email, me: Email)
    ensures UnreadCount(Raise(ms, friend, me, Leido), friend, me) == 0
  {
    if ms != [] {
      MarkReadClearsUnread(ms[1..], friend, me);
      assert Raise(ms, friend, me, Leido)[1..] == Raise(ms[1..], friend, me, Leido);
    }
  }

  /** "Mark messages received" does not change any unread count: RECIBIDO is still unread,
      and only messages of that one pair change. */
  lemma {:induction false} MarkReceivedKeepsUnread(ms: seq<Mensaje>, friend: Email, me: Email, x: Email, y: Email)
    ensures UnreadCount(Raise(ms, friend, me, Recibido), x, y) == UnreadCount(ms, x, y)
  {
    if ms != [] {
      MarkReceivedKeepsUnread(ms[1..], friend, me, x, y);
      assert Raise(ms, friend, me, Recibido)[1..] == Raise(ms[1..], friend, me, Recibido);
    }
  }

  /** The chat list's `findOne` ordered by `horaMensaje DESC`: a latest message between
      the two users, if they have any. */
  function LastBetween(ms: seq<Mensaje>, a: Email, b: Email): (r: Option<Mensaje>)
    ensures r.Some? ==> r.value in ms && Between(r.value, a, b)
    ensures r.Some? ==> forall m :: m in ms && Between(m, a, b) ==> m.hora <= r.value.hora
    ensures r.None? <==> forall m :: m in ms ==> !Between(m, a, b)
  {
    if ms == [] then None
    else
      var rest := LastBetween(ms[1..], a, b);
      assert forall m :: m in ms <==> m == ms[0] || m in ms[1..];
      if Between(ms[0], a, b) && (rest.None? || ms[0].hora >= rest.value.hora) then Some(ms[0])
      else rest
  }

  /** A FRIEND edge with `me` at either end (the two `where` branches of `getFriends`). */
  predicate FriendEdgeOf(e: Amigo, me: Email) {
    e.status == Friend && (e.requesting == me || e.receiving == me)
  }

  /** The other end of an edge seen from `me`. */
  function Counterpart(e: Amigo, me: Email): Email {
    if e.requesting == me then e.receiving else e.requesting
  }

  predicate IsFriend(edges: seq<Amigo>, me: Email, x: Email) {
    exists e :: e in edges && FriendEdgeOf(e, me) && Counterpart(e, me) == x
  }

  /** Every edge endpoint names a stored user (the foreign keys of `Amigo`). */
  predicate Registered(users: seq<User>, edges: seq<Amigo>) {
    forall e :: e in edges ==> FindByCorreo(users, e.requesting).Some? && FindByCorreo(users, e.receiving).Some?
  }

  datatype FriendInfo = FriendInfo(userID: Email, username: string, fotoUrl: Option<string>)

  function InfoOf(users: seq<User>, correo: Email): FriendInfo
    requires FindByCorreo(users, correo).Some?
  {
    var u := FindByCorreo(users, correo).value;
    FriendInfo(correo, u.username, u.fotoUrl)
  }

  /** `getFriends(me)`: one entry per FRIEND edge touching `me`, naming the other end. */
  function GetFriends(edges: seq<Amigo>, users: seq<User>, me: Email): seq<FriendInfo>
    requires Registered(users, edges)
  {
    if edges == [] then []
    else
      var rest := GetFriends(edges[1..], users, me);
      if FriendEdgeOf(edges[0], me) then
        assert edges[0] in edges;
        [InfoOf(users, Counterpart(edges[0], me))] + rest
      else rest
  }

  /** The friend list names exactly the users at the other end of a FRIEND edge, each with
      its stored username and photo. */
  lemma {:induction false} GetFriendsExact(edges: seq<Amigo>, users: seq<User>, me: Email)
    requires Registered(users, edges)
    ensures forall f :: f in GetFriends(edges, users, me) ==>
      IsFriend(edges, me, f.userID) && FindByCorreo(users, f.userID).Some? && f == InfoOf(users, f.userID)
    ensures forall x :: IsFriend(edges, me, x) ==> exists f :: f in GetFriends(edges, users, me) && f.userID == x
  {
    if edges != [] {
      GetFriendsExact(edges[1..], users, me);
      assert forall e :: e in edges <==> e == edges[0] || e in edges[1..];
      var r := GetFriends(edges, users, me);
      forall x | IsFriend(edges, me, x) ensures exists f :: f in r && f.userID == x {
        var e :| e in edges && FriendEdgeOf(e, me) && Counterpart(e, me) == x;
        if e == edges[0] {
          assert r[0].userID == x;
        } else {
          assert IsFriend(edges[1..], me, x);
        }
      }
    }
  }

  /** One row of the chat list the "get friends list" event answers with. */
  datatype ChatEntry = ChatEntry(
    userID: Email,
    username: string,
    fotoUrl: Option<string>,
    connected: bool,
    lastMessage: Option<string>,
    lastMessageHora: Option<int>,
    unreadCount: nat)

  /** The row built for friend `f` of `me`. */
  function EntryFor(f: FriendInfo, me: Email, all: seq<Session>, ms: seq<Mensaje>): ChatEntry {
    var last := LastBetween(ms, f.userID, me);
    ChatEntry(f.userID, f.username, f.fotoUrl, AnySessionConnected(all, f.userID),
              if last.Some? then Some(last.value.text) else None,
              if last.Some? then Some(last.value.hora) else None,
              UnreadCount(ms, f.userID, me))
  }

  /** The rows for `friends`, in their order. */
  function EntriesFor(friends: seq<FriendInfo>, me: Email, all: seq<Session>, ms: seq<Mensaje>): (r: seq<ChatEntry>)
    ensures |r| == |friends|
    ensures forall i :: 0 <= i < |friends| ==> r[i] == EntryFor(friends[i], me, all, ms)
  {
    if friends == [] then []
    else EntriesFor(friends[..|friends| - 1], me, all, ms) + [EntryFor(friends[|friends| - 1], me, all, ms)]
  }

  /** The sort key of the chat list: the time of the last message, 0 without one. */
  function RecencyKey(e: ChatEntry): int {
    if e.lastMessageHora.Some? then e.lastMessageHora.value else 0
  }

  /** A row's recency key is the time of the latest message of that pair. */
  lemma EntryRecency(f: FriendInfo, me: Email, all: seq<Session>, ms: seq<Mensaje>)
    ensures var e := EntryFor(f, me, all, ms);
      (forall m :: m in ms && Between(m, f.userID, me) ==> m.hora <= RecencyKey(e)) &&
      (e.lastMessageHora.None? <==> forall m :: m in ms ==> !Between(m, f.userID, me))
  {
  }
}

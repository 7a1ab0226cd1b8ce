/** The publication controller (`PublicacionController`): id guards, the photos attached
    when an itinerary is shared, the personal feed (mine, then friends', then the others
    that match the user's visited states, each by rating), the access rule for one
    publication and owner-only deletion. */
module Publications {
  import opened Wrappers
  import opened Text
  import opened Seqs
  import opened Domain
  import opened Friendship

  /** The route's `Number(id)`: `None` stands for NaN. */
  type NumericParam = Option<int>

  /** The guard of `getAverageRating` and `shareItinerary`: NaN or non-positive ids are 400. */
  function ValidId(id: NumericParam): (r: Result<nat>)
    ensures r.Ok? <==> id.Some? && id.value > 0
    ensures r.Ok? ==> r.value == id.value
    ensures r.Err? ==> r.status == BadRequest
  {
    if id.None? || id.value <= 0 then Err(BadRequest) else Ok(id.value)
  }

  /** `privacity_mode === "true"`: any other value, or none, is public. */
  function PrivacityFlag(s: Option<string>): (r: bool)
    ensures r <==> s == Some("true")
  {
    s.Some? && s.value == "true"
  }

  /** What `shareItinerary` passes to the share use case. */
  datatype ShareRequest = ShareRequest(itinerarioId: nat, userCorreo: Email, descripcion: string, privacityMode: bool)

  function ShareRequestOf(itinerarioId: NumericParam, userCorreo: Email, descripcion: string, privacity: Option<string>): (r: Result<ShareRequest>)
    ensures r.Err? <==> ValidId(itinerarioId).Err?
    ensures r.Err? ==> r.status == BadRequest
    ensures r.Ok? ==> r.value.itinerarioId == itinerarioId.value && r.value.userCorreo == userCorreo &&
                      r.value.descripcion == descripcion && (r.value.privacityMode <==> privacity == Some("true"))
  {
    var id := ValidId(itinerarioId);
    if id.Err? then Err(id.status) else Ok(ShareRequest(id.value, userCorreo, descripcion, PrivacityFlag(privacity)))
  }

  function Rating(p: Publicacion): int { p.rating }

  /** `sinAcentos` applied to every state. */
  function NormalizeAll(states: seq<string>, norm: string -> string): (r: seq<string>)
    ensures |r| == |states|
    ensures forall i :: 0 <= i < |states| ==> r[i] == norm(states[i])
  {
    if states == [] then [] else [norm(states[0])] + NormalizeAll(states[1..], norm)
  }

  /** Some state of the publication's itinerary is, normalised, among the visited states. */
  predicate MatchesPreferences(p: Publicacion, visited: seq<string>, norm: string -> string) {
    exists i :: 0 <= i < |p.states| && norm(p.states[i]) in NormalizeAll(visited, norm)
  }

  /** The correos of a `listFriend` result other than the user's own (`flatMap` + `filter`). */
  function FriendCorreos(listed: seq<Amigo>, me: Email): (r: seq<Email>)
    ensures forall x :: x in r <==> x != me && exists e :: e in listed && Touches(e, x)
  {
    if listed == [] then []
    else
      var e := listed[0];
      var rest := FriendCorreos(listed[1..], me);
      var r := (if e.requesting != me then [e.requesting] else []) + (if e.receiving != me then [e.receiving] else []) + rest;
      assert forall x :: x in r <==> x != me && exists f :: f in listed && Touches(f, x) by {
        forall x ensures x in r <==> x != me && exists f :: f in listed && Touches(f, x) {
          if x != me && exists f :: f in listed && Touches(f, x) {
            var f :| f in listed && Touches(f, x);
            if f != e {
              assert f in listed[1..];
            }
          }
          if x in r {
            if x in rest {
              var f :| f in listed[1..] && Touches(f, x);
              assert f in listed;
            } else {
              assert Touches(e, x);
            }
          }
        }
      }
      r
  }

  /** `await listFriend(me) || []` as written: a failed `listFriend` rejects the whole call,
      so the fallback `[]` is never used. */
  function FeedFriendsAsWritten(listed: Result<seq<Amigo>>, me: Email): (r: Result<seq<Email>>)
    ensures listed.Err? ==> r == Err(listed.status)
  {
    if listed.Err? then Err(listed.status) else Ok(FriendCorreos(listed.value, me))
  }

  /** The intended reading: a user without friends has no friends' segment. */
  function FeedFriends(listed: Result<seq<Amigo>>, me: Email): (r: seq<Email>)
    ensures listed.Err? ==> r == []
    ensures listed.Ok? ==> FeedFriendsAsWritten(listed, me) == Ok(r)
  {
    if listed.Err? then [] else FriendCorreos(listed.value, me)
  }

  /** `listFriend` of a user without FRIEND edges is 400, and as written the feed inherits it. */
  lemma FriendlessFeedAsWritten(me: Email)
    ensures FeedFriendsAsWritten(Err(BadRequest), me) == Err(BadRequest)
    ensures FeedFriends(Err(BadRequest), me) == []
  {
  }

  function OwnedBy(pubs: seq<Publicacion>, me: Email): (r: seq<Publicacion>)
    ensures forall p :: multiset(r)[p] == if p.owner == me then multiset(pubs)[p] else 0
  {
    Filter(pubs, (p: Publicacion) => p.owner == me)
  }

  function OwnedByAny(pubs: seq<Publicacion>, owners: seq<Email>): (r: seq<Publicacion>)
    ensures forall p :: multiset(r)[p] == if p.owner in owners then multiset(pubs)[p] else 0
  {
    Filter(pubs, (p: Publicacion) => p.owner in owners)
  }

  /** The "others" query: neither mine nor a friend's. */
  function OwnedByNone(pubs: seq<Publicacion>, me: Email, owners: seq<Email>): (r: seq<Publicacion>)
    ensures forall p :: multiset(r)[p] == if p.owner != me && p.owner !in owners then multiset(pubs)[p] else 0
  {
    Filter(pubs, (p: Publicacion) => p.owner != me && p.owner !in owners)
  }

  function MatchingPreferences(pubs: seq<Publicacion>, visited: seq<string>, norm: string -> string): (r: seq<Publicacion>)
    ensures forall p :: multiset(r)[p] == if MatchesPreferences(p, visited, norm) then multiset(pubs)[p] else 0
  {
    Filter(pubs, (p: Publicacion) => MatchesPreferences(p, visited, norm))
  }

  /** `seg` holds the same publications as `pool`, highest rating first. */
  ghost predicate RankedSegment(seg: seq<Publicacion>, pool: seq<Publicacion>) {
    NonIncreasing(seg, Rating) && multiset(seg) == multiset(pool) &&
    forall k :: KeyClass(seg, Rating, k) == KeyClass(pool, Rating, k)
  }

  /** The "others" pool after the preference filter, or `None` when the stored preferences
      have no visited states and the pool is not empty (the filter callback maps over
      `undefined`, which fails; an empty pool never runs the callback). */
  function OthersPool(pubs: seq<Publicacion>, prefs: seq<Preferencias>, me: Email, friends: seq<Email>, norm: string -> string): (r: Option<seq<Publicacion>>)
    ensures r.None? <==>
      (exists q :: q in prefs && q.correo == me) && OwnedByNone(pubs, me, friends) != [] &&
      Filter(prefs, (q: Preferencias) => q.correo == me)[0].estadosVisitados.None?
    ensures r.Some? ==> forall p :: p in r.value ==> p in OwnedByNone(pubs, me, friends)
  {
    var mine := Filter(prefs, (q: Preferencias) => q.correo == me);
    var others := OwnedByNone(pubs, me, friends);
    if |mine| == 0 then Some(others)
    else if mine[0].estadosVisitados.None? then (if others == [] then Some([]) else None)
    else Some(MatchingPreferences(others, mine[0].estadosVisitados.value, norm))
  }

  class PublicacionController {
    var publications: seq<Publicacion>
    var fotos: seq<Foto>
    var prefs: seq<Preferencias>
    const amigos: AmigoController

    constructor (publications: seq<Publicacion>, prefs: seq<Preferencias>, amigos: AmigoController)
      ensures this.publications == publications && this.prefs == prefs && this.amigos == amigos && fotos == []
    {
      this.publications := publications;
      this.prefs := prefs;
      this.amigos := amigos;
      fotos := [];
    }

    /** The photo loop of `shareItinerary`: one `Foto` per saved URL, in order, all linked to
        the shared publication. */
    method AttachPhotos(publicacionId: nat, urls: seq<string>)
      modifies this
      ensures publications == old(publications) && prefs == old(prefs)
      ensures |fotos| == |old(fotos)| + |urls| && fotos[..|old(fotos)|] == old(fotos)
      ensures forall i :: 0 <= i < |urls| ==> fotos[|old(fotos)| + i] == Foto(urls[i], publicacionId)
    {
      var i := 0;
      while i < |urls|
        invariant 0 <= i <= |urls|
        invariant publications == old(publications) && prefs == old(prefs)
        invariant |fotos| == |old(fotos)| + i && fotos[..|old(fotos)|] == old(fotos)
        invariant forall j :: 0 <= j < i ==> fotos[|old(fotos)| + j] == Foto(urls[j], publicacionId)
      {
        fotos := fotos + [Foto(urls[i], publicacionId)];
        i := i + 1;
      }
    }

    /** `getMyPublications(me)`, with a user without friends given an empty friends'
        segment: mine, then friends', then the others (restricted to the user's visited
        states when preferences exist), each segment highest rating first. */
    method GetMyPublications(me: Email, norm: string -> string) returns (r: Result<seq<Publicacion>>)
      ensures var friends := FeedFriends(amigos.ListFriend(me), me);
              var others := OthersPool(publications, prefs, me, friends, norm);
        if others.None? then r == Err(InternalError)
        else
          var m := |OwnedBy(publications, me)|;
          var f := |OwnedByAny(publications, friends)|;
          r.Ok? && |r.value| == m + f + |others.value| &&
          RankedSegment(r.value[..m], OwnedBy(publications, me)) &&
          RankedSegment(r.value[m..m + f], OwnedByAny(publications, friends)) &&
          RankedSegment(r.value[m + f..], others.value)
    {
      var mine := OwnedBy(publications, me);
      var friends := FeedFriends(amigos.ListFriend(me), me);
      var ofFriends := OwnedByAny(publications, friends);
      var others := OthersPool(publications, prefs, me, friends, norm);
      if others.None? {
        return Err(InternalError);
      }
      var a := SortDesc(mine, Rating);
      var b := SortDesc(ofFriends, Rating);
      var c := SortDesc(others.value, Rating);
      ThreeSegments(a, b, c);
      r := Ok(a + b + c);
    }

    /** `getMyPublications(me)` as written: a user without FRIEND edges gets 400. */
    method GetMyPublicationsAsWritten(me: Email, norm: string -> string) returns (r: Result<seq<Publicacion>>)
      ensures (forall e :: e in amigos.edges ==> !(e.status == Friend && Touches(e, me))) ==> r == Err(BadRequest)
    {
      var friends := FeedFriendsAsWritten(amigos.ListFriend(me), me);
      if friends.Err? {
        return Err(friends.status);
      }
      r := GetMyPublications(me, norm);
    }

    /** `getPublicationWithResenas(id, caller?)`: 404 when missing; public publications are
        open to anyone, private ones only to their owner, everything else is 403. */
    function GetPublicationWithResenas(id: nat, caller: Option<Email>): (r: Result<Publicacion>)
      reads this
      ensures (forall p :: p in publications ==> p.id != id) <==> r == Err(NotFound)
      ensures r.Ok? ==> r.value in publications && r.value.id == id
      ensures r.Ok? ==> !r.value.privacityMode || (Truthy(caller) && caller.value == r.value.owner)
      ensures r.Err? ==> r.status == NotFound || r.status == Forbidden
    {
      var k := FindPublication(publications, id);
      if k.None? then Err(NotFound)
      else
        var p := publications[k.value];
        var canAccess := if !p.privacityMode then true else if Truthy(caller) then p.owner == caller.value else false;
        if canAccess then Ok(p) else Err(Forbidden)
    }

    /** `deletePublication(id, caller)`: 404 when missing, 403 unless the caller shared it;
        otherwise exactly that publication is removed. */
    method DeletePublication(id: nat, caller: Email) returns (r: Result<()>)
      modifies this
      ensures fotos == old(fotos) && prefs == old(prefs)
      ensures var k := FindPublication(old(publications), id);
        if k.None? then r == Err(NotFound) && publications == old(publications)
        else if old(publications)[k.value].owner != caller then r == Err(Forbidden) && publications == old(publications)
        else r == Ok(()) && publications == RemoveAt(old(publications), k.value)
    {
      var k := FindPublication(publications, id);
      if k.None? {
        return Err(NotFound);
      }
      if publications[k.value].owner != caller {
        return Err(Forbidden);
      }
      publications := RemoveAt(publications, k.value);
      r := Ok(());
    }
  }

  /** `findOne({ where: { id } })` on the publication table. */
  function FindPublication(pubs: seq<Publicacion>, id: nat): (r: Option<nat>)
    ensures r.Some? ==> r.value < |pubs| && pubs[r.value].id == id
    ensures r.None? <==> forall p :: p in pubs ==> p.id != id
  {
    if pubs == [] then None
    else if pubs[0].id == id then Some(0)
    else
      var rest := FindPublication(pubs[1..], id);
      if rest.Some? then Some(rest.value + 1) else None
  }

  lemma ThreeSegments<T>(a: seq<T>, b: seq<T>, c: seq<T>)
    ensures (a + b + c)[..|a|] == a && (a + b + c)[|a|..|a| + |b|] == b && (a + b + c)[|a| + |b|..] == c
  {
  }

  /** A private publication is never shown to anyone but its owner. */
  lemma PrivateIsOwnerOnly(c: PublicacionController, id: nat, caller: Option<Email>)
    requires c.GetPublicationWithResenas(id, caller).Ok?
    requires c.GetPublicationWithResenas(id, caller).value.privacityMode
    ensures caller.Some? && caller.value == c.GetPublicationWithResenas(id, caller).value.owner
  {
  }
}

/** The user controller (`UserController`): listing users without their password hashes,
    lookups by address that fail with 404, the profile update merge, the password update and
    check, the public traveller search, profile views, the two counters, and the two ways of
    deleting a user (by address and by user name) together with the user's photo. */
module Users {
  import opened Wrappers
  import opened Text
  import opened Seqs
  import opened Domain
  import opened Files
  import opened Url

  /** A user as `getAllUsers` returns it: every column except the password. */
  datatype PublicUser = PublicUser(
    correo: Email,
    username: string,
    nombreCompleto: string,
    fotoUrl: Option<string>,
    role: UserRole,
    privacityMode: bool)

  function WithoutPassword(u: User): PublicUser {
    PublicUser(u.correo, u.username, u.nombreCompleto, u.fotoUrl, u.role, u.privacityMode)
  }

  /** A listed user with a password hash put back. */
  function WithPassword(p: PublicUser, password: Digest): User {
    User(p.correo, p.username, password, p.nombreCompleto, p.fotoUrl, p.role, p.privacityMode)
  }

  /** The users, one record each and in table order, with nothing lost but the hash. */
  function ListWithoutPasswords(users: seq<User>): (r: seq<PublicUser>)
    ensures |r| == |users|
    ensures forall i :: 0 <= i < |r| ==> WithPassword(r[i], users[i].password) == users[i]
  {
    seq(|users|, i requires 0 <= i < |users| => WithoutPassword(users[i]))
  }

  /** The position of the user with address `correo` (the first, and with distinct
      addresses the only one). */
  function IndexOfCorreo(users: seq<User>, correo: Email): (r: Option<nat>)
    ensures r.Some? ==> r.value < |users| && users[r.value].correo == correo
    ensures r.Some? ==> FindByCorreo(users, correo) == Some(users[r.value])
    ensures r.None? <==> FindByCorreo(users, correo).None?
  {
    if users == [] then None
    else if users[0].correo == correo then Some(0)
    else
      var rest := IndexOfCorreo(users[1..], correo);
      if rest.Some? then Some(rest.value + 1) else None
  }

  /** Changing a user in place but not the address keeps addresses distinct, and the
      changed record is the one found under its address. */
  lemma ReplaceKeepsUniqueCorreos(users: seq<User>, k: nat, u: User)
    requires UniqueCorreos(users) && k < |users| && u.correo == users[k].correo
    ensures UniqueCorreos(users[k := u])
    ensures FindByCorreo(users[k := u], u.correo) == Some(u)
  {
    var s := users[k := u];
    assert UniqueCorreos(s);
    var j := IndexOfCorreo(s, u.correo);
    assert j.Some? by {
      assert s[k] in s;
    }
    assert j.value == k;
  }

  /** Removing the user with address `correo` (`repository.remove(user)`, by primary key)
      takes out exactly that one row and keeps the others, in order. */
  lemma RemoveByCorreo(users: seq<User>, correo: Email)
    requires UniqueCorreos(users) && FindByCorreo(users, correo).Some?
    ensures var rest := Filter(users, (x: User) => x.correo != correo);
      |rest| == |users| - 1 && UniqueCorreos(rest) &&
      FindByCorreo(rest, correo).None? &&
      forall x :: x in users && x.correo != correo ==> x in rest
  {
    var p := (x: User) => x.correo != correo;
    var k := IndexOfCorreo(users, correo).value;
    assert forall i :: 0 <= i < |users| && i != k ==> p(users[i]);
    FilterAllButOne(users, k, p);
    UniqueCorreosAsKeys(users);
    FilterKeepsKeysDistinct(users, p, CorreoOf);
    UniqueCorreosAsKeys(Filter(users, p));
  }

  /** `updateUser`'s merge: user name and full name keep their old values when the input is
      missing or empty, and the privacy mode changes only when given, to true exactly when
      the text is "true". */
  function MergeProfile(u: User, username: Option<string>, nombre: Option<string>, privacity: Option<string>): (r: User)
    ensures r.correo == u.correo && r.password == u.password && r.role == u.role && r.fotoUrl == u.fotoUrl
    ensures !Truthy(username) ==> r.username == u.username
    ensures Truthy(username) ==> r.username == username.value
    ensures !Truthy(nombre) ==> r.nombreCompleto == u.nombreCompleto
    ensures Truthy(nombre) ==> r.nombreCompleto == nombre.value
    ensures privacity.None? ==> r.privacityMode == u.privacityMode
    ensures privacity.Some? ==> (r.privacityMode <==> privacity.value == "true")
  {
    u.(username := if Truthy(username) then username.value else u.username,
       nombreCompleto := if Truthy(nombre) then nombre.value else u.nombreCompleto,
       privacityMode := if privacity.Some? then privacity.value == "true" else u.privacityMode)
  }

  /** Sending the same update twice changes nothing more than sending it once. */
  lemma MergeProfileIdempotent(u: User, username: Option<string>, nombre: Option<string>, privacity: Option<string>)
    ensures var once := MergeProfile(u, username, nombre, privacity);
      MergeProfile(once, username, nombre, privacity) == once
  {
  }

  /** An update with no fields leaves the user as it was. */
  lemma MergeProfileEmpty(u: User)
    ensures MergeProfile(u, None, None, None) == u
  {
  }

  /** What `searchTravelers` returns of a user. */
  datatype TravelerCard = TravelerCard(username: string, nombreCompleto: string, fotoUrl: Option<string>, correo: Email)

  function CardOf(u: User): TravelerCard {
    TravelerCard(u.username, u.nombreCompleto, u.fotoUrl, u.correo)
  }

  /** A traveller found by `term`: a public profile whose full name or user name contains
      the term, ignoring case. */
  predicate TravelerMatch(u: User, term: string) {
    u.privacityMode && (Like(u.nombreCompleto, term) || Like(u.username, term))
  }

  /** `take: 10` of the traveller search. */
  const TravelerLimit: nat := 10

  /** The cards of `found`, in order. */
  function Cards(found: seq<User>): (r: seq<TravelerCard>)
    ensures |r| == |found|
    ensures forall c :: c in r ==> exists u :: u in found && CardOf(u) == c
    ensures forall u :: u in found ==> CardOf(u) in r
  {
    if found == [] then [] else [CardOf(found[0])] + Cards(found[1..])
  }

  /** `searchTravelers(term)`: nothing for a missing or blank term; otherwise at most ten
      matching public profiles in table order, and all of them when fewer match. */
  function SearchTravelers(users: seq<User>, term: Option<string>): (r: seq<TravelerCard>)
    ensures !Truthy(term) || IsBlank(term.value) ==> r == []
    ensures |r| <= TravelerLimit
    ensures forall c :: c in r ==> exists u :: u in users && TravelerMatch(u, term.value) && CardOf(u) == c
    ensures Truthy(term) && !IsBlank(term.value) && |r| < TravelerLimit ==>
      forall u :: u in users && TravelerMatch(u, term.value) ==> CardOf(u) in r
  {
    if !Truthy(term) || IsBlank(term.value) then []
    else
      var matching := Filter(users, (u: User) => TravelerMatch(u, term.value));
      Cards(Take(matching, TravelerLimit))
  }

  /** A publication as the profile views receive it from the publications use case. */
  datatype LoadedPublication = LoadedPublication(
    id: nat,
    descripcion: string,
    privacityMode: bool,
    fotos: seq<string>,
    itinerario: Option<(nat, Option<string>)>)

  datatype ItinerarioRef = ItinerarioRef(id: nat, nombre: string)

  datatype ProfilePublication = ProfilePublication(
    id: nat,
    descripcion: string,
    privacityMode: bool,
    fotos: seq<string>,
    itinerario: Option<ItinerarioRef>)

  /** A profile view: the user without the password, and the user's publications. */
  datatype Profile = Profile(
    correo: Email,
    username: string,
    nombreCompleto: string,
    fotoUrl: Option<string>,
    privacityMode: bool,
    role: UserRole,
    publicaciones: seq<ProfilePublication>)

  /** `pub.itinerario.nombre || "Itinerario"`. */
  function ItinerarioName(nombre: Option<string>): (r: string)
    ensures r != []
    ensures Truthy(nombre) ==> r == nombre.value
  {
    if Truthy(nombre) then nombre.value else "Itinerario"
  }

  function Summary(p: LoadedPublication): ProfilePublication {
    ProfilePublication(p.id, p.descripcion, p.privacityMode, p.fotos,
      if p.itinerario.Some? then Some(ItinerarioRef(p.itinerario.value.0, ItinerarioName(p.itinerario.value.1))) else None)
  }

  /** The profile of `u`; `loaded` is `None` when loading the publications failed, and then
      the list is empty. Every listed itinerary carries a non-empty name. */
  function ProfileOf(u: User, loaded: Option<seq<LoadedPublication>>): (r: Profile)
    ensures r.correo == u.correo && r.username == u.username && r.nombreCompleto == u.nombreCompleto
    ensures r.fotoUrl == u.fotoUrl && r.privacityMode == u.privacityMode && r.role == u.role
    ensures loaded.None? ==> r.publicaciones == []
    ensures loaded.Some? ==> |r.publicaciones| == |loaded.value|
    ensures loaded.Some? ==> forall i :: 0 <= i < |r.publicaciones| ==>
      var p, q := loaded.value[i], r.publicaciones[i];
      q.id == p.id && q.descripcion == p.descripcion && q.privacityMode == p.privacityMode && q.fotos == p.fotos &&
      q.itinerario.Some? == p.itinerario.Some? &&
      (q.itinerario.Some? ==> q.itinerario.value.id == p.itinerario.value.0 && q.itinerario.value.nombre != [])
  {
    var pubs := if loaded.Some? then loaded.value else [];
    Profile(u.correo, u.username, u.nombreCompleto, u.fotoUrl, u.privacityMode, u.role,
      seq(|pubs|, i requires 0 <= i < |pubs| => Summary(pubs[i])))
  }

  /** `findOne({ where: [{ username }, { correo }, { nombre_completo }] })`: the first user
      whose user name, address or full name is `termino`. */
  function FindBySearch(users: seq<User>, termino: string): (r: Option<User>)
    ensures r.Some? ==> (r.value in users &&
      (r.value.username == termino || r.value.correo == termino || r.value.nombreCompleto == termino))
    ensures r.None? <==> forall u :: u in users ==> u.username != termino && u.correo != termino && u.nombreCompleto != termino
  {
    if users == [] then None
    else if users[0].username == termino || users[0].correo == termino || users[0].nombreCompleto == termino then Some(users[0])
    else FindBySearch(users[1..], termino)
  }

  /** An edge with `correo` at either end. */
  predicate Touches(a: Amigo, correo: Email) {
    a.requesting == correo || a.receiving == correo
  }

  /** The number of friendship edges with `correo` at either end, whatever their status. */
  function EdgesOf(amigos: seq<Amigo>, correo: Email): (n: nat)
    ensures n <= |amigos|
    ensures n == 0 <==> forall a :: a in amigos ==> !Touches(a, correo)
  {
    |Filter(amigos, (a: Amigo) => Touches(a, correo))|
  }

  /** The friendship edges left once the row of `correo` is deleted: both ends of an edge
      are foreign keys with `onDelete: "CASCADE"`, so every edge touching the user goes. */
  function Cascade(amigos: seq<Amigo>, correo: Email): (r: seq<Amigo>)
    ensures forall a :: a in r <==> a in amigos && !Touches(a, correo)
  {
    Filter(amigos, (a: Amigo) => !Touches(a, correo))
  }

  /** The deleted user is left with no edge, so a count for them would be 0. */
  lemma CascadeLeavesNoEdge(amigos: seq<Amigo>, gone: Email)
    ensures EdgesOf(Cascade(amigos, gone), gone) == 0
  {
  }

  /** After the cascade another user's friend count drops by exactly the number of edges
      they shared with the deleted user. */
  lemma {:induction false} CascadeFriendCount(amigos: seq<Amigo>, gone: Email, b: Email)
    ensures EdgesOf(Cascade(amigos, gone), b) ==
      EdgesOf(amigos, b) - |Filter(amigos, (a: Amigo) => Touches(a, b) && Touches(a, gone))|
  {
    if amigos != [] {
      CascadeFriendCount(amigos[1..], gone, b);
      CascadeStep(amigos, gone, b);
    }
  }

  /** One step of `CascadeFriendCount`: every filter involved unfolds at the head edge. */
  lemma CascadeStep(amigos: seq<Amigo>, gone: Email, b: Email)
    requires amigos != []
    ensures var a := amigos[0];
      var rest := amigos[1..];
      EdgesOf(Cascade(amigos, gone), b) == EdgesOf(Cascade(rest, gone), b) + (if !Touches(a, gone) && Touches(a, b) then 1 else 0) &&
      EdgesOf(amigos, b) == EdgesOf(rest, b) + (if Touches(a, b) then 1 else 0) &&
      |Filter(amigos, (e: Amigo) => Touches(e, b) && Touches(e, gone))| ==
        |Filter(rest, (e: Amigo) => Touches(e, b) && Touches(e, gone))| + (if Touches(a, b) && Touches(a, gone) then 1 else 0)
  {
    var a := amigos[0];
    var rest := amigos[1..];
    var keep := Cascade(rest, gone);
    if !Touches(a, gone) {
      assert Cascade(amigos, gone) == [a] + keep;
      assert ([a] + keep)[1..] == keep;
    }
  }

  /** A user with a row in the preferences table: `Preferencias.usuario` is a foreign key
      with no delete action, so the database refuses to delete that user. */
  predicate HasPreferences(preferencias: seq<Preferencias>, correo: Email) {
    exists q :: q in preferencias && q.correo == correo
  }

  /** The friend count depends only on the ends of the edges: accepting, rejecting or
      blocking a request does not change it. */
  lemma EdgesOfIgnoresStatus(amigos: seq<Amigo>, changed: seq<Amigo>, correo: Email)
    requires |changed| == |amigos|
    requires forall i :: 0 <= i < |amigos| ==>
      changed[i].requesting == amigos[i].requesting && changed[i].receiving == amigos[i].receiving
    ensures EdgesOf(changed, correo) == EdgesOf(amigos, correo)
  {
    FilterSameLength(changed, (a: Amigo) => Touches(a, correo), amigos, (a: Amigo) => Touches(a, correo));
  }

  /** The number of itineraries owned by `correo`. */
  function ItinerariesOf(itinerarios: seq<Itinerario>, correo: Email): (n: nat)
    ensures n <= |itinerarios|
    ensures n == 0 <==> forall it :: it in itinerarios ==> it.owner != correo
  {
    |Filter(itinerarios, (it: Itinerario) => it.owner == correo)|
  }

  /** The directory after `deleteFile(url)`: the file it finds is gone, and nothing changes
      when it finds none (the call then fails). */
  function AfterDelete(stored: set<string>, url: string): set<string> {
    match DeleteTarget(stored, url)
    case Some(f) => stored - {f}
    case None => stored
  }

  /** The outcome of the photo step of `updateUser` and the directory after it. */
  function PhotoChange(stored: set<string>, host: string, u: User, foto: Option<string>, now: nat, random: nat):
    (r: (Result<User>, set<string>))
    ensures foto.None? ==> r == (Ok(u), stored)
    ensures r.0.Ok? ==> (r.0.value.correo == u.correo && r.0.value.username == u.username &&
      r.0.value.password == u.password && r.0.value.privacityMode == u.privacityMode)
    ensures r.0.Err? ==> r.0.status == InternalError
    ensures foto.Some? && r.0.Ok? ==>
      var name := StoredName(now, random, foto.value);
      r.0.value.fotoUrl == Some(PublicUrl(host, name)) && name in r.1
    ensures Truthy(u.fotoUrl) && foto.Some? && DeleteTarget(stored, u.fotoUrl.value).None? ==> r == (Err(InternalError), stored)
  {
    if foto.None? then (Ok(u), stored)
    else if Truthy(u.fotoUrl) && DeleteTarget(stored, u.fotoUrl.value).None? then (Err(InternalError), stored)
    else
      var cleared := if Truthy(u.fotoUrl) then AfterDelete(stored, u.fotoUrl.value) else stored;
      if !ExtensionAllowed(foto.value) || '/' in foto.value then (Err(InternalError), cleared)
      else
        var name := StoredName(now, random, foto.value);
        (Ok(u.(fotoUrl := Some(PublicUrl(host, name)))), cleared + {name})
  }

  /** The new photo's URL reads back as the stored name spelled for a URL; the directory
      holds a file under that spelling when the uploaded name is clean. */
  lemma PhotoChangeReadsBack(stored: set<string>, host: string, u: User, foto: Option<string>, now: nat, random: nat)
    requires IsOrigin(host) && foto.Some? && PhotoChange(stored, host, u, foto, now, random).0.Ok?
    ensures var r := PhotoChange(stored, host, u, foto, now, random);
      var name := StoredName(now, random, foto.value);
      r.0.value.fotoUrl.Some? && UrlBasename(r.0.value.fotoUrl.value) == Some(UrlName(name)) &&
      (PathClean(foto.value) ==> UrlName(name) in r.1)
  {
    var name := StoredName(now, random, foto.value);
    PublicUrlNamesFile(host, name);
    StoredNamePlain(now, random, foto.value);
  }

  /** A current photo published under a name that is not plain cannot be deleted by its
      URL (unless a file happens to carry the encoded name), so the photo step fails with
      500 and the directory keeps it. */
  lemma EncodedPhotoBlocksChange(stored: set<string>, host: string, u: User, photo: string,
                                 foto: Option<string>, now: nat, random: nat)
    requires IsOrigin(host) && forall f :: f in stored ==> '/' !in f
    requires photo in stored && u.fotoUrl == Some(PublicUrl(host, photo))
    requires !UrlPlain(photo) && UrlName(photo) !in stored && foto.Some?
    ensures PhotoChange(stored, host, u, foto, now, random) == (Err(InternalError), stored)
  {
    DeleteByPublicUrl(stored, host, photo);
    assert PublicUrl(host, photo)[0] == host[0];
  }

  class UserController {
    var users: seq<User>
    var amigos: seq<Amigo>
    var itinerarios: seq<Itinerario>
    var preferencias: seq<Preferencias>
    const files: FileDataSource

    ghost predicate Valid()
      reads this, files
    {
      UniqueCorreos(users) && files.Valid()
    }

    constructor (users: seq<User>, amigos: seq<Amigo>, itinerarios: seq<Itinerario>, preferencias: seq<Preferencias>,
                 files: FileDataSource)
      requires UniqueCorreos(users) && files.Valid()
      ensures Valid()
      ensures this.users == users && this.amigos == amigos && this.itinerarios == itinerarios &&
        this.preferencias == preferencias && this.files == files
    {
      this.users := users;
      this.amigos := amigos;
      this.itinerarios := itinerarios;
      this.preferencias := preferencias;
      this.files := files;
    }

    /** `getAllUsers()`: every user, without the password hash. */
    function GetAllUsers(): (r: seq<PublicUser>)
      reads this
      ensures |r| == |users|
      ensures forall i :: 0 <= i < |r| ==> r[i].correo == users[i].correo && WithPassword(r[i], users[i].password) == users[i]
    {
      ListWithoutPasswords(users)
    }

    /** `getUserInfo(correo)`: the user with that address, or 404. */
    function GetUserInfo(correo: Email): (r: Result<User>)
      reads this
      ensures r.Ok? ==> r.value in users && r.value.correo == correo
      ensures r.Err? <==> forall u :: u in users ==> u.correo != correo
      ensures r.Err? ==> r.status == NotFound
    {
      match FindByCorreo(users, correo)
      case None => Err(NotFound)
      case Some(u) => Ok(u)
    }

    /** `deleteUser(correo)`: 404 for an unknown address; the user's photo is deleted first,
        and a failure there (500) leaves the user in place. Then the row is removed: a user
        with preferences is refused by the database (500, the photo already gone); otherwise
        exactly that user goes, with every friendship edge touching them. */
    method DeleteUser(correo: Email) returns (r: Result<User>)
      requires Valid()
      modifies this, files
      ensures Valid()
      ensures itinerarios == old(itinerarios) && preferencias == old(preferencias)
      ensures match FindByCorreo(old(users), correo)
        case None => r == Err(NotFound) && users == old(users) && amigos == old(amigos) && files.stored == old(files.stored)
        case Some(u) =>
          if Truthy(u.fotoUrl) && DeleteTarget(old(files.stored), u.fotoUrl.value).None? then
            r == Err(InternalError) && users == old(users) && amigos == old(amigos) && files.stored == old(files.stored)
          else
            files.stored == (if Truthy(u.fotoUrl) then AfterDelete(old(files.stored), u.fotoUrl.value) else old(files.stored)) &&
            if HasPreferences(old(preferencias), correo) then
              r == Err(InternalError) && users == old(users) && amigos == old(amigos)
            else
              r == Ok(u) && users == Filter(old(users), (x: User) => x.correo != correo) &&
              |users| == |old(users)| - 1 && FindByCorreo(users, correo).None? &&
              amigos == Cascade(old(amigos), correo)
    {
      var found := FindByCorreo(users, correo);
      if found.None? {
        return Err(NotFound);
      }
      var u := found.value;
      if Truthy(u.fotoUrl) {
        var deleted := files.DeleteFile(u.fotoUrl.value);
        if deleted.Err? {
          return Err(InternalError);
        }
      }
      var removed := RemoveRow(correo);
      r := if removed then Ok(u) else Err(InternalError);
    }

    /** `repository.remove(user)`: refused (false) while the user has preferences; otherwise
        the row with that address goes, the other users stay, and the database cascades the
        user's friendship edges away. */
    method RemoveRow(correo: Email) returns (removed: bool)
      requires Valid() && FindByCorreo(users, correo).Some?
      modifies this
      ensures Valid()
      ensures removed <==> !HasPreferences(preferencias, correo)
      ensures itinerarios == old(itinerarios) && preferencias == old(preferencias)
      ensures removed ==>
        users == Filter(old(users), (x: User) => x.correo != correo) &&
        |users| == |old(users)| - 1 && FindByCorreo(users, correo).None? &&
        amigos == Cascade(old(amigos), correo)
      ensures !removed ==> users == old(users) && amigos == old(amigos)
    {
      removed := !HasPreferences(preferencias, correo);
      if removed {
        RemoveByCorreo(users, correo);
        users := Filter(users, (x: User) => x.correo != correo);
        DropEdges(correo);
      }
    }

    /** The database's cascade on the friendship edges of a deleted user. */
    method DropEdges(correo: Email)
      modifies this
      ensures amigos == Cascade(old(amigos), correo)
      ensures users == old(users) && itinerarios == old(itinerarios) && preferencias == old(preferencias)
    {
      amigos := Cascade(amigos, correo);
    }

    /** `updateUser(correo, body)`: 404 for an unknown address; the fields are merged; with
        a new photo the old one is deleted first and the new one saved, and a failure of
        either (500) leaves the user row as it was. */
    method UpdateUser(correo: Email, username: Option<string>, nombre: Option<string>, privacity: Option<string>,
                      foto: Option<string>, now: nat, random: nat) returns (r: Result<User>)
      requires Valid()
      modifies this, files
      ensures Valid()
      ensures amigos == old(amigos) && itinerarios == old(itinerarios) && preferencias == old(preferencias)
      ensures FindByCorreo(old(users), correo).None? ==>
        r == Err(NotFound) && users == old(users) && files.stored == old(files.stored)
      ensures FindByCorreo(old(users), correo).Some? ==>
        var merged := MergeProfile(FindByCorreo(old(users), correo).value, username, nombre, privacity);
        var photo := PhotoChange(old(files.stored), files.hostUrl, merged, foto, now, random);
        files.stored == photo.1 &&
        if photo.0.Err? then r == Err(InternalError) && users == old(users)
        else r == photo.0 && users == old(users)[IndexOfCorreo(old(users), correo).value := photo.0.value]
      ensures r.Ok? ==> FindByCorreo(users, correo) == Some(r.value)
    {
      var k := IndexOfCorreo(users, correo);
      if k.None? {
        return Err(NotFound);
      }
      var u := MergeProfile(users[k.value], username, nombre, privacity);
      var changed := ChangePhoto(u, foto, now, random);
      if changed.Err? {
        return Err(InternalError);
      }
      ReplaceKeepsUniqueCorreos(users, k.value, changed.value);
      users := users[k.value := changed.value];
      r := changed;
    }

    /** The photo step of `updateUser`: with no new photo nothing happens; otherwise the old
        photo is deleted (500 when that fails) and the new one saved (500 when that fails,
        the old photo being gone already). */
    method ChangePhoto(u: User, foto: Option<string>, now: nat, random: nat) returns (r: Result<User>)
      requires files.Valid()
      modifies files
      ensures files.Valid()
      ensures (r, files.stored) == PhotoChange(old(files.stored), files.hostUrl, u, foto, now, random)
    {
      if foto.None? {
        return Ok(u);
      }
      if Truthy(u.fotoUrl) {
        var deleted := files.DeleteFile(u.fotoUrl.value);
        if deleted.Err? {
          return Err(InternalError);
        }
      }
      var url := files.SaveFile(foto.value, now, random);
      if url.Err? {
        return Err(InternalError);
      }
      r := Ok(u.(fotoUrl := Some(url.value)));
    }

    /** `updatePassword(correo, newPassword)`: 404 for an unknown address; otherwise the
        stored hash is the hash of the new password, so that it is now the one accepted. */
    method UpdatePassword(correo: Email, newPassword: string) returns (r: Result<()>)
      requires Valid()
      modifies this
      ensures Valid()
      ensures amigos == old(amigos) && itinerarios == old(itinerarios) && preferencias == old(preferencias)
      ensures FindByCorreo(old(users), correo).None? ==> r == Err(NotFound) && users == old(users)
      ensures FindByCorreo(old(users), correo).Some? ==>
        var k := IndexOfCorreo(old(users), correo).value;
        r == Ok(()) && users == old(users)[k := old(users)[k].(password := Hash(newPassword))]
      ensures r.Ok? ==> VerifyPassword(correo, newPassword) == Ok(true)
    {
      var k := IndexOfCorreo(users, correo);
      if k.None? {
        return Err(NotFound);
      }
      var u := users[k.value].(password := Hash(newPassword));
      ReplaceKeepsUniqueCorreos(users, k.value, u);
      users := users[k.value := u];
      r := Ok(());
    }

    /** `verifyPassword(correo, password)`: 404 for an unknown address; otherwise whether
        the password is the one whose hash is stored. */
    function VerifyPassword(correo: Email, password: string): (r: Result<bool>)
      reads this
      ensures r.Err? <==> forall u :: u in users ==> u.correo != correo
      ensures r.Err? ==> r.status == NotFound
      ensures r.Ok? ==> (r.value <==> FindByCorreo(users, correo).value.password == Hash(password))
    {
      match FindByCorreo(users, correo)
      case None => Err(NotFound)
      case Some(u) => Ok(Domain.VerifyPassword(password, u.password))
    }

    /** `searchTravelers(term)` over the user table. */
    function Travelers(term: Option<string>): (r: seq<TravelerCard>)
      reads this
      ensures |r| <= TravelerLimit
      ensures Truthy(term) && !IsBlank(term.value) ==>
        forall c :: c in r ==> exists u :: u in users && u.privacityMode && CardOf(u) == c
    {
      SearchTravelers(users, term)
    }

    /** `getProfileBySearch(termino)`: 404 when no user has that user name, address or full
        name; otherwise the first such user's profile. */
    function GetProfileBySearch(termino: string, loaded: Option<seq<LoadedPublication>>): (r: Result<Profile>)
      reads this
      ensures r.Err? <==> forall u :: u in users ==> u.username != termino && u.correo != termino && u.nombreCompleto != termino
      ensures r.Err? ==> r.status == NotFound
      ensures r.Ok? ==> exists u :: (u in users && (u.username == termino || u.correo == termino || u.nombreCompleto == termino) &&
        r.value == ProfileOf(u, loaded))
    {
      match FindBySearch(users, termino)
      case None => Err(NotFound)
      case Some(u) => Ok(ProfileOf(u, loaded))
    }

    /** `getProfileByUsername(username)`: 404 when no user has that user name; otherwise
        the profile of the first user (in table order) with that name. */
    function GetProfileByUsername(username: string, loaded: Option<seq<LoadedPublication>>): (r: Result<Profile>)
      reads this
      ensures r.Err? <==> forall u :: u in users ==> u.username != username
      ensures r.Err? ==> r.status == NotFound
      ensures r.Ok? ==> (r.value.username == username &&
        exists i :: FirstNamed(users, username, i) && r.value == ProfileOf(users[i], loaded))
    {
      match FindByUsername(users, username)
      case None => Err(NotFound)
      case Some(u) => Ok(ProfileOf(u, loaded))
    }

    /** `getItineraryCount(correo)`: 404 for an unknown address. */
    function GetItineraryCount(correo: Email): (r: Result<nat>)
      reads this
      ensures r.Err? <==> forall u :: u in users ==> u.correo != correo
      ensures r.Err? ==> r.status == NotFound
      ensures r.Ok? ==> r.value == ItinerariesOf(itinerarios, correo)
    {
      if FindByCorreo(users, correo).None? then Err(NotFound) else Ok(ItinerariesOf(itinerarios, correo))
    }

    /** `getFriendsCount(correo)`: 404 for an unknown address; otherwise every edge with the
        user at either end counts, pending, rejected and blocked ones included. */
    function GetFriendsCount(correo: Email): (r: Result<nat>)
      reads this
      ensures r.Err? <==> forall u :: u in users ==> u.correo != correo
      ensures r.Err? ==> r.status == NotFound
      ensures r.Ok? ==> r.value == EdgesOf(amigos, correo)
    {
      if FindByCorreo(users, correo).None? then Err(NotFound) else Ok(EdgesOf(amigos, correo))
    }

    /** `deleteUserByUsername(username)`: 404 when no user has that user name; otherwise,
        for the first user (in table order) with that name, the photo deletion is attempted,
        its failure ignored, and the row removed as in `deleteUser`: refused (500) while the
        user has preferences, otherwise with every friendship edge touching the user. */
    method DeleteUserByUsername(username: string) returns (r: Result<string>)
      requires Valid()
      modifies this, files
      ensures Valid()
      ensures itinerarios == old(itinerarios) && preferencias == old(preferencias)
      ensures match FindByUsername(old(users), username)
        case None => r == Err(NotFound) && users == old(users) && amigos == old(amigos) && files.stored == old(files.stored)
        case Some(u) =>
          (exists i :: FirstNamed(old(users), username, i) && u == old(users)[i]) &&
          files.stored == (if Truthy(u.fotoUrl) then AfterDelete(old(files.stored), u.fotoUrl.value) else old(files.stored)) &&
          if HasPreferences(old(preferencias), u.correo) then
            r == Err(InternalError) && users == old(users) && amigos == old(amigos)
          else
            r == Ok(username) && users == Filter(old(users), (x: User) => x.correo != u.correo) &&
            |users| == |old(users)| - 1 && FindByCorreo(users, u.correo).None? &&
            amigos == Cascade(old(amigos), u.correo)
    {
      var found := FindByUsername(users, username);
      if found.None? {
        return Err(NotFound);
      }
      var u := found.value;
      if Truthy(u.fotoUrl) {
        var _ := files.DeleteFile(u.fotoUrl.value);
      }
      assert FindByCorreo(users, u.correo).Some? by {
        assert u in users;
      }
      var removed := RemoveRow(u.correo);
      r := if removed then Ok(username) else Err(InternalError);
    }
  }
}

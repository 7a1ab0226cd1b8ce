/** Registration and login (`AuthController`): unique address and user name, the stored
    role, the password kept only as its hash, the optional photo, and the login checks. The
    role a registration asks for arrives by one of two routes: the public `/auth/register`
    and the administrators' `/user/admin/register`. */
module Auth {
  import opened Wrappers
  import opened Text
  import opened Domain
  import opened Files
  import opened Url

  /** `role === UserRole.ADMIN ? UserRole.ADMIN : UserRole.USER`. */
  function StoredRole(requested: Option<string>): (r: UserRole)
    ensures r == RoleAdmin <==> requested == Some("admin")
    ensures r != RoleModerator
  {
    if requested == Some("admin") then RoleAdmin else RoleUser
  }

  /** The two registration routes. */
  datatype RegisterRoute = PublicRoute | AdminRoute

  /** `/user/admin/register`: `body.role === "admin" ? "admin" : "user"`. */
  function AdminRouteRole(requested: Option<string>): (r: Option<string>)
    ensures r.Some? && (r.value == "admin" <==> requested == Some("admin"))
  {
    Some(if requested == Some("admin") then "admin" else "user")
  }

  /** The role each route hands to `doRegister`, as written: the public route passes the
      body's `role` through unchanged. */
  function RoleForwardedAsWritten(route: RegisterRoute, requested: Option<string>): (r: Option<string>)
    ensures route == PublicRoute ==> r == requested
    ensures route == AdminRoute ==> r == AdminRouteRole(requested)
  {
    match route
    case PublicRoute => requested
    case AdminRoute => AdminRouteRole(requested)
  }

  /** As written, anyone can create an administrator through the public route, which needs
      no token at all, although the route that exists for that purpose requires one. */
  lemma SelfPromotionAsWritten()
    ensures StoredRole(RoleForwardedAsWritten(PublicRoute, Some("admin"))) == RoleAdmin
  {
  }

  /** The role each route should hand to `doRegister`: the public route none, the
      administrators' route the one asked for. */
  function RoleForwarded(route: RegisterRoute, requested: Option<string>): (r: Option<string>)
    ensures route == PublicRoute ==> r.None?
    ensures route == AdminRoute ==> r == AdminRouteRole(requested)
  {
    match route
    case PublicRoute => None
    case AdminRoute => AdminRouteRole(requested)
  }

  /** With the corrected forwarding, the public route only ever stores ordinary users, and
      the administrators' route stores the role asked for. */
  lemma PublicRegisterNeverAdmin(requested: Option<string>)
    ensures StoredRole(RoleForwarded(PublicRoute, requested)) == RoleUser
    ensures StoredRole(RoleForwarded(AdminRoute, requested)) == StoredRole(requested)
    ensures StoredRole(RoleForwarded(AdminRoute, requested)) == StoredRole(RoleForwardedAsWritten(AdminRoute, requested))
  {
  }

  /** The row `doRegister` saves: the hash of the password, the stored role, a public
      profile (the column default), and the photo URL when one was saved. */
  function NewUser(correo: Email, username: string, password: string, nombre: string,
                   role: Option<string>, fotoUrl: Option<string>): (u: User)
    ensures u.correo == correo && u.username == username && u.nombreCompleto == nombre
    ensures u.password == Hash(password) && Domain.VerifyPassword(password, u.password)
    ensures u.role == StoredRole(role) && u.privacityMode && u.fotoUrl == fotoUrl
  {
    User(correo, username, Hash(password), nombre, fotoUrl, StoredRole(role), true)
  }

  /** A user that can be appended without repeating an address is then the one found
      under it. */
  lemma {:induction false} FindAppended(users: seq<User>, u: User)
    requires forall x :: x in users ==> x.correo != u.correo
    ensures FindByCorreo(users + [u], u.correo) == Some(u)
    ensures UniqueCorreos(users) ==> UniqueCorreos(users + [u])
  {
    if users != [] {
      assert (users + [u])[1..] == users[1..] + [u];
      FindAppended(users[1..], u);
    } else {
      assert users + [u] == [u];
    }
    if UniqueCorreos(users) {
      var s := users + [u];
      forall i, j | 0 <= i < j < |s| ensures s[i].correo != s[j].correo {
        assert s[i] == users[i];
        if j < |users| { assert s[j] == users[j]; }
        else { assert users[i] in users; }
      }
    }
  }

  class AuthController {
    var users: seq<User>
    const files: FileDataSource

    ghost predicate Valid()
      reads this, files
    {
      UniqueCorreos(users) && files.Valid()
    }

    constructor (users: seq<User>, files: FileDataSource)
      requires UniqueCorreos(users) && files.Valid()
      ensures Valid() && this.users == users && this.files == files
    {
      this.users := users;
      this.files := files;
    }

    /** `doRegister(data)`: 409 when the address is registered, then 409 when the user name
        is taken; the photo is saved only when one was sent (and a failure there, 500, saves
        no user); then the new user is saved, and can log in with the password given. */
    method DoRegister(correo: Email, username: string, password: string, nombre: string,
                      role: Option<string>, foto: Option<string>, now: nat, random: nat) returns (r: Result<User>)
      requires Valid()
      modifies this, files
      ensures Valid()
      ensures FindByCorreo(old(users), correo).Some? ==>
        r == Err(Conflict) && users == old(users) && files.stored == old(files.stored)
      ensures FindByCorreo(old(users), correo).None? && FindByUsername(old(users), username).Some? ==>
        r == Err(Conflict) && users == old(users) && files.stored == old(files.stored)
      ensures foto.None? ==> files.stored == old(files.stored)
      ensures FindByCorreo(old(users), correo).None? && FindByUsername(old(users), username).None? && foto.None? ==>
        r == Ok(NewUser(correo, username, password, nombre, role, None))
      ensures FindByCorreo(old(users), correo).None? && FindByUsername(old(users), username).None? && foto.Some? ==>
        if !ExtensionAllowed(foto.value) || '/' in foto.value then
          r == Err(InternalError) && users == old(users) && files.stored == old(files.stored)
        else
          var name := StoredName(now, random, foto.value);
          r == Ok(NewUser(correo, username, password, nombre, role, Some(PublicUrl(files.hostUrl, name)))) &&
          files.stored == old(files.stored) + {name}
      ensures r.Ok? ==> users == old(users) + [r.value]
      ensures r.Ok? ==> DoLogin(correo, password) == Ok(r.value)
    {
      if FindByCorreo(users, correo).Some? {
        return Err(Conflict);
      }
      if FindByUsername(users, username).Some? {
        return Err(Conflict);
      }
      var fotoUrl := None;
      if foto.Some? {
        var saved := files.SaveFile(foto.value, now, random);
        if saved.Err? {
          return Err(InternalError);
        }
        fotoUrl := Some(saved.value);
      }
      var u := NewUser(correo, username, password, nombre, role, fotoUrl);
      FindAppended(users, u);
      users := users + [u];
      r := Ok(u);
    }

    /** Registration through `route`, with the corrected role forwarding. */
    method Register(route: RegisterRoute, correo: Email, username: string, password: string, nombre: string,
                    role: Option<string>, foto: Option<string>, now: nat, random: nat) returns (r: Result<User>)
      requires Valid()
      modifies this, files
      ensures Valid()
      ensures r.Ok? ==> users == old(users) + [r.value] && r.value.correo == correo
      ensures r.Ok? && route == PublicRoute ==> r.value.role == RoleUser
      ensures r.Ok? && route == AdminRoute ==> r.value.role == StoredRole(role)
    {
      PublicRegisterNeverAdmin(role);
      r := DoRegister(correo, username, password, nombre, RoleForwarded(route, role), foto, now, random);
    }

    /** `doLogin({ correo, password })`: 401 for an unknown address and 401 for a wrong
        password; otherwise the stored user. */
    function DoLogin(correo: Email, password: string): (r: Result<User>)
      reads this
      ensures r.Err? ==> r.status == Unauthorized
      ensures r.Ok? ==> r.value in users && r.value.correo == correo && Domain.VerifyPassword(password, r.value.password)
      ensures (forall u :: u in users ==> u.correo != correo) ==> r.Err?
      ensures UniqueCorreos(users) ==>
        (r.Ok? <==> exists u :: u in users && u.correo == correo && Domain.VerifyPassword(password, u.password))
    {
      match FindByCorreo(users, correo)
      case None => Err(Unauthorized)
      case Some(u) =>
        if Domain.VerifyPassword(password, u.password) then Ok(u) else Err(Unauthorized)
    }
  }
}

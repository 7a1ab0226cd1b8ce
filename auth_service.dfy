/** The authentication hook (`authService`) and the role guard (`authRole`). The hook reads
    the `token` header, removes a "Bearer " prefix, verifies the rest and copies the
    verified identity into the shared `store.user`; the guard admits only a given role. The
    token verifier is a parameter: it returns the identity a token carries, or nothing when
    the token is invalid or expired. */
module AuthService {
  import opened Wrappers
  import opened Text
  import opened Domain

  const BearerPrefix: string := "Bearer "

  /** `token.replace("Bearer ", "")`: the first occurrence of the prefix is removed. */
  function StripBearer(token: string): (r: string)
    ensures !Contains(token, BearerPrefix) ==> r == token
    ensures |r| <= |token|
  {
    ReplaceFirst(token, BearerPrefix, "")
  }

  /** A header `Bearer <jwt>` gives `<jwt>`. */
  lemma StripBearerOfHeader(jwt: string)
    ensures StripBearer(BearerPrefix + jwt) == jwt
  {
    ReplaceFirstRemovesLeadingOccurrence(BearerPrefix, jwt, "");
  }

  /** `authRole(required)` for the identity in the store: 403 unless the roles agree. */
  function AuthRole(required: string, user: Payload): (r: Result<()>)
    ensures r.Err? <==> user.role != required
    ensures r.Err? ==> r.status == Forbidden
  {
    if user.role != required then Err(Forbidden) else Ok(())
  }

  /** The application state shared by the requests: `store.user`. */
  class AuthStore {
    var user: Payload

    /** `{} as Payload`: no field set, so no role matches. */
    constructor ()
      ensures user == Payload("", "", "")
    {
      user := Payload("", "", "");
    }

    /** The hook: a missing header is a validation error (400); a token that does not
        verify is 401 and leaves the store as it was; otherwise the store holds the verified
        identity, and a guard then admits the request exactly when that identity has the
        role it asks for. */
    method BeforeHandle(token: Option<string>, verify: string -> Option<Payload>) returns (r: Result<()>)
      modifies this
      ensures token.None? ==> r == Err(BadRequest) && user == old(user)
      ensures token.Some? && verify(StripBearer(token.value)).None? ==> r == Err(Unauthorized) && user == old(user)
      ensures token.Some? && verify(StripBearer(token.value)).Some? ==>
        r == Ok(()) && user == verify(StripBearer(token.value)).value
      ensures r.Ok? ==> forall required :: AuthRole(required, user).Ok? <==> verify(StripBearer(token.value)).value.role == required
    {
      if token.None? {
        return Err(BadRequest);
      }
      var verified := verify(StripBearer(token.value));
      if verified.None? {
        return Err(Unauthorized);
      }
      user := user.(correo := verified.value.correo);
      user := user.(username := verified.value.username);
      user := user.(role := verified.value.role);
      r := Ok(());
    }

    /** The guard on the stored identity. */
    function Guard(required: string): (r: Result<()>)
      reads this
      ensures r.Ok? <==> user.role == required
    {
      AuthRole(required, user)
    }
  }
}

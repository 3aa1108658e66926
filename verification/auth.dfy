/** Who may call a handler: the token-acceptance chain and the
    verification and admin gates, over HTTP and over WebSocket. */
module Auth {
  import opened Common
  import opened Models
  import opened Security
  import opened Cache

  /** The authenticated caller, with the token's expiry claim. */
  datatype Principal = Principal(id: Id, user: User, exp: Option<int>)

  const CredentialsError: string := "Could not validate credentials"
  const NotAuthenticated: string := "Not authenticated"
  const NotVerified: string := "Your email not verified"
  const AdminRequired: string := "Admin access required"
  /** `WS_1008_POLICY_VIOLATION`. */
  const PolicyViolation: int := 1008

  /** `get_current_user`, rejecting with 401 in order: a missing bearer token,
      a blacklisted token (before it is decoded), a token that fails to decode
      or has no `sub`, and a `sub` that names no user. A `sub` that `int()`
      cannot read raises an unhandled error. */
  function GetCurrentUser(db: Db, cache: Store, c: Crypto, token: Option<string>): (r: Reply<Principal>)
    ensures token.None? ==> r == Error(401, NotAuthenticated)
    ensures token.Some? && Blacklisted(cache, token.value) ==> r == Error(401, CredentialsError)
    ensures token.Some? && !Blacklisted(cache, token.value) && c.decode(token.value).None? ==>
              r == Error(401, CredentialsError)
    ensures (token.Some? && !Blacklisted(cache, token.value) && c.decode(token.value).Some? &&
             c.decode(token.value).value.sub.None?) ==> r == Error(401, CredentialsError)
    ensures r.Error? && r.code != 401 ==> r.code == 500
    ensures r.Ok? <==> token.Some? && !Blacklisted(cache, token.value) && c.decode(token.value).Some? &&
                       c.decode(token.value).value.sub.Some? && c.decode(token.value).value.sub.value.IntSub? &&
                       0 <= c.decode(token.value).value.sub.value.n && c.decode(token.value).value.sub.value.n in db.users
    ensures r.Ok? ==> r.value.id == c.decode(token.value).value.sub.value.n && r.value.user == db.users[r.value.id]
                      && r.value.exp == c.decode(token.value).value.exp
  {
    if token.None? then Error(401, NotAuthenticated)
    else if Blacklisted(cache, token.value) then Error(401, CredentialsError)
    else AcceptToken(db, c, token.value, 401)
  }

  /** The checks after the blacklist, shared with the WebSocket path, which
      reports a rejection with its own code. */
  function AcceptToken(db: Db, c: Crypto, token: string, rejectCode: int): (r: Reply<Principal>)
    requires rejectCode != 500
    ensures r.Error? ==> r.code == rejectCode || r.code == 500
    ensures r.Error? && r.code == 500 <==> c.decode(token).Some? && c.decode(token).value.sub == Some(NonIntSub)
    ensures r.Ok? <==> c.decode(token).Some? && c.decode(token).value.sub.Some? && c.decode(token).value.sub.value.IntSub? &&
                       0 <= c.decode(token).value.sub.value.n && c.decode(token).value.sub.value.n in db.users
    ensures r.Ok? ==> r.value.id == c.decode(token).value.sub.value.n && r.value.user == db.users[r.value.id]
                      && r.value.exp == c.decode(token).value.exp
  {
    match c.decode(token)
    case None => Error(rejectCode, CredentialsError)
    case Some(p) =>
      match p.sub
      case None => Error(rejectCode, CredentialsError)
      case Some(NonIntSub) => Error(500, InternalError)
      case Some(IntSub(n)) =>
        if 0 <= n && n in db.users then Ok(Principal(n, db.users[n], p.exp))
        else Error(rejectCode, CredentialsError)
  }

  /** `get_verified_user`: an unverified caller gets 403. */
  function GetVerifiedUser(r: Reply<Principal>): (v: Reply<Principal>)
    ensures r.Error? ==> v == r
    ensures r.Ok? && !r.value.user.isVerified ==> v == Error(403, NotVerified)
    ensures v.Ok? <==> r.Ok? && r.value.user.isVerified
    ensures v.Ok? ==> v == r
  {
    if r.Error? then r
    else if !r.value.user.isVerified then Error(403, NotVerified)
    else r
  }

  /** `get_current_admin` in `utils.py`: verification is checked before admin
      rights. */
  function GetCurrentAdminVerified(r: Reply<Principal>): (v: Reply<Principal>)
    ensures r.Error? ==> v == r
    ensures r.Ok? && !r.value.user.isVerified ==> v == Error(403, NotVerified)
    ensures r.Ok? && r.value.user.isVerified && !r.value.user.isAdmin ==> v == Error(403, AdminRequired)
    ensures v.Ok? <==> r.Ok? && r.value.user.isVerified && r.value.user.isAdmin
  {
    var w := GetVerifiedUser(r);
    if w.Error? then w
    else if !w.value.user.isAdmin then Error(403, AdminRequired)
    else w
  }

  /** `get_current_admin` in `main.py`: admin rights only, no verification. */
  function GetCurrentAdmin(r: Reply<Principal>): (v: Reply<Principal>)
    ensures r.Error? ==> v == r
    ensures r.Ok? && !r.value.user.isAdmin ==> v == Error(403, AdminRequired)
    ensures v.Ok? <==> r.Ok? && r.value.user.isAdmin
  {
    if r.Error? then r
    else if !r.value.user.isAdmin then Error(403, AdminRequired)
    else r
  }

  /** The two admin gates let different callers through exactly for admins
      whose email is not verified: `utils.py` refuses them, `main.py` does
      not. An unverified non-admin is refused by both, with different details. */
  lemma AdminGatesDisagree(r: Reply<Principal>)
    ensures GetCurrentAdminVerified(r).Ok? != GetCurrentAdmin(r).Ok? <==>
            r.Ok? && r.value.user.isAdmin && !r.value.user.isVerified
    ensures r.Ok? && !r.value.user.isAdmin && !r.value.user.isVerified ==>
              GetCurrentAdminVerified(r) == Error(403, NotVerified) && GetCurrentAdmin(r) == Error(403, AdminRequired)
  {
  }

  /** `get_current_user_ws`: the same checks without the blacklist; a rejection
      closes the socket with a policy violation. */
  function GetCurrentUserWs(db: Db, c: Crypto, token: string): (r: Reply<Principal>)
    ensures r.Error? ==> r.code == PolicyViolation || r.code == 500
    ensures r.Ok? <==> c.decode(token).Some? && c.decode(token).value.sub.Some? && c.decode(token).value.sub.value.IntSub? &&
                       0 <= c.decode(token).value.sub.value.n && c.decode(token).value.sub.value.n in db.users
  {
    AcceptToken(db, c, token, PolicyViolation)
  }

  /** The WebSocket path accepts every token the HTTP path accepts, and also
      blacklisted ones: only the HTTP path consults the blacklist. */
  lemma WsAcceptsWhatHttpAccepts(db: Db, cache: Store, c: Crypto, token: string)
    ensures GetCurrentUser(db, cache, c, Some(token)).Ok? ==> GetCurrentUserWs(db, c, token).Ok?
    ensures Blacklisted(cache, token) ==>
              GetCurrentUser(db, cache, c, Some(token)).Error? &&
              (GetCurrentUserWs(db, c, token).Ok? <==> AcceptToken(db, c, token, 401).Ok?)
  {
  }
}

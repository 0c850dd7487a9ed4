/** p-1/backend/middleware/adminAuth.middleware.js: `adminProtect` admits a
    request carrying the bearer token of an active administrator, and
    `checkPermission(p)` admits an administrator holding permission p. Token
    verification (jsonwebtoken) is a parameter: `verify` gives the decoded
    claims of a valid token and None for any token it rejects. */
module AdminAuth {
  import opened Wrappers
  import opened JsValues
  import opened Models
  import opened RecordStore

  /** The claims of a signed token. */
  datatype Claims = Claims(id: Id, role: string)

  /** What a middleware does: call `next()` with the administrator loaded
      into `req.user`, or answer and stop. */
  datatype Gate = Proceed(admin: Admin) | Deny(status: nat, message: string)

  const RouteDenied: string := "Not authorized to access this route"

  /** The token of an `Authorization` header: the second space-separated
      word of a header starting with "Bearer"; undefined and "" are no
      token. */
  function BearerToken(authorization: Option<string>): (token: Option<string>)
    ensures token.Some? ==> authorization.Some? && StartsWith(authorization.value, "Bearer")
    ensures token.Some? ==> token.value != "" && ' ' !in token.value
  {
    if authorization.None? || authorization.value == "" || !StartsWith(authorization.value, "Bearer") then None
    else
      var parts := Split(authorization.value, ' ');
      if |parts| < 2 || parts[1] == "" then None else Some(parts[1])
  }

  /** "Bearer " followed by a token gives the token back; "Bearer" alone
      and a header of another scheme give none. */
  lemma BearerTokenSpec(t: string, other: string)
    requires t != "" && ' ' !in t
    requires !StartsWith(other, "Bearer")
    ensures BearerToken(Some("Bearer " + t)) == Some(t)
    ensures BearerToken(Some("Bearer")) == None
    ensures BearerToken(Some(other)) == None
    ensures BearerToken(None) == None
  {
    assert "Bearer " + t == "Bearer" + [' '] + t;
    SplitAfterPart("Bearer", t, ' ');
    SplitNoSeparator(t, ' ');
    SplitNoSeparator("Bearer", ' ');
  }

  /** adminProtect: no token, a token `verify` rejects, a role other than
      "admin", an unknown administrator and an inactive one are each
      answered with 401; otherwise the request goes on. */
  function AdminProtect(authorization: Option<string>, verify: string -> Option<Claims>, admins: seq<Admin>): (g: Gate)
    ensures g.Deny? ==> g.status == 401
    ensures BearerToken(authorization).None? ==> g == Deny(401, RouteDenied)
    ensures g.Proceed? <==> (
      && BearerToken(authorization).Some?
      && verify(BearerToken(authorization).value).Some?
      && verify(BearerToken(authorization).value).value.role == "admin"
      && FindBy(admins, AdminId, verify(BearerToken(authorization).value).value.id).Some?
      && FindBy(admins, AdminId, verify(BearerToken(authorization).value).value.id).value.isActive)
    ensures g.Proceed? ==> (
      && g.admin in admins && g.admin.isActive
      && g.admin.id == verify(BearerToken(authorization).value).value.id)
  {
    match BearerToken(authorization)
    case None => Deny(401, RouteDenied)
    case Some(token) =>
      match verify(token)
      case None => Deny(401, RouteDenied)
      case Some(claims) =>
        if claims.role != "admin" then Deny(401, "Not authorized as admin")
        else match FindBy(admins, AdminId, claims.id)
          case None => Deny(401, "Admin not found")
          case Some(admin) =>
            if !admin.isActive then Deny(401, "Admin account is deactivated")
            else Proceed(admin)
  }

  /** A deactivated administrator is refused even with a valid token. */
  lemma DeactivatedRefused(authorization: Option<string>, verify: string -> Option<Claims>, admins: seq<Admin>)
    requires BearerToken(authorization).Some? && verify(BearerToken(authorization).value).Some?
    requires verify(BearerToken(authorization).value).value.role == "admin"
    requires FindBy(admins, AdminId, verify(BearerToken(authorization).value).value.id).Some?
    requires !FindBy(admins, AdminId, verify(BearerToken(authorization).value).value.id).value.isActive
    ensures AdminProtect(authorization, verify, admins) == Deny(401, "Admin account is deactivated")
  {
  }

  /** checkPermission(p): 403 exactly when p is not among the
      administrator's permissions; otherwise the request goes on unchanged. */
  function CheckPermission(admin: Admin, permission: string): (g: Gate)
    ensures g.Deny? <==> permission !in admin.permissions
    ensures g.Deny? ==> g.status == 403 && g.message == "Access denied. Required permission: " + permission
    ensures g.Proceed? ==> g.admin == admin
  {
    if permission !in admin.permissions then Deny(403, "Access denied. Required permission: " + permission)
    else Proceed(admin)
  }
}

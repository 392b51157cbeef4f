/** The authenticator of rbac-backend/src/middleware/authMiddleware.js: takes
    the bearer token from the `Authorization` header (the form of section 2.1
    of RFC 6750, prefix matched case-sensitively), verifies it as a JSON Web
    Token (RFC 7519), re-reads the user from the store and attaches that
    record, without its password, as `req.user`. */
module AuthMiddleware {
  import opened Common
  import opened UserService
  import opened Http

  /** What `jwt.verify` does with a token: returns the payload's `userId`, or
      throws a `TokenExpiredError`, a `JsonWebTokenError` (malformed token,
      bad signature) or some other error. */
  datatype VerifyOutcome = Verified(userId: string) | TokenExpired | TokenInvalid | VerifyFailed

  const BearerPrefix: string := "Bearer "

  /** The token the middleware passes to `jwt.verify`: `authHeader.split(' ')[1]`
      when the header is present and starts with "Bearer ", else None. */
  function BearerToken(header: Option<string>): (t: Option<string>)
    ensures t.Some? <==> header.Some? && StartsWith(header.value, BearerPrefix)
    ensures t.Some? ==>
      var rest := header.value[|BearerPrefix|..];
      ' ' !in t.value && StartsWith(rest, t.value) &&
      (|t.value| == |rest| || rest[|t.value|] == ' ')
  {
    if header.None? || !StartsWith(header.value, BearerPrefix) then None
    else
      var h := header.value;
      var rest := h[|BearerPrefix|..];
      assert h == "Bearer" + [' '] + rest;
      SplitAfterField("Bearer", ' ', rest);
      Some(Split(h, ' ')[1])
  }

  /** The outcome of authentication: the identity to attach, or the answer. */
  datatype AuthResult = Authenticated(user: PublicUser) | Rejected(halt: Halt)

  function Reject(status: int, message: string): AuthResult {
    Rejected(Halt(status, message, None, None))
  }

  /** What `authenticate` decides for a header, the stored users and the
      verifier. Each failure has its own message; only an unrecognised
      verification error is a 500. */
  function Authentication(header: Option<string>, users: seq<User>, verify: string -> VerifyOutcome)
    : (a: AuthResult)
    ensures BearerToken(header).None? ==> a == Reject(401, "No token provided. Please login first.")
    ensures a.Authenticated? ==>
      BearerToken(header).Some? && verify(BearerToken(header).value).Verified? &&
      exists i :: 0 <= i < |users| && users[i].id == verify(BearerToken(header).value).userId &&
                  a.user == WithoutPassword(users[i])
    ensures BearerToken(header).Some? && verify(BearerToken(header).value).Verified? &&
            FindById(users, verify(BearerToken(header).value).userId).Some? ==>
      a == Authenticated(WithoutPassword(FindById(users, verify(BearerToken(header).value).userId).value))
    ensures a.Rejected? ==> a.halt.status in {401, 500} && a.halt.userRoles.None?
    ensures a.Rejected? && a.halt.status == 500 <==>
      BearerToken(header).Some? && verify(BearerToken(header).value).VerifyFailed?
  {
    match BearerToken(header)
    case None => Reject(401, "No token provided. Please login first.")
    case Some(token) =>
      match verify(token)
      case TokenExpired => Reject(401, "Token expired. Please login again.")
      case TokenInvalid => Reject(401, "Invalid token")
      case VerifyFailed => Reject(500, "Authentication failed")
      case Verified(userId) =>
        match FindById(users, userId)
        case None => Reject(401, "User no longer exists")
        case Some(user) => Authenticated(WithoutPassword(user))
  }

  /** authenticate: answers the request, leaving `req.user` unset, or attaches
      the freshly read user and calls `next()`. */
  method Authenticate(req: Request, users: UserStore, verify: string -> VerifyOutcome)
    returns (d: Decision)
    modifies req`user
    ensures match Authentication(req.authorization, users.AllUsers(), verify)
            case Authenticated(u) => d == Next && req.user == Some(u)
            case Rejected(h) => d == Stop(h) && req.user == old(req.user)
  {
    var authHeader := req.authorization;
    if authHeader.None? || !StartsWith(authHeader.value, BearerPrefix) {
      return Stop(Halt(401, "No token provided. Please login first.", None, None));
    }
    var token := BearerToken(authHeader).value;
    var decoded := verify(token);
    if decoded.TokenExpired? {
      return Stop(Halt(401, "Token expired. Please login again.", None, None));
    }
    if decoded.TokenInvalid? {
      return Stop(Halt(401, "Invalid token", None, None));
    }
    if decoded.VerifyFailed? {
      return Stop(Halt(500, "Authentication failed", None, None));
    }
    var user := users.FindUserById(decoded.userId);
    if user.None? {
      return Stop(Halt(401, "User no longer exists", None, None));
    }
    req.user := Some(WithoutPassword(user.value));
    d := Next;
  }

  /** The identity comes from the store, not from the token: two stores that
      differ only in a user's roles give that user's current roles. */
  lemma {:induction false} RolesComeFromStore(header: Option<string>, users: seq<User>,
                                              verify: string -> VerifyOutcome, i: nat, roles: Option<seq<string>>)
    requires i < |users|
    requires Authentication(header, users, verify) == Authenticated(WithoutPassword(users[i]))
    requires forall j :: 0 <= j < i ==> users[j].id != users[i].id
    ensures Authentication(header, users[i := users[i].(roles := roles)], verify) ==
            Authenticated(WithoutPassword(users[i].(roles := roles)))
  {
    var token := BearerToken(header).value;
    var userId := verify(token).userId;
    var users' := users[i := users[i].(roles := roles)];
    var k :| 0 <= k < |users| && users[k].id == userId && WithoutPassword(users[k]) == WithoutPassword(users[i]);
    assert users[k].id == users[i].id;
    var found := FindById(users', userId);
    assert users'[i].id == userId;
    assert forall j :: 0 <= j < i ==> users'[j].id != userId;
    var m :| 0 <= m < |users'| && users'[m] == found.value && forall j :: 0 <= j < m ==> users'[j].id != userId;
    assert m == i;
  }

  /** The verifier's failures are told apart: an expired token, a bad token
      and any other error each get their own answer. */
  lemma VerifyFailuresDistinct(header: Option<string>, users: seq<User>, verify: string -> VerifyOutcome)
    requires BearerToken(header).Some?
    ensures verify(BearerToken(header).value).TokenExpired? ==>
      Authentication(header, users, verify) == Reject(401, "Token expired. Please login again.")
    ensures verify(BearerToken(header).value).TokenInvalid? ==>
      Authentication(header, users, verify) == Reject(401, "Invalid token")
    ensures verify(BearerToken(header).value).VerifyFailed? ==>
      Authentication(header, users, verify) == Reject(500, "Authentication failed")
  {
  }

  /** A token whose user has been removed from the store is refused. */
  lemma DeletedUserRejected(header: Option<string>, users: seq<User>, verify: string -> VerifyOutcome)
    requires BearerToken(header).Some? && verify(BearerToken(header).value).Verified?
    requires forall j :: 0 <= j < |users| ==> users[j].id != verify(BearerToken(header).value).userId
    ensures Authentication(header, users, verify) == Reject(401, "User no longer exists")
  {
  }
}

/** The `auth` gate of src/middleware/auth.middleware.js: pick a token from the
    Authorization header or the `accessToken` cookie, verify it, load the user,
    attach it to the request and call `next`; every failure becomes one
    `ApiError(401, "Unable to authenticate")`. jwt verification and the user
    lookup are parameters. */
module AuthMiddleware {
  import opened Js
  import opened Mongoose
  import opened UserModel
  import opened Util

  const BearerPrefix := "Bearer "
  const RejectMessage := "Unable to authenticate"

  /** `jwt.verify(token, ACCESS_TOKEN_SECRET)`: the decoded claims, or `None` where it throws. */
  type Verifier = string -> Option<Claims>

  /** `req.user`: the user loaded with `.select("-password -refreshToken -accessToken -__v")`.
      The password is dropped; the schema's token paths are named `access_token`
      and `refresh_token`, so the deselection misses them and they stay. */
  datatype AuthUser = AuthUser(id: ObjectId, name: string, username: string, email: string,
                               image: string, accessToken: Option<string>,
                               refreshToken: Option<string>)

  function SelectedUser(id: ObjectId, u: User): (a: AuthUser)
    ensures a.id == id && a.name == u.name && a.username == u.username && a.email == u.email
    ensures a.image == u.image && a.accessToken == u.accessToken && a.refreshToken == u.refreshToken
  {
    AuthUser(id, u.name, u.username, u.email, u.image, u.accessToken, u.refreshToken)
  }

  /** `req.headers.authorization?.replace("Bearer ", "") || req.cookies?.accessToken`. */
  function SelectToken(authorization: Option<string>, cookie: Option<string>): (t: Option<string>)
    ensures authorization.None? ==> t == cookie
    ensures t == cookie || (authorization.Some? && t == Some(RemoveFirst(authorization.value, BearerPrefix))
                            && t.value != "")
  {
    var fromHeader := if authorization.Some? then Some(RemoveFirst(authorization.value, BearerPrefix)) else None;
    if Truthy(fromHeader) then fromHeader else cookie
  }

  /** Why the gate failed before its catch block replaced the error. */
  datatype GateFailure =
    | NoToken       // ApiError(401, "Unauthorized Access")
    | BadToken      // whatever jwt.verify throws
    | UnknownUser   // ApiError(401, "Invalid Token Received")

  datatype Resolution = Resolved(user: AuthUser) | Failed(reason: GateFailure)

  /** The body of the `try` block. */
  function Resolve(authorization: Option<string>, cookie: Option<string>, verify: Verifier,
                   users: map<ObjectId, User>): (r: Resolution)
    ensures r == Failed(NoToken) <==> !Truthy(SelectToken(authorization, cookie))
    ensures r.Resolved? ==>
              var token := SelectToken(authorization, cookie);
              && Truthy(token) && verify(token.value).Some?
              && verify(token.value).value.id == r.user.id
              && r.user.id in users && r.user == SelectedUser(r.user.id, users[r.user.id])
  {
    var token := SelectToken(authorization, cookie);
    if !Truthy(token) then Failed(NoToken)
    else match verify(token.value)
      case None => Failed(BadToken)
      case Some(claims) =>
        if claims.id !in users then Failed(UnknownUser)
        else Resolved(SelectedUser(claims.id, users[claims.id]))
  }

  /** What the gate does for a request: pass with a user, or throw. */
  datatype GateResult = Passed(user: AuthUser) | Rejected(error: ApiError)

  /** `auth` as a whole: the catch block rethrows every failure as the same
      401 ApiError, replacing the inner message. */
  function Authenticate(authorization: Option<string>, cookie: Option<string>, verify: Verifier,
                        users: map<ObjectId, User>): (r: GateResult)
    ensures r.Rejected? <==> Resolve(authorization, cookie, verify, users).Failed?
    ensures r.Rejected? ==> r.error == NewApiError(401, Some(RejectMessage), None)
  {
    match Resolve(authorization, cookie, verify, users)
    case Resolved(u) => Passed(u)
    case Failed(_) => Rejected(NewApiError(401, Some(RejectMessage), None))
  }

  /** The part of Express's `req` the gate reads and writes, and a count of
      the `next()` calls it makes. */
  class Request {
    const authorization: Option<string>
    const accessTokenCookie: Option<string>
    var user: Option<AuthUser>
    var nextCalls: nat

    constructor (authorization: Option<string>, accessTokenCookie: Option<string>)
      ensures this.authorization == authorization && this.accessTokenCookie == accessTokenCookie
      ensures user == None && nextCalls == 0
    {
      this.authorization := authorization;
      this.accessTokenCookie := accessTokenCookie;
      user := None;
      nextCalls := 0;
    }

    /** Run the gate: on success `req.user` is set and `next` is called once;
        on failure the 401 error is thrown, `req.user` is untouched and `next`
        is not called. */
    method Auth(verify: Verifier, users: map<ObjectId, User>) returns (thrown: Option<ApiError>)
      modifies this`user, this`nextCalls
      ensures Authenticate(authorization, accessTokenCookie, verify, users).Passed? ==>
                thrown == None
                && user == Some(Authenticate(authorization, accessTokenCookie, verify, users).user)
                && nextCalls == old(nextCalls) + 1
      ensures Authenticate(authorization, accessTokenCookie, verify, users).Rejected? ==>
                thrown == Some(Authenticate(authorization, accessTokenCookie, verify, users).error)
                && user == old(user) && nextCalls == old(nextCalls)
    {
      var failed := false;
      var token := SelectToken(authorization, accessTokenCookie);
      if !Truthy(token) {
        failed := true;
      } else {
        var decoded := verify(token.value);
        if decoded.None? {
          failed := true;
        } else if decoded.value.id !in users {
          failed := true;
        } else {
          user := Some(SelectedUser(decoded.value.id, users[decoded.value.id]));
          nextCalls := nextCalls + 1;
        }
      }
      if failed {
        thrown := Some(NewApiError(401, Some(RejectMessage), None));
      } else {
        thrown := None;
      }
    }
  }

  /** A well-formed bearer header yields the token after the prefix. */
  lemma BearerHeaderToken(token: string, cookie: Option<string>)
    requires token != ""
    ensures SelectToken(Some(BearerPrefix + token), cookie) == Some(token)
  {
    RemoveFirstPrefix(BearerPrefix, token);
  }

  /** A header without "Bearer " anywhere is used unchanged as the token. */
  lemma UnprefixedHeaderUsedAsIs(header: string, cookie: Option<string>)
    requires header != "" && IndexOf(header, BearerPrefix).None?
    ensures SelectToken(Some(header), cookie) == Some(header)
  {
  }

  /** So a Basic credential is passed to jwt.verify as if it were a token. */
  lemma BasicHeaderUsedAsToken(cookie: Option<string>)
    ensures SelectToken(Some("Basic x"), cookie) == Some("Basic x")
  {
    assert "Basic x"[0..7][1] != BearerPrefix[1];
    assert !OccursAt("Basic x", BearerPrefix, 0);
    assert IndexOf("Basic x", BearerPrefix).None?;
  }

  /** The removal is not anchored at the start: the first "Bearer " is cut
      out wherever it stands. */
  lemma RemovalNotAnchored(cookie: Option<string>)
    ensures SelectToken(Some("xBearer y"), cookie) == Some("xy")
  {
    assert "xBearer y"[0..7][0] != BearerPrefix[0];
    assert !OccursAt("xBearer y", BearerPrefix, 0);
    assert OccursAt("xBearer y", BearerPrefix, 1);
    assert IndexOf("xBearer y", BearerPrefix) == Some(1);
    assert "xBearer y"[..1] + "xBearer y"[8..] == "xy";
  }

  /** The cookie is used exactly when the header is absent or empties out. */
  lemma CookieFallback(authorization: Option<string>, cookie: Option<string>)
    ensures (authorization.None? || RemoveFirst(authorization.value, BearerPrefix) == "") ==>
              SelectToken(authorization, cookie) == cookie
    ensures authorization.Some? && RemoveFirst(authorization.value, BearerPrefix) != "" ==>
              SelectToken(authorization, cookie) == Some(RemoveFirst(authorization.value, BearerPrefix))
  {
  }

  /** The gate passes exactly when a truthy token verifies to the id of a
      stored user, and it then attaches that user without the password. */
  lemma PassedIff(authorization: Option<string>, cookie: Option<string>, verify: Verifier,
                  users: map<ObjectId, User>)
    ensures Authenticate(authorization, cookie, verify, users).Passed? <==>
              var token := SelectToken(authorization, cookie);
              Truthy(token) && verify(token.value).Some? && verify(token.value).value.id in users
    ensures Authenticate(authorization, cookie, verify, users).Passed? ==>
              var id := verify(SelectToken(authorization, cookie).value).value.id;
              Authenticate(authorization, cookie, verify, users).user == SelectedUser(id, users[id])
  {
  }

  /** Every rejection, whatever its cause, is thrown through AsyncHandler and
      answered with status 500 (not 401) and the message "Unable to authenticate". */
  lemma RejectionAnswered500(authorization: Option<string>, cookie: Option<string>, verify: Verifier,
                             users: map<ObjectId, User>)
    requires Authenticate(authorization, cookie, verify, users).Rejected?
    ensures Authenticate(authorization, cookie, verify, users).error.statusCode == 401
    ensures ErrorStatus(Thrown(Authenticate(authorization, cookie, verify, users).error)) == 500
    ensures MessageOf(Thrown(Authenticate(authorization, cookie, verify, users).error)) == RejectMessage
  {
  }

  /** A request with no header and no cookie is rejected before jwt is consulted. */
  lemma NoCredentialRejected(verify: Verifier, users: map<ObjectId, User>)
    ensures Resolve(None, None, verify, users) == Failed(NoToken)
    ensures Authenticate(None, None, verify, users).Rejected?
  {
  }
}

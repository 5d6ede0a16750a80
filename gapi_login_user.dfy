/** The `LoginUser` RPC (gapi/rpc_login_user.go). The answers of the
    foreign calls are parameters: the store's `GetUser` and
    `CreateSession`, bcrypt's `CheckPassword` and the token maker's two
    `CreateToken` calls. */
module GapiLoginUser {
  import opened Base
  import opened Db
  import opened Token
  import opened Validators
  import opened Rpc
  import opened GapiMetadata
  import opened GapiCreateUser

  datatype LoginUserRequest = LoginUserRequest(username: string, password: string)

  datatype LoginUserResponse = LoginUserResponse(
    sessionId: int,
    accessToken: string,
    accessTokenExpiresAt: int,
    refreshToken: string,
    refreshTokenExpiresAt: int,
    user: UserResponse)

  /** What the environment answers: the user row, whether the password
      matches its hash, the access and refresh tokens, and the stored
      session. */
  datatype LoginAnswers = LoginAnswers(
    user: Result<User, Error>,
    passwordMatches: bool,
    access: Result<Issued, string>,
    refresh: Result<Issued, string>,
    session: Result<Session, Error>)

  /** The configured token lifetimes. */
  datatype Durations = Durations(access: int, refresh: int)

  /** The foreign calls, in the order made. */
  datatype LoginCall =
    | GetUserCall(username: string)
    | CheckPasswordCall(password: string, hashedPassword: string)
    | CreateTokenCall(tokenUsername: string, duration: int)
    | CreateSessionCall(sessionParams: CreateSessionParams)

  datatype LoginReply = LoginReply(result: Result<LoginUserResponse, RpcError>, calls: seq<LoginCall>)

  function LoginUserChecks(req: LoginUserRequest): (cs: seq<Check>)
    ensures DistinctFields(cs)
  {
    [Check("username", ValidateUsername(req.username)), Check("password", ValidatePassword(req.password))]
  }

  /** `validateLoginUserRequest`. */
  method ValidateLoginUserRequest(req: LoginUserRequest) returns (violations: seq<Violation>)
    ensures violations == Failing(LoginUserChecks(req))
  {
    violations := [];
    violations := AppendViolation(violations, "username", ValidateUsername(req.username));
    violations := AppendViolation(violations, "password", ValidatePassword(req.password));
    ghost var cs := LoginUserChecks(req);
    FailingAppend([cs[0]], [cs[1]]);
    assert cs == [cs[0]] + [cs[1]];
  }

  /** One violation per failing field, none exactly when both pass. */
  lemma LoginUserViolations(req: LoginUserRequest)
    ensures var vs := Failing(LoginUserChecks(req));
      && ViolationFor(vs, "username") == ValidateUsername(req.username)
      && ViolationFor(vs, "password") == ValidatePassword(req.password)
    ensures Failing(LoginUserChecks(req)) == [] <==>
      ValidateUsername(req.username).None? && ValidatePassword(req.password).None?
  {
    var cs := LoginUserChecks(req);
    FieldViolation(cs, 0);
    FieldViolation(cs, 1);
  }

  /** The session row the handler asks the store to create. */
  function SessionParams(user: User, refresh: Issued, mtd: Metadata): (p: CreateSessionParams)
    ensures p.id == refresh.payload.id && p.expiresAt == refresh.payload.expiredAt
    ensures p.username == user.username && p.refreshToken == refresh.token && !p.isBlocked
  {
    CreateSessionParams(refresh.payload.id, user.username, refresh.token, mtd.userAgent, mtd.clientIp, false, refresh.payload.expiredAt)
  }

  function LoginUser(req: LoginUserRequest, ans: LoginAnswers, durations: Durations, md: Option<Md>, peer: Option<string>)
    : (r: LoginReply)
    ensures Failing(LoginUserChecks(req)) != [] ==>
      r == LoginReply(Err(StatusError(InvalidArgument, Failing(LoginUserChecks(req)))), [])
    ensures Failing(LoginUserChecks(req)) == [] ==> |r.calls| >= 1 && r.calls[0] == GetUserCall(req.username)
    ensures Failing(LoginUserChecks(req)) == [] && ans.user.Err? ==>
      r == LoginReply(Err(WithCode(NotFoundCode(ans.user.error))), [GetUserCall(req.username)])
    ensures Failing(LoginUserChecks(req)) == [] && ans.user.Ok? && !ans.passwordMatches ==>
      r == LoginReply(Err(WithCode(Internal)),
                      [GetUserCall(req.username), CheckPasswordCall(req.password, ans.user.value.hashedPassword)])
    ensures r.result.Err? ==> r.result.error.StatusError?
    ensures r.result.Err? && r.result.error.code != InvalidArgument && r.result.error.code != NotFound ==>
      r.result.error == WithCode(Internal)
    ensures r.result.Ok? <==>
      && Failing(LoginUserChecks(req)) == [] && ans.user.Ok? && ans.passwordMatches
      && ans.access.Ok? && ans.refresh.Ok? && ans.session.Ok?
  {
    var violations := Failing(LoginUserChecks(req));
    if violations != [] then LoginReply(Err(StatusError(InvalidArgument, violations)), [])
    else
      var calls := [GetUserCall(req.username)];
      match ans.user
      case Err(e) => LoginReply(Err(WithCode(NotFoundCode(e))), calls)
      case Ok(user) =>
        var calls := calls + [CheckPasswordCall(req.password, user.hashedPassword)];
        if !ans.passwordMatches then LoginReply(Err(WithCode(Internal)), calls)
        else
          var calls := calls + [CreateTokenCall(user.username, durations.access)];
          match ans.access
          case Err(_) => LoginReply(Err(WithCode(Internal)), calls)
          case Ok(access) =>
            var calls := calls + [CreateTokenCall(user.username, durations.refresh)];
            match ans.refresh
            case Err(_) => LoginReply(Err(WithCode(Internal)), calls)
            case Ok(refresh) =>
              var arg := SessionParams(user, refresh, Resolved(md, peer));
              var calls := calls + [CreateSessionCall(arg)];
              match ans.session
              case Err(_) => LoginReply(Err(WithCode(Internal)), calls)
              case Ok(session) =>
                LoginReply(Ok(LoginUserResponse(session.id, access.token, access.payload.expiredAt,
                                                refresh.token, refresh.payload.expiredAt, Response(user))), calls)
  }

  /** No token is requested unless the user exists and the password
      matches; both tokens are for the stored user's name, the access token
      first. */
  lemma NoTokenWithoutPassword(req: LoginUserRequest, ans: LoginAnswers, durations: Durations, md: Option<Md>, peer: Option<string>)
    ensures var calls := LoginUser(req, ans, durations, md, peer).calls;
      forall k :: 0 <= k < |calls| && calls[k].CreateTokenCall? ==>
        && Failing(LoginUserChecks(req)) == [] && ans.user.Ok? && ans.passwordMatches
        && calls[k].tokenUsername == ans.user.value.username
        && calls[k].duration == (if k == 2 then durations.access else durations.refresh)
  {
  }

  /** The session stored is keyed by the refresh token's id, expires with
      it, belongs to the stored user, is not blocked, and carries the
      caller's metadata. */
  lemma SessionFromRefreshToken(req: LoginUserRequest, ans: LoginAnswers, durations: Durations, md: Option<Md>, peer: Option<string>)
    ensures var calls := LoginUser(req, ans, durations, md, peer).calls;
      forall k :: 0 <= k < |calls| && calls[k].CreateSessionCall? ==>
        var p := calls[k].sessionParams;
        && ans.user.Ok? && ans.refresh.Ok? && k == 4
        && p.id == ans.refresh.value.payload.id && p.expiresAt == ans.refresh.value.payload.expiredAt
        && p.username == ans.user.value.username && !p.isBlocked
        && Metadata(p.userAgent, p.clientIp) == Resolved(md, peer)
  {
  }
}

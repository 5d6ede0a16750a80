/** Access-token renewal (api/token.go). The token maker's `VerifyToken`
    and `CreateToken` and the store's `GetSession` are parameters. */
module ApiToken {
  import opened Base
  import opened Db
  import opened Token
  import opened Http

  datatype RenewAccessTokenResponse = RenewAccessTokenResponse(accessToken: string, accessTokenExpiresAt: int)

  /** The foreign calls the handler makes, in order. */
  datatype RenewCall =
    | VerifyCall(token: string)
    | GetSessionCall(sessionId: Uuid)
    | CreateTokenCall(username: string, duration: int)

  datatype RenewReply = RenewReply(status: Status, body: Option<RenewAccessTokenResponse>, calls: seq<RenewCall>)

  /** The session checks on a verified refresh payload: a blocked session
      and a session of another user are both 401. */
  function SessionCheck(session: Session, refresh: Payload): (r: Option<Status>)
    ensures r.None? <==> !session.isBlocked && session.username == refresh.username
    ensures r.Some? ==> r.value == Unauthorized
  {
    if session.isBlocked then Some(Unauthorized)
    else if session.username != refresh.username then Some(Unauthorized)
    else None
  }

  function RenewAccessTokenHandler(
    refreshToken: string,
    verify: string -> Result<Payload, TokenError>,
    getSession: Uuid -> Result<Session, Error>,
    createToken: (string, int) -> Result<Issued, string>,
    accessDuration: int): (r: RenewReply)
    ensures |r.calls| >= 1 && r.calls[0] == VerifyCall(refreshToken)
    ensures r.status == OK <==> r.body.Some?
    ensures verify(refreshToken).Err? ==> r == RenewReply(Unauthorized, None, [VerifyCall(refreshToken)])
    ensures verify(refreshToken).Ok? ==>
      var p := verify(refreshToken).value;
      |r.calls| >= 2 && r.calls[1] == GetSessionCall(p.id)
      && (getSession(p.id) == Err(Sql(NoRows)) ==> r.status == NotFound && |r.calls| == 2)
      && (getSession(p.id).Err? && getSession(p.id) != Err(Sql(NoRows)) ==> r.status == InternalServerError && |r.calls| == 2)
      && (getSession(p.id).Ok? && SessionCheck(getSession(p.id).value, p).Some? ==> r.status == Unauthorized && |r.calls| == 2)
    ensures r.status == OK ==>
      verify(refreshToken).Ok? && createToken(verify(refreshToken).value.username, accessDuration).Ok?
    ensures r.status == OK ==>
      var p := verify(refreshToken).value;
      var issued := createToken(p.username, accessDuration).value;
      && r.calls == [VerifyCall(refreshToken), GetSessionCall(p.id), CreateTokenCall(p.username, accessDuration)]
      && r.body == Some(RenewAccessTokenResponse(issued.token, issued.payload.expiredAt))
    ensures |r.calls| == 3 ==> r.status in {OK, InternalServerError}
  {
    var verified := [VerifyCall(refreshToken)];
    match verify(refreshToken)
    case Err(_) => RenewReply(Unauthorized, None, verified)
    case Ok(p) =>
      var looked := verified + [GetSessionCall(p.id)];
      match getSession(p.id)
      case Err(e) => RenewReply(if e == Sql(NoRows) then NotFound else InternalServerError, None, looked)
      case Ok(session) =>
        if SessionCheck(session, p).Some? then RenewReply(Unauthorized, None, looked)
        else
          var created := looked + [CreateTokenCall(p.username, accessDuration)];
          match createToken(p.username, accessDuration)
          case Err(_) => RenewReply(InternalServerError, None, created)
          case Ok(issued) => RenewReply(OK, Some(RenewAccessTokenResponse(issued.token, issued.payload.expiredAt)), created)
  }

  /** A new access token is issued exactly when the refresh token verifies,
      its session exists, is not blocked, belongs to the token's user and
      token creation succeeds. */
  lemma RenewSucceedsIff(
    refreshToken: string,
    verify: string -> Result<Payload, TokenError>,
    getSession: Uuid -> Result<Session, Error>,
    createToken: (string, int) -> Result<Issued, string>,
    accessDuration: int)
    ensures RenewAccessTokenHandler(refreshToken, verify, getSession, createToken, accessDuration).status == OK <==>
      && verify(refreshToken).Ok?
      && getSession(verify(refreshToken).value.id).Ok?
      && !getSession(verify(refreshToken).value.id).value.isBlocked
      && getSession(verify(refreshToken).value.id).value.username == verify(refreshToken).value.username
      && createToken(verify(refreshToken).value.username, accessDuration).Ok?
  {
  }
}

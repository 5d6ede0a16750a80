/** `authorizeUser` of the gRPC server (gapi/authorization.go). The
    token maker's `VerifyToken` is the parameter `verify`. */
module GapiAuth {
  import opened Base
  import opened GoText
  import opened Token
  import opened Rpc

  const AuthorizationHeader: string := "authorization"
  const AuthTypeBearer: string := "bearer"

  /** The first authorization value splits into at least two fields, the
      first of which lower-cases to "bearer". */
  predicate Bearer(value: string)
  {
    var fields := Fields(value);
    |fields| >= 2 && ToLower(fields[0]) == AuthTypeBearer
  }

  /** `md` is `None` when the context carries no metadata. */
  function AuthorizeUser(md: Option<Md>, verify: string -> Result<Payload, TokenError>): (r: Result<Payload, AuthError>)
    ensures md.None? ==> r == Err(NoMetadata)
    ensures md.Some? && Get(md.value, AuthorizationHeader) == [] ==> r == Err(NoAuthorization)
    ensures r.Ok? <==>
      && md.Some? && Get(md.value, AuthorizationHeader) != []
      && Bearer(Get(md.value, AuthorizationHeader)[0])
      && verify(Fields(Get(md.value, AuthorizationHeader)[0])[1]).Ok?
    ensures r.Ok? ==> r.value == verify(Fields(Get(md.value, AuthorizationHeader)[0])[1]).value
    ensures r.Err? && r.error.TokenRejected? ==>
      && md.Some? && Get(md.value, AuthorizationHeader) != [] && Bearer(Get(md.value, AuthorizationHeader)[0])
      && verify(Fields(Get(md.value, AuthorizationHeader)[0])[1]) == Err(r.error.cause)
  {
    if md.None? then Err(NoMetadata)
    else
      var values := Get(md.value, AuthorizationHeader);
      if |values| == 0 then Err(NoAuthorization)
      else
        var fields := Fields(values[0]);
        if |fields| < 2 then Err(InvalidAuthorization)
        else if ToLower(fields[0]) != AuthTypeBearer then Err(UnsupportedAuthType)
        else match verify(fields[1])
          case Err(e) => Err(TokenRejected(e))
          case Ok(p) => Ok(p)
  }

  /** Only the first authorization value is looked at. */
  lemma FirstValueOnly(m1: Md, m2: Md, verify: string -> Result<Payload, TokenError>)
    requires Get(m1, AuthorizationHeader) != [] && Get(m2, AuthorizationHeader) != []
    requires Get(m1, AuthorizationHeader)[0] == Get(m2, AuthorizationHeader)[0]
    ensures AuthorizeUser(Some(m1), verify) == AuthorizeUser(Some(m2), verify)
  {
  }

  /** A scheme spelled "bearer" in any case, then the token, then any
      further words, separated by single spaces, is accepted, and the token
      is what is verified. */
  lemma BearerAccepted(scheme: string, token: string, extra: seq<string>, md: Md,
                       verify: string -> Result<Payload, TokenError>)
    requires ToLower(scheme) == AuthTypeBearer
    requires IsWord(token) && forall i :: 0 <= i < |extra| ==> IsWord(extra[i])
    requires Get(md, AuthorizationHeader) != []
    requires Get(md, AuthorizationHeader)[0] == Join([scheme, token] + extra, ' ')
    ensures verify(token).Ok? ==> AuthorizeUser(Some(md), verify) == Ok(verify(token).value)
    ensures verify(token).Err? ==> AuthorizeUser(Some(md), verify) == Err(TokenRejected(verify(token).error))
  {
    BearerIsWord(scheme);
    var ws := [scheme, token] + extra;
    FieldsOfWords(ws);
    assert Fields(Get(md, AuthorizationHeader)[0]) == ws;
  }

  lemma BearerIsWord(scheme: string)
    requires ToLower(scheme) == AuthTypeBearer
    ensures IsWord(scheme)
  {
    assert |scheme| == |AuthTypeBearer|;
    forall i | 0 <= i < |scheme| ensures !IsSpace(scheme[i]) {
      assert LowerChar(scheme[i]) == AuthTypeBearer[i];
    }
  }

  /** A lone scheme is too short, whatever its spelling. */
  lemma SchemeAloneRejected(md: Md, verify: string -> Result<Payload, TokenError>)
    requires Get(md, AuthorizationHeader) != []
    requires Get(md, AuthorizationHeader)[0] == "Bearer"
    ensures AuthorizeUser(Some(md), verify) == Err(InvalidAuthorization)
  {
    var w := "Bearer";
    assert IsWord(w) by {
      forall i | 0 <= i < |w| ensures !IsSpace(w[i]) {
      }
    }
    FieldsOfWords([w]);
    assert Join([w], ' ') == w;
  }
}

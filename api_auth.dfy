/** The HTTP authorization middleware (api/authMiddleware.go). The token
    maker's `VerifyToken` is the parameter `verify`. */
module ApiAuth {
  import opened Base
  import opened GoText
  import opened Token
  import opened Http

  const BearerType: string := "bearer"

  /** The header splits on single spaces into exactly two pieces, the
      first of which lower-cases to "bearer". */
  predicate WellFormed(header: string)
  {
    var parts := Split(header, ' ');
    |parts| == 2 && ToLower(parts[0]) == BearerType
  }

  /** The token a well-formed header presents. */
  function Presented(header: string): string
    requires WellFormed(header)
  {
    Split(header, ' ')[1]
  }

  /** `AuthMiddleware`: the verified payload (which the request goes on
      with) or 401. */
  function AuthMiddleware(header: string, verify: string -> Result<Payload, TokenError>): (r: Result<Payload, Status>)
    ensures |header| == 0 ==> r == Err(Unauthorized)
    ensures r.Err? ==> r.error == Unauthorized
    ensures r.Ok? <==> WellFormed(header) && verify(Presented(header)).Ok?
    ensures r.Ok? ==> r.value == verify(Presented(header)).value
  {
    if |header| == 0 then Err(Unauthorized)
    else
      var parts := Split(header, ' ');
      if |parts| != 2 then Err(Unauthorized)
      else if ToLower(parts[0]) != BearerType then Err(Unauthorized)
      else match verify(parts[1])
        case Err(_) => Err(Unauthorized)
        case Ok(p) => Ok(p)
  }

  /** A header is well-formed exactly when it has one space. */
  lemma TwoPartsOneSpace(header: string)
    ensures |Split(header, ' ')| == 2 <==> Count(header, ' ') == 1
  {
    SplitPieces(header, ' ');
  }

  /** A scheme that lower-cases to "bearer", one space and a token
      without spaces are accepted, and that token is the one verified. */
  lemma BearerHeaderAccepted(scheme: string, token: string)
    requires ToLower(scheme) == BearerType
    requires Count(token, ' ') == 0
    ensures WellFormed(scheme + " " + token)
    ensures Presented(scheme + " " + token) == token
  {
    var parts := [scheme, token];
    assert Count(scheme, ' ') == 0 by {
      if Count(scheme, ' ') != 0 { SpaceLowersToSpace(scheme); }
    }
    assert Join(parts, ' ') == scheme + " " + token by {
      assert Join(parts[1..], ' ') == token;
    }
    SplitJoin(parts, ' ');
  }

  /** A scheme that contains a space does not lower-case to "bearer". */
  lemma {:induction false} SpaceLowersToSpace(s: string)
    requires Count(s, ' ') != 0
    ensures Count(ToLower(s), ' ') != 0
  {
    if s[0] != ' ' {
      SpaceLowersToSpace(s[1..]);
      assert ToLower(s)[1..] == ToLower(s[1..]);
    }
  }

  /** Conversely, every well-formed header is a scheme, one space and the
      token, with no other space. */
  lemma WellFormedShape(header: string)
    requires WellFormed(header)
    ensures var parts := Split(header, ' ');
      header == parts[0] + " " + Presented(header)
      && Count(parts[0], ' ') == 0 && Count(Presented(header), ' ') == 0
  {
    var parts := Split(header, ' ');
    JoinSplit(header, ' ');
    SplitPieces(header, ' ');
    assert Join(parts, ' ') == parts[0] + [' '] + Join(parts[1..], ' ');
    assert Join(parts[1..], ' ') == parts[1];
  }

  /** Two spaces give three pieces, so the header is rejected before
      anything is verified. */
  lemma DoubleSpaceRejected(verify: string -> Result<Payload, TokenError>)
    ensures AuthMiddleware("Bearer  token", verify) == Err(Unauthorized)
  {
    TwoPartsOneSpace("Bearer  token");
  }
}

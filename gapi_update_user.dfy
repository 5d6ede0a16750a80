/** The `UpdateUser` RPC (gapi/rpc_update_user.go). The caller's
    metadata and token verifier feed `authorizeUser`; `hashed` is what
    `util.HashPassword` returns for the new password and `now` the instant
    `time.Now()` would return. */
module GapiUpdateUser {
  import opened Base
  import opened Db
  import opened Store
  import opened Token
  import opened Validators
  import opened Rpc
  import opened GapiAuth
  import opened GapiCreateUser

  /** A field left out of the request is `None`. */
  datatype UpdateUserRequest = UpdateUserRequest(
    username: string,
    fullname: Option<string>,
    password: Option<string>,
    email: Option<string>)

  function UsernameCheck(req: UpdateUserRequest): seq<Check>
  {
    [Check("username", ValidateUsername(req.username))]
  }

  function FullNameCheck(req: UpdateUserRequest, rev: Revision): seq<Check>
  {
    if req.fullname.Some? then [Check("fullname", ValidateFullNameIn(rev, req.fullname.value))] else []
  }

  function PasswordCheck(req: UpdateUserRequest): seq<Check>
  {
    if req.password.Some? then [Check("password", ValidatePassword(req.password.value))] else []
  }

  function EmailCheck(req: UpdateUserRequest, parses: string -> bool, rev: Revision): seq<Check>
  {
    if req.email.Some? then [Check("email", ValidateEmailIn(rev, req.email.value, parses))] else []
  }

  /** The username always, the other fields only when present, in this
      order. */
  function UpdateUserChecks(req: UpdateUserRequest, parses: string -> bool, rev: Revision): (cs: seq<Check>)
    ensures DistinctFields(cs)
  {
    var cs := UsernameCheck(req) + FullNameCheck(req, rev) + PasswordCheck(req) + EmailCheck(req, parses, rev);
    assert forall i :: 0 <= i < |cs| ==> cs[i].field in ["username", "fullname", "password", "email"];
    assert forall i, j :: 0 <= i < j < |cs| ==> cs[i].field != cs[j].field by {
      forall i, j | 0 <= i < j < |cs| ensures cs[i].field != cs[j].field {
        assert FieldRank(cs[i].field) < FieldRank(cs[j].field) by { RankIncreases(req, parses, rev, cs, i, j); }
      }
    }
    cs
  }

  function FieldRank(field: string): int
  {
    if field == "username" then 0 else if field == "fullname" then 1 else if field == "password" then 2 else 3
  }

  lemma RankIncreases(req: UpdateUserRequest, parses: string -> bool, rev: Revision, cs: seq<Check>, i: int, j: int)
    requires cs == UsernameCheck(req) + FullNameCheck(req, rev) + PasswordCheck(req) + EmailCheck(req, parses, rev)
    requires 0 <= i < j < |cs|
    ensures FieldRank(cs[i].field) < FieldRank(cs[j].field)
  {
    var a, b, c := UsernameCheck(req), FullNameCheck(req, rev), PasswordCheck(req);
    var d := EmailCheck(req, parses, rev);
    var ranks := seq(|cs|, k requires 0 <= k < |cs| =>
      if k < |a| then 0 else if k < |a| + |b| then 1 else if k < |a| + |b| + |c| then 2 else 3);
    assert forall k :: 0 <= k < |cs| ==> FieldRank(cs[k].field) == ranks[k];
  }

  /** `validateUpdateUserRequest`. */
  method ValidateUpdateUserRequest(req: UpdateUserRequest, parses: string -> bool, rev: Revision) returns (violations: seq<Violation>)
    ensures violations == Failing(UpdateUserChecks(req, parses, rev))
  {
    violations := [];
    violations := AppendViolation(violations, "username", ValidateUsername(req.username));
    assert violations == Failing(UsernameCheck(req));
    if req.fullname.Some? {
      violations := AppendViolation(violations, "fullname", ValidateFullNameIn(rev, req.fullname.value));
    }
    FailingAppend(UsernameCheck(req), FullNameCheck(req, rev));
    if req.password.Some? {
      violations := AppendViolation(violations, "password", ValidatePassword(req.password.value));
    }
    FailingAppend(UsernameCheck(req) + FullNameCheck(req, rev), PasswordCheck(req));
    if req.email.Some? {
      violations := AppendViolation(violations, "email", ValidateEmailIn(rev, req.email.value, parses));
    }
    FailingAppend(UsernameCheck(req) + FullNameCheck(req, rev) + PasswordCheck(req), EmailCheck(req, parses, rev));
  }

  /** A field's violation is its validator's error when the field is
      present, and there is none for an absent field. */
  lemma UpdateUserViolations(req: UpdateUserRequest, parses: string -> bool, rev: Revision)
    ensures var vs := Failing(UpdateUserChecks(req, parses, rev));
      && ViolationFor(vs, "username") == ValidateUsername(req.username)
      && ViolationFor(vs, "fullname") == (if req.fullname.Some? then ValidateFullNameIn(rev, req.fullname.value) else None)
      && ViolationFor(vs, "password") == (if req.password.Some? then ValidatePassword(req.password.value) else None)
      && ViolationFor(vs, "email") == (if req.email.Some? then ValidateEmailIn(rev, req.email.value, parses) else None)
  {
    var cs := UpdateUserChecks(req, parses, rev);
    var a, b, c := UsernameCheck(req), FullNameCheck(req, rev), PasswordCheck(req);
    FieldViolation(cs, 0);
    if req.fullname.Some? {
      FieldViolation(cs, |a|);
    } else {
      NotMentioned(cs, "fullname");
    }
    if req.password.Some? {
      FieldViolation(cs, |a| + |b|);
    } else {
      NotMentioned(cs, "password");
    }
    if req.email.Some? {
      FieldViolation(cs, |a| + |b| + |c|);
    } else {
      NotMentioned(cs, "email");
    }
  }

  /** With a valid username and no password, only the full name and
      the e-mail can give violations. */
  lemma OnlyOptionalFields(req: UpdateUserRequest, parses: string -> bool, rev: Revision)
    requires ValidateUsername(req.username).None? && req.password.None?
    ensures Failing(UpdateUserChecks(req, parses, rev)) == Failing(FullNameCheck(req, rev)) + Failing(EmailCheck(req, parses, rev))
  {
    var u, f, e := UsernameCheck(req), FullNameCheck(req, rev), EmailCheck(req, parses, rev);
    assert UpdateUserChecks(req, parses, rev) == u + (f + e);
    FailingAppend(u, f + e);
    FailingAppend(f, e);
    FailingOne(u[0]);
  }

  /** Changing only the full name to "Jo Li": the handler as written
      rejects it, the intended one accepts it. */
  lemma UpdateFullNameRevisionsDiffer(parses: string -> bool)
    ensures var req := UpdateUserRequest("jo_li", Some("Jo Li"), None, None);
      && Failing(UpdateUserChecks(req, parses, AsWritten)) == [Violation("fullname", FullNameCharset)]
      && Failing(UpdateUserChecks(req, parses, Intended)) == []
  {
    FullNameRevisionsDiffer();
    SampleCredentialsValid();
    var req := UpdateUserRequest("jo_li", Some("Jo Li"), None, None);
    OnlyOptionalFields(req, parses, AsWritten);
    OnlyOptionalFields(req, parses, Intended);
    FailingOne(Check("fullname", Some(FullNameCharset)));
    FailingOne(Check("fullname", None));
  }

  /** Changing only the e-mail to an address that parses: the handler as
      written rejects it, the intended one accepts it. */
  lemma UpdateEmailRevisionsDiffer(parses: string -> bool)
    requires parses("a@b.co")
    ensures var req := UpdateUserRequest("jo_li", None, None, Some("a@b.co"));
      && Failing(UpdateUserChecks(req, parses, AsWritten)) == [Violation("email", InvalidEmail)]
      && Failing(UpdateUserChecks(req, parses, Intended)) == []
  {
    EmailRevisionsDiffer(parses);
    SampleCredentialsValid();
    var req := UpdateUserRequest("jo_li", None, None, Some("a@b.co"));
    OnlyOptionalFields(req, parses, AsWritten);
    OnlyOptionalFields(req, parses, Intended);
    FailingOne(Check("email", Some(InvalidEmail)));
    FailingOne(Check("email", None));
  }

  /** The parameters of the store's `UpdateUser`, field by field: a column
      is set exactly when the request carries it; the hash and the change
      time exactly when it carries a password. A failed hash is Internal. */
  function UpdateArgs(req: UpdateUserRequest, hashed: Result<string, string>, now: int): (r: Result<UpdateUserParams, RpcError>)
    ensures r.Err? <==> req.password.Some? && hashed.Err?
    ensures r.Err? ==> r.error == WithCode(Internal)
    ensures r.Ok? ==>
      && r.value.username == req.username
      && r.value.fullName == req.fullname && r.value.email == req.email
      && (r.value.hashedPassword.Some? <==> req.password.Some?)
      && (r.value.hashedPassword.Some? ==> r.value.hashedPassword.value == hashed.value)
      && r.value.passwordChangedAt == (if req.password.Some? then Some(now) else None)
      && r.value.isEmailVerified.None?
  {
    if req.password.None? then Ok(UpdateUserParams(req.username, req.fullname, None, None, req.email, None))
    else if hashed.Err? then Err(WithCode(Internal))
    else Ok(UpdateUserParams(req.username, req.fullname, Some(hashed.value), Some(now), req.email, None))
  }

  /** `arg` as the handler builds it: the name, full name and e-mail, and,
      for a new password, the hash and the change time. */
  method BuildUpdateUserParams(req: UpdateUserRequest, hashed: Result<string, string>, now: int)
    returns (r: Result<UpdateUserParams, RpcError>)
    ensures r == UpdateArgs(req, hashed, now)
  {
    var arg := UpdateUserParams(req.username, None, None, None, None, None);
    arg := arg.(fullName := if req.fullname.Some? then Some(req.fullname.value) else None);
    arg := arg.(email := if req.email.Some? then Some(req.email.value) else None);
    if req.password.Some? {
      if hashed.Err? {
        return Err(WithCode(Internal));
      }
      arg := arg.(hashedPassword := Some(hashed.value));
      arg := arg.(passwordChangedAt := Some(now));
    }
    r := Ok(arg);
  }

  /** Everything `UpdateUser` decides before the store: authorization,
      then validation, then the ownership check, then the parameters. */
  function UpdateUserGate(md: Option<Md>, verify: string -> Result<Payload, TokenError>, req: UpdateUserRequest,
                          parses: string -> bool, hashed: Result<string, string>, now: int, rev: Revision)
    : (r: Result<UpdateUserParams, RpcError>)
    ensures AuthorizeUser(md, verify).Err? ==> r == Err(PlainError(AuthorizeUser(md, verify).error))
    ensures r.Ok? <==>
      && AuthorizeUser(md, verify).Ok? && Failing(UpdateUserChecks(req, parses, rev)) == []
      && AuthorizeUser(md, verify).value.username == req.username
      && UpdateArgs(req, hashed, now).Ok?
    ensures r.Ok? ==> r == UpdateArgs(req, hashed, now)
  {
    match AuthorizeUser(md, verify)
    case Err(e) => Err(PlainError(e))
    case Ok(payload) =>
      var violations := Failing(UpdateUserChecks(req, parses, rev));
      if violations != [] then Err(StatusError(InvalidArgument, violations))
      else if payload.username != req.username then Err(WithCode(PermissionDenied))
      else UpdateArgs(req, hashed, now)
  }

  /** An unauthorized caller learns nothing about the request: the answer
      is the same whatever was asked. */
  lemma AuthorizationFirst(md: Option<Md>, verify: string -> Result<Payload, TokenError>,
                           req1: UpdateUserRequest, req2: UpdateUserRequest, parses: string -> bool,
                           hashed: Result<string, string>, now: int, rev: Revision)
    requires AuthorizeUser(md, verify).Err?
    ensures UpdateUserGate(md, verify, req1, parses, hashed, now, rev) == UpdateUserGate(md, verify, req2, parses, hashed, now, rev)
    ensures UpdateUserGate(md, verify, req1, parses, hashed, now, rev).error.ReportedCode() == Unknown
  {
  }

  /** An invalid request is InvalidArgument even for another user's
      account; only a valid one for another user is PermissionDenied. */
  lemma ValidationBeforeOwnership(md: Option<Md>, verify: string -> Result<Payload, TokenError>, req: UpdateUserRequest,
                                  parses: string -> bool, hashed: Result<string, string>, now: int, rev: Revision)
    requires AuthorizeUser(md, verify).Ok?
    ensures var r := UpdateUserGate(md, verify, req, parses, hashed, now, rev);
      && (Failing(UpdateUserChecks(req, parses, rev)) != [] ==>
            r == Err(StatusError(InvalidArgument, Failing(UpdateUserChecks(req, parses, rev)))))
      && (Failing(UpdateUserChecks(req, parses, rev)) == [] && AuthorizeUser(md, verify).value.username != req.username ==>
            r == Err(WithCode(PermissionDenied)))
  {
  }

  /** Without a new password the stored hash and change time stay, and
      the verification flag is never touched. */
  lemma NoPasswordKeepsPassword(u: User, req: UpdateUserRequest, hashed: Result<string, string>, now: int)
    requires req.password.None?
    ensures var r := ApplyUpdate(u, UpdateArgs(req, hashed, now).value);
      r.hashedPassword == u.hashedPassword && r.passwordChangedAt == u.passwordChangedAt
      && r.isEmailVerified == u.isEmailVerified && r.username == u.username
  {
  }

  /** A new password replaces the hash and stamps the change time. */
  lemma PasswordChangeStamps(u: User, req: UpdateUserRequest, hashed: Result<string, string>, now: int)
    requires req.password.Some? && hashed.Ok?
    ensures var r := ApplyUpdate(u, UpdateArgs(req, hashed, now).value);
      r.hashedPassword == hashed.value && r.passwordChangedAt == now && r.isEmailVerified == u.isEmailVerified
  {
  }

  /** `UpdateUser`: nothing reaches the store unless every check passes;
      then the store's error is mapped, NotFound for a missing user. */
  method UpdateUser(store: SqlStore, md: Option<Md>, verify: string -> Result<Payload, TokenError>,
                    req: UpdateUserRequest, parses: string -> bool, hashed: Result<string, string>,
                    now: int, fault: Option<DbError>, rev: Revision)
    returns (r: Result<UserResponse, RpcError>)
    requires store.Valid()
    modifies store`users, store`log
    ensures store.Valid()
    ensures var gate := UpdateUserGate(md, verify, req, parses, hashed, now, rev);
      gate.Err? ==> r == Err(gate.error) && store.log == old(store.log) && store.users == old(store.users)
    ensures var gate := UpdateUserGate(md, verify, req, parses, hashed, now, rev);
      gate.Ok? ==>
        var err := UpdateUserError(old(store.users), req.username, fault);
        && store.log == old(store.log) + [UpdateUserOp(gate.value)]
        && (err.Some? ==> r == Err(WithCode(NotFoundCode(err.value))) && store.users == old(store.users))
        && (err.None? ==>
              var u := ApplyUpdate(old(store.users)[req.username], gate.value);
              r == Ok(Response(u)) && store.users == old(store.users)[req.username := u])
  {
    var auth := AuthorizeUser(md, verify);
    if auth.Err? {
      return Err(PlainError(auth.error));
    }
    var violations := ValidateUpdateUserRequest(req, parses, rev);
    if violations != [] {
      return Err(StatusError(InvalidArgument, violations));
    }
    if auth.value.username != req.username {
      return Err(WithCode(PermissionDenied));
    }
    var arg := BuildUpdateUserParams(req, hashed, now);
    if arg.Err? {
      return Err(arg.error);
    }
    var user, err := store.UpdateUser(arg.value, fault);
    if err.Some? {
      return Err(WithCode(NotFoundCode(err.value)));
    }
    r := Ok(Response(user));
  }
}

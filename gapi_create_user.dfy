/** The `CreateUser` RPC (gapi/rpc_create_user.go). Hashing the password
    and enqueueing the verification e-mail are foreign calls: `hashed` is
    what `util.HashPassword` returns and `enqueued(username)` says whether
    the task distributor accepted the task. */
module GapiCreateUser {
  import opened Base
  import opened Db
  import opened Store
  import opened Validators
  import opened Rpc

  datatype CreateUserRequest = CreateUserRequest(username: string, fullname: string, password: string, email: string)

  /** The `pb.User` of a response. */
  datatype UserResponse = UserResponse(username: string, fullName: string, email: string, passwordChangedAt: int)

  function Response(u: User): (r: UserResponse)
    ensures r.username == u.username && r.fullName == u.fullName && r.email == u.email
  {
    UserResponse(u.username, u.fullName, u.email, u.passwordChangedAt)
  }

  /** The four validators, in the order `validateCreateUserRequest` runs
      them. */
  function CreateUserChecks(req: CreateUserRequest, parses: string -> bool, rev: Revision): (cs: seq<Check>)
  {
    [ Check("username", ValidateUsername(req.username)),
      Check("fullname", ValidateFullNameIn(rev, req.fullname)),
      Check("password", ValidatePassword(req.password)),
      Check("email", ValidateEmailIn(rev, req.email, parses)) ]
  }

  /** `validateCreateUserRequest`: every field is checked and each failure
      appends one violation. */
  method ValidateCreateUserRequest(req: CreateUserRequest, parses: string -> bool, rev: Revision) returns (violations: seq<Violation>)
    ensures violations == Failing(CreateUserChecks(req, parses, rev))
  {
    violations := [];
    violations := AppendViolation(violations, "username", ValidateUsername(req.username));
    violations := AppendViolation(violations, "fullname", ValidateFullNameIn(rev, req.fullname));
    violations := AppendViolation(violations, "password", ValidatePassword(req.password));
    violations := AppendViolation(violations, "email", ValidateEmailIn(rev, req.email, parses));
    FailingOfFour(CreateUserChecks(req, parses, rev));
  }

  /** Each field's violation is exactly that field's validator error, and
      there is none exactly when all four validators accept. */
  lemma CreateUserViolations(req: CreateUserRequest, parses: string -> bool, rev: Revision)
    ensures var vs := Failing(CreateUserChecks(req, parses, rev));
      && ViolationFor(vs, "username") == ValidateUsername(req.username)
      && ViolationFor(vs, "fullname") == ValidateFullNameIn(rev, req.fullname)
      && ViolationFor(vs, "password") == ValidatePassword(req.password)
      && ViolationFor(vs, "email") == ValidateEmailIn(rev, req.email, parses)
    ensures Failing(CreateUserChecks(req, parses, rev)) == [] <==>
      && ValidateUsername(req.username).None? && ValidateFullNameIn(rev, req.fullname).None?
      && ValidatePassword(req.password).None? && ValidateEmailIn(rev, req.email, parses).None?
  {
    var cs := CreateUserChecks(req, parses, rev);
    assert DistinctFields(cs);
    FieldViolation(cs, 0);
    FieldViolation(cs, 1);
    FieldViolation(cs, 2);
    FieldViolation(cs, 3);
  }

  /** A request with a spaced full name and an address that parses:
      the handler as written reports both fields, the intended one
      accepts the request. */
  lemma CreateUserRevisionsDiffer(parses: string -> bool)
    requires parses("a@b.co")
    ensures var req := CreateUserRequest("jo_li", "Jo Li", "secret123", "a@b.co");
      && ViolationFor(Failing(CreateUserChecks(req, parses, AsWritten)), "fullname") == Some(FullNameCharset)
      && ViolationFor(Failing(CreateUserChecks(req, parses, AsWritten)), "email") == Some(InvalidEmail)
      && Failing(CreateUserChecks(req, parses, Intended)) == []
  {
    var req := CreateUserRequest("jo_li", "Jo Li", "secret123", "a@b.co");
    FullNameRevisionsDiffer();
    EmailRevisionsDiffer(parses);
    SampleCredentialsValid();
    CreateUserViolations(req, parses, AsWritten);
    CreateUserViolations(req, parses, Intended);
  }

  /** The `AfterCreate` callback: a task the distributor refuses is an
      Internal status, which aborts the unit of work. */
  function AfterCreate(enqueued: string -> bool): User -> Option<Error>
  {
    (u: User) => if enqueued(u.username) then None else Some(Callback("cannot send verification email"))
  }

  function CreateUserArgs(req: CreateUserRequest, hashedPassword: string, enqueued: string -> bool): (arg: CreateUserTxParams)
    ensures arg.params == CreateUserParams(req.username, hashedPassword, req.fullname, req.email)
  {
    CreateUserTxParams(CreateUserParams(req.username, hashedPassword, req.fullname, req.email), AfterCreate(enqueued))
  }

  /** A taken username is InvalidArgument when the rollback succeeds... */
  lemma DuplicateUsername(users: map<string, User>, req: CreateUserRequest, hashedPassword: string,
                          enqueued: string -> bool, f: Faults)
    requires req.username in users
    requires f.begin.None? && f.At(0).None?
    ensures var err := CreateUserTxError(users, CreateUserArgs(req, hashedPassword, enqueued), f);
      err.Some? && (UniqueViolationCode(err.value) == InvalidArgument <==> f.rollback.None?)
  {
  }

  /** ...and a refused e-mail task is Internal, never InvalidArgument. */
  lemma RefusedTaskIsInternal(users: map<string, User>, req: CreateUserRequest, hashedPassword: string,
                              enqueued: string -> bool, f: Faults)
    requires req.username !in users && !enqueued(req.username)
    requires f.begin.None? && f.At(0).None?
    ensures var err := CreateUserTxError(users, CreateUserArgs(req, hashedPassword, enqueued), f);
      err.Some? && UniqueViolationCode(err.value) == Internal
  {
  }

  /** `CreateUser`: violations stop the call with InvalidArgument and a
      hashing failure with Internal, both before the store is touched;
      otherwise the unit of work runs and its error is mapped. */
  method CreateUser(store: SqlStore, req: CreateUserRequest, parses: string -> bool,
                    hashed: Result<string, string>, enqueued: string -> bool, f: Faults, rev: Revision)
    returns (r: Result<UserResponse, RpcError>)
    requires store.Valid() && !store.inTx
    modifies store
    ensures store.Valid() && !store.inTx && store.opening == old(store.opening)
    ensures Failing(CreateUserChecks(req, parses, rev)) != [] ==>
      && r == Err(StatusError(InvalidArgument, Failing(CreateUserChecks(req, parses, rev))))
      && store.log == old(store.log) && store.Data() == old(store.Data())
    ensures Failing(CreateUserChecks(req, parses, rev)) == [] && hashed.Err? ==>
      r == Err(WithCode(Internal)) && store.log == old(store.log) && store.Data() == old(store.Data())
    ensures Failing(CreateUserChecks(req, parses, rev)) == [] && hashed.Ok? ==>
      var arg := CreateUserArgs(req, hashed.value, enqueued);
      var err := CreateUserTxError(old(store.users), arg, f);
      && |store.log| > |old(store.log)| && store.log[|old(store.log)|] == BeginOp
      && (err.Some? ==> r == Err(WithCode(UniqueViolationCode(err.value))) && store.Data() == old(store.Data()))
      && (err.None? ==>
          r == Ok(Response(NewUser(arg.params))) &&
          store.Data() == old(store.Data()).(users := old(store.users)[req.username := NewUser(arg.params)]))
  {
    var violations := ValidateCreateUserRequest(req, parses, rev);
    if violations != [] {
      return Err(StatusError(InvalidArgument, violations));
    }
    if hashed.Err? {
      return Err(WithCode(Internal));
    }
    var arg := CreateUserArgs(req, hashed.value, enqueued);
    var result, err := store.CreateUserTx(arg, f);
    if err.Some? {
      return Err(WithCode(UniqueViolationCode(err.value)));
    }
    r := Ok(Response(result.user));
  }
}

/** Records, parameters, results and errors of the `db` package
    (db/sqlc/store.go and the tx_*.go files). Balances are mathematical
    integers; the decimal text the queries exchange is not modelled. */
module Db {
  import opened Base

  /** Errors coming out of `database/sql` and the Postgres driver. */
  datatype DbError =
    | NoRows                       // sql.ErrNoRows
    | PqError(codeName: string)    // a *pq.Error, by its condition name, e.g. "unique_violation"
    | Driver(message: string)      // any other failure: lost connection, timeout, ...

  /** A Go `error` as the core builds it. Wrapping with `fmt.Errorf("%v")`
      keeps only the text, so a wrapped error is no longer a `*pq.Error`
      nor equal to `sql.ErrNoRows`. */
  datatype Error =
    | Sql(dbError: DbError)                    // returned by the store unchanged
    | InStep(step: string, cause: Error)       // "context: <step>, err: <cause>"
    | WithRollback(txErr: Error, rbErr: DbError) // "tx error: <txErr>, rb error: <rbErr>"
    | Callback(reason: string)                 // returned by a caller's callback

  datatype Account = Account(id: int, owner: string, balance: int, currency: string)

  /** One ledger line: a signed amount against one account. */
  datatype Entry = Entry(accountId: int, amount: int)

  datatype Transfer = Transfer(fromAccountId: int, toAccountId: int, amount: int)

  datatype User = User(
    username: string,
    hashedPassword: string,
    fullName: string,
    email: string,
    passwordChangedAt: int,
    isEmailVerified: bool)

  datatype VerifyEmail = VerifyEmail(id: int, username: string, email: string, secretCode: string, isUsed: bool)

  datatype Session = Session(
    id: int,
    username: string,
    refreshToken: string,
    userAgent: string,
    clientIp: string,
    isBlocked: bool,
    expiresAt: int)

  datatype CreateTransferParams = CreateTransferParams(fromAccountId: int, toAccountId: int, amount: int)

  datatype CreateUserParams = CreateUserParams(username: string, hashedPassword: string, fullName: string, email: string)

  /** `UpdateUserParams`: a `sql.Null*` column is `None` when not `Valid`. */
  datatype UpdateUserParams = UpdateUserParams(
    username: string,
    fullName: Option<string>,
    hashedPassword: Option<string>,
    passwordChangedAt: Option<int>,
    email: Option<string>,
    isEmailVerified: Option<bool>)

  datatype CreateSessionParams = CreateSessionParams(
    id: int,
    username: string,
    refreshToken: string,
    userAgent: string,
    clientIp: string,
    isBlocked: bool,
    expiresAt: int)

  datatype TransferTxParams = TransferTxParams(fromAccountId: int, toAccountId: int, amount: int)

  datatype TransferTxResult = TransferTxResult(
    fromAccount: Account,
    toAccount: Account,
    transfer: Transfer,
    fromEntry: Entry,
    toEntry: Entry)

  /** `CreateUserTxParams`: the insert parameters and the callback run on
      the new user inside the same transaction. */
  datatype CreateUserTxParams = CreateUserTxParams(params: CreateUserParams, afterCreate: User -> Option<Error>)

  datatype CreateUserTxResult = CreateUserTxResult(user: User)

  datatype VerifyEmailTxParams = VerifyEmailTxParams(emailId: int, secretCode: string)

  datatype VerifyEmailTxResult = VerifyEmailTxResult(user: User, verifyEmail: VerifyEmail)

  const ZeroAccount := Account(0, "", 0, "")
  const ZeroUser := User("", "", "", "", 0, false)
  const ZeroVerifyEmail := VerifyEmail(0, "", "", "", false)
  const ZeroTransferTxResult := TransferTxResult(ZeroAccount, ZeroAccount, Transfer(0, 0, 0), Entry(0, 0), Entry(0, 0))

  /** The persistent tables the units of work touch. */
  datatype State = State(
    accounts: map<int, Account>,
    entries: seq<Entry>,
    transfers: seq<Transfer>,
    users: map<string, User>,
    verifyEmails: map<int, VerifyEmail>)

  /** Every row is stored under its own key. */
  predicate WellKeyed(s: State)
  {
    && (forall id :: id in s.accounts ==> s.accounts[id].id == id)
    && (forall u :: u in s.users ==> s.users[u].username == u)
    && (forall id :: id in s.verifyEmails ==> s.verifyEmails[id].id == id)
  }

  /** The failures the environment injects into one unit of work:
      `calls[i]` is the failure of the i-th store call made by the
      callback (none if absent), the others those of begin, rollback
      and commit. */
  datatype Faults = Faults(
    begin: Option<DbError>,
    calls: seq<Option<DbError>>,
    rollback: Option<DbError>,
    commit: Option<DbError>)
  {
    function At(i: nat): Option<DbError>
    {
      if i < |calls| then calls[i] else None
    }
  }

  const NoFaults := Faults(None, [], None, None)

  /** One call issued to the store, recorded in the order issued. */
  datatype Op =
    | BeginOp
    | CommitOp
    | RollbackOp
    | GetAccountOp(id: int)
    | CreateTransferOp(transferParams: CreateTransferParams)
    | CreateEntryOp(accountId: int, amount: int)
    | UpdateBalanceOp(id: int, delta: int)
    | CreateUserOp(userParams: CreateUserParams)
    | AfterCreateOp(user: User)
    | UpdateVerifyEmailOp(emailId: int, secretCode: string)
    | UpdateUserOp(updateParams: UpdateUserParams)

  /** The ids of the balance updates among `ops`, in order. */
  function UpdatedIds(ops: seq<Op>): (ids: seq<int>)
    ensures |ids| <= |ops|
  {
    if ops == [] then []
    else (if ops[0].UpdateBalanceOp? then [ops[0].id] else []) + UpdatedIds(ops[1..])
  }

  lemma {:induction false} UpdatedIdsAppend(a: seq<Op>, b: seq<Op>)
    ensures UpdatedIds(a + b) == UpdatedIds(a) + UpdatedIds(b)
  {
    if a == [] {
      assert a + b == b;
    } else {
      var head := if a[0].UpdateBalanceOp? then [a[0].id] else [];
      assert (a + b)[0] == a[0] && (a + b)[1..] == a[1..] + b;
      assert UpdatedIds(a + b) == head + UpdatedIds(a[1..] + b);
      UpdatedIdsAppend(a[1..], b);
      assert UpdatedIds(a) == head + UpdatedIds(a[1..]);
    }
  }
}

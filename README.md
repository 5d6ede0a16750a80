# bank-golang core in Dafny

This project models the core of bank-golang, a small banking backend written
in Go. Users own accounts in one currency. Money moves between accounts
through transfers, and every transfer leaves a double-entry trail. The
service has two front ends: an HTTP API (Fiber) and a gRPC API.

The model covers the following.

- **The store's units of work**, in `store.dfy`. `SqlStore` is a class whose
  fields are the tables: accounts, entries, transfers, users and
  verify-email rows.
  - The generated queries are methods that may fail. The environment
    injects each failure per call (`Faults`), and the missing-row and
    unique-key failures come from the tables themselves.
  - `execTx` is `BeginTx`, then the callback method, then `EndTx`. `BeginTx`
    takes a snapshot. `EndTx` commits, or restores the snapshot.
  - A ghost log records every store call in the order it is issued. This
    lets the order of calls, "nothing after a failure runs" and the
    smaller-id-first lock rule be stated as plain postconditions.
  - `addMoney`, `TransferTx`, `CreateUserTx` and `VerifyEmailTx` are built on
    these pieces.
- **The ledger algebra**, in `ledger.dfy`: what transfers do to balances and
  entries. It covers conservation of sums, zero-sum entry pairs, series of
  transfers and back-and-forth transfers, and the invariant "balance =
  opening balance + sum of entries".
- **The HTTP handlers**:
  - the transfer pipeline: tags, source account, owner, destination account,
    then `TransferTx`;
  - the account handlers: create, get, list with paging, update, delete;
  - the bearer-token middleware;
  - access-token renewal.
- **The gRPC handlers**:
  - the field validators;
  - how the violation lists are assembled;
  - `CreateUser`, `UpdateUser` and `LoginUser`, with their step order and
    error codes;
  - `authorizeUser`;
  - `extractMetadata`.
- **Token payloads** (creation and expiry), with the clock as a parameter,
  and the digit fold `StringToInt`.

Foreign calls become parameters: token verification and creation, bcrypt
hashing and checking, `uuid.NewRandom`, `time.Now`, `mail.ParseAddress`, the
task distributor, session and user lookups, and the peer address. Go's
string functions that the core relies on are defined in `gotext.dfy`:
`len` in UTF-8 bytes, `strings.Split`, `strings.Fields` and ASCII
`strings.ToLower`.

The request type `types.CreateAccountRequest` (types/account.go:5-7) has no
owner field, yet `createAccountHandler` reads `req.Owner`
(api/account.go:49). The model follows the handler: the request carries an
owner.

Three pieces of the source are defective (see "## Findings"): the int32 page
offset, the full-name pattern and the e-mail check. The handlers that use
them take a `Revision` parameter. `AsWritten` is the code as it stands, and
`Intended` is the evident intent. Every handler contract holds for both, and
lemmas show inputs where the two answer differently.

## Model

| member | source | states |
|---|---|---|
| Store.Settled | db/sqlc/store.go:36-44 | The result is success exactly when the callback and the commit both succeed. A failed callback's error is never lost: it is returned as is, or carried inside the rollback error. |
| Store.SqlStore.BeginTx | db/sqlc/store.go:30-33 | A failed begin is returned unchanged, no transaction opens and nothing else is called. Otherwise the tables are snapshotted. |
| Store.SqlStore.EndTx | db/sqlc/store.go:36-44 | A failed callback leads to a rollback, a successful one to a commit. The error is `Settled`'s. Whenever the result is an error, the tables are exactly the snapshot. |
| Store.SqlStore.AddMoney | db/sqlc/store.go:47-68 | `account1ID` is updated strictly before `account2ID`, each by a relative delta. If the first update fails, the second is never issued and the tables are unchanged. Each returned record is the row after its own update. |
| Store.AddToBalanceRows | db/sqlc/store.go:54-65 | A relative balance update changes the one balance by the delta and nothing else in the table. |
| Store.SqlStore.UpdateAccountBalance | db/sqlc/store.go:54-57 | The call is logged. It fails on an injected fault or a missing row and then changes nothing. On success the row's balance becomes old balance + delta. |
| Store.SqlStore.RecordTransfer | db/sqlc/tx_create_transfer.go:37-63 | The transfer insert, the debit entry `(from, -amount)` and the credit entry `(to, +amount)` are issued in that order. The first failing insert stops the sequence, and its error is wrapped with its step's name. |
| Store.SqlStore.MoveMoney | db/sqlc/tx_create_transfer.go:66-76 | The account with the smaller id is updated first. The source account moves by -amount and the destination by +amount. `fromAccount` is the source row and `toAccount` the destination row in both branches. |
| Store.DebitFirstMoves | db/sqlc/tx_create_transfer.go:66-70 | Debit-then-credit reaches the moved table, and each returned row is its final row. |
| Store.CreditFirstMoves | db/sqlc/tx_create_transfer.go:71-76 | Credit-then-debit reaches the same moved table, and the swapped pair still gives the source row first. When source and destination are the same account, the credited row comes from between the two updates. |
| Store.SqlStore.TransferCallback | db/sqlc/tx_create_transfer.go:32-79 | The calls run in the order transfer, from-entry, to-entry, the two balance updates, up to the first failure. The callback succeeds exactly when all five succeed. Success means one transfer and its two entries were appended and the money moved. |
| Store.SqlStore.TransferTx | db/sqlc/tx_create_transfer.go:29-83 | The call log is exactly `TransferLog`. Success means the begin, all five calls and the commit succeeded, and then the records are appended and the balances moved. Any error leaves every table as it was. The ledger invariant is preserved. |
| Store.TransferLockOrder | db/sqlc/tx_create_transfer.go:66-76 | A transfer updates at most the smaller id and then the larger one, in that order. A committed transfer updates both. |
| Store.StopsAtFirstFailure | db/sqlc/tx_create_transfer.go:42-75 | A failing step ends the callback: no later call is issued and the transfer does not succeed. |
| Store.TransferAppliedKeepsLedger | db/sqlc/tx_create_transfer.go:48-76 | After a successful transfer, every balance is still its opening balance plus the sum of its recorded entries. |
| Store.TransferAppliedConserves | db/sqlc/tx_create_transfer.go:66-76 | A successful transfer leaves unchanged the sum of balances over any list of accounts that names source and destination equally often. |
| Store.TransferredRows | db/sqlc/tx_create_transfer.go:66-76 | Moving money changes the two balances as `Ledger.Moved` says, and no owner, currency or id changes. |
| Store.CreateUserTxError | db/sqlc/tx_create_user.go:22-38 | `CreateUserTx` fails with the begin error if the begin fails. Otherwise it succeeds exactly when the insert, `AfterCreate` on the new user and the commit all succeed. |
| Store.SqlStore.CreateUserCallback | db/sqlc/tx_create_user.go:25-34 | The user is inserted from exactly the parameters. A failed insert is returned and `AfterCreate` is not called. Otherwise `AfterCreate` is called once, with the inserted user, and its error is the callback's. |
| Store.SqlStore.CreateUserTx | db/sqlc/tx_create_user.go:22-38 | The exact call sequence and error for each case. The user persists exactly when the insert, `AfterCreate` and the commit succeed. A failing `AfterCreate` leaves the users table as it was. On success the result is the new user. |
| Store.SqlStore.CreateUser | db/sqlc/tx_create_user.go:28-31 | An existing username gives a `unique_violation` driver error and no insert. Otherwise the new user is not verified and its password was never changed. |
| Store.MarkVerifiedOnlyFlag | db/sqlc/tx_verify_email.go:40-46 | The update `VerifyEmailTx` issues sets the email-verified flag and changes no other field of the user. |
| Store.SqlStore.VerifyEmailCallback | db/sqlc/tx_verify_email.go:25-53 | The verify-email row is updated from exactly `EmailId` and `SecretCode`. If that fails, the user is not touched. Otherwise the user named by the returned row gets the flag set, and only that field changes. |
| Store.SqlStore.VerifyEmailTx | db/sqlc/tx_verify_email.go:22-56 | Both updates persist or neither does. On success the result holds the used verify-email row and the verified user. |
| Store.ApplyUpdate | gapi/rpc_update_user.go:43-70 | The username never changes, and an update with no parameter set leaves the user as it was. |
| Store.ApplyUpdateIdempotent | gapi/rpc_update_user.go:43-70 | Applying the same update twice gives the same user as applying it once. |
| Ledger.CreditsAreMove | db/sqlc/store.go:47-68 | Two relative updates, in either order, reach the net effect of one transfer. |
| Ledger.MoveBack | db/sqlc/store_test.go:163-200 | Moving an amount and moving it back restores every balance. |
| Ledger.MovedSum | db/sqlc/tx_create_transfer.go:66-76 | A transfer changes a sum of balances by the amount times the difference in how often the list names the destination and the source. |
| Ledger.Conservation | db/sqlc/tx_create_transfer.go:66-76 | Over a list that names source and destination equally often, the sum of balances is unchanged. |
| Ledger.ApplyAllNet | db/sqlc/store_test.go:145-146 | After a series of transfers, each balance has moved by its net incoming flow. |
| Ledger.RepeatedTransfers | db/sqlc/store_test.go:145-146 | n transfers of `amount` from x to y lower x by exactly n·amount and raise y by n·amount. |
| Ledger.BackAndForthCancel | db/sqlc/store_test.go:163-200 | Equally many x→y and y→x transfers of the same amount leave every balance as it was. |
| Ledger.NetBetween | db/sqlc/store_test.go:163-200 | For transfers between x and y, each side's net flow is the amount times the difference of the two counts, and every other account's is zero. |
| Ledger.TransferEntries | db/sqlc/tx_create_transfer.go:48-60 | A transfer records two entries whose amounts sum to zero. |
| Ledger.TransferKeepsLedger | db/sqlc/tx_create_transfer.go:48-76 | Recording the two entries and moving the money keeps "balance = opening balance + sum of entries" for every account. |
| Ledger.EntrySumAppend | db/sqlc/tx_create_transfer.go:48-63 | An account's entry total over appended entries is the sum of the two totals. |
| ApiTransfer.AccountExist | api/transfer.go:89-115 | A missing account gives 404 and any other lookup error 500. A currency different from the request's gives 400. Otherwise the result is the account itself. Success holds exactly when the lookup succeeds and the currency matches. |
| ApiTransfer.PrecheckPasses | api/transfer.go:15-66 | The checks pass exactly when: the tags hold, both lookups succeed, both accounts are in the request's currency, and the caller owns the source. Both accounts were then looked up, source first. |
| ApiTransfer.SourceDecidesFirst | api/transfer.go:52-60 | A failed source check or a foreign source decides the answer, and the destination is never looked up. The destination's row and lookup failure do not change the answer. |
| ApiTransfer.CurrencyMismatch | api/transfer.go:110-112 | Either account in a currency other than the request's gives 400. |
| ApiTransfer.CreateTransferHandler | api/transfer.go:15-86 | The answer and the store calls for every path. A failed check gives its status with only the lookups made so far. When all checks pass, `TransferTx` runs once with the request's from, to and amount. Its failure gives 500 with every table unchanged, and its success gives 200 with the applied transfer. |
| ApiAccount.CreateAccountHandler | api/account.go:33-66 | The store is called exactly when the tags hold, with balance "0". A store error gives 400, and success gives 201. |
| ApiAccount.NewAccountStartsAtZero | api/account.go:48-52 | A new account's balance reads back as 0. |
| ApiAccount.LookupStatus | api/account.go:82-88 | Not-found gives 404, any other error 500, and no error 200. |
| ApiAccount.GetAccountHandler | api/account.go:69-95 | The path id goes through `StringToInt` unchecked. A non-positive result gives 400 before any store call. Otherwise that id is looked up and the answer is mapped by `LookupStatus`. |
| ApiAccount.GetByDecimalId | api/account.go:73-81 | A decimal path parameter looks up exactly that id. |
| ApiAccount.GetByLetter | api/account.go:73-74 | A non-numeric path parameter is not rejected: "a" looks up account 49. |
| ApiAccount.ListArgsAsWritten | api/account.go:116-119 | The offset the code computes is a 32-bit value congruent to (PageID-1)·PageSize modulo 2^32, with `Limit = PageSize`. |
| ApiAccount.ListArgs | api/account.go:116-119 | The corrected offset, not the code as written. `Limit = PageSize`. For a positive page id and page size, the offset is non-negative, a whole number of pages, and skips exactly PageID-1 pages. |
| ApiAccount.ListArgsAgree | api/account.go:116-119 | When the product fits in 32 bits, the int32 computation and the exact one agree. |
| ApiAccount.ListOffsetWraps | api/account.go:118 | PageID 500000001 with PageSize 5 passes the tags, but the int32 offset is -1794967296 instead of 2500000000. |
| ApiAccount.ListAccountsHandler | api/account.go:98-133 | PageID 0 with PageSize 0 gives 400 before any store call. The store is called exactly when the tags hold, and its answer is mapped by `LookupStatus`. The call carries the revision's arguments: the int32 `ListArgsAsWritten` as written, the exact `ListArgs` as intended. |
| ApiAccount.ListHandlerWraps | api/account.go:116-119 | On PageID 500000001 with PageSize 5, the handler as written asks the store for offset -1794967296, and the intended one asks for 2500000000. |
| ApiAccount.UpdateAccountHandler | api/account.go:136-166 | The store is called exactly when the tags hold, for the requested id. Any store error gives 500, and success gives 200. |
| ApiAccount.UpdateForwardsBalance | api/account.go:151-154 | The balance reaches the store as decimal digits that read back as the requested balance. |
| ApiAccount.DeleteAccountHandler | api/account.go:169-193 | The `StringToInt` id must be at least 1, or the answer is 400 with no store call. A store error gives 500, and success gives 200. |
| ApiAuth.AuthMiddleware | api/authMiddleware.go:17-51 | An empty header gives 401, and every failure is 401. The request proceeds exactly when the header is well formed and the token verifies, with the verified payload. |
| ApiAuth.TwoPartsOneSpace | api/authMiddleware.go:26-31 | The header splits into exactly two parts exactly when it holds exactly one space. |
| ApiAuth.BearerHeaderAccepted | api/authMiddleware.go:26-40 | A scheme that lower-cases to "bearer", one space, then a token without spaces is well formed, and it presents that token. |
| ApiAuth.WellFormedShape | api/authMiddleware.go:26-40 | Every well-formed header is a scheme without spaces, one space, then the presented token, which holds no space. |
| ApiAuth.DoubleSpaceRejected | api/authMiddleware.go:26-31 | "Bearer  token" (two spaces) is rejected with 401 before verification. |
| ApiToken.SessionCheck | api/token.go:29-35 | A blocked session, or one for another username, gives 401. |
| ApiToken.RenewAccessTokenHandler | api/token.go:10-50 | The call order and the status of each path. A failed verification gives 401 before any lookup. The session is looked up by the payload id: not-found gives 404, another error 500. The session checks come next. On success the new token is made for the payload's username with the access duration, and the body is that token and its expiry. |
| ApiToken.RenewSucceedsIff | api/token.go:16-45 | Renewal succeeds exactly when the refresh token verifies, the session exists, is not blocked and belongs to the same user, and the token is created. |
| Token.NewPayload | token/payload.go:16-29 | An id-generation error is passed on. Otherwise the payload keeps the id and the username, `IssuedAt` is now in Unix seconds, and `ExpiredAt` is now + duration in Unix seconds. |
| Token.Valid | token/payload.go:31-37 | A payload is expired exactly when the current Unix second is strictly after `ExpiredAt`. The only error is expiry. |
| Token.Window | token/payload.go:26-27 | The validity window is the duration in whole seconds, or one second more. |
| Token.WholeSecondWindow | token/payload.go:26-27 | A whole-second duration gives an exact window. |
| Token.ExpiredAtIssue | token/payload.go:26-33 | A duration of minus one second or less is expired at once. A non-negative duration is valid at issue. |
| Token.ExpiryIsFinal | token/payload.go:31-37 | Once expired, a payload stays expired. |
| Convert.StringToInt | util/convert.go:3-9 | The loop computes the digit fold of the string. |
| Convert.AppendRune | util/convert.go:5-7 | `StringToInt(s + [c]) == 10·StringToInt(s) + (c - '0')`. |
| Convert.FoldIsPositional | util/convert.go:3-9 | The fold equals the positional sum Σ (c_i - '0')·10^(n-1-i). |
| Convert.DigitsInRange | util/convert.go:3-9 | For a string of the digits '0'..'9', the result is its decimal value, between 0 and 10^length. |
| Convert.NoValidation | util/convert.go:6 | No validation happens: "" → 0, "42" → 42, "a" → 49, "-1" → -29. |
| Convert.LeadingZero | util/convert.go:3-9 | A leading '0' does not change the result. |
| Convert.DecimalRoundTrip | util/convert.go:3-9 | `StringToInt` inverts the decimal rendering of every non-negative number. |
| Convert.DecimalNoLeadingZero | api/account.go:151-154 | The decimal rendering starts with '0' only for zero. |
| Validators.ValidateString | gapi/errors.go:14-21 | The value is accepted exactly when min ≤ len(value) ≤ max, with `len` in UTF-8 bytes and both bounds inclusive. |
| Validators.UsernameAccepted | gapi/errors.go:23-32 | A username is accepted exactly when it is 3..32 bytes and every character is in [a-z0-9_]. |
| Validators.ValidateUsername | gapi/errors.go:23-32 | The length check runs first, and its error is the one returned. |
| Validators.FullNameAcceptedAsWritten | gapi/errors.go:11 | As written, a full name is accepted exactly when it is 3..50 bytes of ASCII letters and backslashes. |
| Validators.FullNameRejectsSpaceAsWritten | gapi/errors.go:11 | As written, "Jo Li" is rejected. |
| Validators.FullNameAcceptsBackslashAsWritten | gapi/errors.go:11 | As written, "Jo\Li" is accepted. |
| Validators.FullNameAccepted | gapi/errors.go:34-44 | Corrected validator, not the code as written: a full name is accepted exactly when it is 3..50 bytes of ASCII letters and RE2 whitespace. |
| Validators.FullNameAcceptsSpace | gapi/errors.go:40 | "Jo Li" is accepted, as the error message promises. |
| Validators.FullNameRejectsBackslash | gapi/errors.go:40 | "Jo\Li" is rejected. |
| Validators.ValidateFullName | gapi/errors.go:34-44 | Corrected validator: the length check runs first, and its error is the one returned. |
| Validators.ValidateFullNameAsWritten | gapi/errors.go:34-44 | The length check runs first, and its error is the one returned. |
| Validators.ValidatePassword | gapi/errors.go:46-48 | A password is accepted exactly when it is 8..20 bytes, whatever its characters. |
| Validators.PasswordCountsBytes | gapi/errors.go:14-16 | Length counts bytes, not characters: seven "é" are 14 bytes and accepted, while seven ASCII letters are rejected. |
| Validators.EmailAsWritten | gapi/errors.go:55-58 | As written, a 5..50-byte address is rejected exactly when `mail.ParseAddress` accepts it. |
| Validators.ValidateEmailAsWritten | gapi/errors.go:50-60 | The length check runs first, and its error is the one returned. |
| Validators.EmailAccepted | gapi/errors.go:50-60 | Corrected check, not the code as written (which accepts exactly the addresses that do not parse): an address is accepted exactly when it is 5..50 bytes and parses. A well-sized address that does not parse is rejected as invalid. |
| Validators.ValidateEmail | gapi/errors.go:50-53 | Corrected check: the length check runs first, and its error is the one returned. |
| Validators.FullNameRevisionsDiffer | gapi/errors.go:34-44 | The full-name validator as written rejects "Jo Li", and the intended one accepts it. |
| Validators.EmailRevisionsDiffer | gapi/errors.go:50-60 | For an address "a@b.co" that parses, the e-mail validator as written rejects it, and the intended one accepts it. |
| Validators.SampleCredentialsValid | gapi/errors.go:23-48 | "jo_li" passes the username validator, and "secret123" passes the password validator. |
| Rpc.Failing | gapi/rpc_create_user.go:106-137 | There is at most one violation per check, and none exactly when every check passes. |
| Rpc.FailingAppend | gapi/rpc_update_user.go:93-129 | The violations of concatenated checks are the concatenated violations. |
| Rpc.AppendViolation | gapi/rpc_create_user.go:108-113 | One `if err != nil { append }` step appends exactly the violation of a failing check, tagged with its field, and nothing for a passing one. |
| Rpc.FailingPerField | gapi/rpc_create_user.go:106-137 | With distinct field names, each field's violation is exactly its own check's outcome. |
| Rpc.NotMentioned | gapi/rpc_update_user.go:102-127 | A field that is not checked has no violation. |
| Rpc.UniqueViolationCode | gapi/rpc_create_user.go:68-76 | Only a raw `*pq.Error` named `unique_violation` maps to InvalidArgument, and every other store error maps to Internal. |
| Rpc.NotFoundCode | gapi/rpc_update_user.go:72-78 | Only the raw `sql.ErrNoRows` maps to NotFound, and every other error maps to Internal. |
| Rpc.RpcError.ReportedCode | gapi/rpc_update_user.go:19-22 | A plain (non-status) error is reported to the client as Unknown, and a status error as its own code. |
| GapiAuth.AuthorizeUser | gapi/authorization.go:17-45 | No metadata and no authorization value are separate errors. Success holds exactly when the first value has at least two whitespace fields, the first lower-cases to "bearer", and the second verifies. The payload is the verifier's. A verification error is propagated as its cause. |
| GapiAuth.FirstValueOnly | gapi/authorization.go:28 | Only the first authorization value matters. |
| GapiAuth.BearerAccepted | gapi/authorization.go:29-44 | A scheme spelled "bearer" in any case, a token, and any number of further words: the token is the one verified, and extra fields are accepted. |
| GapiAuth.SchemeAloneRejected | gapi/authorization.go:29-32 | "Bearer" alone has fewer than two fields and is rejected. |
| GapiMetadata.ExtractMetadata | gapi/metadata.go:21-42 | The sequential overwrites give exactly `Resolved`. The user agent is the first "user-agent" value, else the first "grpcgareway-user-agent" value. The client IP is the peer address, else the first "x-forwarded-for" value. |
| GapiMetadata.NoSources | gapi/metadata.go:22-41 | Without metadata and peer both fields are empty. |
| GapiMetadata.Precedence | gapi/metadata.go:24-39 | A present "user-agent" beats the gateway header, and a peer beats "x-forwarded-for". |
| GapiCreateUser.ValidateCreateUserRequest | gapi/rpc_create_user.go:106-137 | The successive appends give `Failing` of the four checks: username, fullname, password, email, in that order. The full-name and e-mail checks are the revision's (as written, or intended). |
| GapiCreateUser.CreateUserViolations | gapi/rpc_create_user.go:106-137 | Each field's violation is exactly its validator's error, with the revision's full-name and e-mail validators. The list is empty exactly when all four fields are valid. |
| GapiCreateUser.CreateUserRevisionsDiffer | gapi/rpc_create_user.go:106-137 | The request ("jo_li", "Jo Li", "secret123", "a@b.co"), with an address that parses, gets full-name and e-mail violations as written and none as intended. |
| GapiCreateUser.CreateUserArgs | gapi/rpc_create_user.go:41-47 | The insert parameters are the request's username, full name and e-mail, with the hash. |
| GapiCreateUser.Response | gapi/rpc_create_user.go:93-101 | The response carries the created user's username, full name and e-mail. |
| GapiCreateUser.DuplicateUsername | gapi/rpc_create_user.go:68-76 | A taken username gives InvalidArgument when the rollback succeeds. A failed rollback wraps the error, which then maps to Internal. |
| GapiCreateUser.RefusedTaskIsInternal | gapi/rpc_create_user.go:48-65 | A refused verification-email task aborts the unit of work and maps to Internal. |
| GapiCreateUser.CreateUser | gapi/rpc_create_user.go:19-104 | Violations, judged by the revision's validators, give InvalidArgument with no store call. A hash failure gives Internal with no store call. Otherwise the unit of work runs and its error is mapped by `UniqueViolationCode`. The user persists only when it succeeds. |
| GapiUpdateUser.UpdateUserChecks | gapi/rpc_update_user.go:93-129 | The username is always checked. Full name, password and e-mail are checked only when present, in that order, under distinct field names. The full-name and e-mail checks are the revision's. |
| GapiUpdateUser.ValidateUpdateUserRequest | gapi/rpc_update_user.go:93-129 | The conditional appends give `Failing` of `UpdateUserChecks` for the same revision. |
| GapiUpdateUser.UpdateUserViolations | gapi/rpc_update_user.go:93-129 | An absent field has no violation, and a present field's violation is its validator's error, with the revision's full-name and e-mail validators. |
| GapiUpdateUser.UpdateFullNameRevisionsDiffer | gapi/rpc_update_user.go:102-109 | Changing only the full name to "Jo Li" gives one full-name violation as written and none as intended. |
| GapiUpdateUser.UpdateEmailRevisionsDiffer | gapi/rpc_update_user.go:120-127 | Changing only the e-mail to an address "a@b.co" that parses gives one e-mail violation as written and none as intended. |
| GapiUpdateUser.UpdateArgs | gapi/rpc_update_user.go:43-70 | Full name and e-mail are set exactly when present. The hash and the change time are set exactly when a password is given. The verified flag is never set. A failed hash gives Internal. |
| GapiUpdateUser.BuildUpdateUserParams | gapi/rpc_update_user.go:43-70 | Filling `arg` field by field gives exactly `UpdateArgs`. |
| GapiUpdateUser.UpdateUserGate | gapi/rpc_update_user.go:19-70 | Authorization comes first, then validation under the revision's validators, then ownership, then the parameters. It passes exactly when all four do. |
| GapiUpdateUser.AuthorizationFirst | gapi/rpc_update_user.go:19-22 | An unauthorized call gets the same answer whatever it asked, reported as Unknown. |
| GapiUpdateUser.ValidationBeforeOwnership | gapi/rpc_update_user.go:24-41 | Invalid fields give InvalidArgument even for another user. Only a valid request for another user gives PermissionDenied. |
| GapiUpdateUser.NoPasswordKeepsPassword | gapi/rpc_update_user.go:55-70 | Without a password, the stored hash and change time are kept. |
| GapiUpdateUser.PasswordChangeStamps | gapi/rpc_update_user.go:55-70 | A new password replaces the hash and stamps the change time. |
| GapiUpdateUser.UpdateUser | gapi/rpc_update_user.go:17-91 | No store call happens unless the gate passes. Then the store error is mapped by `NotFoundCode`, and on success the user is the updated row. |
| GapiLoginUser.LoginUserChecks | gapi/rpc_login_user.go:90-107 | Username then password, under distinct field names. |
| GapiLoginUser.ValidateLoginUserRequest | gapi/rpc_login_user.go:90-107 | The appends give `Failing` of the two checks. |
| GapiLoginUser.LoginUserViolations | gapi/rpc_login_user.go:90-107 | Each field's violation is its validator's error. The list is empty exactly when both fields are valid. |
| GapiLoginUser.SessionParams | gapi/rpc_login_user.go:57-65 | The session takes the refresh payload's id and expiry, the user's username and the refresh token, and is not blocked. |
| GapiLoginUser.LoginUser | gapi/rpc_login_user.go:16-88 | Violations give InvalidArgument before any call. An unknown user gives NotFound and any other lookup error Internal. A password mismatch gives Internal before any token. Every later failure is Internal. Success holds exactly when every step succeeds. |
| GapiLoginUser.NoTokenWithoutPassword | gapi/rpc_login_user.go:41-54 | No token is requested unless the user exists and the password matches. Both tokens are for the stored username. |
| GapiLoginUser.SessionFromRefreshToken | gapi/rpc_login_user.go:51-67 | A session is created only as the fifth call, after both tokens. It takes the refresh payload's id and expiry, the stored username and the caller's resolved metadata, and is not blocked. |
| GoText.JoinSplit | api/authMiddleware.go:26 | `strings.Split` loses nothing: joining the parts on the separator gives back the header. |
| GoText.SplitPieces | api/authMiddleware.go:26-28 | Splitting gives one more part than there are separators, and no part holds a separator. |
| GoText.FieldsAreWords | gapi/authorization.go:29 | `strings.Fields` yields non-empty, space-free words. |
| GoText.FieldsOfWords | gapi/authorization.go:29 | Fields of words joined by single spaces are those words. |

## Left out

- Concurrency is left out: goroutines, row locks and deadlocks. The lock-order rule is stated only as "the smaller id is updated first" in the sequential call log.
- The SQL text of the generated queries is not modelled; each query is a method with the effect its name describes. Whether a verify-email secret code matches is decided inside the query, so a mismatch arrives as an injected failure.
- Timestamps the database fills in (`created_at`, `expired_at` of verify-email rows) are not modelled.
- Balances and amounts are mathematical integers. Go's int64 wrap-around in `StringToInt`, in balances and in amounts is not modelled. The int32 page offset is modelled exactly by `ListArgsAsWritten`, which the list handler uses in its as-written revision.
- The string form of amounts sent to the queries (`strconv.FormatInt`) is not modelled in the store. The account update handler models it, through `Convert.FormatInt`.
- Fiber, gRPC and grpc-gateway plumbing, JSON and protobuf encoding, and server wiring and logging are left out. Body and query parsing failures are part of those layers.
- The validator library's tags are modelled only for the tags these handlers use, as predicates over the request. Rune counts are used for `min`/`max` on strings.
- These foreign calls are parameters of the model: `VerifyToken`, `CreateToken`, bcrypt `HashPassword` and `CheckPassword`, `uuid.NewRandom`, `time.Now`, `mail.ParseAddress` and the task distributor.
- `strings.ToLower` is modelled on ASCII letters only. Other characters are left unchanged.
- Error message texts are not modelled, only which error occurs. `fmt.Errorf("%v")` wrapping is modelled as a constructor, because it changes how later code classifies the error.
- Token.NewPayload: Go calls `time.Now()` once for `IssuedAt` and once more for `ExpiredAt`. The model reads one instant for both.
- Store.SqlStore.TransferTx: on failure Go still returns the partly filled result. The model says nothing about the result on failure.
- GapiCreateUser.CreateUser: the `status.WithDetails` failure path (gapi/rpc_create_user.go:28-31) is not modelled. Violations are always returned as one InvalidArgument status.
- GapiUpdateUser.UpdateUser and GapiLoginUser.LoginUser: the `WithDetails` failure path is not modelled either.
- The work `AfterCreate` enqueues is outside the transaction and is not undone by a rollback. The model treats the task distributor's answer as a parameter.
- The account create, get, list, update and delete handlers, renewal and login are modelled as pure decisions over the answers of the store and the foreign calls. Accounts, sessions and users in those handlers are not rows of `SqlStore`.
- ApiAccount.CreateAccountHandler: which store errors occur (a duplicate owner and currency) is not modelled. Any store error is 400, as in the code.
- The canonicalisation of gRPC metadata keys to lower case is left to the caller: keys are looked up exactly.
- gapi/rpc_verify_email.go, api/user.go, the mail package and the worker package are not part of this model.

## Findings

| source | as written | input that shows it | evidently intended | confidence | as-written member | corrected member |
|---|---|---|---|---|---|---|
| api/account.go:118 | The offset `(int32(PageID) - 1) * int32(PageSize)` is computed in int32 and wraps. | PageID 500000001, PageSize 5. Both pass the tags, and the offset comes out as -1794967296. | An offset of (PageID-1)·PageSize = 2500000000, so the page skips the earlier rows. | not executed | ApiAccount.ListOffsetWraps | ApiAccount.ListArgs |
| gapi/errors.go:55 | `err, _ := mail.ParseAddress(value)` binds the parsed address, not the error, so a 5..50-byte value is rejected exactly when it parses. | "a@b.co" (any address `mail.ParseAddress` accepts) is rejected as invalid. An unparsable value of valid length is accepted. | Reject exactly the values that do not parse. | not executed | Validators.EmailAsWritten | Validators.EmailAccepted |
| gapi/errors.go:11 | The raw-string class `[a-zA-Z\\s]` is ASCII letters plus a literal backslash. | "Jo Li" is rejected, and "Jo\Li" is accepted. | Letters and spaces, as the message at gapi/errors.go:40 says (`[a-zA-Z\s]`). | not executed | Validators.FullNameRejectsSpaceAsWritten | Validators.FullNameAcceptsSpace |

Each as-written member is what the handlers use under `AsWritten`, and each
corrected member what they use under `Intended`.

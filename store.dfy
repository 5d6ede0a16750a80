/** The store and its units of work (db/sqlc/store.go, tx_create_transfer.go,
    tx_create_user.go, tx_verify_email.go).

    The tables are fields of `SqlStore`. The generated queries are methods
    that may fail: each takes the failure the environment injects into it
    (`Faults.At(i)` for the i-th call of a unit of work) and also fails on
    its own when the row it needs is missing. `execTx` is split in two
    halves around its callback: `BeginTx` opens the transaction and takes a
    snapshot of the tables, `EndTx` commits, or restores the snapshot. The
    ghost `log` records every store call in the order it is issued. */
module Store {
  import opened Base
  import opened Db
  import opened Ledger

  /** The error an injected failure turns into. */
  function Fail(fault: Option<DbError>): (r: Option<Error>)
    ensures r.Some? <==> fault.Some?
  {
    match fault
    case None => None
    case Some(e) => Some(Sql(e))
  }

  /** `GetAccount`'s answer on the given table. */
  function LookupAccount(accounts: map<int, Account>, id: int, fault: Option<DbError>): Result<Account, Error>
  {
    if fault.Some? then Err(Sql(fault.value))
    else if id !in accounts then Err(Sql(NoRows))
    else Ok(accounts[id])
  }

  /** Why `UpdateAccountBalance` on `id` fails, if it does. */
  function UpdateError(accounts: map<int, Account>, id: int, fault: Option<DbError>): (r: Option<Error>)
    ensures r.None? <==> fault.None? && id in accounts
  {
    if fault.Some? then Some(Sql(fault.value))
    else if id !in accounts then Some(Sql(NoRows))
    else None
  }

  /** Why `CreateUser` fails, if it does: the username is the primary key. */
  function CreateUserError(users: map<string, User>, p: CreateUserParams, fault: Option<DbError>): Option<Error>
  {
    if fault.Some? then Some(Sql(fault.value))
    else if p.username in users then Some(Sql(PqError("unique_violation")))
    else None
  }

  /** Why `UpdateVerifyEmail` fails, if it does. */
  function VerifyEmailError(verifyEmails: map<int, VerifyEmail>, id: int, fault: Option<DbError>): Option<Error>
  {
    if fault.Some? then Some(Sql(fault.value))
    else if id !in verifyEmails then Some(Sql(NoRows))
    else None
  }

  /** Why `UpdateUser` fails, if it does. */
  function UpdateUserError(users: map<string, User>, username: string, fault: Option<DbError>): Option<Error>
  {
    if fault.Some? then Some(Sql(fault.value))
    else if username !in users then Some(Sql(NoRows))
    else None
  }

  /** The error `execTx` returns once the callback has returned `fnErr`. */
  function Settled(fnErr: Option<Error>, f: Faults): (err: Option<Error>)
    ensures err.None? <==> fnErr.None? && f.commit.None?
    ensures fnErr.Some? ==> err == fnErr || (err.Some? && err.value.WithRollback? && err.value.txErr == fnErr.value)
  {
    if fnErr.Some? then
      if f.rollback.Some? then Some(WithRollback(fnErr.value, f.rollback.value)) else fnErr
    else Fail(f.commit)
  }

  /** The error `CreateUserTx` returns: that of begin, else the settled
      error of the insert, else the settled error of `AfterCreate`. */
  function CreateUserTxError(users: map<string, User>, arg: CreateUserTxParams, f: Faults): (err: Option<Error>)
    ensures f.begin.Some? ==> err == Some(Sql(f.begin.value))
    ensures err.None? <==>
      && f.begin.None? && CreateUserError(users, arg.params, f.At(0)).None?
      && arg.afterCreate(NewUser(arg.params)).None? && f.commit.None?
  {
    if f.begin.Some? then Some(Sql(f.begin.value))
    else if CreateUserError(users, arg.params, f.At(0)).Some? then Settled(CreateUserError(users, arg.params, f.At(0)), f)
    else Settled(arg.afterCreate(NewUser(arg.params)), f)
  }

  /** Only balances differ between the two tables: same ids, owners, currencies. */
  predicate SameRows(a: map<int, Account>, b: map<int, Account>)
  {
    a.Keys == b.Keys && forall id :: id in a ==> b[id] == a[id].(balance := b[id].balance)
  }

  /** Row `id` after `balance = balance + delta`. */
  function Updated(accounts: map<int, Account>, id: int, delta: int): Account
    requires id in accounts
  {
    accounts[id].(balance := accounts[id].balance + delta)
  }

  /** The table after `balance = balance + delta` on row `id`. */
  function AddToBalance(accounts: map<int, Account>, id: int, delta: int): (r: map<int, Account>)
    requires id in accounts
    ensures r.Keys == accounts.Keys
  {
    accounts[id := Updated(accounts, id, delta)]
  }

  /** A relative update changes one balance and nothing else. */
  lemma AddToBalanceRows(a: map<int, Account>, id: int, delta: int)
    requires id in a
    ensures SameRows(a, AddToBalance(a, id, delta))
    ensures Balances(AddToBalance(a, id, delta)) == Credit(Balances(a), id, delta)
  {
    var r := AddToBalance(a, id, delta);
    assert Balances(r) == Credit(Balances(a), id, delta) by {
      assert forall k :: k in Balances(r) ==> Balances(r)[k] == Credit(Balances(a), id, delta)[k];
    }
  }

  /** The accounts table after `amount` has moved from `from` to `to`. */
  function Transferred(a: map<int, Account>, from: int, to: int, amount: int): (r: map<int, Account>)
    ensures r.Keys == a.Keys
  {
    map k | k in a :: a[k].(balance := a[k].balance - (if k == from then amount else 0) + (if k == to then amount else 0))
  }

  /** Moving money changes balances only, and exactly as `Moved` says. */
  lemma TransferredRows(a: map<int, Account>, from: int, to: int, amount: int)
    ensures SameRows(a, Transferred(a, from, to, amount))
    ensures Balances(Transferred(a, from, to, amount)) == Moved(Balances(a), from, to, amount)
  {
    var r := Transferred(a, from, to, amount);
    assert forall k :: k in Balances(r) ==> Balances(r)[k] == Moved(Balances(a), from, to, amount)[k];
  }

  /** The debit first, then the credit: the money moves, and for two
      distinct accounts each returned row is the final one. */
  lemma DebitFirstMoves(a: map<int, Account>, from: int, to: int, amount: int)
    requires from in a && to in a
    ensures var m := AddToBalance(a, from, -amount);
      var t := Transferred(a, from, to, amount);
      AddToBalance(m, to, amount) == t
      && (from != to ==> Updated(a, from, -amount) == t[from] && Updated(m, to, amount) == t[to])
  {
    var t := Transferred(a, from, to, amount);
    var m := AddToBalance(a, from, -amount);
    assert forall k :: k in t ==> AddToBalance(m, to, amount)[k] == t[k];
  }

  /** The credit first, then the debit: the money moves; the debited row
      returned is the final one, and the credited row is the final one
      unless both sides are the same account, when it is the row between
      the two updates. */
  lemma CreditFirstMoves(a: map<int, Account>, from: int, to: int, amount: int)
    requires from in a && to in a
    ensures var m := AddToBalance(a, to, amount);
      var t := Transferred(a, from, to, amount);
      AddToBalance(m, from, -amount) == t
      && Updated(m, from, -amount) == t[from]
      && (from != to ==> Updated(a, to, amount) == t[to])
      && (from == to ==> Updated(a, to, amount) == t[to].(balance := t[to].balance + amount))
  {
    var t := Transferred(a, from, to, amount);
    var m := AddToBalance(a, to, amount);
    assert forall k :: k in t ==> AddToBalance(m, from, -amount)[k] == t[k];
  }

  /** The user `CreateUser` inserts: not yet verified, password never changed. */
  function NewUser(p: CreateUserParams): User
  {
    User(p.username, p.hashedPassword, p.fullName, p.email, 0, false)
  }

  /** `UpdateUser`: every column whose parameter is set takes its value. */
  function ApplyUpdate(u: User, p: UpdateUserParams): (r: User)
    ensures r.username == u.username
    ensures (p.fullName.None? && p.hashedPassword.None? && p.passwordChangedAt.None? &&
             p.email.None? && p.isEmailVerified.None?) ==> r == u
  {
    User(u.username,
      if p.hashedPassword.Some? then p.hashedPassword.value else u.hashedPassword,
      if p.fullName.Some? then p.fullName.value else u.fullName,
      if p.email.Some? then p.email.value else u.email,
      if p.passwordChangedAt.Some? then p.passwordChangedAt.value else u.passwordChangedAt,
      if p.isEmailVerified.Some? then p.isEmailVerified.value else u.isEmailVerified)
  }

  /** Applying the same update twice is applying it once. */
  lemma ApplyUpdateIdempotent(u: User, p: UpdateUserParams)
    ensures ApplyUpdate(ApplyUpdate(u, p), p) == ApplyUpdate(u, p)
  {
  }

  /** The parameters `VerifyEmailTx` passes to `UpdateUser`: only the
      email-verified flag is set. */
  function MarkVerified(username: string): UpdateUserParams
  {
    UpdateUserParams(username, None, None, None, None, Some(true))
  }

  lemma MarkVerifiedOnlyFlag(u: User)
    ensures ApplyUpdate(u, MarkVerified(u.username)) == u.(isEmailVerified := true)
  {
  }

  function LowerId(arg: TransferTxParams): int
  {
    if arg.fromAccountId < arg.toAccountId then arg.fromAccountId else arg.toAccountId
  }

  function HigherId(arg: TransferTxParams): int
  {
    if arg.fromAccountId < arg.toAccountId then arg.toAccountId else arg.fromAccountId
  }

  /** The three inserts of `TransferTx`'s callback, in the order the code
      issues them (tx_create_transfer.go:37-63). */
  function InsertPlan(arg: TransferTxParams): (ops: seq<Op>)
    ensures |ops| == 3
  {
    var from, to, amount := arg.fromAccountId, arg.toAccountId, arg.amount;
    [CreateTransferOp(CreateTransferParams(from, to, amount)), CreateEntryOp(from, -amount), CreateEntryOp(to, amount)]
  }

  /** The two balance updates: the account with the smaller id is updated
      first, whichever way the money goes (tx_create_transfer.go:66-76). */
  function MovePlan(arg: TransferTxParams): (ops: seq<Op>)
    ensures |ops| == 2
  {
    var from, to, amount := arg.fromAccountId, arg.toAccountId, arg.amount;
    if from < to then [UpdateBalanceOp(from, -amount), UpdateBalanceOp(to, amount)]
    else [UpdateBalanceOp(to, amount), UpdateBalanceOp(from, -amount)]
  }

  function TransferPlan(arg: TransferTxParams): seq<Op>
  {
    InsertPlan(arg) + MovePlan(arg)
  }

  /** How many calls `TransferTx`'s callback issues: it stops at the first
      one that fails. */
  function TransferIssued(arg: TransferTxParams, f: Faults, accounts: map<int, Account>): (n: nat)
    ensures 1 <= n <= 5
  {
    if f.At(0).Some? then 1
    else if f.At(1).Some? then 2
    else if f.At(2).Some? then 3
    else if UpdateError(accounts, LowerId(arg), f.At(3)).Some? then 4
    else 5
  }

  /** Whether every call of `TransferTx`'s callback succeeds. */
  predicate TransferSucceeds(arg: TransferTxParams, f: Faults, accounts: map<int, Account>)
  {
    && f.At(0).None? && f.At(1).None? && f.At(2).None? && f.At(3).None? && f.At(4).None?
    && arg.fromAccountId in accounts && arg.toAccountId in accounts
  }

  /** The name a failing call's error is wrapped with. */
  function TransferStep(n: nat): string
  {
    if n == 1 then "Transfer" else if n == 2 then "FromEntry" else if n == 3 then "ToEntry" else "UpdateAccount"
  }

  /** The calls `TransferTx` issues: the begin; unless it fails, the
      callback's calls up to the first failing one, then the commit when
      all succeeded and the rollback otherwise. */
  function TransferLog(arg: TransferTxParams, f: Faults, accounts: map<int, Account>): seq<Op>
  {
    if f.begin.Some? then [BeginOp]
    else [BeginOp] + TransferPlan(arg)[..TransferIssued(arg, f, accounts)]
         + [if TransferSucceeds(arg, f, accounts) then CommitOp else RollbackOp]
  }

  /** What the balance updates leave behind: the money moved, and the two
      records returned are the rows after their own update (when both sides
      are the same account, the credit side is the row between the two
      updates). */
  predicate MoneyMoved(arg: TransferTxParams, a: map<int, Account>, b: map<int, Account>,
                       fromAccount: Account, toAccount: Account)
  {
    var from, to, amount := arg.fromAccountId, arg.toAccountId, arg.amount;
    && from in a && to in a
    && b == Transferred(a, from, to, amount)
    && fromAccount == b[from]
    && (from != to ==> toAccount == b[to])
    && (from == to ==> toAccount == b[to].(balance := b[to].balance + amount))
  }

  /** What a successful transfer leaves behind: one transfer record and its
      two entries appended, the money moved, the other tables untouched. */
  predicate TransferApplied(arg: TransferTxParams, s: State, t: State, result: TransferTxResult)
  {
    var from, to, amount := arg.fromAccountId, arg.toAccountId, arg.amount;
    && t.transfers == s.transfers + [Transfer(from, to, amount)]
    && t.entries == s.entries + TransferEntries(from, to, amount)
    && t.users == s.users && t.verifyEmails == s.verifyEmails
    && result.transfer == Transfer(from, to, amount)
    && result.fromEntry == Entry(from, -amount)
    && result.toEntry == Entry(to, amount)
    && MoneyMoved(arg, s.accounts, t.accounts, result.fromAccount, result.toAccount)
  }

  /** The ledger invariant survives a transfer. */
  lemma TransferAppliedKeepsLedger(arg: TransferTxParams, s: State, t: State, result: TransferTxResult, opening: map<int, int>)
    requires TransferApplied(arg, s, t, result)
    requires Ledgered(Balances(s.accounts), opening, s.entries)
    ensures Ledgered(Balances(t.accounts), opening, t.entries)
  {
    TransferredRows(s.accounts, arg.fromAccountId, arg.toAccountId, arg.amount);
    TransferKeepsLedger(Balances(s.accounts), opening, s.entries, arg.fromAccountId, arg.toAccountId, arg.amount);
  }

  /** A transfer conserves the total of the balances. */
  lemma TransferAppliedConserves(arg: TransferTxParams, s: State, t: State, result: TransferTxResult, ids: seq<int>)
    requires TransferApplied(arg, s, t, result)
    requires forall i :: 0 <= i < |ids| ==> ids[i] in s.accounts
    requires Occurrences(ids, arg.fromAccountId) == Occurrences(ids, arg.toAccountId)
    ensures SumOver(Balances(t.accounts), ids) == SumOver(Balances(s.accounts), ids)
  {
    TransferredRows(s.accounts, arg.fromAccountId, arg.toAccountId, arg.amount);
    Conservation(Balances(s.accounts), arg.fromAccountId, arg.toAccountId, arg.amount, ids);
  }

  /** No balance update among `ops`, so no id is updated. */
  lemma {:induction false} NoUpdates(ops: seq<Op>)
    requires forall i :: 0 <= i < |ops| ==> !ops[i].UpdateBalanceOp?
    ensures UpdatedIds(ops) == []
  {
    if ops != [] {
      assert forall i :: 0 <= i < |ops[1..]| ==> ops[1..][i] == ops[i + 1];
      NoUpdates(ops[1..]);
    }
  }

  /** Any prefix of the callback's calls updates the smaller id first. */
  lemma SmallerIdFirst(arg: TransferTxParams, k: nat)
    requires k <= 5
    ensures UpdatedIds(TransferPlan(arg)[..k]) == if k <= 3 then [] else [LowerId(arg), HigherId(arg)][..k - 3]
  {
    var p := TransferPlan(arg);
    var lo, hi := LowerId(arg), HigherId(arg);
    assert p[3].UpdateBalanceOp? && p[3].id == lo;
    assert p[4].UpdateBalanceOp? && p[4].id == hi;
    if k <= 3 {
      NoUpdates(p[..k]);
    } else {
      NoUpdates(p[..3]);
      assert p[..k] == p[..3] + p[3..k];
      UpdatedIdsAppend(p[..3], p[3..k]);
      if k == 4 {
        assert p[3..k] == [p[3]] && [p[3]][1..] == [];
      } else {
        assert p[3..k] == [p[3], p[4]] && [p[3], p[4]][1..][1..] == [];
      }
    }
  }

  /** The lock-order rule: a transfer only ever updates the smaller id and
      then the larger one, and a committed transfer updates both. */
  lemma TransferLockOrder(arg: TransferTxParams, f: Faults, accounts: map<int, Account>)
    ensures UpdatedIds(TransferLog(arg, f, accounts)) <= [LowerId(arg), HigherId(arg)]
    ensures f.begin.None? && TransferSucceeds(arg, f, accounts) ==>
      UpdatedIds(TransferLog(arg, f, accounts)) == [LowerId(arg), HigherId(arg)]
  {
    var ops := TransferLog(arg, f, accounts);
    if f.begin.Some? {
      assert [BeginOp][1..] == [];
    } else {
      var n := TransferIssued(arg, f, accounts);
      var mid := TransferPlan(arg)[..n];
      var last := ops[|ops| - 1];
      assert ops == [BeginOp] + mid + [last];
      SmallerIdFirst(arg, n);
      UpdatedIdsAppend([BeginOp] + mid, [last]);
      UpdatedIdsAppend([BeginOp], mid);
      assert [last][1..] == [] && [BeginOp][1..] == [];
    }
  }

  /** Nothing after a failing call runs, and a failing call fails the callback. */
  lemma StopsAtFirstFailure(arg: TransferTxParams, f: Faults, accounts: map<int, Account>, i: nat)
    requires i < 5 && f.At(i).Some?
    ensures TransferIssued(arg, f, accounts) <= i + 1
    ensures !TransferSucceeds(arg, f, accounts)
  {
  }

  class SqlStore {
    var accounts: map<int, Account>
    var entries: seq<Entry>
    var transfers: seq<Transfer>
    var users: map<string, User>
    var verifyEmails: map<int, VerifyEmail>

    /** Whether a transaction is open, and the tables as it found them. */
    var inTx: bool
    var saved: State

    /** Every store call issued so far. */
    ghost var log: seq<Op>
    /** Each account's balance before any entry was recorded. */
    ghost var opening: map<int, int>

    function Data(): State
      reads this`accounts, this`entries, this`transfers, this`users, this`verifyEmails
    {
      State(accounts, entries, transfers, users, verifyEmails)
    }

    ghost predicate Valid()
      reads this`accounts, this`entries, this`transfers, this`users, this`verifyEmails, this`inTx, this`saved
    {
      WellKeyed(Data()) && (inTx ==> WellKeyed(saved))
    }

    /** Spec invariant of the ledger: balance = opening + entries. */
    ghost predicate Balanced()
      reads this`accounts, this`entries, this`opening
    {
      Ledgered(Balances(accounts), opening, entries)
    }

    constructor (initial: State)
      requires WellKeyed(initial)
      ensures Valid() && Balanced() && !inTx
      ensures Data() == initial && log == []
    {
      accounts, entries, transfers := initial.accounts, initial.entries, initial.transfers;
      users, verifyEmails := initial.users, initial.verifyEmails;
      inTx, saved := false, initial;
      log := [];
      opening := map id | id in initial.accounts :: initial.accounts[id].balance - EntrySum(initial.entries, id);
    }

    // ---- generated queries -------------------------------------------------

    method GetAccount(id: int, fault: Option<DbError>) returns (r: Result<Account, Error>)
      modifies this`log
      ensures log == old(log) + [GetAccountOp(id)]
      ensures r == LookupAccount(accounts, id, fault)
    {
      log := log + [GetAccountOp(id)];
      if fault.Some? {
        r := Err(Sql(fault.value));
      } else if id !in accounts {
        r := Err(Sql(NoRows));
      } else {
        r := Ok(accounts[id]);
      }
    }

    method CreateTransfer(p: CreateTransferParams, fault: Option<DbError>) returns (t: Transfer, err: Option<Error>)
      modifies this`transfers, this`log
      ensures log == old(log) + [CreateTransferOp(p)]
      ensures err == Fail(fault)
      ensures err.None? ==> t == Transfer(p.fromAccountId, p.toAccountId, p.amount) && transfers == old(transfers) + [t]
      ensures err.Some? ==> transfers == old(transfers)
    {
      log := log + [CreateTransferOp(p)];
      t := Transfer(0, 0, 0);
      err := Fail(fault);
      if err.None? {
        t := Transfer(p.fromAccountId, p.toAccountId, p.amount);
        transfers := transfers + [t];
      }
    }

    method CreateEntry(accountId: int, amount: int, fault: Option<DbError>) returns (e: Entry, err: Option<Error>)
      modifies this`entries, this`log
      ensures log == old(log) + [CreateEntryOp(accountId, amount)]
      ensures err == Fail(fault)
      ensures err.None? ==> e == Entry(accountId, amount) && entries == old(entries) + [e]
      ensures err.Some? ==> entries == old(entries)
    {
      log := log + [CreateEntryOp(accountId, amount)];
      e := Entry(0, 0);
      err := Fail(fault);
      if err.None? {
        e := Entry(accountId, amount);
        entries := entries + [e];
      }
    }

    /** `UpdateAccountBalance`: `balance = balance + delta` on row `id`. */
    method UpdateAccountBalance(id: int, delta: int, fault: Option<DbError>) returns (a: Account, err: Option<Error>)
      requires Valid()
      modifies this`accounts, this`log
      ensures Valid()
      ensures log == old(log) + [UpdateBalanceOp(id, delta)]
      ensures err == UpdateError(old(accounts), id, fault)
      ensures err.None? ==> a == Updated(old(accounts), id, delta) && accounts == AddToBalance(old(accounts), id, delta)
      ensures err.Some? ==> accounts == old(accounts)
    {
      log := log + [UpdateBalanceOp(id, delta)];
      a := ZeroAccount;
      err := UpdateError(accounts, id, fault);
      if err.None? {
        a := accounts[id].(balance := accounts[id].balance + delta);
        accounts := accounts[id := a];
      }
    }

    /** `CreateUser`: the username is the primary key. */
    method CreateUser(p: CreateUserParams, fault: Option<DbError>) returns (u: User, err: Option<Error>)
      requires Valid()
      modifies this`users, this`log
      ensures Valid()
      ensures log == old(log) + [CreateUserOp(p)]
      ensures err == CreateUserError(old(users), p, fault)
      ensures err.None? ==> u == NewUser(p) && users == old(users)[p.username := u]
      ensures err.Some? ==> users == old(users)
    {
      log := log + [CreateUserOp(p)];
      u := ZeroUser;
      if fault.Some? {
        err := Some(Sql(fault.value));
      } else if p.username in users {
        err := Some(Sql(PqError("unique_violation")));
      } else {
        err := None;
        u := NewUser(p);
        users := users[p.username := u];
      }
    }

    /** `UpdateVerifyEmail`: marks the row used. Whether the secret code
        matches is decided by the query, so a mismatch arrives as the
        injected failure. */
    method UpdateVerifyEmail(id: int, secretCode: string, fault: Option<DbError>) returns (v: VerifyEmail, err: Option<Error>)
      requires Valid()
      modifies this`verifyEmails, this`log
      ensures Valid()
      ensures log == old(log) + [UpdateVerifyEmailOp(id, secretCode)]
      ensures err == VerifyEmailError(old(verifyEmails), id, fault)
      ensures err.None? ==> v == old(verifyEmails)[id].(isUsed := true) && verifyEmails == old(verifyEmails)[id := v]
      ensures err.Some? ==> verifyEmails == old(verifyEmails)
    {
      log := log + [UpdateVerifyEmailOp(id, secretCode)];
      v := ZeroVerifyEmail;
      if fault.Some? {
        err := Some(Sql(fault.value));
      } else if id !in verifyEmails {
        err := Some(Sql(NoRows));
      } else {
        err := None;
        v := verifyEmails[id].(isUsed := true);
        verifyEmails := verifyEmails[id := v];
      }
    }

    method UpdateUser(p: UpdateUserParams, fault: Option<DbError>) returns (u: User, err: Option<Error>)
      requires Valid()
      modifies this`users, this`log
      ensures Valid()
      ensures log == old(log) + [UpdateUserOp(p)]
      ensures err == UpdateUserError(old(users), p.username, fault)
      ensures err.None? ==> u == ApplyUpdate(old(users)[p.username], p) && users == old(users)[p.username := u]
      ensures err.Some? ==> users == old(users)
    {
      log := log + [UpdateUserOp(p)];
      u := ZeroUser;
      if fault.Some? {
        err := Some(Sql(fault.value));
      } else if p.username !in users {
        err := Some(Sql(NoRows));
      } else {
        err := None;
        u := ApplyUpdate(users[p.username], p);
        users := users[p.username := u];
      }
    }

    // ---- execTx (store.go:29-45) ------------------------------------------

    /** Opens the transaction: on failure the error is returned as it is and
        nothing else happens; otherwise the tables are snapshotted. */
    method BeginTx(fault: Option<DbError>) returns (err: Option<Error>)
      requires Valid() && !inTx
      modifies this`inTx, this`saved, this`log
      ensures Valid()
      ensures log == old(log) + [BeginOp]
      ensures err == Fail(fault)
      ensures inTx <==> err.None?
      ensures err.None? ==> saved == Data()
    {
      log := log + [BeginOp];
      err := Fail(fault);
      if err.None? {
        inTx, saved := true, Data();
      }
    }

    /** Closes the transaction after the callback returned `fnErr`. A failed
        callback is rolled back: its own error is returned, or, when the
        rollback fails too, an error carrying both. A successful one is
        committed and the commit's error, if any, is the result. Whenever
        the result is an error the tables are as the transaction found them. */
    method EndTx(fnErr: Option<Error>, f: Faults) returns (err: Option<Error>)
      requires Valid() && inTx
      modifies this`accounts, this`entries, this`transfers, this`users, this`verifyEmails, this`inTx, this`log
      ensures Valid() && !inTx
      ensures log == old(log) + [if fnErr.None? then CommitOp else RollbackOp]
      ensures err == Settled(fnErr, f)
      ensures err.Some? ==> Data() == saved
      ensures err.None? ==> Data() == old(Data())
    {
      if fnErr.Some? {
        log := log + [RollbackOp];
        Restore();
        err := if f.rollback.Some? then Some(WithRollback(fnErr.value, f.rollback.value)) else fnErr;
      } else {
        log := log + [CommitOp];
        err := Fail(f.commit);
        if err.Some? {
          Restore();
        }
      }
      inTx := false;
    }

    /** The database discards an uncommitted transaction. */
    method Restore()
      requires Valid() && inTx
      modifies this`accounts, this`entries, this`transfers, this`users, this`verifyEmails
      ensures Valid() && Data() == saved
    {
      accounts, entries, transfers := saved.accounts, saved.entries, saved.transfers;
      users, verifyEmails := saved.users, saved.verifyEmails;
    }

    // ---- addMoney (store.go:47-68) ----------------------------------------

    /** Two relative balance updates, `account1ID` strictly before
        `account2ID`; the second is not attempted when the first fails.
        The records returned are the rows after their own update. */
    method AddMoney(account1ID: int, amount1: int, account2ID: int, amount2: int,
                    fault1: Option<DbError>, fault2: Option<DbError>)
      returns (account1: Account, account2: Account, err: Option<Error>)
      requires Valid()
      modifies this`accounts, this`log
      ensures Valid()
      ensures UpdateError(old(accounts), account1ID, fault1).Some? ==>
        && err == UpdateError(old(accounts), account1ID, fault1)
        && accounts == old(accounts)
        && log == old(log) + [UpdateBalanceOp(account1ID, amount1)]
      ensures UpdateError(old(accounts), account1ID, fault1).None? ==>
        && err == UpdateError(old(accounts), account2ID, fault2)
        && log == old(log) + [UpdateBalanceOp(account1ID, amount1), UpdateBalanceOp(account2ID, amount2)]
        && account1 == Updated(old(accounts), account1ID, amount1)
      ensures UpdateError(old(accounts), account1ID, fault1).None? && err.Some? ==>
        accounts == AddToBalance(old(accounts), account1ID, amount1)
      ensures err.None? ==>
        && account2 == Updated(AddToBalance(old(accounts), account1ID, amount1), account2ID, amount2)
        && accounts == AddToBalance(AddToBalance(old(accounts), account1ID, amount1), account2ID, amount2)
    {
      account2 := ZeroAccount;
      account1, err := UpdateAccountBalance(account1ID, amount1, fault1);
      if err.Some? {
        return;
      }
      account2, err := UpdateAccountBalance(account2ID, amount2, fault2);
    }

    // ---- TransferTx (tx_create_transfer.go:29-83) -------------------------

    /** The three inserts of `TransferTx`'s callback: the transfer record,
        the debit entry, the credit entry, each error wrapped with the
        step's name. */
    method RecordTransfer(arg: TransferTxParams, f: Faults) returns (result: TransferTxResult, fnErr: Option<Error>)
      modifies this`entries, this`transfers, this`log
      ensures log == old(log) + InsertPlan(arg)[..if f.At(0).Some? then 1 else if f.At(1).Some? then 2 else 3]
      ensures f.At(0).Some? ==> fnErr == Some(InStep("Transfer", Sql(f.At(0).value)))
      ensures f.At(0).None? && f.At(1).Some? ==> fnErr == Some(InStep("FromEntry", Sql(f.At(1).value)))
      ensures f.At(0).None? && f.At(1).None? && f.At(2).Some? ==> fnErr == Some(InStep("ToEntry", Sql(f.At(2).value)))
      ensures fnErr.None? <==> f.At(0).None? && f.At(1).None? && f.At(2).None?
      ensures fnErr.None? ==>
        && transfers == old(transfers) + [Transfer(arg.fromAccountId, arg.toAccountId, arg.amount)]
        && entries == old(entries) + TransferEntries(arg.fromAccountId, arg.toAccountId, arg.amount)
        && result.transfer == Transfer(arg.fromAccountId, arg.toAccountId, arg.amount)
        && result.fromEntry == Entry(arg.fromAccountId, -arg.amount)
        && result.toEntry == Entry(arg.toAccountId, arg.amount)
    {
      var from, to, amount := arg.fromAccountId, arg.toAccountId, arg.amount;
      ghost var plan := InsertPlan(arg);
      result := ZeroTransferTxResult;
      var e: Option<Error>;

      var t: Transfer;
      t, e := CreateTransfer(CreateTransferParams(from, to, amount), f.At(0));
      assert plan[..1] == [plan[0]];
      if e.Some? {
        return result, Some(InStep("Transfer", e.value));
      }
      result := result.(transfer := t);

      var fromEntry: Entry;
      fromEntry, e := CreateEntry(from, -amount, f.At(1));
      assert plan[..2] == plan[..1] + [plan[1]];
      if e.Some? {
        return result, Some(InStep("FromEntry", e.value));
      }
      result := result.(fromEntry := fromEntry);

      var toEntry: Entry;
      toEntry, e := CreateEntry(to, amount, f.At(2));
      assert plan[..3] == plan[..2] + [plan[2]];
      if e.Some? {
        return result, Some(InStep("ToEntry", e.value));
      }
      result := result.(toEntry := toEntry);
      fnErr := None;
    }

    /** The two balance updates of `TransferTx`'s callback, smaller id first;
        in the else branch the pair returned by `addMoney` is swapped back. */
    method MoveMoney(arg: TransferTxParams, f: Faults) returns (fromAccount: Account, toAccount: Account, err: Option<Error>)
      requires Valid()
      modifies this`accounts, this`log
      ensures Valid()
      ensures log == old(log) + MovePlan(arg)[..if UpdateError(old(accounts), LowerId(arg), f.At(3)).Some? then 1 else 2]
      ensures err.None? <==> f.At(3).None? && f.At(4).None? && arg.fromAccountId in old(accounts) && arg.toAccountId in old(accounts)
      ensures err.None? ==> MoneyMoved(arg, old(accounts), accounts, fromAccount, toAccount)
    {
      var from, to, amount := arg.fromAccountId, arg.toAccountId, arg.amount;
      ghost var a0 := accounts;
      ghost var plan := MovePlan(arg);
      assert plan[..1] == [plan[0]] && plan[..2] == plan;
      if from < to {
        fromAccount, toAccount, err := AddMoney(from, -amount, to, amount, f.At(3), f.At(4));
        if err.None? {
          DebitFirstMoves(a0, from, to, amount);
        }
      } else {
        toAccount, fromAccount, err := AddMoney(to, amount, from, -amount, f.At(3), f.At(4));
        if err.None? {
          CreditFirstMoves(a0, from, to, amount);
        }
      }
    }

    /** The callback of `TransferTx`. It stops at the first failing call and
        wraps that call's error with the step's name. */
    method TransferCallback(arg: TransferTxParams, f: Faults) returns (result: TransferTxResult, fnErr: Option<Error>)
      requires Valid()
      modifies this`accounts, this`entries, this`transfers, this`log
      ensures Valid()
      ensures log == old(log) + TransferPlan(arg)[..TransferIssued(arg, f, old(accounts))]
      ensures fnErr.None? <==> TransferSucceeds(arg, f, old(accounts))
      ensures fnErr.Some? ==> fnErr.value.InStep? && fnErr.value.step == TransferStep(TransferIssued(arg, f, old(accounts)))
      ensures fnErr.None? ==> TransferApplied(arg, old(Data()), Data(), result)
    {
      ghost var s := Data();
      ghost var plan := TransferPlan(arg);
      ghost var log0 := log;
      assert forall k :: 0 <= k <= 3 ==> plan[..k] == InsertPlan(arg)[..k];
      result, fnErr := RecordTransfer(arg, f);
      if fnErr.Some? {
        return;
      }
      assert forall k :: 0 <= k <= 2 ==> plan[..3 + k] == InsertPlan(arg) + MovePlan(arg)[..k];
      var fromAccount: Account, toAccount: Account, e: Option<Error>;
      fromAccount, toAccount, e := MoveMoney(arg, f);
      if e.Some? {
        return result, Some(InStep("UpdateAccount", e.value));
      }
      result := result.(fromAccount := fromAccount, toAccount := toAccount);
    }

    /** `TransferTx`: the callback inside one unit of work. Either every
        record is written and the balances moved, or nothing changed. */
    method TransferTx(arg: TransferTxParams, f: Faults) returns (result: TransferTxResult, err: Option<Error>)
      requires Valid() && !inTx
      modifies this
      ensures Valid() && !inTx && opening == old(opening)
      ensures old(Balanced()) ==> Balanced()
      ensures log == old(log) + TransferLog(arg, f, old(accounts))
      ensures f.begin.Some? ==> err == Some(Sql(f.begin.value))
      ensures f.begin.None? && !TransferSucceeds(arg, f, old(accounts)) ==>
        err.Some? && (f.rollback.Some? <==> err.value.WithRollback?)
      ensures err.None? <==> f.begin.None? && f.commit.None? && TransferSucceeds(arg, f, old(accounts))
      ensures err.None? ==> TransferApplied(arg, old(Data()), Data(), result)
      ensures err.Some? ==> Data() == old(Data())
    {
      result := ZeroTransferTxResult;
      err := BeginTx(f.begin);
      if err.Some? {
        return;
      }
      ghost var before := Data();
      ghost var logBegun := log;
      ghost var calls := TransferPlan(arg)[..TransferIssued(arg, f, before.accounts)];
      ghost var last := if TransferSucceeds(arg, f, before.accounts) then CommitOp else RollbackOp;
      var fnErr: Option<Error>;
      result, fnErr := TransferCallback(arg, f);
      assert log == logBegun + calls;
      err := EndTx(fnErr, f);
      assert log == old(log) + ([BeginOp] + calls + [last]);
      if err.None? && old(Balanced()) {
        TransferAppliedKeepsLedger(arg, before, Data(), result, opening);
      }
    }

    // ---- CreateUserTx (tx_create_user.go:22-38) ---------------------------

    /** The callback of `CreateUserTx`: insert the user, then hand it to
        `AfterCreate`, whose error is the callback's. */
    method CreateUserCallback(arg: CreateUserTxParams, f: Faults) returns (result: CreateUserTxResult, fnErr: Option<Error>)
      requires Valid()
      modifies this`users, this`log
      ensures Valid()
      ensures CreateUserError(old(users), arg.params, f.At(0)).Some? ==>
        && fnErr == CreateUserError(old(users), arg.params, f.At(0))
        && log == old(log) + [CreateUserOp(arg.params)]
        && users == old(users)
      ensures CreateUserError(old(users), arg.params, f.At(0)).None? ==>
        && result.user == NewUser(arg.params)
        && fnErr == arg.afterCreate(NewUser(arg.params))
        && log == old(log) + [CreateUserOp(arg.params), AfterCreateOp(NewUser(arg.params))]
        && users == old(users)[arg.params.username := NewUser(arg.params)]
    {
      var u: User;
      u, fnErr := CreateUser(arg.params, f.At(0));
      result := CreateUserTxResult(u);
      if fnErr.Some? {
        return;
      }
      log := log + [AfterCreateOp(u)];
      fnErr := arg.afterCreate(u);
    }

    /** `CreateUserTx`: the user persists exactly when it was inserted,
        `AfterCreate` accepted it and the commit succeeded. `AfterCreate` is
        called once, with the inserted user, and never when the insert
        failed. */
    method CreateUserTx(arg: CreateUserTxParams, f: Faults) returns (result: CreateUserTxResult, err: Option<Error>)
      requires Valid() && !inTx
      modifies this
      ensures Valid() && !inTx && opening == old(opening)
      ensures f.begin.Some? ==> err == Some(Sql(f.begin.value)) && log == old(log) + [BeginOp]
      ensures f.begin.None? && CreateUserError(old(users), arg.params, f.At(0)).Some? ==>
        && log == old(log) + [BeginOp, CreateUserOp(arg.params), RollbackOp]
        && err == Settled(CreateUserError(old(users), arg.params, f.At(0)), f)
      ensures f.begin.None? && CreateUserError(old(users), arg.params, f.At(0)).None? ==>
        var afterErr := arg.afterCreate(NewUser(arg.params));
        && log == old(log) + [BeginOp, CreateUserOp(arg.params), AfterCreateOp(NewUser(arg.params)),
                              if afterErr.None? then CommitOp else RollbackOp]
        && err == Settled(afterErr, f)
        && result.user == NewUser(arg.params)
      ensures err == CreateUserTxError(old(users), arg, f)
      ensures err.None? ==> Data() == old(Data()).(users := old(users)[arg.params.username := NewUser(arg.params)])
      ensures err.Some? ==> Data() == old(Data())
    {
      result := CreateUserTxResult(ZeroUser);
      err := BeginTx(f.begin);
      if err.Some? {
        return;
      }
      var fnErr: Option<Error>;
      result, fnErr := CreateUserCallback(arg, f);
      err := EndTx(fnErr, f);
    }

    // ---- VerifyEmailTx (tx_verify_email.go:22-56) -------------------------

    /** The callback of `VerifyEmailTx`: mark the verify-email row used,
        then set the email-verified flag of the user that row names. Either
        query's error is the callback's, unwrapped. */
    method VerifyEmailCallback(arg: VerifyEmailTxParams, f: Faults) returns (result: VerifyEmailTxResult, fnErr: Option<Error>)
      requires Valid()
      modifies this`verifyEmails, this`users, this`log
      ensures Valid()
      ensures VerifyEmailError(old(verifyEmails), arg.emailId, f.At(0)).Some? ==>
        && fnErr == VerifyEmailError(old(verifyEmails), arg.emailId, f.At(0))
        && log == old(log) + [UpdateVerifyEmailOp(arg.emailId, arg.secretCode)]
        && verifyEmails == old(verifyEmails) && users == old(users)
      ensures VerifyEmailError(old(verifyEmails), arg.emailId, f.At(0)).None? ==>
        var row := old(verifyEmails)[arg.emailId].(isUsed := true);
        && result.verifyEmail == row
        && verifyEmails == old(verifyEmails)[arg.emailId := row]
        && log == old(log) + [UpdateVerifyEmailOp(arg.emailId, arg.secretCode), UpdateUserOp(MarkVerified(row.username))]
        && fnErr == UpdateUserError(old(users), row.username, f.At(1))
        && (fnErr.None? ==>
              result.user == old(users)[row.username].(isEmailVerified := true)
              && users == old(users)[row.username := result.user])
    {
      var v: VerifyEmail;
      v, fnErr := UpdateVerifyEmail(arg.emailId, arg.secretCode, f.At(0));
      result := VerifyEmailTxResult(ZeroUser, v);
      if fnErr.Some? {
        return;
      }
      var u: User;
      u, fnErr := UpdateUser(MarkVerified(v.username), f.At(1));
      if fnErr.None? {
        MarkVerifiedOnlyFlag(old(users)[v.username]);
      }
      result := result.(user := u);
    }

    /** `VerifyEmailTx`: both updates persist, or neither. */
    method VerifyEmailTx(arg: VerifyEmailTxParams, f: Faults) returns (result: VerifyEmailTxResult, err: Option<Error>)
      requires Valid() && !inTx
      modifies this
      ensures Valid() && !inTx && opening == old(opening)
      ensures f.begin.Some? ==> err == Some(Sql(f.begin.value)) && log == old(log) + [BeginOp]
      ensures f.begin.None? && VerifyEmailError(old(verifyEmails), arg.emailId, f.At(0)).Some? ==>
        && log == old(log) + [BeginOp, UpdateVerifyEmailOp(arg.emailId, arg.secretCode), RollbackOp]
        && err == Settled(VerifyEmailError(old(verifyEmails), arg.emailId, f.At(0)), f)
      ensures f.begin.None? && VerifyEmailError(old(verifyEmails), arg.emailId, f.At(0)).None? ==>
        var row := old(verifyEmails)[arg.emailId].(isUsed := true);
        var userErr := UpdateUserError(old(users), row.username, f.At(1));
        && log == old(log) + [BeginOp, UpdateVerifyEmailOp(arg.emailId, arg.secretCode),
                              UpdateUserOp(MarkVerified(row.username)), if userErr.None? then CommitOp else RollbackOp]
        && err == Settled(userErr, f)
        && result.verifyEmail == row
      ensures err.None? ==>
        && arg.emailId in old(verifyEmails)
        && var row := old(verifyEmails)[arg.emailId].(isUsed := true);
           && row.username in old(users)
           && result.verifyEmail == row
           && result.user == old(users)[row.username].(isEmailVerified := true)
           && Data() == old(Data()).(verifyEmails := old(verifyEmails)[arg.emailId := row],
                                     users := old(users)[row.username := result.user])
      ensures err.Some? ==> Data() == old(Data())
    {
      result := VerifyEmailTxResult(ZeroUser, ZeroVerifyEmail);
      err := BeginTx(f.begin);
      if err.Some? {
        return;
      }
      var fnErr: Option<Error>;
      result, fnErr := VerifyEmailCallback(arg, f);
      err := EndTx(fnErr, f);
    }
  }
}

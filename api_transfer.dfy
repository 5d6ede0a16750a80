/** The transfer endpoint (api/transfer.go): the request's tags, the source
    account, its owner, the destination account, then `TransferTx`. */
module ApiTransfer {
  import opened Base
  import opened Db
  import opened Store
  import opened Http

  /** The request body (types/transfer.go:4-9). */
  datatype CreateTransferRequest = CreateTransferRequest(fromAccountId: int, toAccountId: int, amount: int, currency: string)

  /** The request's validation tags: both ids at least 1, a positive
      amount, one of the three currencies. */
  predicate TagsHold(req: CreateTransferRequest)
  {
    req.fromAccountId >= 1 && req.toAccountId >= 1 && req.amount > 0
    && (req.currency == "USD" || req.currency == "EUR" || req.currency == "CAD")
  }

  /** `accountExist` on the answer of the account lookup: a missing row is
      404, any other lookup error 500, a currency other than the request's
      400; otherwise the account. */
  function AccountExist(lookup: Result<Account, Error>, currency: string): (r: Result<Account, Status>)
    ensures r.Ok? <==> lookup.Ok? && lookup.value.currency == currency
    ensures r.Ok? ==> r.value == lookup.value
    ensures lookup == Err(Sql(NoRows)) ==> r == Err(NotFound)
    ensures lookup.Err? && lookup.error != Sql(NoRows) ==> r == Err(InternalServerError)
    ensures lookup.Ok? && lookup.value.currency != currency ==> r == Err(BadRequest)
  {
    match lookup
    case Err(e) => if e == Sql(NoRows) then Err(NotFound) else Err(InternalServerError)
    case Ok(account) => if account.currency != currency then Err(BadRequest) else Ok(account)
  }

  /** Every check before the transfer, in the handler's order; `None`
      means all passed and `TransferTx` runs. */
  function Precheck(req: CreateTransferRequest, username: string, accounts: map<int, Account>,
                    fromFault: Option<DbError>, toFault: Option<DbError>): Option<Status>
  {
    if !TagsHold(req) then Some(BadRequest)
    else
      match AccountExist(LookupAccount(accounts, req.fromAccountId, fromFault), req.currency)
      case Err(s) => Some(s)
      case Ok(source) =>
        if source.owner != username then Some(Unauthorized)
        else
          match AccountExist(LookupAccount(accounts, req.toAccountId, toFault), req.currency)
          case Err(s) => Some(s)
          case Ok(_) => None
  }

  /** The account lookups the checks make: none when the tags fail, only
      the source when the source check or the owner check fails. */
  function Lookups(req: CreateTransferRequest, username: string, accounts: map<int, Account>,
                   fromFault: Option<DbError>): seq<Op>
  {
    if !TagsHold(req) then []
    else
      match AccountExist(LookupAccount(accounts, req.fromAccountId, fromFault), req.currency)
      case Err(_) => [GetAccountOp(req.fromAccountId)]
      case Ok(source) =>
        if source.owner != username then [GetAccountOp(req.fromAccountId)]
        else [GetAccountOp(req.fromAccountId), GetAccountOp(req.toAccountId)]
  }

  function TransferArgs(req: CreateTransferRequest): TransferTxParams
  {
    TransferTxParams(req.fromAccountId, req.toAccountId, req.amount)
  }

  /** The checks pass exactly when the tags hold, both lookups succeed,
      both accounts hold the request's currency and the caller owns the
      source. */
  lemma PrecheckPasses(req: CreateTransferRequest, username: string, accounts: map<int, Account>,
                       fromFault: Option<DbError>, toFault: Option<DbError>)
    ensures Precheck(req, username, accounts, fromFault, toFault).None? <==>
      && TagsHold(req)
      && fromFault.None? && toFault.None?
      && req.fromAccountId in accounts && req.toAccountId in accounts
      && accounts[req.fromAccountId].currency == req.currency
      && accounts[req.toAccountId].currency == req.currency
      && accounts[req.fromAccountId].owner == username
    ensures Precheck(req, username, accounts, fromFault, toFault).None? ==>
      Lookups(req, username, accounts, fromFault) == [GetAccountOp(req.fromAccountId), GetAccountOp(req.toAccountId)]
  {
  }

  /** A failed source check or a foreign source decides the answer before
      the destination is looked at: the destination's row and lookup
      failure do not matter. */
  lemma SourceDecidesFirst(req: CreateTransferRequest, username: string, accounts: map<int, Account>,
                           fromFault: Option<DbError>, toFault: Option<DbError>, toRow: Account, toFault2: Option<DbError>)
    requires TagsHold(req) && req.toAccountId != req.fromAccountId
    requires var source := AccountExist(LookupAccount(accounts, req.fromAccountId, fromFault), req.currency);
      source.Err? || source.value.owner != username
    ensures Precheck(req, username, accounts, fromFault, toFault).Some?
    ensures Precheck(req, username, accounts[req.toAccountId := toRow], fromFault, toFault2)
         == Precheck(req, username, accounts, fromFault, toFault)
    ensures Lookups(req, username, accounts, fromFault) == [GetAccountOp(req.fromAccountId)]
  {
    assert LookupAccount(accounts[req.toAccountId := toRow], req.fromAccountId, fromFault)
        == LookupAccount(accounts, req.fromAccountId, fromFault);
  }

  /** Either account in another currency than the request's is a 400. */
  lemma CurrencyMismatch(req: CreateTransferRequest, username: string, accounts: map<int, Account>)
    requires TagsHold(req)
    requires req.fromAccountId in accounts && req.toAccountId in accounts
    requires accounts[req.fromAccountId].owner == username
    requires accounts[req.fromAccountId].currency != req.currency || accounts[req.toAccountId].currency != req.currency
    ensures Precheck(req, username, accounts, None, None) == Some(BadRequest)
  {
  }

  /** `createTransferHandler` (api/transfer.go:15-86). `username` is the
      authenticated caller; `fromFault`, `toFault` and `txFaults` are the
      store failures the environment injects. */
  method CreateTransferHandler(store: SqlStore, req: CreateTransferRequest, username: string,
                               fromFault: Option<DbError>, toFault: Option<DbError>, txFaults: Faults)
    returns (status: Status, body: Option<TransferTxResult>)
    requires store.Valid() && !store.inTx
    modifies store
    ensures store.Valid() && !store.inTx && store.opening == old(store.opening)
    ensures old(store.Balanced()) ==> store.Balanced()
    ensures Precheck(req, username, old(store.accounts), fromFault, toFault).Some? ==>
      && status == Precheck(req, username, old(store.accounts), fromFault, toFault).value
      && store.log == old(store.log) + Lookups(req, username, old(store.accounts), fromFault)
    ensures Precheck(req, username, old(store.accounts), fromFault, toFault).None? ==>
      && store.log == old(store.log) + [GetAccountOp(req.fromAccountId), GetAccountOp(req.toAccountId)]
                      + TransferLog(TransferArgs(req), txFaults, old(store.accounts))
      && (status == OK || status == InternalServerError)
      && (status == OK <==>
            txFaults.begin.None? && txFaults.commit.None? && TransferSucceeds(TransferArgs(req), txFaults, old(store.accounts)))
    ensures status == OK <==> body.Some?
    ensures status == OK ==> TransferApplied(TransferArgs(req), old(store.Data()), store.Data(), body.value)
    ensures status != OK ==> store.Data() == old(store.Data())
  {
    body := None;
    if !TagsHold(req) {
      return BadRequest, None;
    }
    var fromLookup := store.GetAccount(req.fromAccountId, fromFault);
    var source := AccountExist(fromLookup, req.currency);
    if source.Err? {
      return source.error, None;
    }
    if source.value.owner != username {
      return Unauthorized, None;
    }
    var toLookup := store.GetAccount(req.toAccountId, toFault);
    var destination := AccountExist(toLookup, req.currency);
    if destination.Err? {
      return destination.error, None;
    }
    var result, err := store.TransferTx(TransferArgs(req), txFaults);
    if err.Some? {
      return InternalServerError, None;
    }
    status, body := OK, Some(result);
  }
}

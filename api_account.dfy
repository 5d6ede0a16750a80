/** The account endpoints (api/account.go). Each handler is a decision over
    the request and the answer of the one store call it makes; the answer
    is a parameter, and the handler reports the call it issued, if any. */
module ApiAccount {
  import opened Base
  import opened Db
  import opened Http
  import opened Convert

  newtype Int32 = x: int | -0x8000_0000 <= x < 0x8000_0000

  /** Go's int32 arithmetic: the exact result reduced modulo 2^32 into
      the signed range. */
  function WrapInt32(x: int): (r: Int32)
    ensures (x - r as int) % 0x1_0000_0000 == 0
    ensures -0x8000_0000 <= x < 0x8000_0000 ==> r as int == x
  {
    var m := x % 0x1_0000_0000;
    if m >= 0x8000_0000 then (m - 0x1_0000_0000) as Int32 else m as Int32
  }

  datatype CreateAccountRequest = CreateAccountRequest(owner: string, currency: string)
  datatype ListAccountsRequest = ListAccountsRequest(owner: string, pageId: Int32, pageSize: Int32)
  datatype UpdateAccountRequest = UpdateAccountRequest(id: int, balance: int)

  datatype CreateAccountParams = CreateAccountParams(owner: string, balance: string, currency: string)
  datatype ListAccountsParams = ListAccountsParams(limit: int, offset: int)
  datatype UpdateAccountParams = UpdateAccountParams(id: int, balance: string)

  /** The store call a handler issued. */
  datatype AccountCall =
    | CreateAccountCall(createParams: CreateAccountParams)
    | GetAccountCall(getId: int)
    | ListAccountsCall(listParams: ListAccountsParams)
    | UpdateAccountCall(updateParams: UpdateAccountParams)
    | DeleteAccountCall(deleteId: int)

  datatype Reply = Reply(status: Status, call: Option<AccountCall>)

  // ---- validation tags (types/account.go) -------------------------------

  /** `currency`: required, exactly three runes. */
  predicate CreateTagsHold(req: CreateAccountRequest)
  {
    |req.currency| == 3
  }

  /** `owner` empty or 3..20 runes, `page_id` at least 1, `page_size`
      non-zero and at most 5. */
  predicate ListTagsHold(req: ListAccountsRequest)
  {
    && (|req.owner| == 0 || 3 <= |req.owner| <= 20)
    && req.pageId >= 1
    && req.pageSize != 0 && req.pageSize <= 5
  }

  /** The update's `id` and `balance` both at least 1. */
  predicate UpdateTagsHold(req: UpdateAccountRequest)
  {
    req.id >= 1 && req.balance >= 1
  }

  // ---- createAccountHandler (api/account.go:33-66) -----------------------

  function CreateAccountHandler(req: CreateAccountRequest, answer: Option<Error>): (r: Reply)
    ensures r.call.Some? <==> CreateTagsHold(req)
    ensures r.call.Some? ==> r.call.value == CreateAccountCall(CreateAccountParams(req.owner, "0", req.currency))
    ensures r.status == Created <==> CreateTagsHold(req) && answer.None?
    ensures r.status != Created ==> r.status == BadRequest
  {
    if !CreateTagsHold(req) then Reply(BadRequest, None)
    else
      var call := CreateAccountCall(CreateAccountParams(req.owner, "0", req.currency));
      if answer.Some? then Reply(BadRequest, Some(call)) else Reply(Created, Some(call))
  }

  /** A new account's balance reads back as zero. */
  lemma NewAccountStartsAtZero(req: CreateAccountRequest, answer: Option<Error>)
    requires CreateTagsHold(req)
    ensures FoldDigits(CreateAccountHandler(req, answer).call.value.createParams.balance) == 0
  {
  }

  /** The store's not-found answer is 404, any other error 500. */
  function LookupStatus(answer: Option<Error>): (s: Status)
    ensures s == OK <==> answer.None?
    ensures s == NotFound <==> answer == Some(Sql(NoRows))
  {
    match answer
    case None => OK
    case Some(e) => if e == Sql(NoRows) then NotFound else InternalServerError
  }

  // ---- getAccountHandler (api/account.go:69-95) --------------------------

  /** The path parameter goes through `StringToInt` unchecked; only the
      `gt=0` tag filters it. */
  function GetAccountHandler(idParam: string, answer: Option<Error>): (r: Reply)
    ensures r.call.Some? <==> FoldDigits(idParam) > 0
    ensures r.call.Some? ==> r.call.value == GetAccountCall(FoldDigits(idParam))
    ensures r.call.None? ==> r.status == BadRequest
    ensures r.call.Some? ==> r.status == LookupStatus(answer)
  {
    var id := FoldDigits(idParam);
    if id <= 0 then Reply(BadRequest, None)
    else Reply(LookupStatus(answer), Some(GetAccountCall(id)))
  }

  /** A decimal path parameter looks up exactly that id. */
  lemma GetByDecimalId(n: nat, answer: Option<Error>)
    requires n > 0
    ensures GetAccountHandler(FormatInt(n), answer).call == Some(GetAccountCall(n))
  {
    DecimalRoundTrip(n);
  }

  /** A path parameter that is not a number is not rejected: "a" looks up
      account 49. */
  lemma GetByLetter(answer: Option<Error>)
    ensures GetAccountHandler("a", answer).call == Some(GetAccountCall(49))
  {
    NoValidation();
  }

  // ---- listAccountsHandler (api/account.go:98-133) -----------------------

  /** The limit and offset as the code computes them, in int32. */
  function ListArgsAsWritten(req: ListAccountsRequest): (p: ListAccountsParams)
    ensures p.limit == req.pageSize as int
    ensures -0x8000_0000 <= p.offset < 0x8000_0000
    ensures (p.offset - (req.pageId as int - 1) * req.pageSize as int) % 0x1_0000_0000 == 0
  {
    var w := WrapInt32(req.pageId as int - 1);
    CongruentProduct(req.pageId as int - 1, w as int, req.pageSize as int);
    var offset := WrapInt32(w as int * req.pageSize as int);
    CongruentTrans(offset as int, w as int * req.pageSize as int, (req.pageId as int - 1) * req.pageSize as int);
    ListAccountsParams(req.pageSize as int, offset as int)
  }

  /** Congruence modulo 2^32 is transitive. */
  lemma CongruentTrans(x: int, y: int, z: int)
    requires (x - y) % 0x1_0000_0000 == 0
    requires (z - y) % 0x1_0000_0000 == 0
    ensures (x - z) % 0x1_0000_0000 == 0
  {
    var i := (x - y) / 0x1_0000_0000;
    var j := (z - y) / 0x1_0000_0000;
    assert x - z == 0x1_0000_0000 * (i - j);
  }

  /** Multiplying two numbers congruent modulo 2^32 by the same factor
      keeps them congruent. */
  lemma CongruentProduct(a: int, w: int, b: int)
    requires (a - w) % 0x1_0000_0000 == 0
    ensures (a * b - w * b) % 0x1_0000_0000 == 0
  {
    var k := (a - w) / 0x1_0000_0000;
    assert a - w == 0x1_0000_0000 * k;
    assert a * b - w * b == (a - w) * b;
    assert a * b - w * b == 0x1_0000_0000 * (k * b);
  }

  /** The limit and offset computed without wrap-around: for a positive
      page id and page size the offset skips exactly the earlier pages. */
  function ListArgs(req: ListAccountsRequest): (p: ListAccountsParams)
    ensures p.limit == req.pageSize as int
    ensures req.pageId >= 1 && req.pageSize >= 1 ==>
      p.offset >= 0 && p.offset % p.limit == 0 && p.offset / p.limit == req.pageId as int - 1
  {
    var p := ListAccountsParams(req.pageSize as int, (req.pageId as int - 1) * req.pageSize as int);
    if req.pageId >= 1 && req.pageSize >= 1 then
      PageArithmetic(req.pageId as int - 1, req.pageSize as int);
      p
    else p
  }

  lemma PageArithmetic(pages: nat, size: int)
    requires size >= 1
    ensures pages * size >= 0 && (pages * size) % size == 0 && (pages * size) / size == pages
  {
    var x := pages * size;
    var q, r := x / size, x % size;
    assert q * size + r == x && 0 <= r < size;
    assert x >= 0 by { NonNegProduct(pages, size); }
    assert (q - pages) * size == q * size - pages * size;
    if q > pages {
      AtLeastOnce(q - pages, size);
    } else if q < pages {
      assert (pages - q) * size == pages * size - q * size;
      AtLeastOnce(pages - q, size);
    }
  }

  lemma NonNegProduct(a: nat, b: nat)
    ensures a * b >= 0
  {
  }

  lemma AtLeastOnce(a: int, b: int)
    requires a >= 1 && b >= 1
    ensures a * b >= b
  {
    assert a * b == (a - 1) * b + b;
    NonNegProduct(a - 1, b);
  }

  /** The two agree whenever the product fits in 32 bits. */
  lemma ListArgsAgree(req: ListAccountsRequest)
    requires req.pageId >= 1
    requires -0x8000_0000 <= (req.pageId as int - 1) * req.pageSize as int < 0x8000_0000
    ensures ListArgsAsWritten(req) == ListArgs(req)
  {
  }

  /** A page id the tags accept makes the int32 offset negative. */
  lemma ListOffsetWraps()
    ensures ListTagsHold(ListAccountsRequest("", 500000001, 5))
    ensures ListArgsAsWritten(ListAccountsRequest("", 500000001, 5)).offset == -1794967296
    ensures ListArgs(ListAccountsRequest("", 500000001, 5)).offset == 2500000000
  {
  }

  /** The paging arguments of a revision: int32 as written, or exact. */
  function ListArgsIn(rev: Revision, req: ListAccountsRequest): ListAccountsParams
  {
    match rev
    case AsWritten => ListArgsAsWritten(req)
    case Intended => ListArgs(req)
  }

  function ListAccountsHandler(req: ListAccountsRequest, answer: Option<Error>, rev: Revision): (r: Reply)
    ensures req.pageId == 0 && req.pageSize == 0 ==> r == Reply(BadRequest, None)
    ensures r.call.Some? <==> ListTagsHold(req)
    ensures r.call.Some? ==> r.call.value == ListAccountsCall(ListArgsIn(rev, req)) && r.status == LookupStatus(answer)
    ensures r.call.None? ==> r.status == BadRequest
  {
    if req.pageId == 0 && req.pageSize == 0 then Reply(BadRequest, None)
    else if !ListTagsHold(req) then Reply(BadRequest, None)
    else Reply(LookupStatus(answer), Some(ListAccountsCall(ListArgsIn(rev, req))))
  }

  /** The handler as written asks the store for a negative offset on a
      page the tags accept; the intended one skips the earlier pages. */
  lemma ListHandlerWraps(answer: Option<Error>)
    ensures var req := ListAccountsRequest("", 500000001, 5);
      && ListAccountsHandler(req, answer, AsWritten).call == Some(ListAccountsCall(ListAccountsParams(5, -1794967296)))
      && ListAccountsHandler(req, answer, Intended).call == Some(ListAccountsCall(ListAccountsParams(5, 2500000000)))
  {
    ListOffsetWraps();
  }

  // ---- updateAccountHandler (api/account.go:136-166) ---------------------

  function UpdateAccountHandler(req: UpdateAccountRequest, answer: Option<Error>): (r: Reply)
    ensures r.call.Some? <==> UpdateTagsHold(req)
    ensures r.call.Some? ==> r.call.value.UpdateAccountCall? && r.call.value.updateParams.id == req.id
    ensures r.status == OK <==> UpdateTagsHold(req) && answer.None?
    ensures r.status != OK ==> r.status == (if UpdateTagsHold(req) then InternalServerError else BadRequest)
  {
    if !UpdateTagsHold(req) then Reply(BadRequest, None)
    else
      var call := UpdateAccountCall(UpdateAccountParams(req.id, FormatInt(req.balance)));
      if answer.Some? then Reply(InternalServerError, Some(call)) else Reply(OK, Some(call))
  }

  /** The balance reaches the store as its decimal rendering, which reads
      back as the requested balance. */
  lemma UpdateForwardsBalance(req: UpdateAccountRequest, answer: Option<Error>)
    requires UpdateTagsHold(req)
    ensures var balance := UpdateAccountHandler(req, answer).call.value.updateParams.balance;
      IsDigits(balance) && FoldDigits(balance) == req.balance
  {
    DecimalRoundTrip(req.balance);
  }

  // ---- deleteAccountHandler (api/account.go:169-193) ---------------------

  function DeleteAccountHandler(idParam: string, answer: Option<Error>): (r: Reply)
    ensures r.call.Some? <==> FoldDigits(idParam) >= 1
    ensures r.call.Some? ==> r.call.value == DeleteAccountCall(FoldDigits(idParam))
    ensures r.status == OK <==> r.call.Some? && answer.None?
    ensures r.status != OK ==> r.status == (if r.call.Some? then InternalServerError else BadRequest)
  {
    var id := FoldDigits(idParam);
    if id < 1 then Reply(BadRequest, None)
    else if answer.Some? then Reply(InternalServerError, Some(DeleteAccountCall(id)))
    else Reply(OK, Some(DeleteAccountCall(id)))
  }
}

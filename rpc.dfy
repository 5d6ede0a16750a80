/** What the gRPC handlers share: status codes, field violations, the
    incoming metadata and the mapping of store errors to codes. */
module Rpc {
  import opened Base
  import opened Db
  import opened Validators
  import opened Token

  datatype Code = InvalidArgument | NotFound | PermissionDenied | Internal | Unknown

  /** An `errdetails.BadRequest_FieldViolation`; the description is the
      validator's error. */
  datatype Violation = Violation(field: string, description: FieldError)

  /** The plain errors `authorizeUser` returns, by cause. */
  datatype AuthError =
    | NoMetadata
    | NoAuthorization
    | InvalidAuthorization
    | UnsupportedAuthType
    | TokenRejected(cause: TokenError)

  /** The error a handler returns: a gRPC status (with the field
      violations of a bad request), or a plain Go error from
      `authorizeUser`, which gRPC reports with code Unknown. */
  datatype RpcError =
    | StatusError(code: Code, violations: seq<Violation>)
    | PlainError(cause: AuthError)
  {
    function ReportedCode(): (c: Code)
      ensures this.StatusError? ==> c == this.code
      ensures this.PlainError? ==> c == Unknown
    {
      match this
      case StatusError(code, _) => code
      case PlainError(_) => Unknown
    }
  }

  /** A status without details. */
  function WithCode(code: Code): RpcError
  {
    StatusError(code, [])
  }

  /** The incoming metadata: lower-case keys to their values, in order. */
  type Md = map<string, seq<string>>

  /** `metadata.MD.Get`: the values of a key, none if absent. */
  function Get(md: Md, key: string): (vs: seq<string>)
    ensures key !in md ==> vs == []
  {
    if key in md then md[key] else []
  }

  // ---- validation -------------------------------------------------------

  /** One validator run on one field. */
  datatype Check = Check(field: string, outcome: Option<FieldError>)

  /** The violations the `validate*Request` functions append: one per
      failing check, tagged with the field, in the order of the checks. */
  function Failing(checks: seq<Check>): (vs: seq<Violation>)
    ensures |vs| <= |checks|
    ensures vs == [] <==> forall i :: 0 <= i < |checks| ==> checks[i].outcome.None?
  {
    if checks == [] then []
    else
      var rest := Failing(checks[1..]);
      assert rest == [] <==> forall i :: 1 <= i < |checks| ==> checks[i].outcome.None? by {
        assert forall i :: 1 <= i < |checks| ==> checks[i] == checks[1..][i - 1];
      }
      if checks[0].outcome.Some? then [Violation(checks[0].field, checks[0].outcome.value)] + rest
      else rest
  }

  lemma {:induction false} FailingAppend(a: seq<Check>, b: seq<Check>)
    ensures Failing(a + b) == Failing(a) + Failing(b)
  {
    if a == [] {
      assert a + b == b;
    } else {
      assert (a + b)[1..] == a[1..] + b;
      FailingAppend(a[1..], b);
    }
  }

  /** Running one more check appends its violation, if any, to those of
      the checks before it. */
  lemma FailingStep(checks: seq<Check>, k: nat)
    requires k < |checks|
    ensures Failing(checks[..k + 1]) ==
      Failing(checks[..k]) + (if checks[k].outcome.Some? then [Violation(checks[k].field, checks[k].outcome.value)] else [])
  {
    assert checks[..k + 1] == checks[..k] + [checks[k]];
    FailingAppend(checks[..k], [checks[k]]);
    assert [checks[k]][1..] == [];
  }

  lemma FailingOne(c: Check)
    ensures Failing([c]) == if c.outcome.Some? then [Violation(c.field, c.outcome.value)] else []
  {
    assert [c][1..] == [];
  }

  lemma FailingOfFour(cs: seq<Check>)
    requires |cs| == 4
    ensures Failing(cs) == Failing([cs[0]]) + Failing([cs[1]]) + Failing([cs[2]]) + Failing([cs[3]])
  {
    FailingAppend([cs[0]], [cs[1]]);
    FailingAppend([cs[0], cs[1]], [cs[2]]);
    FailingAppend([cs[0], cs[1], cs[2]], [cs[3]]);
    assert [cs[0], cs[1]] == [cs[0]] + [cs[1]];
    assert [cs[0], cs[1], cs[2]] == [cs[0], cs[1]] + [cs[2]];
    assert cs == [cs[0], cs[1], cs[2]] + [cs[3]];
  }

  /** One `if err != nil { violations = append(...) }` block of a
      `validate*Request` function. */
  method AppendViolation(violations: seq<Violation>, field: string, err: Option<FieldError>) returns (vs: seq<Violation>)
    ensures vs == violations + Failing([Check(field, err)])
  {
    vs := violations;
    if err.Some? {
      vs := vs + [Violation(field, err.value)];
    }
    FailingOne(Check(field, err));
  }

  /** The description of the first violation of `field`, if any. */
  function ViolationFor(vs: seq<Violation>, field: string): Option<FieldError>
  {
    if vs == [] then None
    else if vs[0].field == field then Some(vs[0].description)
    else ViolationFor(vs[1..], field)
  }

  predicate DistinctFields(checks: seq<Check>)
  {
    forall i, j :: 0 <= i < j < |checks| ==> checks[i].field != checks[j].field
  }

  /** The outcome of the first check of `field`, none if there is none. */
  function FieldOutcome(checks: seq<Check>, field: string): Option<FieldError>
  {
    if checks == [] then None
    else if checks[0].field == field then checks[0].outcome
    else FieldOutcome(checks[1..], field)
  }

  /** With one check per field, the violation reported for a field is the
      outcome of that field's check: present exactly when the field was
      checked and failed, and then that field's error. */
  lemma {:induction false} FailingPerField(checks: seq<Check>, field: string)
    requires DistinctFields(checks)
    ensures ViolationFor(Failing(checks), field) == FieldOutcome(checks, field)
  {
    if checks != [] {
      if checks[0].field == field {
        if checks[0].outcome.None? {
          NotMentioned(checks[1..], field);
        }
      } else {
        FailingPerField(checks[1..], field);
      }
    }
  }

  /** The outcome recorded for the field of the i-th check is that
      check's, when no two checks share a field. */
  lemma {:induction false} FieldOutcomeAt(checks: seq<Check>, i: nat)
    requires DistinctFields(checks) && i < |checks|
    ensures FieldOutcome(checks, checks[i].field) == checks[i].outcome
  {
    if i > 0 {
      FieldOutcomeAt(checks[1..], i - 1);
      assert checks[1..][i - 1] == checks[i];
    }
  }

  /** The violation reported for the field of the i-th check is that
      check's outcome. */
  lemma FieldViolation(checks: seq<Check>, i: nat)
    requires DistinctFields(checks) && i < |checks|
    ensures ViolationFor(Failing(checks), checks[i].field) == checks[i].outcome
  {
    FailingPerField(checks, checks[i].field);
    FieldOutcomeAt(checks, i);
  }

  lemma {:induction false} NotMentioned(checks: seq<Check>, field: string)
    requires forall i :: 0 <= i < |checks| ==> checks[i].field != field
    ensures ViolationFor(Failing(checks), field) == None
  {
    if checks != [] {
      NotMentioned(checks[1..], field);
    }
  }

  // ---- store errors -----------------------------------------------------

  /** `CreateUser`'s mapping: a raw `*pq.Error` named "unique_violation"
      is InvalidArgument, anything else (a wrapped error included) is
      Internal. */
  function UniqueViolationCode(e: Error): (c: Code)
    ensures c == InvalidArgument <==> e == Sql(PqError("unique_violation"))
    ensures c != InvalidArgument ==> c == Internal
  {
    match e
    case Sql(PqError(name)) => if name == "unique_violation" then InvalidArgument else Internal
    case _ => Internal
  }

  /** The mapping of `UpdateUser` and `LoginUser`: exactly the raw
      `sql.ErrNoRows` is NotFound, anything else Internal. */
  function NotFoundCode(e: Error): (c: Code)
    ensures c == NotFound <==> e == Sql(NoRows)
    ensures c != NotFound ==> c == Internal
  {
    if e == Sql(NoRows) then NotFound else Internal
  }
}

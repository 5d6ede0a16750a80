/** Token payloads (token/payload.go). The clock is a parameter: `now` is
    the instant `time.Now()` would return, in nanoseconds since the Unix
    epoch, and a duration is a Go `time.Duration`, also in nanoseconds. */
module Token {
  import opened Base

  const NanosPerSecond: int := 1_000_000_000

  type Uuid = int

  datatype Payload = Payload(id: Uuid, username: string, issuedAt: int, expiredAt: int)

  datatype TokenError = InvalidToken | ExpiredToken

  /** A token string together with the payload it carries, as returned
      by the token maker's `CreateToken`. */
  datatype Issued = Issued(token: string, payload: Payload)

  /** `time.Time.Unix()`: whole seconds, rounded towards minus infinity. */
  function UnixSeconds(nanos: int): int
  {
    nanos / NanosPerSecond
  }

  /** `NewPayload`: the id comes from `uuid.NewRandom`, whose failure is
      passed on; both timestamps are read from the same instant `now`. */
  function NewPayload(username: string, duration: int, newId: Result<Uuid, string>, now: int)
    : (r: Result<Payload, string>)
    ensures newId.Err? ==> r == Err(newId.error)
    ensures newId.Ok? ==> r.Ok? && r.value.id == newId.value && r.value.username == username
    ensures newId.Ok? ==>
      r.value.issuedAt == UnixSeconds(now) && r.value.expiredAt == UnixSeconds(now + duration)
  {
    match newId
    case Err(e) => Err(e)
    case Ok(id) => Ok(Payload(id, username, UnixSeconds(now), UnixSeconds(now + duration)))
  }

  /** `Payload.Valid`: the payload has expired once the current second is
      strictly after `expiredAt`. */
  function Valid(p: Payload, now: int): (r: Option<TokenError>)
    ensures r == None || r == Some(ExpiredToken)
    ensures r.Some? <==> UnixSeconds(now) > p.expiredAt
  {
    if UnixSeconds(now) > p.expiredAt then Some(ExpiredToken) else None
  }

  lemma DivMonotone(a: int, b: int)
    requires a <= b
    ensures a / NanosPerSecond <= b / NanosPerSecond
  {
  }

  /** The validity window is the duration rounded to whole seconds, give or
      take the one second lost when both instants are truncated. */
  lemma {:induction false} Window(username: string, duration: int, id: Uuid, now: int)
    ensures var p := NewPayload(username, duration, Ok(id), now).value;
      duration / NanosPerSecond <= p.expiredAt - p.issuedAt <= duration / NanosPerSecond + 1
  {
    var q, r := now / NanosPerSecond, now % NanosPerSecond;
    var dq, dr := duration / NanosPerSecond, duration % NanosPerSecond;
    assert now == q * NanosPerSecond + r;
    assert duration == dq * NanosPerSecond + dr;
    assert now + duration == (q + dq) * NanosPerSecond + (r + dr);
    assert 0 <= r + dr < 2 * NanosPerSecond;
    if r + dr < NanosPerSecond {
      assert (now + duration) / NanosPerSecond == q + dq;
    } else {
      assert now + duration == (q + dq + 1) * NanosPerSecond + (r + dr - NanosPerSecond);
      assert (now + duration) / NanosPerSecond == q + dq + 1;
    }
  }

  /** Whole-second durations (such as `time.Minute`) give an exact window. */
  lemma {:induction false} WholeSecondWindow(username: string, seconds: int, id: Uuid, now: int)
    ensures var p := NewPayload(username, seconds * NanosPerSecond, Ok(id), now).value;
      p.expiredAt == p.issuedAt + seconds
  {
    var q, r := now / NanosPerSecond, now % NanosPerSecond;
    assert now + seconds * NanosPerSecond == (q + seconds) * NanosPerSecond + r;
  }

  /** A payload made with a duration of at least minus one second is
      already expired when checked at the instant it was issued; one made
      with a non-negative duration is not. */
  lemma {:induction false} ExpiredAtIssue(username: string, duration: int, id: Uuid, now: int)
    ensures var p := NewPayload(username, duration, Ok(id), now).value;
      (duration <= -NanosPerSecond ==> Valid(p, now) == Some(ExpiredToken))
      && (duration >= 0 ==> Valid(p, now) == None)
  {
    if duration <= -NanosPerSecond {
      DivMonotone(now + duration, now - NanosPerSecond);
      assert (now - NanosPerSecond) / NanosPerSecond == now / NanosPerSecond - 1;
    }
    if duration >= 0 {
      DivMonotone(now, now + duration);
    }
  }

  /** Once expired, a payload stays expired. */
  lemma ExpiryIsFinal(p: Payload, t1: int, t2: int)
    requires t1 <= t2
    requires Valid(p, t1).Some?
    ensures Valid(p, t2).Some?
  {
    DivMonotone(t1, t2);
  }
}

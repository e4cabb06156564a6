/** What the two limiters of api-gateway/rate_limiter.py share: the calls they are asked
    about, and the Retry-After header their refusals become: status 429 of section 4 of
    RFC 6585, field Retry-After of section 10.2.3 of RFC 9110. Times are exact reals. */
module RateLimiting {

  datatype Call = Call(key: string, now: real)

  /** The times at which a key called. */
  function TimesOf(calls: seq<Call>, key: string): seq<real> {
    if calls == [] then []
    else
      var front, c := TimesOf(calls[..|calls| - 1], key), calls[|calls| - 1];
      if c.key == key then front + [c.now] else front
  }

  lemma {:induction false} TimesSnoc(calls: seq<Call>, c: Call, key: string)
    ensures TimesOf(calls + [c], key) == if c.key == key then TimesOf(calls, key) + [c.now] else TimesOf(calls, key)
  {
    assert (calls + [c])[..|calls|] == calls;
  }

  predicate Monotone(h: seq<real>) {
    forall i, j :: 0 <= i < j < |h| ==> h[i] <= h[j]
  }

  predicate NotBefore(h: seq<real>, now: real) {
    forall i :: 0 <= i < |h| ==> h[i] <= now
  }

  function Ceil(x: real): int {
    -((-x).Floor)
  }

  /** _retry_after_response: the least whole number of seconds, at least one, that is
      not below retry_after. */
  function RetryAfterSeconds(retry: real): (s: int)
    ensures s >= 1 && s as real >= retry && (s == 1 || (s - 1) as real < retry)
  {
    if Ceil(retry) > 1 then Ceil(retry) else 1
  }

  predicate IsWhole(x: real) {
    x == x.Floor as real
  }

  /** The header outlasts retry_after unless that is itself a positive whole number. */
  lemma SecondsExceed(retry: real)
    requires retry >= 0.0
    ensures RetryAfterSeconds(retry) as real > retry <==> !(IsWhole(retry) && retry > 0.0)
  {
    var down := (-retry).Floor;
    assert down as real <= -retry < down as real + 1.0;
    var whole := retry.Floor;
    assert whole as real <= retry < whole as real + 1.0;
    assert whole == -down <==> retry == whole as real;
  }
}

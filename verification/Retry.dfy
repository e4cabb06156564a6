/** call_with_retry of the gateway (api-gateway/resilience.py): bounded retries with
    exponential backoff and jitter. The callee is a stream of outcomes, one a call. */
module Retry {

  datatype Code = Unavailable | DeadlineExceeded | NoCode | OtherCode

  datatype Outcome<+T> = Value(value: T) | RpcError(code: Code) | OtherError

  const BASE_DELAY := 0.25
  const MAX_JITTER := 0.1

  predicate Transient<T>(o: Outcome<T>) {
    o.RpcError? && (o.code == Unavailable || o.code == DeadlineExceeded)
  }

  function Pow2(n: nat): nat {
    if n == 0 then 1 else 2 * Pow2(n - 1)
  }

  /** The loop calls at least once, whatever the limit. */
  function Limit(maxAttempts: int): nat {
    if maxAttempts < 1 then 1 else maxAttempts
  }

  lemma TransientExactly<T>(o: Outcome<T>)
    ensures Transient(o) <==> o == RpcError(Unavailable) || o == RpcError(DeadlineExceeded)
    ensures !Transient(o) <==> o.Value? || o.OtherError? || o == RpcError(NoCode) || o == RpcError(OtherCode)
  {
  }

  /** The returned outcome is the first among those allowed that is neither UNAVAILABLE nor
      DEADLINE_EXCEEDED, or, when there is none, the last of them; `slept` is the total
      pause. */
  method CallWithRetry<T>(outcomes: nat -> Outcome<T>, jitter: nat -> real, maxAttempts: int)
    returns (result: Outcome<T>, calls: nat, slept: real)
    requires forall i: nat :: 0.0 <= jitter(i) <= 0.1
    ensures 1 <= calls && (calls == 1 || calls <= maxAttempts) && result == outcomes(calls - 1)
    ensures forall i: nat :: i < calls - 1 ==>
              outcomes(i) == RpcError(Unavailable) || outcomes(i) == RpcError(DeadlineExceeded)
    ensures calls < maxAttempts ==>
              result.Value? || result.OtherError? || result == RpcError(NoCode) || result == RpcError(OtherCode)
    ensures 0.25 * (Pow2(calls - 1) - 1) as real <= slept
            <= 0.25 * (Pow2(calls - 1) - 1) as real + 0.1 * (calls - 1) as real
  {
    var attempt := 0;
    slept := 0.0;
    while true
      invariant attempt < Limit(maxAttempts)
      invariant forall i: nat :: i < attempt ==>
                  outcomes(i) == RpcError(Unavailable) || outcomes(i) == RpcError(DeadlineExceeded)
      invariant BASE_DELAY * (Pow2(attempt) - 1) as real <= slept
                <= BASE_DELAY * (Pow2(attempt) - 1) as real + MAX_JITTER * attempt as real
      decreases Limit(maxAttempts) - attempt
    {
      attempt := attempt + 1;
      result := outcomes(attempt - 1);
      TransientExactly(result);
      if !Transient(result) || attempt >= maxAttempts {
        return result, attempt, slept;
      }
      var delay := BASE_DELAY * Pow2(attempt - 1) as real + jitter(attempt);
      slept := slept + delay;
    }
  }

  /** With the deployed limit of three attempts, one retry pauses 0.25 to 0.35 s, two pause
      0.75 to 0.95 s in all, and a request fails transiently only when all three did. */
  method DeployedRetry<T>(outcomes: nat -> Outcome<T>, jitter: nat -> real)
    returns (result: Outcome<T>, calls: nat, slept: real)
    requires forall i: nat :: 0.0 <= jitter(i) <= 0.1
    ensures 1 <= calls <= 3
    ensures calls == 1 ==> slept == 0.0
    ensures calls == 2 ==> 0.25 <= slept <= 0.35
    ensures calls == 3 ==> 0.75 <= slept <= 0.95
    ensures result == RpcError(Unavailable) || result == RpcError(DeadlineExceeded) <==>
            && (outcomes(0) == RpcError(Unavailable) || outcomes(0) == RpcError(DeadlineExceeded))
            && (outcomes(1) == RpcError(Unavailable) || outcomes(1) == RpcError(DeadlineExceeded))
            && (outcomes(2) == RpcError(Unavailable) || outcomes(2) == RpcError(DeadlineExceeded))
  {
    result, calls, slept := CallWithRetry(outcomes, jitter, 3);
    assert Pow2(0) == 1 && Pow2(1) == 2 && Pow2(2) == 4;
    assert calls == 1 || calls == 2 || calls == 3;
  }

  /** Each pause doubles the one before, so their sum is one less than the next. */
  lemma {:induction false} PausesDouble(k: nat)
    ensures Pow2(0) == 1 && Pow2(k + 1) == 2 * Pow2(k) && Pow2(k) >= k + 1
  {
    if k == 0 {
    } else {
      PausesDouble(k - 1);
    }
  }
}

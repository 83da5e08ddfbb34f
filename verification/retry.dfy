/** The retry loop around one run item (`_execute_item` in proxy/app/runs/executor.py)
    over an abstract attempt function: the attempt number maps to the attempt's result. */
module RetryLoop {
  import opened Wrappers

  /** A failed attempt as the retry loop reports it: the `item.error` event's attempt
      number, error and `retrying` flag, and the backoff sleep that follows it, if any. */
  datatype FailedAttempt = FailedAttempt(attempt: nat, error: string, retrying: bool, backoff: Option<real>)

  /** The loop's outcome: the successful attempt's result or the last error, how many
      attempts ran, and the failed attempts in order. */
  datatype Retried<T> = Retried(result: Result<T>, attempts: nat, failures: seq<FailedAttempt>)

  /** How failed attempt `n` (numbered from one) is reported when `retries` retries are
      allowed: it is retried, after a backoff, exactly when it is not the last allowed. */
  function Report(n: nat, error: string, retries: nat, backoff: real): (f: FailedAttempt)
    ensures f.retrying <==> n <= retries
    ensures f.backoff.Some? <==> f.retrying
  {
    FailedAttempt(n, error, n - 1 < retries, if n - 1 < retries then Some(backoff) else None)
  }

  /** Attempts `k + 1` to `retries + 1`. */
  function RetryFrom<T>(retries: nat, backoff: real, attempt: nat -> Result<T>, k: nat): (r: Retried<T>)
    requires k <= retries
    ensures k + 1 <= r.attempts <= retries + 1
    ensures forall n :: k + 1 <= n < r.attempts ==> attempt(n).Failure?
    ensures r.result.Success? ==> r.result == attempt(r.attempts)
    ensures r.result.Failure? ==> r.attempts == retries + 1 && attempt(retries + 1).Failure? &&
                                  r.result.error == attempt(retries + 1).error
    ensures |r.failures| == r.attempts - k - (if r.result.Success? then 1 else 0)
    ensures forall i :: 0 <= i < |r.failures| ==>
              attempt(k + 1 + i).Failure? && r.failures[i] == Report(k + 1 + i, attempt(k + 1 + i).error, retries, backoff)
    decreases retries - k
  {
    match attempt(k + 1)
    case Success(v) => Retried(Success(v), k + 1, [])
    case Failure(e) =>
      var first := Report(k + 1, e, retries, backoff);
      if k < retries then
        var rest := RetryFrom(retries, backoff, attempt, k + 1);
        Retried(rest.result, rest.attempts, [first] + rest.failures)
      else Retried(Failure(e), k + 1, [first])
  }

  /** `for attempt in range(retries + 1)`: at most `retries + 1` attempts, stopping at the
      first success; every failed attempt is reported, with `retrying` set (and a backoff
      taken) exactly when another attempt follows. */
  function Retry<T>(retries: nat, backoff: real, attempt: nat -> Result<T>): (r: Retried<T>)
    ensures 1 <= r.attempts <= retries + 1
    ensures forall n :: 1 <= n < r.attempts ==> attempt(n).Failure?
    ensures r.result.Success? ==> r.result == attempt(r.attempts)
    ensures r.result.Failure? <==> forall n :: 1 <= n <= retries + 1 ==> attempt(n).Failure?
    ensures r.result.Failure? ==> r.attempts == retries + 1 && r.result.error == attempt(retries + 1).error
    ensures |r.failures| == (if r.result.Success? then r.attempts - 1 else r.attempts)
    ensures forall i :: 0 <= i < |r.failures| ==>
              attempt(i + 1).Failure? && r.failures[i] == Report(i + 1, attempt(i + 1).error, retries, backoff)
  {
    RetryFrom(retries, backoff, attempt, 0)
  }
}

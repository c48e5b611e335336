/**
 * `retryPromise`: call an async function until it succeeds, at most
 * `retries` times (3 unless configured), sleeping between attempts.
 */
module RetryPromise {
  import opened Wrappers

  const DEFAULT_RETRIES := 3
  const DEFAULT_DELAY := 500

  /** What `retryPromise` rejects with: the last error of `fn`, or its own "unreachable" error. */
  datatype Failure<E> = Thrown(error: E) | Unreachable

  /** `localConfig?.retries ?? DEFAULT_CONFIG.retries`, taken to be a whole number. */
  function MaxRetries(configured: Option<int>): int {
    configured.GetOr(DEFAULT_RETRIES)
  }

  /**
   * The result of the calls from attempt `i` on, given that the `i`-th call
   * of `fn` settles as `attempt(i)`.
   */
  function Run<T, E>(attempt: nat -> Result<T, E>, maxRetries: int, i: nat): (r: Result<T, Failure<E>>)
    requires i < maxRetries
    decreases maxRetries - i
  {
    match attempt(i)
    case Ok(v) => Ok(v)
    case Err(e) => if i + 1 == maxRetries then Err(Thrown(e)) else Run(attempt, maxRetries, i + 1)
  }

  /** The promise `retryPromise` returns. */
  function Retry<T, E>(attempt: nat -> Result<T, E>, maxRetries: int): (r: Result<T, Failure<E>>)
    ensures maxRetries <= 0 ==> r == Err(Unreachable)
  {
    if maxRetries <= 0 then Err(Unreachable) else Run(attempt, maxRetries, 0)
  }

  /** The first attempt that succeeds within the budget, if any. */
  function FirstOk<T, E>(attempt: nat -> Result<T, E>, maxRetries: int, i: nat): (k: int)
    requires i <= maxRetries
    ensures k == -1 || i <= k < maxRetries
    ensures k == -1 <==> forall j :: i <= j < maxRetries ==> attempt(j).Err?
    ensures k >= 0 ==> attempt(k).Ok? && forall j :: i <= j < k ==> attempt(j).Err?
    decreases maxRetries - i
  {
    if i == maxRetries then -1 else if attempt(i).Ok? then i else FirstOk(attempt, maxRetries, i + 1)
  }

  /**
   * With a positive budget the promise resolves with the first success, or,
   * when every attempt fails, rejects with the error of the last one.
   */
  lemma {:induction false} RunOutcome<T, E>(attempt: nat -> Result<T, E>, maxRetries: int, i: nat)
    requires i < maxRetries
    ensures var k := FirstOk(attempt, maxRetries, i);
            var r := Run(attempt, maxRetries, i);
            (k >= 0 ==> r == Ok(attempt(k).value)) && (k == -1 ==> r == Err(Thrown(attempt(maxRetries - 1).error)))
    decreases maxRetries - i
  {
    if attempt(i).Err? && i + 1 < maxRetries {
      RunOutcome(attempt, maxRetries, i + 1);
    }
  }

  /** `retryPromise` on a live function: `calls` counts the calls of `fn`, `delays` the sleeps. */
  method RetryPromise<T, E>(attempt: nat -> Result<T, E>, configured: Option<int>)
    returns (r: Result<T, Failure<E>>, calls: nat, delays: nat)
    ensures r == Retry(attempt, MaxRetries(configured))
    ensures MaxRetries(configured) <= 0 ==> calls == 0
    ensures MaxRetries(configured) > 0 ==>
              var k := FirstOk(attempt, MaxRetries(configured), 0);
              (k >= 0 ==> calls == k + 1) && (k == -1 ==> calls == MaxRetries(configured)) && delays == calls - 1
  {
    var retries := 0;
    var maxRetries := MaxRetries(configured);
    calls, delays := 0, 0;
    while retries < maxRetries
      invariant 0 <= retries && (retries == 0 || retries < maxRetries)
      invariant calls == retries && delays == retries
      invariant forall j :: 0 <= j < retries ==> attempt(j).Err?
      invariant retries > 0 ==> Retry(attempt, maxRetries) == Run(attempt, maxRetries, retries)
      decreases maxRetries - retries
    {
      calls := calls + 1;
      var res := attempt(retries);
      if res.Ok? {
        return Ok(res.value), calls, delays;
      }
      retries := retries + 1;
      if retries == maxRetries {
        return Err(Thrown(res.error)), calls, delays;
      }
      delays := delays + 1;
    }
    return Err(Unreachable), calls, delays;
  }
}

/** The attempt counting of the `async-retry` wrapper as the scraper configures it
    (`retries: RETRY_LIMIT`, an `onRetry` hook that only logs). An attempt either
    resolves, which ends the call, or throws, which schedules the next attempt while
    attempts remain and otherwise rejects the call. The backoff delays are not modelled. */
module Retry {
  import opened Js

  /** How one attempt ends. */
  datatype AttemptOutcome<+T> = Resolves(value: T) | Rethrows(thrown: Thrown)

  /** How the whole call ends: resolved, or rejected after every attempt threw.
      `errors` lists what each attempt threw, first attempt first. */
  datatype RetryOutcome<+T> = Resolved(value: T) | Rejected(errors: seq<Thrown>)

  /** The outcome, how many attempts ran, and how many retry warnings were logged. */
  datatype RetryRun<+T> = RetryRun(outcome: RetryOutcome<T>, attempts: nat, warnings: nat)

  function Min(a: int, b: int): int {
    if a <= b then a else b
  }

  function Max0(a: int): nat {
    if a <= 0 then 0 else a
  }

  /** The `onRetry` hook logs only while `RETRY_LIMIT - attempt > 0`. */
  predicate WarnsBeforeRetry(retries: nat, attempt: nat) {
    retries - attempt > 0
  }

  /** Attempts `num` onward, `errors` and `warnings` being what the earlier ones left. */
  function RetryFrom<T>(retries: nat, attempt: nat -> AttemptOutcome<T>, num: nat, errors: seq<Thrown>, warnings: nat)
    : (r: RetryRun<T>)
    requires 1 <= num <= retries + 1
    ensures num <= r.attempts <= retries + 1
    ensures forall j :: num <= j < r.attempts ==> attempt(j).Rethrows?
    ensures r.outcome.Resolved? <==> attempt(r.attempts).Resolves?
    ensures r.outcome.Resolved? ==> r.outcome.value == attempt(r.attempts).value
    ensures r.outcome.Rejected? ==> r.attempts == retries + 1
    ensures r.outcome.Rejected? ==>
              && |r.outcome.errors| == |errors| + retries + 2 - num
              && r.outcome.errors[..|errors|] == errors
              && forall j :: num <= j <= retries + 1 ==> r.outcome.errors[|errors| + j - num] == attempt(j).thrown
    ensures r.warnings == warnings + Max0(Min(r.attempts, retries) - num)
    decreases retries + 1 - num
  {
    match attempt(num)
    case Resolves(v) => RetryRun(Resolved(v), num, warnings)
    case Rethrows(e) =>
      if num <= retries then
        RetryFrom(retries, attempt, num + 1, errors + [e],
                  warnings + if WarnsBeforeRetry(retries, num) then 1 else 0)
      else
        RetryRun(Rejected(errors + [e]), num, warnings)
  }

  /** `retry(fn, {retries})`: at most `retries + 1` attempts, numbered from 1. The call
      resolves with the first attempt that resolves and is rejected exactly when every
      attempt throws; a warning is logged before every retry but the last. */
  function RunWithRetries<T>(retries: nat, attempt: nat -> AttemptOutcome<T>): (r: RetryRun<T>)
    ensures 1 <= r.attempts <= retries + 1
    ensures forall j :: 1 <= j < r.attempts ==> attempt(j).Rethrows?
    ensures r.outcome.Resolved? ==> attempt(r.attempts) == Resolves(r.outcome.value)
    ensures r.outcome.Rejected? <==> forall j :: 1 <= j <= retries + 1 ==> attempt(j).Rethrows?
    ensures r.outcome.Rejected? ==> r.attempts == retries + 1
    ensures r.outcome.Rejected? ==>
              |r.outcome.errors| == retries + 1
              && forall j :: 1 <= j <= retries + 1 ==> r.outcome.errors[j - 1] == attempt(j).thrown
    ensures r.warnings == Max0(Min(r.attempts, retries) - 1)
  {
    RetryFrom(retries, attempt, 1, [], 0)
  }

  /** The message of the error node-retry throws for a minimum delay above the maximum. */
  const TimeoutOrderMessage := "minTimeout is greater than maxTimeout"

  /** The options the call is given: the number of retries and the bounds of the
      backoff delay. */
  datatype RetryOptions = RetryOptions(retries: nat, minTimeout: int, maxTimeout: int)

  /** node-retry accepts the options only when the minimum delay is not above the maximum. */
  predicate TimeoutsInOrder(opts: RetryOptions) {
    opts.minTimeout <= opts.maxTimeout
  }

  /** `retry(fn, opts)`. The retry operation is built inside the promise executor, so
      options node-retry refuses reject the call before any attempt runs; otherwise
      the attempts go as `RunWithRetries` describes. */
  function AsyncRetry<T>(opts: RetryOptions, attempt: nat -> AttemptOutcome<T>): (r: RetryRun<T>)
    ensures r.attempts == 0 <==> !TimeoutsInOrder(opts)
    ensures !TimeoutsInOrder(opts) ==> r.outcome == Rejected([ErrorValue(TimeoutOrderMessage)]) && r.warnings == 0
    ensures TimeoutsInOrder(opts) ==> r == RunWithRetries(opts.retries, attempt)
  {
    if !TimeoutsInOrder(opts) then RetryRun(Rejected([ErrorValue(TimeoutOrderMessage)]), 0, 0)
    else RunWithRetries(opts.retries, attempt)
  }

  /** A network error on the first attempt and success on the second: two attempts,
      with one warning when `retries` leaves a retry after the first. */
  lemma OneRetryThenSuccess<T>(retries: nat, attempt: nat -> AttemptOutcome<T>)
    requires retries >= 1
    requires attempt(1).Rethrows? && attempt(2).Resolves?
    ensures var r := RunWithRetries(retries, attempt);
            && r.outcome == Resolved(attempt(2).value) && r.attempts == 2
            && r.warnings == (if retries >= 2 then 1 else 0)
  {
  }
}

/** Fetching daily bars with two retry limits on one attempt counter
    (`_fetch_daily_bars_with_budget_retry` of generate_signal_feature_snapshot_input.py). */
module SignalFetch {
  import opened Outcomes

  datatype Bucket = MarketData | GlobalRest | OtherBucket

  datatype BrokerErrorType = RateLimit | TimeoutError | TemporaryBroker | ApiError | OtherType

  datatype Failure =
    | BudgetExhausted(bucket: Bucket)
    | AsyncTimeout
    | BrokerFailure(kind: BrokerErrorType, retryable: bool, looksHttp5xx: bool)
    | OtherFailure(name: string)

  datatype Reply = Bars(count: nat) | Raises(failure: Failure)

  datatype Outcome = Returned(count: nat) | Raised(failure: Failure) | FellThrough

  /** `_classify_retryable_signal_feature_fetch_exception`: the retry code, if there is one. */
  function RetryCode(f: Failure): Option<string> {
    match f
    case AsyncTimeout => Some("timeout")
    case BrokerFailure(kind, retryable, http5xx) =>
      if kind == RateLimit then Some("rate_limit")
      else if kind == TimeoutError then Some("timeout")
      else if kind == TemporaryBroker then Some("temporary_broker")
      else if retryable && http5xx then Some("http_5xx")
      else if retryable && kind == ApiError then Some("retryable_api_error")
      else None
    case _ => None
  }

  function Max(a: int, b: int): int {
    if a < b then b else a
  }

  function MaxReal(a: real, b: real): real {
    if a < b then b else a
  }

  /** The failure is of a kind that is ever retried. */
  predicate Retryable(f: Failure) {
    match f
    case BudgetExhausted(bucket) => bucket != OtherBucket
    case _ => RetryCode(f).Some?
  }

  /** The limit that governs a failure. */
  function LimitOf(f: Failure, budgetLimit: int, transientLimit: int): int {
    if f.BudgetExhausted? then budgetLimit else transientLimit
  }

  /** The reply to call number `attempt` ends the loop: a success, a failure that is never retried,
      or a failure at or beyond the limit of its own kind. */
  predicate Ends(r: Reply, attempt: int, budgetLimit: int, transientLimit: int) {
    r.Bars? || !Retryable(r.failure) || attempt >= LimitOf(r.failure, budgetLimit, transientLimit)
  }

  /** The pause after a retried failure. */
  function Pause(f: Failure, attempt: int, budgetWait: real, transientBase: real): real {
    if f.BudgetExhausted? then budgetWait else MaxReal(0.1, transientBase) * attempt as real
  }

  /** Which reply ends the loop, failure by failure: an exhausted budget of another bucket than market
      data and global REST, or at the budget limit; a timeout, rate limit, temporary broker failure or
      retryable broker failure (5xx or API) at the transient limit; every other failure at once. */
  lemma EndsExactly(r: Reply, attempt: int, budgetLimit: int, transientLimit: int)
    ensures r.Bars? ==> Ends(r, attempt, budgetLimit, transientLimit)
    ensures r.Raises? ==>
              (Ends(r, attempt, budgetLimit, transientLimit) <==>
               match r.failure
               case BudgetExhausted(bucket) => (bucket != MarketData && bucket != GlobalRest) || attempt >= budgetLimit
               case AsyncTimeout => attempt >= transientLimit
               case BrokerFailure(kind, retryable, http5xx) =>
                 attempt >= transientLimit ||
                 !(kind in [RateLimit, TimeoutError, TemporaryBroker] || (retryable && (http5xx || kind == ApiError)))
               case OtherFailure(_) => true)
  {
  }

  /** How long is slept before the next call: the budget's wait, or the transient base, at least a
      tenth of a second, times the number of calls so far. */
  lemma PauseExactly(f: Failure, attempt: int, budgetWait: real, transientBase: real)
    ensures Pause(f, attempt, budgetWait, transientBase) ==
            if f.BudgetExhausted? then budgetWait
            else (if transientBase > 0.1 then transientBase else 0.1) * attempt as real
  {
  }

  /** Returns the first success or raises at the first failure that ends the loop, after at most
      max(limits) calls; the trailing `return []` is reached exactly when both limits are below one. */
  method FetchDailyBars(replies: nat -> Reply, budgetLimit: int, transientLimit: int, budgetWait: real, transientBase: real)
    returns (r: Outcome, calls: nat, pauses: seq<real>)
    ensures r == FellThrough <==> budgetLimit < 1 && transientLimit < 1
    ensures calls > 0 ==> calls <= budgetLimit || calls <= transientLimit
    ensures r == FellThrough ==> calls == 0
    ensures r != FellThrough ==>
              && 1 <= calls <= Max(budgetLimit, transientLimit)
              && Ends(replies(calls), calls, budgetLimit, transientLimit)
              && r == (if replies(calls).Bars? then Returned(replies(calls).count) else Raised(replies(calls).failure))
              && (forall k: nat :: 1 <= k < calls ==> !Ends(replies(k), k, budgetLimit, transientLimit))
    ensures r != FellThrough ==>
              |pauses| == calls - 1 &&
              forall k: nat :: 1 <= k < calls && replies(k).Raises? ==>
                pauses[k - 1] == Pause(replies(k).failure, k, budgetWait, transientBase)
  {
    var maxAttempts := Max(budgetLimit, transientLimit);
    calls, pauses := 0, [];
    var attempt := 1;
    while attempt <= maxAttempts
      invariant 1 <= attempt && attempt <= Max(1, maxAttempts)
      invariant calls == attempt - 1 && |pauses| == calls
      invariant forall k: nat :: 1 <= k < attempt ==> !Ends(replies(k), k, budgetLimit, transientLimit)
      invariant forall k: nat :: 1 <= k < attempt && replies(k).Raises? ==>
                  pauses[k - 1] == Pause(replies(k).failure, k, budgetWait, transientBase)
    {
      calls := calls + 1;
      match replies(attempt) {
        case Bars(n) => return Returned(n), calls, pauses;
        case Raises(f) =>
          if f.BudgetExhausted? {
            if f.bucket == OtherBucket || attempt >= budgetLimit { return Raised(f), calls, pauses; }
            pauses := pauses + [budgetWait];
          } else {
            if RetryCode(f).None? || attempt >= transientLimit { return Raised(f), calls, pauses; }
            pauses := pauses + [MaxReal(0.1, transientBase) * attempt as real];
          }
      }
      attempt := attempt + 1;
    }
    r := FellThrough;
  }
}

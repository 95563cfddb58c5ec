/** One quota-gated provider attempt and the two drivers that repeat it
    (scripts/fdc_manual_provider_gate.py).  The coordinator, the provider and the
    recording calls are an arbitrary environment, given as a finite script of replies;
    everything the drivers do is appended to a log. */
module FdcAttempt {
  import opened Outcomes

  /** An exception.  `Transport` stands for httpx transport errors, timeouts and DNS failures. */
  datatype Failure = HttpStatus(code: int) | Transport | PermitDenied | Other(tag: nat)

  predicate RetryableStatus(code: int) {
    code == 429 || 500 <= code < 600
  }

  predicate Retryable(f: Failure) {
    match f
    case HttpStatus(code) => RetryableStatus(code)
    case Transport => true
    case _ => false
  }

  /** The outcome strings written to `fdc_provider_attempts`. */
  datatype Outcome = HttpStarted | HttpSucceeded | HttpFailedRetryable | HttpFailedFinal | NotStarted

  /** Whether a recording call commits or raises. */
  datatype Write = Committed | Raises(failure: Failure)

  datatype PostResult = Response(body: nat) | Fails(failure: Failure)

  /** The provider client either fails while preparing the request, or reaches the start callback. */
  datatype Provider = FailsBeforeStart(failure: Failure) | Posts(result: PostResult)

  datatype AttemptEnv = AttemptEnv(provider: Provider, gateGrants: bool, startWrite: Write, endWrite: Write)

  datatype Reply = Denied | CoordinatorError | Granted(rid: nat, env: AttemptEnv)

  datatype Event =
    | Asked(attemptNo: int, reply: Reply)
    | Wrote(rid: nat, outcome: Outcome)
    | Posted(rid: nat)
    | Slept(seconds: real)

  /** `Retry` is the internal retryable marker carrying its cause, `Final` any other exception. */
  datatype AttemptResult = Success(body: nat) | Retry(cause: Failure) | Final(failure: Failure)

  datatype Attempted = Attempted(log: seq<Event>, result: AttemptResult)

  /** `Waiting` means that the script ended before the driver did. */
  datatype JobResult = Returned(body: nat) | Raised(failure: Failure) | QuotaUnavailable | AssertionFailed | Waiting

  datatype Run = Run(log: seq<Event>, result: JobResult, rest: seq<Reply>)

  datatype Pace = Pace(poll: real, initial: real, cap: real)

  // ---------------------------------------------------------------- specification

  /** Why the HTTP request never starts, if it does not. */
  function StartFailure(env: AttemptEnv, gated: bool): Option<Failure> {
    match env.provider
    case FailsBeforeStart(f) => Some(f)
    case Posts(_) =>
      if gated && !env.gateGrants then Some(PermitDenied)
      else if env.startWrite.Raises? then Some(env.startWrite.failure)
      else None
  }

  function TerminalOutcome(r: PostResult): Outcome {
    match r
    case Response(_) => HttpSucceeded
    case Fails(f) => if Retryable(f) then HttpFailedRetryable else HttpFailedFinal
  }

  function ResultOf(r: PostResult): AttemptResult {
    match r
    case Response(b) => Success(b)
    case Fails(f) => if Retryable(f) then Retry(f) else Final(f)
  }

  function EndRecord(rid: nat, o: Outcome, w: Write): seq<Event> {
    if w.Committed? then [Wrote(rid, o)] else []
  }

  function Attempt(rid: nat, env: AttemptEnv, gated: bool): Attempted {
    match StartFailure(env, gated)
    case Some(f) =>
      Attempted(EndRecord(rid, NotStarted, env.endWrite),
                if env.endWrite.Committed? then Retry(f) else Final(env.endWrite.failure))
    case None =>
      var r := env.provider.result;
      Attempted([Wrote(rid, HttpStarted), Posted(rid)] + EndRecord(rid, TerminalOutcome(r), env.endWrite),
                if env.endWrite.Committed? then ResultOf(r) else Final(env.endWrite.failure))
  }

  function JobResultOf(a: AttemptResult): JobResult {
    match a
    case Success(b) => Returned(b)
    case Retry(c) => Raised(c)
    case Final(f) => Raised(f)
  }

  function Then(log: seq<Event>, run: Run): Run {
    run.(log := log + run.log)
  }

  /** `call_with_coordinator` from attempt `n` on. */
  function Bounded(script: seq<Reply>, n: int, max: int): Run
    decreases |script|
  {
    if n > max then Run([], AssertionFailed, script)
    else if script == [] then Run([], Waiting, [])
    else
      var ask := [Asked(n, script[0])];
      match script[0]
      case Denied => Run(ask, QuotaUnavailable, script[1..])
      case CoordinatorError => Run(ask, QuotaUnavailable, script[1..])
      case Granted(rid, env) =>
        var a := Attempt(rid, env, false);
        if a.result.Retry? && n < max then Then(ask + a.log, Bounded(script[1..], n + 1, max))
        else Run(ask + a.log, JobResultOf(a.result), script[1..])
  }

  function Min(a: real, b: real): real {
    if b < a then b else a
  }

  /** Doubled up to the cap by a coordinator error, reset by a grant, kept by a denial. */
  function NextBackoff(pace: Pace, r: Reply, backoff: real): real {
    match r
    case Denied => backoff
    case CoordinatorError => Min(backoff * 2.0, pace.cap)
    case Granted(_, _) => pace.initial
  }

  /** What the dispatcher does about one reply after asking for it. */
  function Reaction(pace: Pace, r: Reply, backoff: real): seq<Event> {
    match r
    case Denied => [Slept(pace.poll)]
    case CoordinatorError => [Slept(backoff)]
    case Granted(rid, env) => Attempt(rid, env, false).log
  }

  /** The reply is a grant whose attempt ends the job. */
  predicate Stops(r: Reply, n: int, max: int) {
    r.Granted? && !(Attempt(r.rid, r.env, false).result.Retry? && n < max)
  }

  /** `run_real_dispatch_job` from attempt `n` on, with the current error backoff. */
  function Dispatch(script: seq<Reply>, n: int, max: int, pace: Pace, backoff: real): Run
    decreases |script|
  {
    if script == [] then Run([], Waiting, [])
    else
      var r, tail := script[0], script[1..];
      var step := [Asked(n, r)] + Reaction(pace, r, backoff);
      if Stops(r, n, max) then Run(step, JobResultOf(Attempt(r.rid, r.env, false).result), tail)
      else Then(step, Dispatch(tail, if r.Granted? then n + 1 else n, max, pace, NextBackoff(pace, r, backoff)))
  }

  lemma ThenThen(done: seq<Event>, step: seq<Event>, run: Run)
    ensures Then(done, Then(step, run)) == Then(done + step, run)
  {
  }

  /** A caller's connection to the coordinator, the provider and the clock. */
  class Desk {
    var script: seq<Reply>
    var log: seq<Event>
    var httpStarted: bool

    constructor (script: seq<Reply>)
      ensures this.script == script && log == [] && !httpStarted
    {
      this.script, log, httpStarted := script, [], false;
    }

    /** `record_attempt_outcome`. */
    method Record(rid: nat, o: Outcome, w: Write) returns (raised: Option<Failure>)
      modifies `log
      ensures log == old(log) + EndRecord(rid, o, w)
      ensures raised == if w.Raises? then Some(w.failure) else None
    {
      if w.Raises? { return Some(w.failure); }
      log := log + [Wrote(rid, o)];
      raised := None;
    }

    /** The `_on_http_start` callback: global gate first, then the start record, then the flag. */
    method OnHttpStart(rid: nat, env: AttemptEnv, gated: bool) returns (raised: Option<Failure>)
      requires env.provider.Posts?
      modifies `log, `httpStarted
      ensures raised == StartFailure(env, gated)
      ensures httpStarted == (old(httpStarted) || raised.None?)
      ensures log == old(log) + if raised.None? then [Wrote(rid, HttpStarted)] else []
    {
      if gated && !env.gateGrants { return Some(PermitDenied); }
      raised := Record(rid, HttpStarted, env.startWrite);
      if raised.None? { httpStarted := true; }
    }

    /** `generate_structured_once`: prepare, run the callback, and POST only if it returned. */
    method GenerateOnce(rid: nat, env: AttemptEnv, gated: bool) returns (r: PostResult)
      requires !httpStarted
      modifies `log, `httpStarted
      ensures httpStarted == StartFailure(env, gated).None?
      ensures r == if httpStarted then env.provider.result else Fails(StartFailure(env, gated).value)
      ensures log == old(log) + if httpStarted then [Wrote(rid, HttpStarted), Posted(rid)] else []
    {
      if env.provider.FailsBeforeStart? { return Fails(env.provider.failure); }
      var raised := OnHttpStart(rid, env, gated);
      if raised.Some? { return Fails(raised.value); }
      log := log + [Posted(rid)];
      r := env.provider.result;
    }

    /** `execute_fdc_one_shot_attempt`. */
    method ExecuteOneShot(rid: nat, env: AttemptEnv, gated: bool) returns (r: AttemptResult)
      modifies `log, `httpStarted
      ensures log == old(log) + Attempt(rid, env, gated).log
      ensures r == Attempt(rid, env, gated).result
    {
      httpStarted := false;
      var posted := GenerateOnce(rid, env, gated);
      var raised;
      match posted {
        case Fails(f) =>
          if !httpStarted {
            raised := Record(rid, NotStarted, env.endWrite);
            return if raised.Some? then Final(raised.value) else Retry(f);
          }
          var retryable := Retryable(f);
          raised := Record(rid, if retryable then HttpFailedRetryable else HttpFailedFinal, env.endWrite);
          r := if raised.Some? then Final(raised.value) else if retryable then Retry(f) else Final(f);
        case Response(b) =>
          raised := Record(rid, HttpSucceeded, env.endWrite);
          r := if raised.Some? then Final(raised.value) else Success(b);
      }
    }

    /** `PreGrantedFdcProviderClient.generate_structured`: one attempt, never retried here. */
    method GeneratePreGranted(rid: nat, env: AttemptEnv, gated: bool) returns (r: JobResult)
      modifies `log, `httpStarted
      ensures log == old(log) + Attempt(rid, env, gated).log
      ensures r == JobResultOf(Attempt(rid, env, gated).result)
    {
      var a := ExecuteOneShot(rid, env, gated);
      r := JobResultOf(a);
    }

    /** `coordinator.try_reserve`; None when the script has no further reply. */
    method TryReserve(attemptNo: int) returns (reply: Option<Reply>)
      modifies `script, `log
      ensures old(script) == [] ==> reply.None? && script == [] && log == old(log)
      ensures old(script) != [] ==>
                reply == Some(old(script)[0]) && script == old(script)[1..] &&
                log == old(log) + [Asked(attemptNo, old(script)[0])]
    {
      if script == [] { return None; }
      reply := Some(script[0]);
      log := log + [Asked(attemptNo, script[0])];
      script := script[1..];
    }

    method Sleep(seconds: real)
      modifies `log
      ensures log == old(log) + [Slept(seconds)]
    {
      log := log + [Slept(seconds)];
    }

    /** One turn of the bounded driver: it ends, or goes on with the next attempt. */
    method BoundedTurn(attemptNo: int, maxAttempts: int) returns (ended: bool, r: JobResult)
      requires attemptNo <= maxAttempts
      modifies this
      ensures Then(old(log), Bounded(old(script), attemptNo, maxAttempts)) ==
              if ended then Run(log, r, script) else Then(log, Bounded(script, attemptNo + 1, maxAttempts))
    {
      ended, r := true, Waiting;
      var reply := TryReserve(attemptNo);
      if reply.None? { return; }
      ghost var ask := [Asked(attemptNo, reply.value)];
      if !reply.value.Granted? {
        ThenThen(old(log), ask, Run([], QuotaUnavailable, script));
        return true, QuotaUnavailable;
      }
      var a := ExecuteOneShot(reply.value.rid, reply.value.env, false);
      ghost var step := Attempt(reply.value.rid, reply.value.env, false).log;
      ThenThen(old(log), ask + step, Bounded(script, attemptNo + 1, maxAttempts));
      assert log == old(log) + (ask + step);
      ended, r := !(a.Retry? && attemptNo < maxAttempts), JobResultOf(a);
    }

    method CallWithCoordinator(maxAttempts: int) returns (r: JobResult)
      modifies this
      ensures Run(log, r, script) == Then(old(log), Bounded(old(script), 1, maxAttempts))
    {
      var attemptNo, ended := 1, false;
      while attemptNo <= maxAttempts
        invariant Then(old(log), Bounded(old(script), 1, maxAttempts)) == Then(log, Bounded(script, attemptNo, maxAttempts))
      {
        ended, r := BoundedTurn(attemptNo, maxAttempts);
        if ended { return; }
        attemptNo := attemptNo + 1;
      }
      r := AssertionFailed;
    }

    /** One turn of the dispatcher: it ends, or goes on with these counters. */
    method DispatchTurn(attemptNo: int, max: int, pace: Pace, backoff: real)
      returns (ended: bool, r: JobResult, attemptNo': int, backoff': real)
      modifies this
      ensures !ended ==> |script| < |old(script)|
      ensures Then(old(log), Dispatch(old(script), attemptNo, max, pace, backoff)) ==
              if ended then Run(log, r, script) else Then(log, Dispatch(script, attemptNo', max, pace, backoff'))
    {
      ended, r, attemptNo', backoff' := false, Waiting, attemptNo, backoff;
      var reply := TryReserve(attemptNo);
      if reply.None? {
        ended := true;
        return;
      }
      match reply.value {
        case Denied =>
          Sleep(pace.poll);
        case CoordinatorError =>
          Sleep(backoff);
          backoff' := Min(backoff * 2.0, pace.cap);
        case Granted(rid, env) =>
          backoff' := pace.initial;
          var a := ExecuteOneShot(rid, env, false);
          ended, r := !(a.Retry? && attemptNo < max), JobResultOf(a);
          attemptNo' := attemptNo + 1;
      }
      ghost var step := [Asked(attemptNo, reply.value)] + Reaction(pace, reply.value, backoff);
      ThenThen(old(log), step, Dispatch(script, attemptNo', max, pace, backoff'));
      assert log == old(log) + step;
    }

    method RunRealDispatchJob(maxProviderAttempts: int, pace: Pace) returns (r: JobResult)
      modifies this
      ensures Run(log, r, script) == Then(old(log), Dispatch(old(script), 1, maxProviderAttempts, pace, pace.initial))
    {
      var backoff, attemptNo, ended := pace.initial, 1, false;
      while true
        invariant Then(old(log), Dispatch(old(script), 1, maxProviderAttempts, pace, pace.initial)) ==
                  Then(log, Dispatch(script, attemptNo, maxProviderAttempts, pace, backoff))
        decreases |script|
      {
        ended, r, attemptNo, backoff := DispatchTurn(attemptNo, maxProviderAttempts, pace, backoff);
        if ended { return; }
      }
    }
  }
}

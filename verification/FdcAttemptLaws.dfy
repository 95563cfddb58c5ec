/** What one attempt and a whole driver run come to, stated from what happened to the attempt alone:
    HTTP status codes, transport failures and failing records. */
module FdcAttemptLaws {
  import opened Outcomes
  import opened FdcAttempt
  import opened FdcDriverLaws

  // ---------------------------------------------------------------- one attempt

  /** The request left: it was prepared, the gate let it through and the start was recorded. */
  predicate Left(env: AttemptEnv, gated: bool) {
    env.provider.Posts? && (gated ==> env.gateGrants) && env.startWrite.Committed?
  }

  /** Too many requests (429), a server error (500 to 599) or a failed transport. */
  predicate Temporary(f: Failure) {
    f == Transport || f == HttpStatus(429) || (f.HttpStatus? && 500 <= f.code <= 599)
  }

  /** A POST that fails: retried, with its very failure and the record http_failed_retryable, if and
      only if the failure is temporary; raised, with http_failed_final, otherwise. */
  lemma FailedPostExactly(rid: nat, env: AttemptEnv, gated: bool, f: Failure)
    requires Left(env, gated) && env.provider.result == Fails(f) && env.endWrite.Committed?
    ensures var a := Attempt(rid, env, gated);
            && (a.result == Retry(f) <==> f == Transport || f == HttpStatus(429) || (f.HttpStatus? && 500 <= f.code <= 599))
            && (a.result == Retry(f) || a.result == Final(f))
            && a.log == [Wrote(rid, HttpStarted), Posted(rid),
                         Wrote(rid, if a.result == Retry(f) then HttpFailedRetryable else HttpFailedFinal)]
  {
  }

  /** A POST that is answered returns the answer. */
  lemma AnsweredPostExactly(rid: nat, env: AttemptEnv, gated: bool, body: nat)
    requires Left(env, gated) && env.provider.result == Response(body) && env.endWrite.Committed?
    ensures Attempt(rid, env, gated) ==
            Attempted([Wrote(rid, HttpStarted), Posted(rid), Wrote(rid, HttpSucceeded)], Success(body))
  {
  }

  /** Why a request did not leave: preparing it, else the gate, else the start record. */
  function WhyNot(env: AttemptEnv, gated: bool): Failure
    requires !Left(env, gated)
  {
    if env.provider.FailsBeforeStart? then env.provider.failure
    else if gated && !env.gateGrants then PermitDenied
    else env.startWrite.failure
  }

  /** A request that does not leave is never POSTed and always retried, whatever stopped it. */
  lemma UnsentExactly(rid: nat, env: AttemptEnv, gated: bool)
    requires !Left(env, gated) && env.endWrite.Committed?
    ensures Attempt(rid, env, gated) == Attempted([Wrote(rid, NotStarted)], Retry(WhyNot(env, gated)))
  {
  }

  /** A closing record that fails ends the job with that failure, and only the start stays recorded. */
  lemma UnclosedExactly(rid: nat, env: AttemptEnv, gated: bool)
    requires env.endWrite.Raises?
    ensures Attempt(rid, env, gated) ==
            Attempted(if Left(env, gated) then [Wrote(rid, HttpStarted), Posted(rid)] else [], Final(env.endWrite.failure))
  {
  }

  // ---------------------------------------------------------------- the drivers

  /** The attempt asks for another one. */
  predicate TriesAgain(env: AttemptEnv) {
    env.endWrite.Committed? && (Left(env, false) ==> env.provider.result.Fails? && Temporary(env.provider.result.failure))
  }

  /** What a job is given if it ends with this attempt. */
  function EndsWith(env: AttemptEnv): JobResult {
    if env.endWrite.Raises? then Raised(env.endWrite.failure)
    else if !Left(env, false) then Raised(WhyNot(env, false))
    else match env.provider.result
      case Response(body) => Returned(body)
      case Fails(f) => Raised(f)
  }

  lemma AttemptMeans(rid: nat, env: AttemptEnv)
    ensures var a := Attempt(rid, env, false);
            (a.result.Retry? <==> TriesAgain(env)) && JobResultOf(a.result) == EndsWith(env)
  {
    if env.endWrite.Raises? { UnclosedExactly(rid, env, false); }
    else if !Left(env, false) { UnsentExactly(rid, env, false); }
    else if env.provider.result.Response? { AnsweredPostExactly(rid, env, false, env.provider.result.body); }
    else { FailedPostExactly(rid, env, false, env.provider.result.failure); }
  }

  ghost predicate EndsAt(result: JobResult, used: seq<Reply>, max: int)
    requires AllGrants(used)
  {
    && |used| <= max && (forall i :: 0 <= i < |used| - 1 ==> TriesAgain(used[i].env))
    && (if result == Waiting then |used| < max && forall i :: 0 <= i < |used| ==> TriesAgain(used[i].env)
        else used != [] && result == EndsWith(used[|used| - 1].env) && (|used| == max || !TriesAgain(used[|used| - 1].env)))
  }

  /** The bounded driver on grants: it goes on exactly while attempts try again and fewer than the
      limit are used, and ends with the answer or the failure of its last attempt. */
  lemma BoundedEndsAt(grants: seq<Reply>, max: int) returns (used: seq<Reply>)
    requires AllGrants(grants) && max >= 1
    ensures AllGrants(used) && used + Bounded(grants, 1, max).rest == grants
    ensures EndsAt(Bounded(grants, 1, max).result, used, max)
  {
    var k := BoundedUsesPrefix(grants, 1, max);
    used := grants[..k];
    assert forall i :: 0 <= i < k ==> used[i] == grants[i];
    forall i | 0 <= i < k
      ensures used[i].Granted? && (ResultAt(grants, i).Retry? <==> TriesAgain(used[i].env))
      ensures JobResultOf(ResultAt(grants, i)) == EndsWith(used[i].env)
    {
      AttemptMeans(grants[i].rid, grants[i].env);
    }
  }

  /** The dispatcher, on every script: it uses the grants in order, goes on exactly while attempts try
      again and fewer than the limit are used, and ends with the answer or the failure of its last. */
  lemma DispatchEndsAt(script: seq<Reply>, max: int, pace: Pace) returns (used: seq<Reply>)
    requires max >= 1
    ensures var d := Dispatch(script, 1, max, pace, pace.initial);
            && AllGrants(used) && used + GrantsOnly(d.rest) == GrantsOnly(script)
            && EndsAt(d.result, used, max)
  {
    GrantsOnlyAreGrants(script);
    used := BoundedEndsAt(GrantsOnly(script), max);
    DispatchRefinesBoundedFrom(script, 1, max, pace, pace.initial);
  }

  /** The bounded driver gives up at the first reply that is not a grant. */
  lemma BoundedGivesUp(script: seq<Reply>, n: int, max: int)
    requires script != [] && !script[0].Granted? && n <= max
    ensures Bounded(script, n, max) == Run([Asked(n, script[0])], QuotaUnavailable, script[1..])
  {
  }

  /** A temporary failure with attempts left uses the next grant, under the next attempt number. */
  lemma TemporaryFailureUsesNextGrant(script: seq<Reply>, n: int, max: int, pace: Pace, backoff: real)
    requires |script| >= 2 && script[0].Granted? && script[1].Granted? && n < max
    requires var e := script[0].env;
             Left(e, false) && e.endWrite.Committed? && e.provider.result.Fails? && Temporary(e.provider.result.failure)
    ensures var rid, log := script[0].rid, Dispatch(script, n, max, pace, backoff).log;
            |log| >= 5 && log[..5] == [Asked(n, script[0]), Wrote(rid, HttpStarted), Posted(rid),
                                       Wrote(rid, HttpFailedRetryable), Asked(n + 1, script[1])]
  {
    var rid, env, tail := script[0].rid, script[0].env, script[1..];
    FailedPostExactly(rid, env, false, env.provider.result.failure);
    var next := Dispatch(tail, n + 1, max, pace, pace.initial);
    assert next.log[0] == Asked(n + 1, script[1]);
    assert Dispatch(script, n, max, pace, backoff).log == [Asked(n, script[0])] + Attempt(rid, env, false).log + next.log;
  }

  /** In numbers: a 503 uses the next grant, a 404 ends the job. */
  lemma ServerErrorIsRetriedNotFoundIsNot(rid: nat)
    ensures Attempt(rid, AttemptEnv(Posts(Fails(HttpStatus(503))), true, Committed, Committed), false).result == Retry(HttpStatus(503))
    ensures Attempt(rid, AttemptEnv(Posts(Fails(HttpStatus(404))), true, Committed, Committed), false).result == Final(HttpStatus(404))
  {
  }
}

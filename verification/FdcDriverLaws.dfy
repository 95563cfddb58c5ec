/** Laws of the two drivers: the dispatcher is a stuttering refinement of the bounded
    driver, attempts are numbered by grants alone, the backoff is a closed form, every
    reservation's record history has one of the documented shapes, and the dispatcher
    finishes on every fair stream of replies. */
module FdcDriverLaws {
  import opened Outcomes
  import opened FdcAttempt

  // ---------------------------------------------------------------- observations

  function Keep(log: seq<Event>, p: Event -> bool): seq<Event> {
    if log == [] then [] else (if p(log[0]) then [log[0]] else []) + Keep(log[1..], p)
  }

  /** The events that both drivers share: no sleeps and no unsuccessful reserve calls. */
  predicate Shared(e: Event) {
    !e.Slept? && !(e.Asked? && !e.reply.Granted?)
  }

  predicate IsSleep(e: Event) { e.Slept? }

  predicate IsAsk(e: Event) { e.Asked? }

  /** The records of one reservation. */
  function RecordOf(rid: nat): Event -> bool {
    (e: Event) => e.Wrote? && e.rid == rid
  }

  function GrantsOnly(script: seq<Reply>): seq<Reply> {
    if script == [] then [] else (if script[0].Granted? then [script[0]] else []) + GrantsOnly(script[1..])
  }

  /** The part of the script that a run read. */
  function Consumed(script: seq<Reply>, run: Run): seq<Reply>
    requires |run.rest| <= |script|
  {
    script[..|script| - |run.rest|]
  }

  lemma {:induction false} KeepConcat(a: seq<Event>, b: seq<Event>, p: Event -> bool)
    ensures Keep(a + b, p) == Keep(a, p) + Keep(b, p)
  {
    if a == [] {
      assert a + b == b;
    } else {
      var first := if p(a[0]) then [a[0]] else [];
      assert (a + b)[0] == a[0] && (a + b)[1..] == a[1..] + b;
      KeepConcat(a[1..], b, p);
      assert first + (Keep(a[1..], p) + Keep(b, p)) == (first + Keep(a[1..], p)) + Keep(b, p);
    }
  }

  lemma {:induction false} KeepAll(log: seq<Event>, p: Event -> bool)
    requires forall e :: e in log ==> p(e)
    ensures Keep(log, p) == log
  {
    if log != [] { assert log[0] in log; KeepAll(log[1..], p); }
  }

  lemma {:induction false} KeepNone(log: seq<Event>, p: Event -> bool)
    requires forall e :: e in log ==> !p(e)
    ensures Keep(log, p) == []
  {
    if log != [] { assert log[0] in log; KeepNone(log[1..], p); }
  }

  /** One dispatcher step followed by the rest of a run, observed. */
  lemma StepObserved(pace: Pace, n: int, r: Reply, backoff: real, log: seq<Event>)
    ensures var step := [Asked(n, r)] + Reaction(pace, r, backoff);
            && Keep(step + log, Shared) == (if r.Granted? then step else []) + Keep(log, Shared)
            && Keep(step + log, IsSleep) == (if r.Granted? then [] else Reaction(pace, r, backoff)) + Keep(log, IsSleep)
            && Keep(step + log, IsAsk) == [Asked(n, r)] + Keep(log, IsAsk)
  {
    var ask, react := [Asked(n, r)], Reaction(pace, r, backoff);
    if r.Granted? { AttemptEvents(r.rid, r.env, false); }
    KeepConcat(ask + react, log, Shared);
    if r.Granted? { KeepAll(ask + react, Shared); } else { KeepNone(ask + react, Shared); }
    KeepConcat(ask + react, log, IsSleep);
    KeepSplit(ask, react, IsSleep, !r.Granted?);
    KeepConcat(ask + react, log, IsAsk);
    KeepConcat(ask, react, IsAsk);
    KeepAll(ask, IsAsk);
    KeepNone(react, IsAsk);
  }

  /** Nothing of `a` and all or nothing of `b` is kept. */
  lemma KeepSplit(a: seq<Event>, b: seq<Event>, p: Event -> bool, all: bool)
    requires (forall e :: e in a ==> !p(e)) && forall e :: e in b ==> p(e) == all
    ensures Keep(a + b, p) == if all then b else []
  {
    KeepConcat(a, b, p);
    KeepNone(a, p);
    if all { KeepAll(b, p); } else { KeepNone(b, p); }
  }

  lemma AttemptEvents(rid: nat, env: AttemptEnv, gated: bool)
    ensures forall e :: e in Attempt(rid, env, gated).log ==> e == Posted(rid) || (e.Wrote? && e.rid == rid)
  {
  }

  // ---------------------------------------------------------------- stuttering refinement

  lemma {:induction false} DispatchRefinesBoundedFrom(script: seq<Reply>, n: int, max: int, pace: Pace, backoff: real)
    requires n <= max
    ensures var d := Dispatch(script, n, max, pace, backoff);
            var b := Bounded(GrantsOnly(script), n, max);
            Keep(d.log, Shared) == b.log && d.result == b.result && GrantsOnly(d.rest) == b.rest
    decreases |script|
  {
    if script != [] {
      var r, tail := script[0], script[1..];
      if r.Granted? { assert GrantsOnly(script)[1..] == GrantsOnly(tail); }
      else { assert GrantsOnly(script) == GrantsOnly(tail); }
      if Stops(r, n, max) {
        StepObserved(pace, n, r, backoff, []);
        assert [Asked(n, r)] + Reaction(pace, r, backoff) + [] == [Asked(n, r)] + Reaction(pace, r, backoff);
      } else {
        var n', next := if r.Granted? then n + 1 else n, NextBackoff(pace, r, backoff);
        DispatchRefinesBoundedFrom(tail, n', max, pace, next);
        StepObserved(pace, n, r, backoff, Dispatch(tail, n', max, pace, next).log);
      }
    }
  }

  /** For every script, the dispatcher shows exactly the grants, attempt numbers, records, POSTs
      and result of the bounded driver on the script without denials and coordinator errors, if
      and only if the attempt limit is at least one. */
  lemma DispatchRefinesBounded(script: seq<Reply>, max: int, pace: Pace)
    ensures var d := Dispatch(script, 1, max, pace, pace.initial);
            var b := Bounded(GrantsOnly(script), 1, max);
            (Keep(d.log, Shared) == b.log && d.result == b.result && GrantsOnly(d.rest) == b.rest) <==> max >= 1
  {
    if max >= 1 {
      DispatchRefinesBoundedFrom(script, 1, max, pace, pace.initial);
    } else {
      NeverGivesUp(script, 1, max, pace, pace.initial);
    }
  }

  /** The dispatcher checks its limit only after an attempt: a limit that is already reached, or was
      never above zero, still allows one. */
  lemma {:induction false} LimitAllowsOne(script: seq<Reply>, n: int, max: int, pace: Pace, backoff: real)
    requires max <= n
    ensures Dispatch(script, n, max, pace, backoff) == Dispatch(script, n, n, pace, backoff)
    decreases |script|
  {
    if script != [] && !script[0].Granted? {
      LimitAllowsOne(script[1..], n, max, pace, NextBackoff(pace, script[0], backoff));
    }
  }

  /** The dispatcher never reports an unavailable quota and never reaches the bounded driver's assertion. */
  lemma {:induction false} NeverGivesUp(script: seq<Reply>, n: int, max: int, pace: Pace, backoff: real)
    ensures var r := Dispatch(script, n, max, pace, backoff).result;
            r != AssertionFailed && r != QuotaUnavailable
    decreases |script|
  {
    if script != [] {
      var r := script[0];
      NeverGivesUp(script[1..], if r.Granted? then n + 1 else n, max, pace, NextBackoff(pace, r, backoff));
    }
  }

  // ---------------------------------------------------------------- which grants are used, and how

  predicate AllGrants(script: seq<Reply>) {
    forall i :: 0 <= i < |script| ==> script[i].Granted?
  }

  /** The log of using `grants` one after the other, each once, numbered from `n`. */
  function AttemptLogs(grants: seq<Reply>, n: int): seq<Event>
    requires AllGrants(grants)
  {
    if grants == [] then []
    else [Asked(n, grants[0])] + Attempt(grants[0].rid, grants[0].env, false).log + AttemptLogs(grants[1..], n + 1)
  }

  function ResultAt(grants: seq<Reply>, i: nat): AttemptResult
    requires i < |grants| && AllGrants(grants)
  {
    Attempt(grants[i].rid, grants[i].env, false).result
  }

  lemma {:induction false} GrantsOnlyAreGrants(script: seq<Reply>)
    ensures AllGrants(GrantsOnly(script))
  {
    if script != [] { GrantsOnlyAreGrants(script[1..]); }
  }

  /** `b` used the first `k` grants: each once, in order, all but the last asking for a retry; it
      stopped at the first attempt that did not, or at the limit, with that attempt's result. */
  ghost predicate UsedPrefix(b: Run, grants: seq<Reply>, k: nat, n: int, max: int)
    requires AllGrants(grants)
  {
    && k <= |grants| && b.rest == grants[k..]
    && k <= max - n + 1
    && b.log == AttemptLogs(grants[..k], n)
    && (forall i :: 0 <= i < k - 1 ==> ResultAt(grants, i).Retry?)
    && (if b.result == Waiting
        then k == |grants| && k < max - n + 1 && (k > 0 ==> ResultAt(grants, k - 1).Retry?)
        else k > 0 && b.result == JobResultOf(ResultAt(grants, k - 1))
             && (k == max - n + 1 || !ResultAt(grants, k - 1).Retry?))
  }

  lemma {:induction false} BoundedUsesPrefix(grants: seq<Reply>, n: int, max: int) returns (k: nat)
    requires AllGrants(grants) && n <= max
    ensures UsedPrefix(Bounded(grants, n, max), grants, k, n, max)
    decreases |grants|
  {
    k := 0;
    if grants == [] {
    } else {
      var tail, g := grants[1..], grants[0];
      if ResultAt(grants, 0).Retry? && n < max {
        var k' := BoundedUsesPrefix(tail, n + 1, max);
        k := k' + 1;
        assert grants[..k][1..] == tail[..k'];
        assert grants[k..] == tail[k'..];
        assert forall i :: 0 < i < |grants| ==> ResultAt(grants, i) == ResultAt(tail, i - 1);
      } else {
        k := 1;
        assert AttemptLogs(grants[..1], n) ==
               [Asked(n, g)] + Attempt(g.rid, g.env, false).log + AttemptLogs(grants[..1][1..], n + 1);
      }
    }
  }

  // ---------------------------------------------------------------- attempt numbers

  function CountGrants(script: seq<Reply>): nat {
    if script == [] then 0 else (if script[0].Granted? then 1 else 0) + CountGrants(script[1..])
  }

  /** The reserve call at position `i` carries attempt number `n` plus the grants before it. */
  ghost predicate NumberedByGrants(asks: seq<Event>, consumed: seq<Reply>, n: int) {
    && |asks| == |consumed|
    && forall i :: 0 <= i < |asks| ==> asks[i] == Asked(n + CountGrants(consumed[..i]), consumed[i])
  }

  lemma NumberedStep(asks: seq<Event>, consumed: seq<Reply>, n: int, first: Reply)
    requires NumberedByGrants(asks, consumed, if first.Granted? then n + 1 else n)
    ensures NumberedByGrants([Asked(n, first)] + asks, [first] + consumed, n)
  {
    var whole := [first] + consumed;
    forall i | 0 < i <= |asks|
      ensures CountGrants(whole[..i]) == (if first.Granted? then 1 else 0) + CountGrants(consumed[..i - 1])
    {
      assert whole[..i][1..] == consumed[..i - 1];
    }
  }

  ghost predicate Counted(script: seq<Reply>, d: Run, n: int, max: int) {
    && |d.rest| <= |script| && d.rest == script[|script| - |d.rest|..]
    && var used := Consumed(script, d);
    && NumberedByGrants(Keep(d.log, IsAsk), used, n)
    && CountGrants(used) <= max - n + 1
    && (d.result == Waiting ==> d.rest == [])
    && (d.result != Waiting ==> used != [] && used[|used| - 1].Granted?)
  }

  lemma ConsumedStep(script: seq<Reply>, d: Run, t: Run)
    requires script != [] && d.rest == t.rest && |t.rest| < |script|
    requires t.rest == script[1..][|script[1..]| - |t.rest|..]
    ensures d.rest == script[|script| - |d.rest|..]
    ensures Consumed(script, d) == [script[0]] + Consumed(script[1..], t)
  {
  }

  lemma CountedStep(script: seq<Reply>, d: Run, t: Run, n: int, max: int)
    requires script != [] && d.rest == t.rest && d.result == t.result
    requires Keep(d.log, IsAsk) == [Asked(n, script[0])] + Keep(t.log, IsAsk)
    requires Counted(script[1..], t, if script[0].Granted? then n + 1 else n, max)
    ensures Counted(script, d, n, max)
  {
    var used := Consumed(script[1..], t);
    ConsumedStep(script, d, t);
    assert ([script[0]] + used)[1..] == used;
    NumberedStep(Keep(t.log, IsAsk), used, n, script[0]);
  }

  /** Denials and coordinator errors never advance the attempt number and never end the job;
      at most `max` grants are consumed; a job that has not finished has read the whole script. */
  lemma {:induction false} DispatchCountsGrants(script: seq<Reply>, n: int, max: int, pace: Pace, backoff: real)
    requires n <= max
    ensures Counted(script, Dispatch(script, n, max, pace, backoff), n, max)
    decreases |script|
  {
    if script != [] {
      var r, tail := script[0], script[1..];
      var d := Dispatch(script, n, max, pace, backoff);
      if Stops(r, n, max) {
        StepObserved(pace, n, r, backoff, []);
        assert d.log + [] == d.log;
        assert Consumed(script, d) == [r];
      } else {
        var n', next := if r.Granted? then n + 1 else n, NextBackoff(pace, r, backoff);
        DispatchCountsGrants(tail, n', max, pace, next);
        var t := Dispatch(tail, n', max, pace, next);
        StepObserved(pace, n, r, backoff, t.log);
        CountedStep(script, d, t, n, max);
      }
    }
  }

  // ---------------------------------------------------------------- backoff

  function Pow2(k: nat): int {
    if k == 0 then 1 else 2 * Pow2(k - 1)
  }

  /** initial * 2^k */
  function Scaled(pace: Pace, k: nat): real {
    pace.initial * Pow2(k) as real
  }

  /** The wait for the k-th coordinator error since the last grant. */
  function BackoffAt(pace: Pace, k: nat): real {
    if k == 0 then pace.initial else Min(Scaled(pace, k), pace.cap)
  }

  /** Coordinator errors since the last grant, read backwards. */
  function ErrorsSinceGrant(history: seq<Reply>): nat {
    if history == [] then 0
    else
      var before := history[..|history| - 1];
      match history[|history| - 1]
      case Granted(_, _) => 0
      case CoordinatorError => ErrorsSinceGrant(before) + 1
      case Denied => ErrorsSinceGrant(before)
  }

  /** The wait that the last reply of a history causes, from the history before it alone. */
  function WaitFor(pace: Pace, before: seq<Reply>, reply: Reply): seq<Event> {
    match reply
    case Granted(_, _) => []
    case CoordinatorError => [Slept(BackoffAt(pace, ErrorsSinceGrant(before)))]
    case Denied => [Slept(pace.poll)]
  }

  /** The waits that `replies` cause after `history`. */
  function ExpectedSleeps(pace: Pace, history: seq<Reply>, replies: seq<Reply>): seq<Event>
    decreases |replies|
  {
    if replies == [] then []
    else WaitFor(pace, history, replies[0]) + ExpectedSleeps(pace, history + [replies[0]], replies[1..])
  }

  lemma {:induction false} Pow2Positive(k: nat)
    ensures Pow2(k) >= 1
  {
    if k > 0 { Pow2Positive(k - 1); }
  }

  lemma BackoffDoubles(pace: Pace, k: nat)
    requires pace.initial >= 0.0 && pace.cap >= 0.0
    ensures BackoffAt(pace, k + 1) == Min(BackoffAt(pace, k) * 2.0, pace.cap)
  {
    var x := pace.initial * Pow2(k) as real;
    assert Pow2(k + 1) as real == 2.0 * Pow2(k) as real;
    assert pace.initial * Pow2(k + 1) as real == 2.0 * x;
    if k == 0 {
      assert Pow2(1) == 2 && BackoffAt(pace, 1) == Min(pace.initial * 2.0, pace.cap);
    } else {
      Pow2Positive(k);
      assert BackoffAt(pace, k) == Min(x, pace.cap);
    }
  }

  lemma ErrorsSnoc(history: seq<Reply>, r: Reply)
    ensures ErrorsSinceGrant(history + [r]) ==
            match r
            case Granted(_, _) => 0
            case CoordinatorError => ErrorsSinceGrant(history) + 1
            case Denied => ErrorsSinceGrant(history)
  {
    var longer := history + [r];
    assert longer[..|longer| - 1] == history;
  }

  lemma {:induction false} SleepsFollowHistory(
    script: seq<Reply>, n: int, max: int, pace: Pace, backoff: real, history: seq<Reply>)
    requires pace.initial >= 0.0 && pace.cap >= 0.0
    requires backoff == BackoffAt(pace, ErrorsSinceGrant(history))
    ensures var d := Dispatch(script, n, max, pace, backoff);
            |d.rest| <= |script| && Keep(d.log, IsSleep) == ExpectedSleeps(pace, history, Consumed(script, d))
    decreases |script|
  {
    if script != [] {
      var r, tail := script[0], script[1..];
      var d := Dispatch(script, n, max, pace, backoff);
      ErrorsSnoc(history, r);
      if Stops(r, n, max) {
        StepObserved(pace, n, r, backoff, []);
        assert d.log + [] == d.log;
        assert Consumed(script, d) == [r];
        assert ExpectedSleeps(pace, history, [r]) == WaitFor(pace, history, r) + ExpectedSleeps(pace, history + [r], [r][1..]);
      } else {
        var n', next := if r.Granted? then n + 1 else n, NextBackoff(pace, r, backoff);
        if r.CoordinatorError? { BackoffDoubles(pace, ErrorsSinceGrant(history)); }
        SleepsFollowHistory(tail, n', max, pace, next, history + [r]);
        var t := Dispatch(tail, n', max, pace, next);
        StepObserved(pace, n, r, backoff, t.log);
        assert Consumed(script, d)[1..] == Consumed(tail, t);
      }
    }
  }

  /** The waits with min(initial * 2^k, cap) for the k-th error since the last grant, k = 0 included. */
  function CappedSleeps(pace: Pace, history: seq<Reply>, replies: seq<Reply>): seq<Event>
    decreases |replies|
  {
    if replies == [] then []
    else CappedWait(pace, history, replies[0]) + CappedSleeps(pace, history + [replies[0]], replies[1..])
  }

  function CappedWait(pace: Pace, before: seq<Reply>, reply: Reply): seq<Event> {
    match reply
    case Granted(_, _) => []
    case CoordinatorError => [Slept(Min(Scaled(pace, ErrorsSinceGrant(before)), pace.cap))]
    case Denied => [Slept(pace.poll)]
  }

  lemma FirstWait(pace: Pace)
    ensures Scaled(pace, 0) == pace.initial
  {
    assert Pow2(0) as real == 1.0;
  }

  lemma WaitAgrees(pace: Pace, history: seq<Reply>, reply: Reply)
    requires pace.initial <= pace.cap || !reply.CoordinatorError?
    ensures WaitFor(pace, history, reply) == CappedWait(pace, history, reply)
  {
    if ErrorsSinceGrant(history) == 0 { FirstWait(pace); }
  }

  lemma {:induction false} CappedAgrees(pace: Pace, history: seq<Reply>, replies: seq<Reply>)
    requires pace.initial <= pace.cap || CoordinatorError !in replies
    ensures ExpectedSleeps(pace, history, replies) == CappedSleeps(pace, history, replies)
    decreases |replies|
  {
    if replies != [] {
      assert replies[0] in replies;
      WaitAgrees(pace, history, replies[0]);
      CappedAgrees(pace, history + [replies[0]], replies[1..]);
    }
  }

  lemma {:induction false} CappedDiffers(pace: Pace, history: seq<Reply>, replies: seq<Reply>)
    requires pace.initial > pace.cap && CoordinatorError in replies && ErrorsSinceGrant(history) == 0
    ensures ExpectedSleeps(pace, history, replies) != CappedSleeps(pace, history, replies)
    decreases |replies|
  {
    if replies[0].CoordinatorError? {
      FirstWait(pace);
      assert ExpectedSleeps(pace, history, replies)[0] != CappedSleeps(pace, history, replies)[0];
    } else {
      ErrorsSnoc(history, replies[0]);
      CappedDiffers(pace, history + [replies[0]], replies[1..]);
      var wait := WaitFor(pace, history, replies[0]);
      assert ExpectedSleeps(pace, history, replies)[|wait|..] == ExpectedSleeps(pace, history + [replies[0]], replies[1..]);
      assert CappedSleeps(pace, history, replies)[|wait|..] == CappedSleeps(pace, history + [replies[0]], replies[1..]);
    }
  }

  /** Every sleep of a dispatcher run, in order: the poll interval for a denial, and BackoffAt(k)
      for the k-th coordinator error since the last grant, whatever denials lie between.  These are the
      waits min(initial * 2^k, cap) if and only if `initial <= cap` or no coordinator error was read. */
  lemma DispatchSleeps(script: seq<Reply>, max: int, pace: Pace)
    requires pace.initial >= 0.0 && pace.cap >= 0.0
    ensures var d := Dispatch(script, 1, max, pace, pace.initial);
            && |d.rest| <= |script| && Keep(d.log, IsSleep) == ExpectedSleeps(pace, [], Consumed(script, d))
            && (Keep(d.log, IsSleep) == CappedSleeps(pace, [], Consumed(script, d)) <==>
                pace.initial <= pace.cap || CoordinatorError !in Consumed(script, d))
  {
    SleepsFollowHistory(script, 1, max, pace, pace.initial, []);
    var used := Consumed(script, Dispatch(script, 1, max, pace, pace.initial));
    if pace.initial <= pace.cap || CoordinatorError !in used { CappedAgrees(pace, [], used); }
    else { CappedDiffers(pace, [], used); }
  }

  // ---------------------------------------------------------------- a reset on denials as well

  /** Coordinator errors since the last grant or denial, read backwards. */
  function ErrorsSinceAnswer(history: seq<Reply>): nat {
    if history == [] then 0
    else if history[|history| - 1].CoordinatorError? then ErrorsSinceAnswer(history[..|history| - 1]) + 1
    else 0
  }

  function AnswerWait(pace: Pace, before: seq<Reply>, reply: Reply): seq<Event> {
    match reply
    case Granted(_, _) => []
    case CoordinatorError => [Slept(BackoffAt(pace, ErrorsSinceAnswer(before)))]
    case Denied => [Slept(pace.poll)]
  }

  /** The waits if every normal answer, grant or denial, reset the backoff. */
  function AnswerResetSleeps(pace: Pace, history: seq<Reply>, replies: seq<Reply>): seq<Event>
    decreases |replies|
  {
    if replies == [] then []
    else AnswerWait(pace, history, replies[0]) + AnswerResetSleeps(pace, history + [replies[0]], replies[1..])
  }

  /** The history ends in an error, a later denial, and no grant since the error. */
  ghost predicate Interrupted(history: seq<Reply>) {
    exists a, b :: 0 <= a < b < |history| && history[a].CoordinatorError? && history[b].Denied? && NoGrantFrom(history, a)
  }

  predicate NoGrantFrom(history: seq<Reply>, a: nat) {
    forall i :: a <= i < |history| ==> !history[i].Granted?
  }

  /** Some error is read after an error and a denial, with no grant between. */
  ghost predicate ErrorAfterInterruption(replies: seq<Reply>) {
    exists c :: 0 <= c < |replies| && replies[c].CoordinatorError? && Interrupted(replies[..c])
  }

  /** Some error has no grant after it. */
  ghost predicate OpenError(history: seq<Reply>) {
    exists a :: 0 <= a < |history| && history[a].CoordinatorError? && NoGrantFrom(history, a)
  }

  lemma AnswerSnoc(history: seq<Reply>, r: Reply)
    ensures ErrorsSinceAnswer(history + [r]) == if r.CoordinatorError? then ErrorsSinceAnswer(history) + 1 else 0
  {
    assert (history + [r])[..|history|] == history;
  }

  lemma {:induction false} ErrorsMeanOpenError(history: seq<Reply>)
    ensures ErrorsSinceGrant(history) > 0 <==> OpenError(history)
    decreases |history|
  {
    if history != [] {
      var before, n := history[..|history| - 1], |history|;
      ErrorsMeanOpenError(before);
      if a :| 0 <= a < |before| && before[a].CoordinatorError? && NoGrantFrom(before, a) {
        if !history[n - 1].Granted? { assert history[a].CoordinatorError? && NoGrantFrom(history, a); }
      }
      if history[n - 1].CoordinatorError? { assert NoGrantFrom(history, n - 1); }
      if a :| 0 <= a < |history| && history[a].CoordinatorError? && NoGrantFrom(history, a) {
        if a < n - 1 { assert before[a].CoordinatorError? && NoGrantFrom(before, a); }
      }
    }
  }

  /** The two counts differ exactly in an interrupted history. */
  lemma {:induction false} CountsDifferIff(history: seq<Reply>)
    ensures ErrorsSinceGrant(history) != ErrorsSinceAnswer(history) <==> Interrupted(history)
    ensures ErrorsSinceAnswer(history) <= ErrorsSinceGrant(history)
    decreases |history|
  {
    if history != [] {
      var before, last := history[..|history| - 1], history[|history| - 1];
      CountsDifferIff(before);
      ErrorsMeanOpenError(before);
      assert history == before + [last];
      InterruptedSnoc(before, last);
    }
  }

  lemma InterruptedSnoc(before: seq<Reply>, last: Reply)
    ensures Interrupted(before + [last]) <==> !last.Granted? && (Interrupted(before) || (last.Denied? && OpenError(before)))
  {
    var history := before + [last];
    if Interrupted(history) {
      var a, b :| 0 <= a < b < |history| && history[a].CoordinatorError? && history[b].Denied? && NoGrantFrom(history, a);
      assert !history[|before|].Granted?;
      forall i | a <= i < |before| ensures !before[i].Granted? { assert history[i] == before[i]; }
      assert before[a].CoordinatorError? && NoGrantFrom(before, a);
      if b < |before| { assert before[b].Denied?; }
    }
    if !last.Granted? && Interrupted(before) {
      var a, b :| 0 <= a < b < |before| && before[a].CoordinatorError? && before[b].Denied? && NoGrantFrom(before, a);
      assert history[a].CoordinatorError? && history[b].Denied? && NoGrantFrom(history, a);
    }
    if last.Denied? && OpenError(before) {
      var a :| 0 <= a < |before| && before[a].CoordinatorError? && NoGrantFrom(before, a);
      assert history[a].CoordinatorError? && history[|before|].Denied? && NoGrantFrom(history, a);
    }
  }

  /** The first wait and a later one are equal exactly when the backoff does not move at all. */
  lemma BackoffMoves(pace: Pace, k: nat)
    requires pace.initial >= 0.0 && pace.cap >= 0.0
    ensures pace.initial == 0.0 || pace.initial == pace.cap ==> BackoffAt(pace, k) == pace.initial
    ensures k > 0 && BackoffAt(pace, k) == pace.initial ==> pace.initial == 0.0 || pace.initial == pace.cap
  {
    if k > 0 {
      Pow2Positive(k - 1);
      var p := Pow2(k - 1) as real;
      assert Scaled(pace, k) == pace.initial * (2.0 * p);
      ScaledGrows(pace.initial, 2.0 * p);
    }
  }

  lemma ScaledGrows(x: real, m: real)
    requires x >= 0.0 && m >= 2.0
    ensures x * m >= x && (x > 0.0 ==> x * m > x) && (x == 0.0 ==> x * m == 0.0)
  {
    assert x * m - x == x * (m - 1.0);
  }

  ghost predicate AgreesAt(history: seq<Reply>, replies: seq<Reply>, c: nat)
    requires c < |replies|
  {
    replies[c].CoordinatorError? ==> !Interrupted(history + replies[..c])
  }

  lemma {:induction false} ResetsAgree(pace: Pace, history: seq<Reply>, replies: seq<Reply>)
    requires pace.initial >= 0.0 && pace.cap >= 0.0
    requires pace.initial == 0.0 || pace.initial == pace.cap || forall c :: 0 <= c < |replies| ==> AgreesAt(history, replies, c)
    ensures ExpectedSleeps(pace, history, replies) == AnswerResetSleeps(pace, history, replies)
    decreases |replies|
  {
    if replies != [] {
      var r, tail := replies[0], replies[1..];
      if pace.initial == 0.0 || pace.initial == pace.cap {
        BackoffMoves(pace, ErrorsSinceGrant(history));
        BackoffMoves(pace, ErrorsSinceAnswer(history));
      } else {
        assert AgreesAt(history, replies, 0) && history + replies[..0] == history;
        CountsDifferIff(history);
        forall c | 0 <= c < |tail| ensures AgreesAt(history + [r], tail, c) {
          assert AgreesAt(history, replies, c + 1) && replies[..c + 1] == [r] + tail[..c];
          assert history + ([r] + tail[..c]) == (history + [r]) + tail[..c];
        }
      }
      assert WaitFor(pace, history, r) == AnswerWait(pace, history, r);
      ResetsAgree(pace, history + [r], tail);
    }
  }

  lemma {:induction false} ResetsDiffer(pace: Pace, history: seq<Reply>, replies: seq<Reply>, c: nat)
    requires pace.initial >= 0.0 && pace.cap >= 0.0 && pace.initial != 0.0 && pace.initial != pace.cap
    requires c < |replies| && !AgreesAt(history, replies, c)
    requires ErrorsSinceAnswer(history) == ErrorsSinceGrant(history) || ErrorsSinceAnswer(history) == 0
    ensures ExpectedSleeps(pace, history, replies) != AnswerResetSleeps(pace, history, replies)
    decreases |replies|
  {
    var r, tail := replies[0], replies[1..];
    CountsDifferIff(history);
    if r.CoordinatorError? && Interrupted(history) {
      BackoffMoves(pace, ErrorsSinceGrant(history));
      assert ExpectedSleeps(pace, history, replies)[0] != AnswerResetSleeps(pace, history, replies)[0];
    } else {
      assert history + replies[..0] == history;
      assert c > 0 && replies[..c] == [r] + tail[..c - 1];
      assert history + ([r] + tail[..c - 1]) == (history + [r]) + tail[..c - 1];
      ErrorsSnoc(history, r);
      AnswerSnoc(history, r);
      ResetsDiffer(pace, history + [r], tail, c - 1);
      var wait := WaitFor(pace, history, r);
      assert wait == AnswerWait(pace, history, r);
      assert ExpectedSleeps(pace, history, replies)[|wait|..] == ExpectedSleeps(pace, history + [r], tail);
      assert AnswerResetSleeps(pace, history, replies)[|wait|..] == AnswerResetSleeps(pace, history + [r], tail);
    }
  }

  /** The dispatcher sleeps as if every grant or denial reset the backoff if and only if the backoff
      never moves, or it reads no error after an error and a denial with no grant between. */
  lemma SleepsResetOnDenialIff(script: seq<Reply>, max: int, pace: Pace)
    requires pace.initial >= 0.0 && pace.cap >= 0.0
    ensures var d := Dispatch(script, 1, max, pace, pace.initial);
            && |d.rest| <= |script|
            && (Keep(d.log, IsSleep) == AnswerResetSleeps(pace, [], Consumed(script, d)) <==>
                pace.initial == 0.0 || pace.initial == pace.cap || !ErrorAfterInterruption(Consumed(script, d)))
  {
    DispatchSleeps(script, max, pace);
    var used := Consumed(script, Dispatch(script, 1, max, pace, pace.initial));
    forall c | 0 <= c < |used| ensures [] + used[..c] == used[..c] { }
    if pace.initial == 0.0 || pace.initial == pace.cap || !ErrorAfterInterruption(used) {
      ResetsAgree(pace, [], used);
    } else {
      var c :| 0 <= c < |used| && used[c].CoordinatorError? && Interrupted(used[..c]);
      ResetsDiffer(pace, [], used, c);
    }
  }

  /** Concretely: error, denial, error sleeps 1, the poll interval and 2 seconds, not 1 again. */
  lemma DenialDoesNotReset(pace: Pace) returns (script: seq<Reply>)
    requires pace.initial == 1.0 && pace.cap == 8.0
    ensures var d := Dispatch(script, 1, 3, pace, pace.initial);
            && d.rest == [] && Keep(d.log, IsSleep) == [Slept(1.0), Slept(pace.poll), Slept(2.0)]
            && Keep(d.log, IsSleep) != AnswerResetSleeps(pace, [], script)
  {
    script := [CoordinatorError, Denied, CoordinatorError];
    var d := Dispatch(script, 1, 3, pace, 1.0);
    assert script[1..] == [Denied, CoordinatorError] && script[1..][1..] == [CoordinatorError];
    assert d.log == [Asked(1, CoordinatorError), Slept(1.0)] + ([Asked(1, Denied), Slept(pace.poll)] + ([Asked(1, CoordinatorError), Slept(2.0)] + []));
    SleepsOf(d.log, pace.poll);
    SleepsResetOnDenialIff(script, 3, pace);
    assert Consumed(script, d) == script;
    assert Interrupted(script[..2]) by {
      assert script[..2][0].CoordinatorError? && script[..2][1].Denied? && NoGrantFrom(script[..2], 0);
    }
  }

  lemma SleepsOf(log: seq<Event>, poll: real)
    requires log == [Asked(1, CoordinatorError), Slept(1.0), Asked(1, Denied), Slept(poll), Asked(1, CoordinatorError), Slept(2.0)]
    ensures Keep(log, IsSleep) == [Slept(1.0), Slept(poll), Slept(2.0)]
  {
    KeepConcat(log[..2], log[2..], IsSleep);
    KeepConcat(log[2..4], log[4..], IsSleep);
    assert log[..2] + log[2..] == log && log[2..4] + log[4..] == log[2..];
    OneSleep(log[..2]);
    OneSleep(log[2..4]);
    OneSleep(log[4..]);
  }

  lemma OneSleep(log: seq<Event>)
    requires |log| == 2 && !log[0].Slept? && log[1].Slept?
    ensures Keep(log, IsSleep) == [log[1]]
  {
    assert log == [log[0]] + [log[1]];
    KeepSplit([log[0]], [log[1]], IsSleep, true);
  }

  // ---------------------------------------------------------------- record histories

  function HistoryOf(log: seq<Event>, rid: nat): seq<Event> {
    Keep(log, RecordOf(rid))
  }

  predicate CompleteHistory(h: seq<Event>, rid: nat) {
    || h == [Wrote(rid, NotStarted)]
    || h == [Wrote(rid, HttpStarted), Wrote(rid, HttpSucceeded)]
    || h == [Wrote(rid, HttpStarted), Wrote(rid, HttpFailedRetryable)]
    || h == [Wrote(rid, HttpStarted), Wrote(rid, HttpFailedFinal)]
  }

  /** The records of one attempt. */
  lemma AttemptRecords(rid: nat, env: AttemptEnv, gated: bool)
    ensures HistoryOf(Attempt(rid, env, gated).log, rid) ==
            if StartFailure(env, gated).Some? then EndRecord(rid, NotStarted, env.endWrite)
            else [Wrote(rid, HttpStarted)] + EndRecord(rid, TerminalOutcome(env.provider.result), env.endWrite)
  {
    var a, p := Attempt(rid, env, gated), RecordOf(rid);
    if StartFailure(env, gated).Some? {
      KeepAll(a.log, p);
    } else {
      var end := EndRecord(rid, TerminalOutcome(env.provider.result), env.endWrite);
      assert a.log == [Wrote(rid, HttpStarted)] + [Posted(rid)] + end;
      KeepConcat([Wrote(rid, HttpStarted)] + [Posted(rid)], end, p);
      KeepConcat([Wrote(rid, HttpStarted)], [Posted(rid)], p);
      KeepAll([Wrote(rid, HttpStarted)], p);
      KeepNone([Posted(rid)], p);
      KeepAll(end, p);
    }
  }

  /** One attempt's records: complete exactly when its last recording call commits, otherwise a
      proper prefix; the POST happens exactly when the start record is there; the last record tells
      the result apart. */
  lemma AttemptHistory(rid: nat, env: AttemptEnv, gated: bool)
    ensures var a := Attempt(rid, env, gated);
            var h := HistoryOf(a.log, rid);
            && (env.endWrite.Committed? <==> CompleteHistory(h, rid))
            && (env.endWrite.Raises? ==>
                  (h == [] || h == [Wrote(rid, HttpStarted)]) && a.result == Final(env.endWrite.failure))
            && (Posted(rid) in a.log <==> h != [] && h[0] == Wrote(rid, HttpStarted))
            && (a.result.Success? <==> h == [Wrote(rid, HttpStarted), Wrote(rid, HttpSucceeded)])
            && (a.result.Retry? <==>
                  h == [Wrote(rid, NotStarted)] || h == [Wrote(rid, HttpStarted), Wrote(rid, HttpFailedRetryable)])
  {
    AttemptRecords(rid, env, gated);
  }

  predicate DistinctGrants(script: seq<Reply>) {
    forall i, j :: 0 <= i < j < |script| && script[i].Granted? && script[j].Granted? ==> script[i].rid != script[j].rid
  }

  lemma {:induction false} UnusedHasNoHistory(grants: seq<Reply>, n: int, rid: nat)
    requires AllGrants(grants)
    requires forall i :: 0 <= i < |grants| ==> grants[i].rid != rid
    ensures HistoryOf(AttemptLogs(grants, n), rid) == []
    decreases |grants|
  {
    if grants != [] {
      var g := grants[0];
      var step := [Asked(n, g)] + Attempt(g.rid, g.env, false).log;
      AttemptEvents(g.rid, g.env, false);
      KeepNone(step, RecordOf(rid));
      KeepConcat(step, AttemptLogs(grants[1..], n + 1), RecordOf(rid));
      UnusedHasNoHistory(grants[1..], n + 1, rid);
    }
  }

  lemma {:induction false} UsedHasOneHistory(grants: seq<Reply>, n: int, i: nat)
    requires AllGrants(grants) && DistinctGrants(grants) && i < |grants|
    ensures var g := grants[i];
            HistoryOf(AttemptLogs(grants, n), g.rid) == HistoryOf(Attempt(g.rid, g.env, false).log, g.rid)
    decreases |grants|
  {
    var g, rid, tail := grants[0], grants[i].rid, grants[1..];
    FirstHistory(grants, n, rid);
    if i == 0 {
      UnusedHasNoHistory(tail, n + 1, rid);
    } else {
      AttemptEvents(g.rid, g.env, false);
      assert g.rid != rid;
      KeepNone(Attempt(g.rid, g.env, false).log, RecordOf(rid));
      UsedHasOneHistory(tail, n + 1, i - 1);
    }
  }

  lemma FirstHistory(grants: seq<Reply>, n: int, rid: nat)
    requires AllGrants(grants) && grants != []
    ensures HistoryOf(AttemptLogs(grants, n), rid)
         == HistoryOf(Attempt(grants[0].rid, grants[0].env, false).log, rid) + HistoryOf(AttemptLogs(grants[1..], n + 1), rid)
  {
    var g, p := grants[0], RecordOf(rid);
    var log := Attempt(g.rid, g.env, false).log;
    KeepConcat([Asked(n, g)] + log, AttemptLogs(grants[1..], n + 1), p);
    KeepConcat([Asked(n, g)], log, p);
    KeepNone([Asked(n, g)], p);
  }

  lemma {:induction false} GrantsOnlyDistinct(script: seq<Reply>)
    requires DistinctGrants(script)
    ensures DistinctGrants(GrantsOnly(script))
    ensures forall g :: g in GrantsOnly(script) ==> g in script
  {
    if script != [] {
      GrantsOnlyDistinct(script[1..]);
      var g := GrantsOnly(script[1..]);
      if script[0].Granted? {
        forall j | 0 <= j < |g| && g[j].Granted? ensures g[j].rid != script[0].rid {
          assert g[j] in script[1..];
          var k :| 0 <= k < |script[1..]| && script[1..][k] == g[j];
          assert script[k + 1] == g[j];
        }
      }
    }
  }

  lemma {:induction false} HistoryOfShared(log: seq<Event>, rid: nat)
    ensures HistoryOf(Keep(log, Shared), rid) == HistoryOf(log, rid)
  {
    if log != [] {
      HistoryOfShared(log[1..], rid);
      KeepConcat(if Shared(log[0]) then [log[0]] else [], Keep(log[1..], Shared), RecordOf(rid));
    }
  }

  /** In every dispatcher run over distinct reservations, each used reservation has exactly the
      history of its own single attempt (so one of the shapes of AttemptHistory), and every other
      reservation has none: a retry never reuses an earlier grant. */
  lemma DispatchHistories(script: seq<Reply>, max: int, pace: Pace) returns (used: seq<Reply>)
    requires DistinctGrants(script)
    ensures var d := Dispatch(script, 1, max, pace, pace.initial);
            && AllGrants(used) && used + GrantsOnly(d.rest) == GrantsOnly(script)
            && (forall i :: 0 <= i < |used| ==>
                  HistoryOf(d.log, used[i].rid) == HistoryOf(Attempt(used[i].rid, used[i].env, false).log, used[i].rid))
            && (forall rid: nat :: (forall i :: 0 <= i < |used| ==> used[i].rid != rid) ==> HistoryOf(d.log, rid) == [])
  {
    var limit := if max < 1 then 1 else max;
    if max < 1 { LimitAllowsOne(script, 1, max, pace, pace.initial); }
    used := UsedGrants(script, limit, pace);
    var log := Dispatch(script, 1, max, pace, pace.initial).log;
    forall i | 0 <= i < |used|
      ensures HistoryOf(log, used[i].rid) == HistoryOf(Attempt(used[i].rid, used[i].env, false).log, used[i].rid)
    {
      HistoryOfShared(log, used[i].rid);
      UsedHasOneHistory(used, 1, i);
    }
    forall rid: nat | forall i :: 0 <= i < |used| ==> used[i].rid != rid ensures HistoryOf(log, rid) == [] {
      HistoryOfShared(log, rid);
      UnusedHasNoHistory(used, 1, rid);
    }
  }

  /** The grants that a run uses, and what of its log is shared with the bounded driver. */
  lemma UsedGrants(script: seq<Reply>, max: int, pace: Pace) returns (used: seq<Reply>)
    requires DistinctGrants(script) && max >= 1
    ensures AllGrants(used) && DistinctGrants(used)
    ensures var d := Dispatch(script, 1, max, pace, pace.initial);
            used + GrantsOnly(d.rest) == GrantsOnly(script) && Keep(d.log, Shared) == AttemptLogs(used, 1)
  {
    var grants := GrantsOnly(script);
    GrantsOnlyAreGrants(script);
    GrantsOnlyDistinct(script);
    var k := BoundedUsesPrefix(grants, 1, max);
    PrefixOfGrants(grants, k);
    used := grants[..k];
    DispatchRefinesBoundedFrom(script, 1, max, pace, pace.initial);
  }

  lemma PrefixOfGrants(grants: seq<Reply>, k: nat)
    requires AllGrants(grants) && DistinctGrants(grants) && k <= |grants|
    ensures AllGrants(grants[..k]) && DistinctGrants(grants[..k]) && grants[..k] + grants[k..] == grants
  {
  }

  // ---------------------------------------------------------------- termination on fair streams

  function Window(stream: nat -> Reply, start: nat, len: nat): seq<Reply> {
    seq(len, i requires 0 <= i => stream(start + i))
  }

  predicate GrantAt(stream: nat -> Reply, j: nat) {
    stream(j).Granted?
  }

  ghost predicate GrantFrom(stream: nat -> Reply, i: nat) {
    exists j: nat :: i <= j && GrantAt(stream, j)
  }

  /** Finitely many non-grant replies between grants. */
  ghost predicate Fair(stream: nat -> Reply) {
    forall i: nat :: GrantFrom(stream, i)
  }

  /** The measure is lexicographic: attempts left, then replies before the next grant. */
  lemma DecidesFrom(stream: nat -> Reply, start: nat, gap: nat, n: int, max: int, pace: Pace, backoff: real)
    returns (len: nat)
    requires Fair(stream) && GrantAt(stream, start + gap)
    ensures Dispatch(Window(stream, start, len), n, max, pace, backoff).result != Waiting
    decreases if n < max then max - n else 0, gap
  {
    var first := stream(start);
    if Stops(first, n, max) {
      len := 1;
    } else {
      var rest: nat;
      if first.Granted? {
        assert GrantFrom(stream, start + 1);
        var j: nat :| start + 1 <= j && GrantAt(stream, j);
        rest := DecidesFrom(stream, start + 1, j - start - 1, n + 1, max, pace, pace.initial);
      } else {
        assert gap > 0;
        rest := DecidesFrom(stream, start + 1, gap - 1, n, max, pace, NextBackoff(pace, first, backoff));
      }
      len := rest + 1;
      assert Window(stream, start, len)[1..] == Window(stream, start + 1, rest);
    }
  }

  /** On every fair stream of replies the dispatcher finishes after finitely many of them. */
  lemma DispatchTerminates(stream: nat -> Reply, max: int, pace: Pace)
    requires Fair(stream)
    ensures exists len: nat :: Dispatch(Window(stream, 0, len), 1, max, pace, pace.initial).result != Waiting
  {
    assert GrantFrom(stream, 0);
    var j: nat :| 0 <= j && GrantAt(stream, j);
    var len := DecidesFrom(stream, 0, j, 1, max, pace, pace.initial);
  }
}

/** A dispatcher in front of the real ledger: exactly when it can ever get a grant, and what follows
    when it is started again for a job that already has attempts. */
module FdcRestart {
  import opened Outcomes
  import opened FdcAttempt
  import opened FdcDriverLaws
  import opened FdcQuota

  /** One reservation call of the dispatcher and the transactions of others before it. */
  datatype Turn = Turn(others: seq<Op>, ask: Op)

  /** The job a dispatcher works for and the quota settings of its coordinator. */
  datatype Client = Client(job: nat, rpm: int, window: int)

  predicate AsksFor(ask: Op, c: Client, n: int) {
    ask.Reserve? && ask.job == Some(c.job) && ask.rpm == c.rpm && ask.window == c.window && ask.attemptNo == n
  }

  /** The ledger produces these replies to a dispatcher that is at attempt `n`. */
  ghost predicate Produces(l: Ledger, c: Client, n: int, script: seq<Reply>, turns: seq<Turn>)
    decreases |script|
  {
    && |turns| == |script|
    && (script != [] ==>
          var before, ask := RunOps(l, turns[0].others), turns[0].ask;
          && AsksFor(ask, c, n)
          && (script[0].Granted? <==> AnswerTo(before, ask).Grant?)
          && (script[0].Denied? <==> AnswerTo(before, ask).Denial?)
          && Produces(Step(before, ask), c, if script[0].Granted? then n + 1 else n, script[1..], turns[1..]))
  }

  // ---------------------------------------------------------------- when no grant is possible

  predicate Spent(l: Ledger, job: nat, n: int) {
    exists r :: r in l.attempts && l.attempts[r].job == Some(job) && l.attempts[r].attemptNo == n
  }

  /** The attempt number is taken, the anchor row is missing, or the quota is below one. */
  predicate Hopeless(l: Ledger, c: Client, n: int) {
    Spent(l, c.job, n) || !l.anchored || c.rpm < 1
  }

  lemma {:induction false} AnchorStays(l: Ledger, ops: seq<Op>)
    ensures RunOps(l, ops).anchored == l.anchored
    decreases |ops|
  {
    if ops != [] { AnchorStays(Step(l, ops[0]), ops[1..]); }
  }

  lemma HopelessStays(l: Ledger, ops: seq<Op>, c: Client, n: int)
    requires Hopeless(l, c, n)
    ensures Hopeless(RunOps(l, ops), c, n)
  {
    AnchorStays(l, ops);
    if Spent(l, c.job, n) {
      var r :| r in l.attempts && l.attempts[r].job == Some(c.job) && l.attempts[r].attemptNo == n;
      RowsEvolve(l, ops, r);
    }
  }

  lemma OneStepRun(l: Ledger, op: Op)
    ensures RunOps(l, [op]) == Step(l, op)
  {
    assert RunOps(Step(l, op), [op][1..]) == Step(l, op);
  }

  /** No reply is a grant, whatever the others do. */
  lemma {:induction false} NoGrantEver(l: Ledger, c: Client, n: int, script: seq<Reply>, turns: seq<Turn>)
    requires Hopeless(l, c, n) && Produces(l, c, n, script, turns)
    ensures GrantsOnly(script) == []
    decreases |script|
  {
    if script != [] {
      var before, ask := RunOps(l, turns[0].others), turns[0].ask;
      HopelessStays(l, turns[0].others, c, n);
      assert !AnswerTo(before, ask).Grant?;
      OneStepRun(before, ask);
      HopelessStays(before, [ask], c, n);
      NoGrantEver(Step(before, ask), c, n, script[1..], turns[1..]);
    }
  }

  // ---------------------------------------------------------------- when a grant is possible

  /** The others end these jobs and change nothing else. */
  lemma {:induction false} OthersFinish(l: Ledger, todo: set<nat>) returns (ops: seq<Op>)
    requires todo <= l.jobs.Keys
    ensures var l' := RunOps(l, ops);
            && l'.attempts == l.attempts && l'.anchored == l.anchored && l'.jobs.Keys == l.jobs.Keys
            && (forall j :: j in todo ==> l'.jobs[j].status == Ended)
            && (forall j :: j in l.jobs && j !in todo ==> l'.jobs[j] == l.jobs[j])
    decreases todo
  {
    if todo == {} {
      ops := [];
    } else {
      var j :| j in todo;
      var rest := OthersFinish(Step(l, Finish(j)), todo - {j});
      ops := [Finish(j)] + rest;
      assert ops[1..] == rest;
    }
  }

  /** The others can clear the queue and register the job. */
  lemma OthersMakeWay(l: Ledger, job: nat) returns (ops: seq<Op>)
    ensures var l' := RunOps(l, ops);
            && l'.attempts == l.attempts && l'.anchored == l.anchored && job in l'.jobs && !EarlierQueued(l', Some(job))
  {
    var start := Step(l, Register(job, 0));
    var rest := OthersFinish(start, start.jobs.Keys);
    ops := [Register(job, 0)] + rest;
    assert ops[1..] == rest;
  }

  /** A time no row is later than, and an id no row has. */
  lemma {:induction false} Beyond(times: map<nat, int>, keys: set<nat>) returns (time: int, id: nat)
    requires keys <= times.Keys
    ensures forall r :: r in keys ==> times[r] <= time && r < id
    decreases keys
  {
    if keys == {} {
      time, id := 0, 0;
    } else {
      var k: nat :| k in keys;
      time, id := Beyond(times, keys - {k});
      var t := times[k];
      if t > time { time := t; }
      if k >= id { id := k + 1; }
    }
  }

  /** An ask that the ledger grants once the others have made way. */
  lemma GrantIsPossible(l: Ledger, c: Client, n: int) returns (t: Turn)
    requires !Hopeless(l, c, n)
    ensures AsksFor(t.ask, c, n) && AnswerTo(RunOps(l, t.others), t.ask).Grant?
  {
    var ops := OthersMakeWay(l, c.job);
    var l' := RunOps(l, ops);
    var times := ReservedTimes(l');
    var time, id := Beyond(times, times.Keys);
    var ask := Reserve(time + c.window * MICROS, c.rpm, c.window, id, Some(c.job), n, false);
    assert Recent(times, time) == {};
    assert times.Keys == l'.attempts.Keys && id !in times;
    assert !Spent(l', c.job, n);
    assert !InsertRejected(l', id, Some(c.job), n);
    t := Turn(ops, ask);
  }

  // ---------------------------------------------------------------- the exact condition

  /** The dispatcher has read everything and done nothing but ask and sleep. */
  ghost predicate OnlyPolls(d: Run) {
    d.result == Waiting && d.rest == [] && forall e :: e in d.log ==> e.Asked? || e.Slept?
  }

  lemma {:induction false} WithoutGrantsPolls(script: seq<Reply>, n: int, max: int, pace: Pace, backoff: real)
    requires GrantsOnly(script) == []
    ensures OnlyPolls(Dispatch(script, n, max, pace, backoff))
    decreases |script|
  {
    if script != [] {
      WithoutGrantsPolls(script[1..], n, max, pace, NextBackoff(pace, script[0], backoff));
    }
  }

  ghost predicate NeverGranted(l: Ledger, c: Client, n: int) {
    forall script, turns :: Produces(l, c, n, script, turns) ==> GrantsOnly(script) == []
  }

  ghost predicate PollsForever(l: Ledger, c: Client, n: int, max: int, pace: Pace, backoff: real) {
    forall script, turns :: Produces(l, c, n, script, turns) ==> OnlyPolls(Dispatch(script, n, max, pace, backoff))
  }

  /** A dispatcher at attempt `n` can never get a grant, whatever the others do and for as long as it
      polls, if and only if its attempt number is taken, the anchor row is missing or its quota is below
      one; and exactly then it only ever asks and sleeps: no record, no POST, no end. */
  lemma PollsForeverIffHopeless(l: Ledger, c: Client, n: int, max: int, pace: Pace, backoff: real)
    ensures NeverGranted(l, c, n) <==> Hopeless(l, c, n)
    ensures PollsForever(l, c, n, max, pace, backoff) <==> Hopeless(l, c, n)
  {
    if Hopeless(l, c, n) {
      forall script, turns | Produces(l, c, n, script, turns)
        ensures GrantsOnly(script) == [] && OnlyPolls(Dispatch(script, n, max, pace, backoff))
      {
        NoGrantEver(l, c, n, script, turns);
        WithoutGrantsPolls(script, n, max, pace, backoff);
      }
    } else {
      var t := GrantIsPossible(l, c, n);
      var grant := Granted(t.ask.id, AttemptEnv(Posts(Response(0)), true, Committed, Committed));
      assert Produces(l, c, n, [grant], [t]);
      assert GrantsOnly([grant])[0] == grant;
      assert Dispatch([grant], n, max, pace, backoff).result == Returned(0);
    }
  }

  /** Every grant the ledger gives to a job makes its attempt number taken. */
  lemma GrantSpends(l: Ledger, ask: Op)
    requires ask.Reserve? && ask.job.Some? && AnswerTo(l, ask).Grant?
    ensures Spent(Step(l, ask), ask.job.value, ask.attemptNo)
  {
    assert Step(l, ask).attempts[ask.id].job == ask.job;
  }

  /** So a dispatcher that got its first grant and is started again, at attempt 1, for the same job
      polls forever, whatever happened in between and whatever happens later. */
  lemma RestartedDispatcherWaitsForever(l: Ledger, ask: Op, between: seq<Op>, c: Client, max: int, pace: Pace)
    requires ask.Reserve? && ask.job == Some(c.job) && ask.attemptNo == 1 && AnswerTo(l, ask).Grant?
    ensures PollsForever(RunOps(Step(l, ask), between), c, 1, max, pace, pace.initial)
  {
    GrantSpends(l, ask);
    HopelessStays(Step(l, ask), between, c, 1);
    PollsForeverIffHopeless(RunOps(Step(l, ask), between), c, 1, max, pace, pace.initial);
  }

  /** Concretely, from an empty ledger: a job is registered and granted its first attempt; before that
      a dispatcher for it could finish, afterwards one started again cannot. */
  lemma RestartRun(max: int, pace: Pace) returns (l: Ledger, ops: seq<Op>, c: Client)
    ensures Empty(l) && !PollsForever(l, c, 1, max, pace, pace.initial)
    ensures PollsForever(RunOps(l, ops), c, 1, max, pace, pace.initial)
  {
    l, c := Ledger(true, map[], map[], true, map[]), Client(0, 13, 60);
    var ask := Reserve(0, 13, 60, 0, Some(0), 1, false);
    var l1 := Step(l, Register(0, 0));
    assert Recent(ReservedTimes(l1), -60 * MICROS) == {};
    assert AnswerTo(l1, ask) == Grant;
    ops := [Register(0, 0), ask];
    assert ops[1..] == [ask];
    OneStepRun(l1, ask);
    assert RunOps(l, ops) == RunOps(l1, ops[1..]) == Step(l1, ask);
    GrantSpends(l1, ask);
    PollsForeverIffHopeless(l, c, 1, max, pace, pace.initial);
    PollsForeverIffHopeless(Step(l1, ask), c, 1, max, pace, pace.initial);
  }
}

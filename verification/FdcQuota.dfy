/** The shared quota ledger (repositories/postgres/fdc_quota.py), the coordinator
    (services/fdc_quota_coordinator.py) and the global HTTP-start gate
    (services/fdc_provider_global_gate.py) for one quota scope.  Each transaction is one
    atomic step, because it holds the anchor row from its first read to its commit.  The
    time of a step is `now()`, the start of its transaction: it may lie before the times of
    rows already inserted, since a transaction can start early and wait for the anchor. */
module FdcQuota {
  import opened Outcomes
  import opened FdcAttempt

  const MICROS := 1_000_000

  const MIN_TARGET_RPM := 1
  const MAX_TARGET_RPM := 13
  const REQUIRED_WINDOW_SECONDS := 60

  /** `outcome` is None while the row still says reservation_granted; every value of it consumes quota. */
  datatype AttemptRow = AttemptRow(
    reservedAt: int, job: Option<nat>, attemptNo: int, outcome: Option<Outcome>, httpStartedAt: Option<int>)

  datatype JobStatus = Queued | ReservationGranted | Ended

  datatype Job = Job(sequence: int, status: JobStatus, polls: nat, denials: nat, permits: nat)

  datatype Ledger = Ledger(
    anchored: bool, attempts: map<nat, AttemptRow>, jobs: map<nat, Job>,
    gateAnchored: bool, gate: map<nat, int>)

  datatype Answer = Grant | Denial(windowCount: nat) | Error

  /** One transaction.  `id` is the generated uuid, `fails` a database error. */
  datatype Op =
    | Reserve(now: int, rpm: int, window: int, id: nat, job: Option<nat>, attemptNo: int, fails: bool)
    | RecordOutcome(id: nat, outcome: Outcome, at: int)
    | Register(jobId: nat, sequence: int)
    | Requeue(jobId: nat, sequence: int)
    | Finish(jobId: nat)
    | AcquireGate(now: int, rpm: int, window: int, id: nat, fails: bool)

  // ---------------------------------------------------------------- sliding windows

  /** Rows later than `since`, with no upper limit: what the window query counts. */
  function Recent(times: map<nat, int>, since: int): set<nat> {
    set r | r in times && times[r] > since
  }

  /** Rows inside the half-open window of `length` that ends at `end`. */
  function InWindow(times: map<nat, int>, length: int, end: int): set<nat> {
    set r | r in times && end - length < times[r] <= end
  }

  ghost predicate Capped(times: map<nat, int>, length: int, limit: int) {
    forall end: int :: |InWindow(times, length, end)| <= limit
  }

  lemma SubsetSize(a: set<nat>, b: set<nat>)
    requires a <= b
    ensures |a| <= |b|
  {
    assert b == a + (b - a);
  }

  /** Inserting a row at `now` keeps every window capped if fewer than `limit` rows are later than
      `now - window`, for whatever `now` is and whatever rows already lie after it. */
  lemma InsertKeepsCap(times: map<nat, int>, id: nat, now: int, window: int, length: int, limit: int)
    requires id !in times && length <= window && Capped(times, length, limit)
    requires |Recent(times, now - window)| < limit
    ensures Capped(times[id := now], length, limit)
  {
    var after := times[id := now];
    forall end: int ensures |InWindow(after, length, end)| <= limit {
      var old' := InWindow(times, length, end);
      if end - length < now <= end {
        assert InWindow(after, length, end) == old' + {id};
        SubsetSize(old', Recent(times, now - window));
      } else {
        assert InWindow(after, length, end) == old';
      }
    }
  }

  // ---------------------------------------------------------------- transactions

  function ReservedTimes(l: Ledger): map<nat, int> {
    map r | r in l.attempts :: l.attempts[r].reservedAt
  }

  /** Some real job that is still queued is ahead of `job`. */
  predicate EarlierQueued(l: Ledger, job: Option<nat>) {
    job.Some? && job.value in l.jobs &&
    exists j :: j in l.jobs && l.jobs[j].status == Queued && l.jobs[j].sequence < l.jobs[job.value].sequence
  }

  /** The insert violates the primary key, the foreign key or the (job, attempt number) index. */
  predicate InsertRejected(l: Ledger, id: nat, job: Option<nat>, attemptNo: int) {
    || id in l.attempts
    || (job.Some? && job.value !in l.jobs)
    || (job.Some? && exists r :: r in l.attempts && l.attempts[r].job == job && l.attempts[r].attemptNo == attemptNo)
  }

  function CountDenial(l: Ledger, job: Option<nat>): Ledger {
    if job.Some? && job.value in l.jobs then
      var j := l.jobs[job.value];
      l.(jobs := l.jobs[job.value := j.(polls := j.polls + 1, denials := j.denials + 1)])
    else l
  }

  function CountPermit(l: Ledger, job: Option<nat>): Ledger {
    if job.Some? && job.value in l.jobs then
      var j := l.jobs[job.value];
      l.(jobs := l.jobs[job.value := j.(polls := j.polls + 1, permits := j.permits + 1, status := ReservationGranted)])
    else l
  }

  function AnswerTo(l: Ledger, op: Op): Answer {
    match op
    case Reserve(now, rpm, window, id, job, attemptNo, fails) =>
      if fails || !l.anchored then Error
      else
        var count := |Recent(ReservedTimes(l), now - window * MICROS)|;
        if count >= rpm || EarlierQueued(l, job) then Denial(count)
        else if InsertRejected(l, id, job, attemptNo) then Error
        else Grant
    case AcquireGate(now, rpm, window, id, fails) =>
      if !(MIN_TARGET_RPM <= rpm <= MAX_TARGET_RPM) || window != REQUIRED_WINDOW_SECONDS then Error
      else if fails || !l.gateAnchored then Error
      else
        var count := |Recent(l.gate, now - window * MICROS)|;
        if count >= rpm then Denial(count) else if id in l.gate then Error else Grant
    case RecordOutcome(id, outcome, at) =>
      if id in l.attempts && (outcome == HttpStarted ==> l.attempts[id].httpStartedAt.None?) then Grant else Error
    case _ => Grant
  }

  function Step(l: Ledger, op: Op): Ledger {
    match op
    case Reserve(now, rpm, window, id, job, attemptNo, fails) =>
      (match AnswerTo(l, op)
       case Error => l
       case Denial(_) => CountDenial(l, job)
       case Grant => CountPermit(l.(attempts := l.attempts[id := AttemptRow(now, job, attemptNo, None, None)]), job))
    case RecordOutcome(id, outcome, at) =>
      if AnswerTo(l, op).Grant? then
        var row := l.attempts[id].(outcome := Some(outcome));
        l.(attempts := l.attempts[id := if outcome == HttpStarted then row.(httpStartedAt := Some(at)) else row])
      else l
    case Register(j, sequence) =>
      if j in l.jobs then l else l.(jobs := l.jobs[j := Job(sequence, Queued, 0, 0, 0)])
    case Requeue(j, sequence) =>
      if j in l.jobs then l.(jobs := l.jobs[j := l.jobs[j].(status := Queued, sequence := sequence)]) else l
    case Finish(j) =>
      if j in l.jobs then l.(jobs := l.jobs[j := l.jobs[j].(status := Ended)]) else l
    case AcquireGate(now, rpm, window, id, fails) =>
      if AnswerTo(l, op).Grant? then l.(gate := l.gate[id := now]) else l
  }

  /** The ledger after a sequence of transactions by any callers. */
  function RunOps(l: Ledger, ops: seq<Op>): Ledger
    decreases |ops|
  {
    if ops == [] then l else RunOps(Step(l, ops[0]), ops[1..])
  }

  predicate Empty(l: Ledger) {
    l.attempts == map[] && l.jobs == map[] && l.gate == map[]
  }

  // ---------------------------------------------------------------- the repository as an object

  class QuotaRepository {
    var anchored: bool
    var attempts: map<nat, AttemptRow>
    var jobs: map<nat, Job>
    var gateAnchored: bool
    var gate: map<nat, int>

    function View(): Ledger
      reads this
    {
      Ledger(anchored, attempts, jobs, gateAnchored, gate)
    }

    constructor ()
      ensures Empty(View()) && anchored && gateAnchored
    {
      anchored, attempts, jobs, gateAnchored, gate := true, map[], map[], true, map[];
    }

    method TryReserve(now: int, rpm: int, window: int, id: nat, job: Option<nat>, attemptNo: int, fails: bool)
      returns (answer: Answer)
      modifies `attempts, `jobs
      ensures var op := Reserve(now, rpm, window, id, job, attemptNo, fails);
              answer == AnswerTo(old(View()), op) && View() == Step(old(View()), op)
    {
      if fails || !anchored { return Error; }
      var windowCount := |Recent(ReservedTimes(View()), now - window * MICROS)|;
      var notMyTurn := false;
      if job.Some? { notMyTurn := EarlierQueued(View(), job); }
      if windowCount >= rpm || notMyTurn {
        if job.Some? && job.value in jobs {
          var j := jobs[job.value];
          jobs := jobs[job.value := j.(polls := j.polls + 1, denials := j.denials + 1)];
        }
        return Denial(windowCount);
      }
      if InsertRejected(View(), id, job, attemptNo) { return Error; }
      attempts := attempts[id := AttemptRow(now, job, attemptNo, None, None)];
      if job.Some? {
        var j := jobs[job.value];
        jobs := jobs[job.value := j.(polls := j.polls + 1, permits := j.permits + 1, status := ReservationGranted)];
      }
      answer := Grant;
    }

    method RecordAttemptOutcome(id: nat, outcome: Outcome, at: int) returns (ok: bool)
      modifies `attempts
      ensures ok == AnswerTo(old(View()), RecordOutcome(id, outcome, at)).Grant?
      ensures View() == Step(old(View()), RecordOutcome(id, outcome, at))
    {
      if id !in attempts { return false; }
      if outcome == HttpStarted && attempts[id].httpStartedAt.Some? { return false; }
      var row := attempts[id].(outcome := Some(outcome));
      if outcome == HttpStarted { row := row.(httpStartedAt := Some(at)); }
      attempts := attempts[id := row];
      ok := true;
    }

    method AcquireGlobalGate(now: int, rpm: int, window: int, id: nat, fails: bool) returns (answer: Answer)
      modifies `gate
      ensures var op := AcquireGate(now, rpm, window, id, fails);
              answer == AnswerTo(old(View()), op) && View() == Step(old(View()), op)
    {
      if !(MIN_TARGET_RPM <= rpm <= MAX_TARGET_RPM) { return Error; }
      if window != REQUIRED_WINDOW_SECONDS { return Error; }
      if fails || !gateAnchored { return Error; }
      var windowCount := |Recent(gate, now - window * MICROS)|;
      if windowCount >= rpm { return Denial(windowCount); }
      if id in gate { return Error; }
      gate := gate[id := now];
      answer := Grant;
    }
  }

  // ---------------------------------------------------------------- window laws over whole runs

  /** Every reservation is asked for with at most `rpm` per at least `window` seconds. */
  predicate Configured(ops: seq<Op>, rpm: int, window: int) {
    forall i :: 0 <= i < |ops| && ops[i].Reserve? ==> ops[i].rpm <= rpm && ops[i].window >= window
  }

  lemma StepKeepsQuota(l: Ledger, op: Op, rpm: int, window: int)
    requires op.Reserve? ==> op.rpm <= rpm && op.window >= window
    requires Capped(ReservedTimes(l), window * MICROS, rpm)
    ensures Capped(ReservedTimes(Step(l, op)), window * MICROS, rpm)
  {
    var times, after := ReservedTimes(l), ReservedTimes(Step(l, op));
    if op.Reserve? && AnswerTo(l, op).Grant? {
      assert after == times[op.id := op.now];
      InsertKeepsCap(times, op.id, op.now, op.window * MICROS, window * MICROS, rpm);
    } else {
      assert after == times;
    }
  }

  /** No run of any callers ever puts more than `rpm` reservations into any window, whatever the
      order of transactions and whatever times they carry. */
  lemma {:induction false} QuotaNeverExceeded(l: Ledger, ops: seq<Op>, rpm: int, window: int)
    requires Capped(ReservedTimes(l), window * MICROS, rpm) && Configured(ops, rpm, window)
    ensures Capped(ReservedTimes(RunOps(l, ops)), window * MICROS, rpm)
    decreases |ops|
  {
    if ops != [] {
      StepKeepsQuota(l, ops[0], rpm, window);
      QuotaNeverExceeded(Step(l, ops[0]), ops[1..], rpm, window);
    }
  }

  /** `limit` is the gate's own maximum, or one that this transaction's setting respects. */
  predicate GateLimited(op: Op, limit: int) {
    op.AcquireGate? ==> limit >= MAX_TARGET_RPM || op.rpm <= limit
  }

  lemma StepKeepsGate(l: Ledger, op: Op, limit: int)
    requires GateLimited(op, limit) && Capped(l.gate, REQUIRED_WINDOW_SECONDS * MICROS, limit)
    ensures Capped(Step(l, op).gate, REQUIRED_WINDOW_SECONDS * MICROS, limit)
  {
    if op.AcquireGate? && AnswerTo(l, op).Grant? {
      InsertKeepsCap(l.gate, op.id, op.now, op.window * MICROS, REQUIRED_WINDOW_SECONDS * MICROS, limit);
    }
  }

  /** The gate grants at most 13 starts in any 60 seconds for every mix of caller settings: a
      setting outside its contract is refused before the table is touched.  A lower limit holds as
      well, if every caller's setting respects it. */
  lemma {:induction false} GateNeverExceeded(l: Ledger, ops: seq<Op>, limit: int)
    requires Capped(l.gate, REQUIRED_WINDOW_SECONDS * MICROS, limit)
    requires forall i :: 0 <= i < |ops| ==> GateLimited(ops[i], limit)
    ensures Capped(RunOps(l, ops).gate, REQUIRED_WINDOW_SECONDS * MICROS, limit)
    decreases |ops|
  {
    if ops != [] {
      StepKeepsGate(l, ops[0], limit);
      GateNeverExceeded(Step(l, ops[0]), ops[1..], limit);
    }
  }

  lemma EmptyIsCapped(length: int, limit: int)
    requires limit >= 0
    ensures Capped(map[], length, limit)
  {
    forall end: int ensures |InWindow(map[], length, end)| <= limit {
      assert InWindow(map[], length, end) == {};
    }
  }

  // ---------------------------------------------------------------- first in, first out

  /** The transaction takes job `a` out of its place in the queue. */
  predicate Moves(l: Ledger, op: Op, a: nat) {
    || (op.Reserve? && op.job == Some(a) && AnswerTo(l, op).Grant?)
    || (op.Requeue? && op.jobId == a)
    || (op.Finish? && op.jobId == a)
  }

  predicate Waits(l: Ledger, a: nat, sequence: int) {
    a in l.jobs && l.jobs[a].status == Queued && l.jobs[a].sequence == sequence
  }

  /** No overtaking: while job `a` waits at `sequence` and nothing moves it, no run grants a
      reservation to any job whose sequence is later, even when the window has room. */
  lemma {:induction false} NoOvertaking(l: Ledger, ops: seq<Op>, a: nat, sequence: int, i: nat)
    requires Waits(l, a, sequence) && i < |ops|
    requires forall k :: 0 <= k <= i ==> !Moves(RunOps(l, ops[..k]), ops[k], a)
    ensures var before := RunOps(l, ops[..i]);
            && Waits(before, a, sequence)
            && (ops[i].Reserve? && ops[i].job.Some? && ops[i].job.value in before.jobs &&
                before.jobs[ops[i].job.value].sequence > sequence
                ==> !AnswerTo(before, ops[i]).Grant?)
    decreases i
  {
    assert RunOps(l, ops[..0]) == l;
    if i > 0 {
      assert !Moves(RunOps(l, ops[..0]), ops[0], a);
      var next, rest := Step(l, ops[0]), ops[1..];
      assert Waits(next, a, sequence);
      forall k | 0 <= k <= i - 1
        ensures RunOps(next, rest[..k]) == RunOps(l, ops[..k + 1]) && !Moves(RunOps(next, rest[..k]), rest[k], a)
      {
        assert ops[..k + 1][0] == ops[0] && ops[..k + 1][1..] == rest[..k];
        assert RunOps(next, rest[..k]) == RunOps(l, ops[..k + 1]);
        assert !Moves(RunOps(l, ops[..k + 1]), ops[k + 1], a);
      }
      NoOvertaking(next, rest, a, sequence, i - 1);
    }
  }

  // ---------------------------------------------------------------- accounting

  function AttemptsOf(l: Ledger, j: nat): set<nat> {
    set r | r in l.attempts && l.attempts[r].job == Some(j)
  }

  /** Attempt rows refer to known jobs, and no two rows of a job share an attempt number. */
  ghost predicate KeysHold(l: Ledger) {
    && (forall r :: r in l.attempts && l.attempts[r].job.Some? ==> l.attempts[r].job.value in l.jobs)
    && (forall r, q | r in l.attempts && q in l.attempts && r != q && l.attempts[r].job.Some? ::
          l.attempts[r].job == l.attempts[q].job ==> l.attempts[r].attemptNo != l.attempts[q].attemptNo)
  }

  /** A job's counters are exactly its history: one permit per attempt row, one poll per answer. */
  ghost predicate JobBalances(l: Ledger, j: nat)
    requires j in l.jobs
  {
    l.jobs[j].permits == |AttemptsOf(l, j)| && l.jobs[j].polls == l.jobs[j].permits + l.jobs[j].denials
  }

  ghost predicate Accounted(l: Ledger) {
    KeysHold(l) && forall j :: j in l.jobs ==> JobBalances(l, j)
  }

  lemma StepKeepsKeys(l: Ledger, op: Op)
    requires KeysHold(l)
    ensures KeysHold(Step(l, op))
  {
  }

  predicate GrantsTo(l: Ledger, op: Op, j: nat) {
    op.Reserve? && op.job == Some(j) && AnswerTo(l, op).Grant?
  }

  /** A step adds at most the granted row and never changes whose attempt a row is. */
  lemma StepRows(l: Ledger, op: Op, r: nat)
    ensures var granted := op.Reserve? && AnswerTo(l, op).Grant?;
            && (r in Step(l, op).attempts <==> r in l.attempts || (granted && r == op.id))
            && (r in l.attempts ==> Step(l, op).attempts[r].job == l.attempts[r].job)
            && (granted ==> op.id !in l.attempts && Step(l, op).attempts[op.id].job == op.job)
  {
  }

  lemma StepAttemptsOf(l: Ledger, op: Op, j: nat)
    ensures AttemptsOf(Step(l, op), j) == AttemptsOf(l, j) + if GrantsTo(l, op, j) then {op.id} else {}
    ensures GrantsTo(l, op, j) ==> op.id !in AttemptsOf(l, j)
  {
    var all := AttemptsOf(l, j) + if GrantsTo(l, op, j) then {op.id} else {};
    forall r ensures r in AttemptsOf(Step(l, op), j) <==> r in all {
      StepRows(l, op, r);
    }
  }

  lemma StepCounters(l: Ledger, op: Op, j: nat)
    requires j in Step(l, op).jobs
    ensures var permits, gap := if j in l.jobs then l.jobs[j].permits else 0,
                                if j in l.jobs then l.jobs[j].polls - l.jobs[j].denials else 0;
            var next := Step(l, op).jobs[j];
            && next.permits == permits + (if GrantsTo(l, op, j) then 1 else 0)
            && next.polls - next.denials == gap + (if GrantsTo(l, op, j) then 1 else 0)
  {
  }

  lemma StepKeepsBalance(l: Ledger, op: Op, j: nat)
    requires KeysHold(l) && j in Step(l, op).jobs
    requires j in l.jobs ==> JobBalances(l, j)
    ensures JobBalances(Step(l, op), j)
  {
    StepAttemptsOf(l, op, j);
    StepCounters(l, op, j);
    if j !in l.jobs { assert AttemptsOf(l, j) == {}; }
  }

  lemma StepKeepsAccounts(l: Ledger, op: Op)
    requires Accounted(l)
    ensures Accounted(Step(l, op))
  {
    StepKeepsKeys(l, op);
    forall j | j in Step(l, op).jobs ensures JobBalances(Step(l, op), j) {
      StepKeepsBalance(l, op, j);
    }
  }

  lemma {:induction false} AccountsAlwaysBalance(l: Ledger, ops: seq<Op>)
    requires Accounted(l)
    ensures Accounted(RunOps(l, ops))
    decreases |ops|
  {
    if ops != [] {
      StepKeepsAccounts(l, ops[0]);
      AccountsAlwaysBalance(Step(l, ops[0]), ops[1..]);
    }
  }

  /** `row` may become `row'` during a run: its reservation never changes, a start time never does. */
  predicate RowEvolves(row: AttemptRow, row': AttemptRow) {
    && row'.(outcome := row.outcome, httpStartedAt := row.httpStartedAt) == row
    && (row.httpStartedAt.Some? ==> row'.httpStartedAt == row.httpStartedAt)
    && (row'.outcome.None? ==> row'.httpStartedAt == row.httpStartedAt && row.outcome.None?)
  }

  /** A reservation is never deleted or re-dated, and its HTTP start is recorded at most once. */
  lemma {:induction false} RowsEvolve(l: Ledger, ops: seq<Op>, r: nat)
    requires r in l.attempts
    ensures r in RunOps(l, ops).attempts && RowEvolves(l.attempts[r], RunOps(l, ops).attempts[r])
    decreases |ops|
  {
    if ops != [] {
      assert r in Step(l, ops[0]).attempts && RowEvolves(l.attempts[r], Step(l, ops[0]).attempts[r]);
      RowsEvolve(Step(l, ops[0]), ops[1..], r);
    }
  }

  /** A (job, attempt number) pair is granted at most once, ever. */
  lemma AttemptNumberIsSpent(l: Ledger, ops: seq<Op>, r: nat, again: Op)
    requires r in l.attempts && l.attempts[r].job.Some?
    requires again.Reserve? && again.job == l.attempts[r].job && again.attemptNo == l.attempts[r].attemptNo
    ensures !AnswerTo(RunOps(l, ops), again).Grant?
  {
    RowsEvolve(l, ops, r);
    assert InsertRejected(RunOps(l, ops), again.id, again.job, again.attemptNo);
  }
}

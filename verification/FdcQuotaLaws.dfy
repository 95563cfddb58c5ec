/** The exact answer and effect of every ledger transaction, stated over the ledger's columns. */
module FdcQuotaLaws {
  import opened Outcomes
  import opened FdcAttempt
  import opened FdcQuota

  /** Reservations later than `since`. */
  function ReservedAfter(l: Ledger, since: int): set<nat> {
    set r | r in l.attempts && l.attempts[r].reservedAt > since
  }

  lemma ReservedAfterIsRecent(l: Ledger, since: int)
    ensures ReservedAfter(l, since) == Recent(ReservedTimes(l), since)
  {
  }

  /** A known job with a lower sequence that is still QUEUED. */
  ghost predicate QueuedAhead(l: Ledger, job: nat) {
    job in l.jobs && exists j :: j in l.jobs && l.jobs[j].status == Queued && l.jobs[j].sequence < l.jobs[job].sequence
  }

  /** A reservation is granted if and only if the transaction does not fail, the anchor row is there,
      fewer than `rpm` reservations are later than the window's start, no QUEUED job is ahead, the id is
      new, the job is known and its attempt number is unused. */
  lemma GrantedExactly(l: Ledger, op: Op)
    requires op.Reserve?
    ensures AnswerTo(l, op).Grant? <==>
            && !op.fails && l.anchored && op.id !in l.attempts
            && |ReservedAfter(l, op.now - op.window * 1_000_000)| < op.rpm
            && (op.job.Some? ==>
                  && op.job.value in l.jobs
                  && (forall j :: j in l.jobs && l.jobs[j].status == Queued ==> l.jobs[j].sequence >= l.jobs[op.job.value].sequence)
                  && (forall r :: r in l.attempts && l.attempts[r].job == op.job ==> l.attempts[r].attemptNo != op.attemptNo))
  {
    ReservedAfterIsRecent(l, op.now - op.window * 1_000_000);
  }

  /** It is denied if and only if it does not fail, the anchor is there, and the window is full or a
      QUEUED job is ahead; the answer carries the window's count.  So a denial with room in the window
      means that a QUEUED job is ahead. */
  lemma DeniedExactly(l: Ledger, op: Op)
    requires op.Reserve?
    ensures var count := |ReservedAfter(l, op.now - op.window * 1_000_000)|;
            && (AnswerTo(l, op).Denial? <==>
                !op.fails && l.anchored && (count >= op.rpm || (op.job.Some? && QueuedAhead(l, op.job.value))))
            && (AnswerTo(l, op).Denial? ==> AnswerTo(l, op).windowCount == count)
  {
    ReservedAfterIsRecent(l, op.now - op.window * 1_000_000);
  }

  /** A grant adds one row and moves its job out of the queue; a denial only counts; an error changes
      nothing.  No other row or job changes. */
  lemma ReserveEffects(l: Ledger, op: Op)
    requires op.Reserve?
    ensures var l', answer := Step(l, op), AnswerTo(l, op);
            && l'.anchored == l.anchored && l'.gateAnchored == l.gateAnchored && l'.gate == l.gate
            && l'.attempts == (if answer.Grant? then l.attempts[op.id := AttemptRow(op.now, op.job, op.attemptNo, None, None)] else l.attempts)
            && l'.jobs.Keys == l.jobs.Keys
            && forall j :: j in l.jobs ==>
                 var job := l.jobs[j];
                 l'.jobs[j] ==
                 if op.job != Some(j) || answer.Error? then job
                 else if answer.Denial? then Job(job.sequence, job.status, job.polls + 1, job.denials + 1, job.permits)
                 else Job(job.sequence, ReservationGranted, job.polls + 1, job.denials, job.permits + 1)
  {
  }

  /** Recording an outcome: refused for an unknown reservation and for a second start; otherwise that
      outcome is written to that row, with the time if it is a start, and nothing else changes. */
  lemma RecordEffects(l: Ledger, id: nat, outcome: Outcome, at: int)
    ensures var op := RecordOutcome(id, outcome, at);
            var l' := Step(l, op);
            && (AnswerTo(l, op).Grant? <==> id in l.attempts && !(outcome == HttpStarted && l.attempts[id].httpStartedAt.Some?))
            && l' == l.(attempts := l'.attempts) && l'.attempts.Keys == l.attempts.Keys
            && (forall r :: r in l.attempts && r != id ==> l'.attempts[r] == l.attempts[r])
            && (!AnswerTo(l, op).Grant? ==> l' == l)
            && (AnswerTo(l, op).Grant? ==>
                  var row := l.attempts[id];
                  l'.attempts[id] == AttemptRow(row.reservedAt, row.job, row.attemptNo, Some(outcome),
                                                if outcome == HttpStarted then Some(at) else row.httpStartedAt))
  {
  }

  /** The gate: refused outside 1 to 13 starts per exactly 60 seconds; else granted if and only if the
      call does not fail, the anchor is there, the id is new and fewer than `rpm` permits are later than
      60 seconds ago. */
  lemma GateExactly(l: Ledger, op: Op)
    requires op.AcquireGate?
    ensures var recent := set g | g in l.gate && l.gate[g] > op.now - 60_000_000;
            && (AnswerTo(l, op).Grant? <==>
                1 <= op.rpm <= 13 && op.window == 60 && !op.fails && l.gateAnchored && op.id !in l.gate && |recent| < op.rpm)
            && (AnswerTo(l, op).Denial? <==>
                1 <= op.rpm <= 13 && op.window == 60 && !op.fails && l.gateAnchored && |recent| >= op.rpm)
            && Step(l, op) == l.(gate := if AnswerTo(l, op).Grant? then l.gate[op.id := op.now] else l.gate)
  {
    assert (set g | g in l.gate && l.gate[g] > op.now - 60_000_000) == Recent(l.gate, op.now - 60_000_000);
  }

  /** Registering adds an unknown job at the end of its sequence, QUEUED; requeueing moves a known job to
      a new sequence, QUEUED; ending takes it out of the queue for good until it is requeued. */
  lemma JobEffects(l: Ledger, j: nat, sequence: int)
    ensures Step(l, Register(j, sequence)) == if j in l.jobs then l else l.(jobs := l.jobs[j := Job(sequence, Queued, 0, 0, 0)])
    ensures j in l.jobs ==>
              var job := l.jobs[j];
              && Step(l, Requeue(j, sequence)).jobs == l.jobs[j := Job(sequence, Queued, job.polls, job.denials, job.permits)]
              && Step(l, Finish(j)).jobs == l.jobs[j := Job(job.sequence, Ended, job.polls, job.denials, job.permits)]
  {
  }

  /** Who is granted next: with room in the window, a new id and an unused attempt number, a queued job
      is granted if and only if no QUEUED job has a lower sequence; jobs that hold a grant do not count. */
  lemma FirstInQueueIsGranted(l: Ledger, op: Op)
    requires op.Reserve? && !op.fails && l.anchored && op.job.Some? && op.job.value in l.jobs && op.id !in l.attempts
    requires |ReservedAfter(l, op.now - op.window * 1_000_000)| < op.rpm
    requires forall r :: r in l.attempts && l.attempts[r].job == op.job ==> l.attempts[r].attemptNo != op.attemptNo
    ensures AnswerTo(l, op) == Grant <==>
            forall j :: j in l.jobs && l.jobs[j].sequence < l.jobs[op.job.value].sequence ==>
              l.jobs[j].status == ReservationGranted || l.jobs[j].status == Ended
  {
    GrantedExactly(l, op);
  }
}

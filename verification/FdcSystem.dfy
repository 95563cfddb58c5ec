/** Any number of callers interleaved over one ledger: drivers that reserve for themselves,
    and pre-granted clients that run a grant handed to them, possibly several at once for the
    same grant.  Callers may crash at any point.  Every reachable state is a prefix of some
    longer run, so what holds in every reachable state holds in every prefix of every run. */
module FdcSystem {
  import opened Outcomes
  import opened FdcAttempt
  import opened FdcQuota

  datatype Proc =
    | Idle
    | Holding(rid: nat, gated: bool)
    | Cleared(rid: nat, gate: Option<nat>)
    | Started(rid: nat, gate: Option<nat>)
    | Awaiting(rid: nat)
    | Closing(rid: nat, outcome: Outcome)

  datatype SysEvent = Issued(rid: nat) | Recorded(rid: nat, outcome: Outcome) | Sent(rid: nat, gate: Option<nat>, at: int)

  datatype World = World(ledger: Ledger, procs: map<nat, Proc>, log: seq<SysEvent>)

  /** One atomic step.  An action whose caller is not at the right place does nothing. */
  datatype Action =
    | Ask(c: nat, op: Op)
    | Adopt(c: nat, rid: nat, gated: bool)
    | PrepareFails(c: nat)
    | PassGate(c: nat, op: Op)
    | SkipGate(c: nat)
    | WriteStart(c: nat, at: int, fails: bool)
    | Post(c: nat, at: int)
    | Answered(c: nat, result: PostResult)
    | WriteEnd(c: nat, at: int, fails: bool)
    | Crash(c: nat)
    | Elsewhere(op: Op)

  function At(w: World, c: nat): Proc {
    if c in w.procs then w.procs[c] else Idle
  }

  function Go(w: World, c: nat, p: Proc): World {
    w.(procs := w.procs[c := p])
  }

  function Log(w: World, e: SysEvent): World {
    w.(log := w.log + [e])
  }

  function Apply(w: World, act: Action): World {
    match act
    case Ask(c, op) =>
      if At(w, c) == Idle && op.Reserve? then
        var w' := w.(ledger := Step(w.ledger, op));
        if AnswerTo(w.ledger, op).Grant? then Log(Go(w', c, Holding(op.id, false)), Issued(op.id)) else w'
      else w
    case Adopt(c, rid, gated) =>
      if At(w, c) == Idle && rid in w.ledger.attempts then Go(w, c, Holding(rid, gated)) else w
    case PrepareFails(c) =>
      if At(w, c).Holding? then Go(w, c, Closing(At(w, c).rid, NotStarted)) else w
    case PassGate(c, op) =>
      if At(w, c).Holding? && At(w, c).gated && op.AcquireGate? then
        var w' := w.(ledger := Step(w.ledger, op));
        if AnswerTo(w.ledger, op).Grant? then Go(w', c, Cleared(At(w, c).rid, Some(op.id)))
        else Go(w', c, Closing(At(w, c).rid, NotStarted))
      else w
    case SkipGate(c) =>
      if At(w, c).Holding? && !At(w, c).gated then Go(w, c, Cleared(At(w, c).rid, None)) else w
    case WriteStart(c, at, fails) =>
      if At(w, c).Cleared? then
        var rid, op := At(w, c).rid, RecordOutcome(At(w, c).rid, HttpStarted, at);
        if !fails && AnswerTo(w.ledger, op).Grant? then
          Log(Go(w.(ledger := Step(w.ledger, op)), c, Started(rid, At(w, c).gate)), Recorded(rid, HttpStarted))
        else Go(w, c, Closing(rid, NotStarted))
      else w
    case Post(c, at) =>
      if At(w, c).Started? then Log(Go(w, c, Awaiting(At(w, c).rid)), Sent(At(w, c).rid, At(w, c).gate, at)) else w
    case Answered(c, result) =>
      if At(w, c).Awaiting? then Go(w, c, Closing(At(w, c).rid, TerminalOutcome(result))) else w
    case WriteEnd(c, at, fails) =>
      if At(w, c).Closing? then
        var rid, op := At(w, c).rid, RecordOutcome(At(w, c).rid, At(w, c).outcome, at);
        if !fails && AnswerTo(w.ledger, op).Grant? then
          Log(Go(w.(ledger := Step(w.ledger, op)), c, Idle), Recorded(rid, At(w, c).outcome))
        else Go(w, c, Idle)
      else w
    case Crash(c) => Go(w, c, Idle)
    case Elsewhere(op) =>
      if op.Register? || op.Requeue? || op.Finish? then w.(ledger := Step(w.ledger, op)) else w
  }

  function Play(w: World, acts: seq<Action>): World
    decreases |acts|
  {
    if acts == [] then w else Play(Apply(w, acts[0]), acts[1..])
  }

  lemma {:induction false} PlayConcat(w: World, a: seq<Action>, b: seq<Action>)
    ensures Play(w, a + b) == Play(Play(w, a), b)
    decreases |a|
  {
    if a == [] {
      assert a + b == b;
    } else {
      PlayConcat(Apply(w, a[0]), a[1..], b);
      assert (a + b)[1..] == a[1..] + b;
    }
  }

  lemma PlayTwo(w: World, a: Action, b: Action)
    ensures Play(w, [a, b]) == Apply(Apply(w, a), b)
  {
    assert [a, b][1..] == [b] && [b][1..] == [];
    assert Play(Apply(w, a), [b]) == Play(Apply(Apply(w, a), b), []);
  }

  predicate Initial(w: World) {
    Empty(w.ledger) && w.procs == map[] && w.log == []
  }

  // ---------------------------------------------------------------- safety of a log

  predicate PostedIn(log: seq<SysEvent>, rid: nat) {
    exists i :: 0 <= i < |log| && log[i].Sent? && log[i].rid == rid
  }

  /** The event may follow `before`: every issue is new, records belong to issued reservations, a
      start is recorded once, and a POST needs its own start record and happens once. */
  predicate Allowed(before: seq<SysEvent>, e: SysEvent) {
    match e
    case Issued(rid) => Issued(rid) !in before
    case Recorded(rid, o) => Issued(rid) in before && (o == HttpStarted ==> Recorded(rid, HttpStarted) !in before)
    case Sent(rid, _, _) => Recorded(rid, HttpStarted) in before && !PostedIn(before, rid)
  }

  predicate SafeLog(log: seq<SysEvent>) {
    forall i :: 0 <= i < |log| ==> Allowed(log[..i], log[i])
  }

  lemma SafeSnoc(log: seq<SysEvent>, e: SysEvent)
    requires SafeLog(log) && Allowed(log, e)
    ensures SafeLog(log + [e])
  {
    var longer := log + [e];
    forall i | 0 <= i < |longer| ensures Allowed(longer[..i], longer[i]) {
      if i < |log| { assert longer[..i] == log[..i]; } else { assert longer[..i] == log; }
    }
  }

  // ---------------------------------------------------------------- the invariant

  predicate HasStart(l: Ledger, rid: nat) {
    rid in l.attempts && l.attempts[rid].httpStartedAt.Some?
  }

  ghost predicate LedgerMatchesLog(w: World) {
    && (forall rid :: rid in w.ledger.attempts <==> Issued(rid) in w.log)
    && (forall rid :: HasStart(w.ledger, rid) <==> Recorded(rid, HttpStarted) in w.log)
    && (forall rid :: PostedIn(w.log, rid) ==> HasStart(w.ledger, rid))
  }

  ghost predicate ProcOk(w: World, c: nat) {
    match At(w, c)
    case Idle => true
    case Started(rid, gate) => HasStart(w.ledger, rid) && !PostedIn(w.log, rid)
    case p => p.rid in w.ledger.attempts && (p.Closing? ==> p.outcome != HttpStarted)
  }

  /** At most one caller is between the start record and the POST of a reservation. */
  ghost predicate OneStarter(w: World) {
    forall c, d :: At(w, c).Started? && At(w, d).Started? && At(w, c).rid == At(w, d).rid ==> c == d
  }

  ghost predicate Inv(w: World) {
    SafeLog(w.log) && LedgerMatchesLog(w) && OneStarter(w) && forall c :: ProcOk(w, c)
  }

  lemma LedgerStepKeepsStarts(l: Ledger, op: Op)
    requires !op.RecordOutcome?
    ensures forall rid :: HasStart(Step(l, op), rid) <==> HasStart(l, rid)
    ensures forall rid :: rid in l.attempts ==> rid in Step(l, op).attempts
    ensures forall rid :: rid in Step(l, op).attempts ==>
              rid in l.attempts || (op.Reserve? && AnswerTo(l, op).Grant? && rid == op.id)
    ensures op.Reserve? && AnswerTo(l, op).Grant? ==> op.id in Step(l, op).attempts && op.id !in l.attempts
  {
  }

  lemma RecordKeepsStarts(l: Ledger, op: Op)
    requires op.RecordOutcome? && AnswerTo(l, op).Grant?
    ensures Step(l, op).attempts.Keys == l.attempts.Keys
    ensures forall rid :: HasStart(Step(l, op), rid) <==> HasStart(l, rid) || (op.outcome == HttpStarted && rid == op.id)
  {
  }

  /** Membership after appending one event. */
  lemma Snoc(log: seq<SysEvent>, e: SysEvent)
    ensures forall x :: x in log + [e] <==> x in log || x == e
    ensures forall rid :: PostedIn(log + [e], rid) <==> PostedIn(log, rid) || (e.Sent? && e.rid == rid)
  {
    var longer := log + [e];
    forall rid
      ensures PostedIn(longer, rid) <==> PostedIn(log, rid) || (e.Sent? && e.rid == rid)
    {
      if PostedIn(log, rid) {
        var i :| 0 <= i < |log| && log[i].Sent? && log[i].rid == rid;
        assert longer[i] == log[i];
      }
      if e.Sent? && e.rid == rid { assert longer[|log|] == e; }
    }
  }

  /** Only caller `c` moves. */
  ghost predicate OnlyMoves(w: World, w': World, c: nat) {
    forall d :: d != c ==> At(w', d) == At(w, d)
  }

  /** The rows gain exactly what the new events say. */
  ghost predicate RowsGain(w: World, w': World, issued: set<nat>, started: set<nat>) {
    && (forall rid :: rid in w'.ledger.attempts <==> rid in w.ledger.attempts || rid in issued)
    && (forall rid :: HasStart(w'.ledger, rid) <==> HasStart(w.ledger, rid) || rid in started)
  }

  /** A step that changes neither the log nor the rows keeps the invariant if it moves one caller
      to a place that is in order. */
  lemma QuietStep(w: World, w': World, c: nat)
    requires Inv(w) && w'.log == w.log && RowsGain(w, w', {}, {}) && OnlyMoves(w, w', c)
    requires ProcOk(w', c) && (At(w', c).Started? ==> At(w', c) == At(w, c))
    ensures Inv(w')
  {
    forall d ensures ProcOk(w', d) { assert ProcOk(w, d); }
    forall d, e | At(w', d).Started? && At(w', e).Started? && At(w', d).rid == At(w', e).rid ensures d == e {
      assert At(w', d) == At(w, d) && At(w', e) == At(w, e);
    }
  }

  lemma LoudLedger(w: World, w': World, e: SysEvent)
    requires LedgerMatchesLog(w) && w'.log == w.log + [e] && Allowed(w.log, e)
    requires RowsGain(w, w', if e.Issued? then {e.rid} else {},
                      if e.Recorded? && e.outcome == HttpStarted then {e.rid} else {})
    ensures LedgerMatchesLog(w')
  {
    Snoc(w.log, e);
  }

  lemma OthersStayOk(w: World, w': World, c: nat, d: nat, e: SysEvent)
    requires Inv(w) && w'.log == w.log + [e] && OnlyMoves(w, w', c) && d != c
    requires forall rid :: rid in w.ledger.attempts ==> rid in w'.ledger.attempts
    requires forall rid :: HasStart(w.ledger, rid) ==> HasStart(w'.ledger, rid)
    requires e.Sent? ==> At(w, c).Started? && At(w, c).rid == e.rid
    ensures ProcOk(w', d)
  {
    Snoc(w.log, e);
    assert ProcOk(w, d) && At(w', d) == At(w, d);
  }

  lemma StartersStayApart(w: World, w': World, c: nat)
    requires OneStarter(w) && (forall d :: ProcOk(w, d)) && OnlyMoves(w, w', c)
    requires At(w', c).Started? ==> !HasStart(w.ledger, At(w', c).rid)
    ensures OneStarter(w')
  {
    forall d, f | At(w', d).Started? && At(w', f).Started? && At(w', d).rid == At(w', f).rid ensures d == f {
      assert ProcOk(w, d) && ProcOk(w, f);
    }
  }

  /** A step that logs one allowed event. */
  lemma LoudStep(w: World, w': World, c: nat, e: SysEvent)
    requires Inv(w) && w'.log == w.log + [e] && Allowed(w.log, e) && OnlyMoves(w, w', c)
    requires RowsGain(w, w', if e.Issued? then {e.rid} else {},
                      if e.Recorded? && e.outcome == HttpStarted then {e.rid} else {})
    requires e.Sent? ==> At(w, c).Started? && At(w, c).rid == e.rid
    requires ProcOk(w', c) && (At(w', c).Started? ==> !HasStart(w.ledger, At(w', c).rid))
    ensures Inv(w')
  {
    SafeSnoc(w.log, e);
    LoudLedger(w, w', e);
    forall d ensures ProcOk(w', d) {
      if d != c { OthersStayOk(w, w', c, d, e); }
    }
    StartersStayApart(w, w', c);
  }

  lemma AskKeepsInv(w: World, c: nat, op: Op)
    requires Inv(w)
    ensures Inv(Apply(w, Ask(c, op)))
  {
    if At(w, c) == Idle && op.Reserve? {
      LedgerStepKeepsStarts(w.ledger, op);
      if AnswerTo(w.ledger, op).Grant? {
        LoudStep(w, Apply(w, Ask(c, op)), c, Issued(op.id));
      } else {
        QuietStep(w, Apply(w, Ask(c, op)), c);
      }
    }
  }

  lemma PassGateKeepsInv(w: World, c: nat, op: Op)
    requires Inv(w)
    ensures Inv(Apply(w, PassGate(c, op)))
  {
    assert ProcOk(w, c);
    if At(w, c).Holding? && At(w, c).gated && op.AcquireGate? {
      LedgerStepKeepsStarts(w.ledger, op);
      QuietStep(w, Apply(w, PassGate(c, op)), c);
    }
  }

  lemma WriteStartKeepsInv(w: World, c: nat, at: int, fails: bool)
    requires Inv(w)
    ensures Inv(Apply(w, WriteStart(c, at, fails)))
  {
    assert ProcOk(w, c);
    var w' := Apply(w, WriteStart(c, at, fails));
    if At(w, c).Cleared? {
      var rid := At(w, c).rid;
      var op := RecordOutcome(rid, HttpStarted, at);
      if !fails && AnswerTo(w.ledger, op).Grant? {
        RecordKeepsStarts(w.ledger, op);
        Snoc(w.log, Recorded(rid, HttpStarted));
        LoudStep(w, w', c, Recorded(rid, HttpStarted));
      } else {
        QuietStep(w, w', c);
      }
    }
  }

  lemma PostKeepsInv(w: World, c: nat, at: int)
    requires Inv(w)
    ensures Inv(Apply(w, Post(c, at)))
  {
    assert ProcOk(w, c);
    if At(w, c).Started? {
      LoudStep(w, Apply(w, Post(c, at)), c, Sent(At(w, c).rid, At(w, c).gate, at));
    }
  }

  lemma WriteEndKeepsInv(w: World, c: nat, at: int, fails: bool)
    requires Inv(w)
    ensures Inv(Apply(w, WriteEnd(c, at, fails)))
  {
    assert ProcOk(w, c);
    var w' := Apply(w, WriteEnd(c, at, fails));
    if At(w, c).Closing? {
      var rid, o := At(w, c).rid, At(w, c).outcome;
      var op := RecordOutcome(rid, o, at);
      if !fails && AnswerTo(w.ledger, op).Grant? {
        RecordKeepsStarts(w.ledger, op);
        LoudStep(w, w', c, Recorded(rid, o));
      } else {
        QuietStep(w, w', c);
      }
    }
  }

  lemma LocalKeepsInv(w: World, act: Action)
    requires Inv(w)
    requires act.Adopt? || act.PrepareFails? || act.SkipGate? || act.Answered? || act.Crash?
    ensures Inv(Apply(w, act))
  {
    assert ProcOk(w, act.c);
    QuietStep(w, Apply(w, act), act.c);
  }

  lemma ElsewhereKeepsInv(w: World, op: Op)
    requires Inv(w)
    ensures Inv(Apply(w, Elsewhere(op)))
  {
    if op.Register? || op.Requeue? || op.Finish? {
      LedgerStepKeepsStarts(w.ledger, op);
      assert ProcOk(w, 0);
      QuietStep(w, Apply(w, Elsewhere(op)), 0);
    }
  }

  lemma ApplyKeepsInv(w: World, act: Action)
    requires Inv(w)
    ensures Inv(Apply(w, act))
  {
    match act {
      case Ask(c, op) => AskKeepsInv(w, c, op);
      case PassGate(c, op) => PassGateKeepsInv(w, c, op);
      case WriteStart(c, at, fails) => WriteStartKeepsInv(w, c, at, fails);
      case Post(c, at) => PostKeepsInv(w, c, at);
      case WriteEnd(c, at, fails) => WriteEndKeepsInv(w, c, at, fails);
      case Elsewhere(op) => ElsewhereKeepsInv(w, op);
      case _ => LocalKeepsInv(w, act);
    }
  }

  lemma InitialInv(w: World)
    requires Initial(w)
    ensures Inv(w)
  {
  }

  lemma {:induction false} PlayKeepsInv(w: World, acts: seq<Action>)
    requires Inv(w)
    ensures Inv(Play(w, acts))
    decreases |acts|
  {
    if acts != [] {
      ApplyKeepsInv(w, acts[0]);
      PlayKeepsInv(Apply(w, acts[0]), acts[1..]);
    }
  }
}

/** Record histories under interleaving, crashes and failing records: they keep their documented
    shapes in every run whose handovers of grants are clean, and an unclean handover can break them. */
module FdcHistories {
  import opened Outcomes
  import opened FdcAttempt
  import opened FdcQuota
  import opened FdcSystem

  /** The outcomes recorded for one reservation, in order. */
  function Hist(log: seq<SysEvent>, rid: nat): seq<Outcome> {
    if log == [] then []
    else
      var e := log[|log| - 1];
      Hist(log[..|log| - 1], rid) + if e.Recorded? && e.rid == rid then [e.outcome] else []
  }

  predicate Terminal(o: Outcome) {
    o in {HttpSucceeded, HttpFailedRetryable, HttpFailedFinal}
  }

  predicate CompleteShape(h: seq<Outcome>) {
    h == [NotStarted] || (|h| == 2 && h[0] == HttpStarted && Terminal(h[1]))
  }

  /** A complete history or a proper prefix of one. */
  predicate PrefixShape(h: seq<Outcome>) {
    CompleteShape(h) || h == [] || h == [HttpStarted]
  }

  lemma HistSnoc(log: seq<SysEvent>, e: SysEvent, rid: nat)
    ensures Hist(log + [e], rid) == Hist(log, rid) + if e.Recorded? && e.rid == rid then [e.outcome] else []
  {
    var longer := log + [e];
    assert longer[..|longer| - 1] == log;
  }

  lemma {:induction false} NoIssueNoHistory(log: seq<SysEvent>, rid: nat)
    requires SafeLog(log) && Issued(rid) !in log
    ensures Hist(log, rid) == []
    decreases |log|
  {
    if log != [] {
      var before := log[..|log| - 1];
      assert Allowed(log[..|log| - 1], log[|log| - 1]);
      forall i | 0 <= i < |before| ensures Allowed(before[..i], before[i]) {
        assert before[..i] == log[..i] && Allowed(log[..i], log[i]);
      }
      NoIssueNoHistory(before, rid);
    }
  }

  // ---------------------------------------------------------------- every holder has its own grant

  /** The history a caller's reservation must have at its place. */
  function HistAt(p: Proc): seq<Outcome> {
    match p
    case Started(_, _) => [HttpStarted]
    case Awaiting(_) => [HttpStarted]
    case Closing(_, o) => if o == NotStarted then [] else [HttpStarted]
    case _ => []
  }

  ghost predicate InPlace(w: World, c: nat) {
    var p := At(w, c);
    p != Idle ==> Hist(w.log, p.rid) == HistAt(p) && (p.Closing? ==> p.outcome == NotStarted || Terminal(p.outcome))
  }

  ghost predicate OwnGrants(w: World) {
    && (forall c :: InPlace(w, c))
    && (forall c, d :: At(w, c) != Idle && At(w, d) != Idle && At(w, c).rid == At(w, d).rid ==> c == d)
    && (forall rid: nat :: PrefixShape(Hist(w.log, rid)))
  }

  /** The one new event, if a record, is about the caller's own reservation and keeps its shape. */
  ghost predicate OwnRecord(w: World, w': World, c: nat, e: SysEvent) {
    && w'.log == w.log + [e]
    && (e.Recorded? ==> At(w, c) != Idle && At(w, c).rid == e.rid && PrefixShape(HistAt(At(w, c)) + [e.outcome]))
  }

  /** One caller moves, at most one event is logged, and only about that caller's reservation. */
  lemma MoveKeepsOwnGrants(w: World, w': World, c: nat)
    requires OwnGrants(w) && forall d :: d != c ==> At(w', d) == At(w, d)
    requires At(w', c) != Idle ==>
               (At(w, c) != Idle && At(w', c).rid == At(w, c).rid)
               || (forall d :: At(w, d) != Idle ==> At(w, d).rid != At(w', c).rid)
    requires w'.log == w.log || exists e :: OwnRecord(w, w', c, e)
    requires InPlace(w', c)
    ensures OwnGrants(w')
  {
    if w'.log != w.log {
      var e :| OwnRecord(w, w', c, e);
      assert InPlace(w, c);
      forall rid: nat ensures PrefixShape(Hist(w'.log, rid)) { HistSnoc(w.log, e, rid); }
      forall d ensures InPlace(w', d) {
        if d != c && At(w, d) != Idle {
          assert InPlace(w, d);
          HistSnoc(w.log, e, At(w, d).rid);
        }
      }
    } else {
      forall d ensures InPlace(w', d) { assert InPlace(w, d); }
    }
  }

  lemma AskKeepsOwnGrants(w: World, c: nat, op: Op)
    requires Inv(w) && OwnGrants(w)
    ensures OwnGrants(Apply(w, Ask(c, op)))
  {
    var w' := Apply(w, Ask(c, op));
    if At(w, c) == Idle && op.Reserve? && AnswerTo(w.ledger, op).Grant? {
      NoIssueNoHistory(w.log, op.id);
      HistSnoc(w.log, Issued(op.id), op.id);
      assert OwnRecord(w, w', c, Issued(op.id));
      forall d | At(w, d) != Idle ensures At(w, d).rid != op.id { assert ProcOk(w, d); }
    }
    assert InPlace(w, c);
    MoveKeepsOwnGrants(w, w', c);
  }

  lemma WriteStartKeepsOwnGrants(w: World, c: nat, at: int, fails: bool)
    requires OwnGrants(w)
    ensures OwnGrants(Apply(w, WriteStart(c, at, fails)))
  {
    var w' := Apply(w, WriteStart(c, at, fails));
    assert InPlace(w, c);
    if w'.log != w.log {
      var e := Recorded(At(w, c).rid, HttpStarted);
      assert OwnRecord(w, w', c, e);
      HistSnoc(w.log, e, At(w, c).rid);
    }
    MoveKeepsOwnGrants(w, w', c);
  }

  lemma WriteEndKeepsOwnGrants(w: World, c: nat, at: int, fails: bool)
    requires OwnGrants(w)
    ensures OwnGrants(Apply(w, WriteEnd(c, at, fails)))
  {
    var w' := Apply(w, WriteEnd(c, at, fails));
    assert InPlace(w, c);
    if w'.log != w.log {
      var e := Recorded(At(w, c).rid, At(w, c).outcome);
      assert OwnRecord(w, w', c, e);
      HistSnoc(w.log, e, At(w, c).rid);
    }
    MoveKeepsOwnGrants(w, w', c);
  }

  lemma OtherKeepsOwnGrants(w: World, act: Action)
    requires OwnGrants(w) && !act.Adopt? && !act.Ask? && !act.WriteStart? && !act.WriteEnd?
    ensures OwnGrants(Apply(w, act))
  {
    var w', c := Apply(w, act), if act.Elsewhere? then 0 else act.c;
    assert InPlace(w, c);
    if w'.log != w.log {
      var e := Sent(At(w, c).rid, At(w, c).gate, act.at);
      HistSnoc(w.log, e, At(w, c).rid);
      assert OwnRecord(w, w', c, e);
    }
    MoveKeepsOwnGrants(w, w', c);
  }

  /** A grant is handed over unused, and nobody else holds it. */
  ghost predicate Clean(w: World, act: Action) {
    act.Adopt? ==> Hist(w.log, act.rid) == [] && forall d :: At(w, d) != Idle ==> At(w, d).rid != act.rid
  }

  ghost predicate AllClean(w: World, acts: seq<Action>)
    decreases |acts|
  {
    acts == [] || (Clean(w, acts[0]) && AllClean(Apply(w, acts[0]), acts[1..]))
  }

  lemma AdoptKeepsOwnGrants(w: World, act: Action)
    requires OwnGrants(w) && act.Adopt? && Clean(w, act)
    ensures OwnGrants(Apply(w, act))
  {
    assert InPlace(w, act.c);
    MoveKeepsOwnGrants(w, Apply(w, act), act.c);
  }

  lemma ApplyKeepsOwnGrants(w: World, act: Action)
    requires Inv(w) && OwnGrants(w) && Clean(w, act)
    ensures OwnGrants(Apply(w, act))
  {
    match act {
      case Ask(c, op) => AskKeepsOwnGrants(w, c, op);
      case Adopt(_, _, _) => AdoptKeepsOwnGrants(w, act);
      case WriteStart(c, at, fails) => WriteStartKeepsOwnGrants(w, c, at, fails);
      case WriteEnd(c, at, fails) => WriteEndKeepsOwnGrants(w, c, at, fails);
      case _ => OtherKeepsOwnGrants(w, act);
    }
  }

  lemma {:induction false} PlayKeepsOwnGrants(w: World, acts: seq<Action>)
    requires Inv(w) && OwnGrants(w) && AllClean(w, acts)
    ensures OwnGrants(Play(w, acts))
    decreases |acts|
  {
    if acts != [] {
      ApplyKeepsOwnGrants(w, acts[0]);
      ApplyKeepsInv(w, acts[0]);
      PlayKeepsOwnGrants(Apply(w, acts[0]), acts[1..]);
    }
  }

  /** In every interleaving of drivers and of gated or ungated pre-granted clients, with gate denials,
      crashes and failing records anywhere, every reservation's history is complete or a proper prefix
      of a complete one, as long as each grant is handed over clean. */
  lemma AllHistories(w: World, acts: seq<Action>, rid: nat)
    requires Initial(w) && AllClean(w, acts)
    ensures PrefixShape(Hist(Play(w, acts).log, rid))
  {
    assert OwnGrants(w);
    assert Inv(w);
    PlayKeepsOwnGrants(w, acts);
  }

  // ---------------------------------------------------------------- the log and the ledger's rows

  function LastOf(h: seq<Outcome>): Option<Outcome> {
    if h == [] then None else Some(h[|h| - 1])
  }

  /** Each row's outcome column is the last outcome recorded for its reservation. */
  ghost predicate OutcomesMatch(w: World) {
    forall rid :: rid in w.ledger.attempts ==> w.ledger.attempts[rid].outcome == LastOf(Hist(w.log, rid))
  }

  lemma RecordKeepsOutcomes(w: World, rid: nat, o: Outcome, at: int)
    requires OutcomesMatch(w) && AnswerTo(w.ledger, RecordOutcome(rid, o, at)).Grant?
    ensures OutcomesMatch(Log(w.(ledger := Step(w.ledger, RecordOutcome(rid, o, at))), Recorded(rid, o)))
  {
    forall r: nat ensures Hist(w.log + [Recorded(rid, o)], r) == Hist(w.log, r) + if r == rid then [o] else [] {
      HistSnoc(w.log, Recorded(rid, o), r);
    }
  }

  lemma OtherLogKeepsOutcomes(w: World, e: SysEvent)
    requires !e.Recorded?
    ensures forall r: nat :: Hist(w.log + [e], r) == Hist(w.log, r)
  {
    forall r: nat ensures Hist(w.log + [e], r) == Hist(w.log, r) { HistSnoc(w.log, e, r); }
  }

  lemma AskKeepsOutcomes(w: World, c: nat, op: Op)
    requires Inv(w) && OutcomesMatch(w)
    ensures OutcomesMatch(Apply(w, Ask(c, op)))
  {
    if op.Reserve? && AnswerTo(w.ledger, op).Grant? {
      NoIssueNoHistory(w.log, op.id);
      OtherLogKeepsOutcomes(w, Issued(op.id));
    }
  }

  lemma WriteStartKeepsOutcomes(w: World, c: nat, at: int, fails: bool)
    requires OutcomesMatch(w)
    ensures OutcomesMatch(Apply(w, WriteStart(c, at, fails)))
  {
    if At(w, c).Cleared? && AnswerTo(w.ledger, RecordOutcome(At(w, c).rid, HttpStarted, at)).Grant? {
      RecordKeepsOutcomes(w, At(w, c).rid, HttpStarted, at);
    }
  }

  lemma WriteEndKeepsOutcomes(w: World, c: nat, at: int, fails: bool)
    requires OutcomesMatch(w)
    ensures OutcomesMatch(Apply(w, WriteEnd(c, at, fails)))
  {
    if At(w, c).Closing? && AnswerTo(w.ledger, RecordOutcome(At(w, c).rid, At(w, c).outcome, at)).Grant? {
      RecordKeepsOutcomes(w, At(w, c).rid, At(w, c).outcome, at);
    }
  }

  /** No other action touches an attempt row or records an outcome. */
  lemma OtherKeepsOutcomes(w: World, act: Action)
    requires OutcomesMatch(w) && !act.Ask? && !act.WriteStart? && !act.WriteEnd?
    ensures OutcomesMatch(Apply(w, act))
  {
    var w' := Apply(w, act);
    assert w'.ledger.attempts == w.ledger.attempts;
    if act.Post? && At(w, act.c).Started? {
      OtherLogKeepsOutcomes(w, Sent(At(w, act.c).rid, At(w, act.c).gate, act.at));
    } else {
      assert w'.log == w.log;
    }
  }

  lemma ApplyKeepsOutcomes(w: World, act: Action)
    requires Inv(w) && OutcomesMatch(w)
    ensures OutcomesMatch(Apply(w, act))
  {
    match act {
      case Ask(c, op) => AskKeepsOutcomes(w, c, op);
      case WriteStart(c, at, fails) => WriteStartKeepsOutcomes(w, c, at, fails);
      case WriteEnd(c, at, fails) => WriteEndKeepsOutcomes(w, c, at, fails);
      case _ => OtherKeepsOutcomes(w, act);
    }
  }

  lemma {:induction false} PlayKeepsOutcomes(w: World, acts: seq<Action>)
    requires Inv(w) && OutcomesMatch(w)
    ensures OutcomesMatch(Play(w, acts))
    decreases |acts|
  {
    if acts != [] {
      ApplyKeepsOutcomes(w, acts[0]);
      ApplyKeepsInv(w, acts[0]);
      PlayKeepsOutcomes(Apply(w, acts[0]), acts[1..]);
    }
  }

  /** In every run the outcome column of a reservation is the last outcome recorded for it: an
      overwritten history is an overwritten row. */
  lemma RowsShowLastRecord(w: World, acts: seq<Action>, rid: nat)
    requires Initial(w) && rid in Play(w, acts).ledger.attempts
    ensures Play(w, acts).ledger.attempts[rid].outcome == LastOf(Hist(Play(w, acts).log, rid))
  {
    InitialInv(w);
    PlayKeepsOutcomes(w, acts);
  }

  // ---------------------------------------------------------------- unclean handovers

  /** The shortest way for a caller to close its reservation with a record. */
  function CloseSteps(p: Proc, c: nat): seq<Action> {
    match p
    case Holding(_, _) => [PrepareFails(c), WriteEnd(c, 0, false)]
    case Cleared(_, _) => [WriteStart(c, 0, true), WriteEnd(c, 0, false)]
    case Closing(_, _) => [Elsewhere(Finish(0)), WriteEnd(c, 0, false)]
    case _ => []
  }

  /** A caller that has not written its start, or only has its closing record to write. */
  predicate Closable(w: World, c: nat, rid: nat) {
    var p := At(w, c);
    (p.Holding? || p.Cleared? || p == Closing(rid, NotStarted)) && p.rid == rid && rid in w.ledger.attempts
  }

  /** Such a caller can always write reserved_but_http_not_started. */
  lemma CloserWrites(w: World, c: nat, rid: nat) returns (acts: seq<Action>)
    requires Closable(w, c, rid)
    ensures NoAdopt(acts)
    ensures var w' := Play(w, acts);
            && w'.log == w.log + [Recorded(rid, NotStarted)] && rid in w'.ledger.attempts
            && forall d :: d != c ==> At(w', d) == At(w, d)
  {
    acts := CloseSteps(At(w, c), c);
    var w1 := Apply(w, acts[0]);
    PlayTwo(w, acts[0], acts[1]);
    assert At(w1, c) == Closing(rid, NotStarted) && w1.log == w.log && w1.ledger.attempts == w.ledger.attempts;
  }

  lemma ExtraRecordBreaks(h: seq<Outcome>)
    requires PrefixShape(h) && h != []
    ensures !PrefixShape(h + [NotStarted])
  {
  }

  predicate NoAdopt(acts: seq<Action>) {
    forall i :: 0 <= i < |acts| ==> !acts[i].Adopt?
  }

  /** A grant with a record is handed over: the new holder closes it and the history loses its shape. */
  lemma UsedGrantBreaks(w: World, c: nat, rid: nat, gated: bool) returns (acts: seq<Action>)
    requires Inv(w) && OwnGrants(w) && At(w, c) == Idle && rid in w.ledger.attempts && Hist(w.log, rid) != []
    ensures NoAdopt(acts) && !PrefixShape(Hist(Play(Apply(w, Adopt(c, rid, gated)), acts).log, rid))
  {
    var w1 := Apply(w, Adopt(c, rid, gated));
    acts := CloserWrites(w1, c, rid);
    HistSnoc(w.log, Recorded(rid, NotStarted), rid);
    ExtraRecordBreaks(Hist(w.log, rid));
  }

  /** Two callers close one reservation. */
  lemma BothClose(w: World, c: nat, d: nat, rid: nat) returns (acts: seq<Action>)
    requires c != d && Closable(w, c, rid) && Closable(w, d, rid) && Hist(w.log, rid) == []
    ensures NoAdopt(acts) && Hist(Play(w, acts).log, rid) == [NotStarted, NotStarted]
  {
    var first := CloserWrites(w, c, rid);
    var w1 := Play(w, first);
    var second := CloserWrites(w1, d, rid);
    PlayConcat(w, first, second);
    HistSnoc(w.log, Recorded(rid, NotStarted), rid);
    HistSnoc(w1.log, Recorded(rid, NotStarted), rid);
    acts := first + second;
  }

  /** A grant that another caller holds is handed over: both close it. */
  lemma SharedGrantBreaks(w: World, c: nat, rid: nat, gated: bool, d: nat) returns (acts: seq<Action>)
    requires Inv(w) && OwnGrants(w) && At(w, c) == Idle && rid in w.ledger.attempts && Hist(w.log, rid) == []
    requires At(w, d) != Idle && At(w, d).rid == rid
    ensures NoAdopt(acts) && !PrefixShape(Hist(Play(Apply(w, Adopt(c, rid, gated)), acts).log, rid))
  {
    var w1 := Apply(w, Adopt(c, rid, gated));
    assert InPlace(w, d);
    assert Closable(w1, c, rid) && Closable(w1, d, rid);
    acts := BothClose(w1, c, d, rid);
  }

  ghost predicate SafeFrom(w: World, rid: nat) {
    forall acts :: NoAdopt(acts) ==> PrefixShape(Hist(Play(w, acts).log, rid))
  }

  lemma {:induction false} NoAdoptIsClean(w: World, acts: seq<Action>)
    requires NoAdopt(acts)
    ensures AllClean(w, acts)
    decreases |acts|
  {
    if acts != [] { NoAdoptIsClean(Apply(w, acts[0]), acts[1..]); }
  }

  lemma HandoverFrom(w: World, c: nat, rid: nat, gated: bool)
    requires Inv(w) && OwnGrants(w) && At(w, c) == Idle && rid in w.ledger.attempts
    ensures SafeFrom(Apply(w, Adopt(c, rid, gated)), rid) <==> Clean(w, Adopt(c, rid, gated))
  {
    var act := Adopt(c, rid, gated);
    var w' := Apply(w, act);
    if Clean(w, act) {
      ApplyKeepsInv(w, act);
      ApplyKeepsOwnGrants(w, act);
      forall acts | NoAdopt(acts) ensures PrefixShape(Hist(Play(w', acts).log, rid)) {
        NoAdoptIsClean(w', acts);
        PlayKeepsOwnGrants(w', acts);
      }
    } else if Hist(w.log, rid) != [] {
      var acts := UsedGrantBreaks(w, c, rid, gated);
    } else {
      var d :| At(w, d) != Idle && At(w, d).rid == rid;
      var acts := SharedGrantBreaks(w, c, rid, gated, d);
    }
  }

  /** The exact condition: after any run with clean handovers, handing a grant to an idle client keeps
      its history in shape in every continuation if and only if the grant has no record and no other
      holder. */
  lemma HandoverIsSafeIffClean(w: World, before: seq<Action>, c: nat, rid: nat, gated: bool)
    requires Initial(w) && AllClean(w, before)
    requires At(Play(w, before), c) == Idle && rid in Play(w, before).ledger.attempts
    ensures var now, act := Play(w, before), Adopt(c, rid, gated);
            SafeFrom(Apply(now, act), rid) <==> Clean(now, act)
  {
    assert OwnGrants(w);
    InitialInv(w);
    PlayKeepsInv(w, before);
    PlayKeepsOwnGrants(w, before);
    HandoverFrom(Play(w, before), c, rid, gated);
  }

  /** Two clients hold one unused grant: one starts, the other is refused and closes. */
  lemma TwoHoldersRun() returns (w: World, acts: seq<Action>)
    ensures Initial(w) && Hist(Play(w, acts).log, 0) == [HttpStarted, NotStarted]
  {
    w := World(Ledger(true, map[], map[], true, map[]), map[], []);
    var w1, ask := GrantedTo(w, 0);
    var share := [Adopt(1, 0, false), SkipGate(0)];
    PlayTwo(w1, share[0], share[1]);
    var w2 := Play(w1, share);
    assert At(w2, 0) == Cleared(0, None) && At(w2, 1) == Holding(0, false) && w2.ledger == w1.ledger && w2.log == w1.log;
    var race := Race(w2, 0, 1, 0);
    acts := ask + (share + race);
    PlayConcat(w, ask, share + race);
    PlayConcat(w1, share, race);
    HistSnoc([], Issued(0), 0);
    assert w1.log == [] + [Issued(0)];
  }

  /** One holder is at the start record, the other behind it. */
  lemma Race(w: World, c: nat, d: nat, rid: nat) returns (acts: seq<Action>)
    requires c != d && At(w, c) == Cleared(rid, None) && At(w, d) == Holding(rid, false)
    requires rid in w.ledger.attempts && !HasStart(w.ledger, rid)
    ensures Hist(Play(w, acts).log, rid) == Hist(w.log, rid) + [HttpStarted, NotStarted]
  {
    var race := [SkipGate(d), WriteStart(c, 0, false), WriteStart(d, 0, false)];
    PlayThree(w, race);
    var w1 := Apply(w, race[0]);
    assert At(w1, d) == Cleared(rid, None) && At(w1, c) == At(w, c) && w1.ledger == w.ledger && w1.log == w.log;
    TwoStarts(w1, c, d, rid);
    var w3 := Apply(Apply(w1, race[1]), race[2]);
    var close := CloserWrites(w3, d, rid);
    PlayConcat(w, race, close);
    HistSnoc(w.log, Recorded(rid, HttpStarted), rid);
    HistSnoc(w3.log, Recorded(rid, NotStarted), rid);
    acts := race + close;
  }

  /** The ledger takes the first start record of a reservation and refuses the second. */
  lemma TwoStarts(w: World, c: nat, d: nat, rid: nat)
    requires c != d && At(w, c) == Cleared(rid, None) && At(w, d) == Cleared(rid, None)
    requires rid in w.ledger.attempts && !HasStart(w.ledger, rid)
    ensures var w' := Apply(Apply(w, WriteStart(c, 0, false)), WriteStart(d, 0, false));
            && At(w', d) == Closing(rid, NotStarted) && rid in w'.ledger.attempts
            && w'.log == w.log + [Recorded(rid, HttpStarted)]
  {
    var w1 := Apply(w, WriteStart(c, 0, false));
    assert HasStart(w1.ledger, rid) && At(w1, d) == Cleared(rid, None);
  }

  /** The first reservation of an empty ledger, for caller `c`. */
  lemma GrantedTo(w: World, c: nat) returns (w': World, acts: seq<Action>)
    requires w == World(Ledger(true, map[], map[], true, map[]), map[], [])
    ensures w' == Play(w, acts) && At(w', c) == Holding(0, false) && w'.log == [Issued(0)]
    ensures forall d :: d != c ==> At(w', d) == Idle
    ensures 0 in w'.ledger.attempts && w'.ledger.attempts[0].httpStartedAt.None? && w'.ledger.gateAnchored && w'.ledger.gate == map[]
  {
    var op := Reserve(0, 1, 60, 0, None, 1, false);
    assert Recent(ReservedTimes(w.ledger), 0 - 60 * MICROS) == {};
    assert AnswerTo(w.ledger, op) == Grant;
    acts := [Ask(c, op)];
    w' := Apply(w, Ask(c, op));
    UnfoldPlay(w, acts);
  }

  lemma UnfoldPlay(w: World, acts: seq<Action>)
    requires acts != []
    ensures Play(w, acts) == Play(Apply(w, acts[0]), acts[1..])
  {
  }

  lemma PlayThree(w: World, acts: seq<Action>)
    requires |acts| == 3
    ensures Play(w, acts) == Apply(Apply(Apply(w, acts[0]), acts[1]), acts[2])
  {
    UnfoldPlay(w, acts);
    assert acts[1..] == [acts[1], acts[2]];
    PlayTwo(Apply(w, acts[0]), acts[1], acts[2]);
  }

  // ---------------------------------------------------------------- one attempt of the machine

  /** The steps one caller takes for one attempt, through the gate if it has one; steps that do not
      apply do nothing. */
  function AttemptSteps(c: nat, env: AttemptEnv, gate: Option<Op>): seq<Action> {
    match env.provider
    case FailsBeforeStart(_) => [PrepareFails(c), WriteEnd(c, 0, env.endWrite.Raises?)]
    case Posts(r) =>
      [if gate.Some? then PassGate(c, gate.value) else SkipGate(c), WriteStart(c, 0, env.startWrite.Raises?), Post(c, 0),
       Answered(c, r), WriteEnd(c, 0, env.endWrite.Raises?)]
  }

  function Lift(log: seq<Event>, permit: Option<nat>): seq<SysEvent>
    requires forall i :: 0 <= i < |log| ==> log[i].Wrote? || log[i].Posted?
  {
    seq(|log|, i requires 0 <= i < |log| =>
      if log[i].Wrote? then Recorded(log[i].rid, log[i].outcome) else Sent(log[i].rid, permit, 0))
  }

  /** The environment as the ledger presents it: a second start of a reservation is refused. */
  function Guarded(env: AttemptEnv, started: bool): AttemptEnv {
    if started && env.startWrite.Committed? then env.(startWrite := Raises(Other(0))) else env
  }

  /** The caller holds the reservation, and its gate, if it has one, answers as the environment says. */
  ghost predicate Ready(w: World, c: nat, rid: nat, env: AttemptEnv, gate: Option<Op>) {
    && At(w, c) == Holding(rid, gate.Some?) && rid in w.ledger.attempts
    && (gate.Some? ==> gate.value.AcquireGate? && env.gateGrants == AnswerTo(w.ledger, gate.value).Grant?)
  }

  function PermitOf(gate: Option<Op>): Option<nat>
    requires gate.Some? ==> gate.value.AcquireGate?
  {
    if gate.Some? then Some(gate.value.id) else None
  }

  lemma SoloUnprepared(w: World, c: nat, rid: nat, env: AttemptEnv, gate: Option<Op>)
    requires Ready(w, c, rid, env, gate) && env.provider.FailsBeforeStart?
    ensures var w' := Play(w, AttemptSteps(c, env, gate));
            At(w', c) == Idle && w'.log == w.log + if env.endWrite.Raises? then [] else [Recorded(rid, NotStarted)]
  {
    var acts := AttemptSteps(c, env, gate);
    PlayTwo(w, acts[0], acts[1]);
  }

  /** The gate step: through to the start record, or to the closing record. */
  lemma GateStep(w: World, c: nat, rid: nat, env: AttemptEnv, gate: Option<Op>)
    requires Ready(w, c, rid, env, gate) && env.provider.Posts?
    ensures var w' := Apply(w, AttemptSteps(c, env, gate)[0]);
            && w'.log == w.log && w'.ledger.attempts == w.ledger.attempts
            && At(w', c) == if gate.Some? && !env.gateGrants then Closing(rid, NotStarted) else Cleared(rid, PermitOf(gate))
  {
  }

  lemma SoloUnstarted(w: World, c: nat, rid: nat, env: AttemptEnv, gate: Option<Op>)
    requires Ready(w, c, rid, env, gate) && env.provider.Posts?
    requires HasStart(w.ledger, rid) || env.startWrite.Raises? || (gate.Some? && !env.gateGrants)
    ensures var w' := Play(w, AttemptSteps(c, env, gate));
            At(w', c) == Idle && w'.log == w.log + if env.endWrite.Raises? then [] else [Recorded(rid, NotStarted)]
  {
    var acts := AttemptSteps(c, env, gate);
    PlayFive(w, acts);
    GateStep(w, c, rid, env, gate);
    var w2 := Apply(Apply(w, acts[0]), acts[1]);
    assert At(w2, c) == Closing(rid, NotStarted) && w2.ledger.attempts == w.ledger.attempts && w2.log == w.log;
    assert Apply(Apply(w2, acts[2]), acts[3]) == w2;
  }

  lemma StartAndPost(w: World, c: nat, rid: nat, permit: Option<nat>, result: PostResult)
    requires At(w, c) == Cleared(rid, permit) && rid in w.ledger.attempts && !HasStart(w.ledger, rid)
    ensures var w' := Apply(Apply(Apply(w, WriteStart(c, 0, false)), Post(c, 0)), Answered(c, result));
            && At(w', c) == Closing(rid, TerminalOutcome(result)) && rid in w'.ledger.attempts
            && w'.log == w.log + [Recorded(rid, HttpStarted), Sent(rid, permit, 0)]
  {
    var w1 := Apply(w, WriteStart(c, 0, false));
    assert At(w1, c) == Started(rid, permit) && w1.log == w.log + [Recorded(rid, HttpStarted)] && rid in w1.ledger.attempts;
    var w2 := Apply(w1, Post(c, 0));
    assert At(w2, c) == Awaiting(rid) && w2.ledger == w1.ledger;
  }

  lemma SoloStarted(w: World, c: nat, rid: nat, env: AttemptEnv, gate: Option<Op>)
    requires Ready(w, c, rid, env, gate) && env.provider.Posts?
    requires !HasStart(w.ledger, rid) && env.startWrite.Committed? && (gate.Some? ==> env.gateGrants)
    ensures var w' := Play(w, AttemptSteps(c, env, gate));
            && At(w', c) == Idle
            && w'.log == w.log + ([Recorded(rid, HttpStarted), Sent(rid, PermitOf(gate), 0)] +
                 if env.endWrite.Raises? then [] else [Recorded(rid, TerminalOutcome(env.provider.result))])
  {
    var acts := AttemptSteps(c, env, gate);
    PlayFive(w, acts);
    GateStep(w, c, rid, env, gate);
    var w1 := Apply(w, acts[0]);
    StartAndPost(w1, c, rid, PermitOf(gate), env.provider.result);
    CloseStep(Apply(Apply(Apply(w1, acts[1]), acts[2]), acts[3]), c, rid, TerminalOutcome(env.provider.result), env.endWrite.Raises?);
  }

  lemma CloseStep(w: World, c: nat, rid: nat, o: Outcome, fails: bool)
    requires At(w, c) == Closing(rid, o) && rid in w.ledger.attempts && o != HttpStarted
    ensures var w' := Apply(w, WriteEnd(c, 0, fails));
            At(w', c) == Idle && w'.log == w.log + if fails then [] else [Recorded(rid, o)]
  {
  }

  /** Played alone, the machine's steps write exactly the log of the sequential executor, with or
      without a gate, and with the ledger's refusal of a second start as a failing start record. */
  lemma SoloAttempt(w: World, c: nat, rid: nat, env: AttemptEnv, gate: Option<Op>)
    requires Ready(w, c, rid, env, gate)
    ensures var a := Attempt(rid, Guarded(env, HasStart(w.ledger, rid)), gate.Some?);
            var w' := Play(w, AttemptSteps(c, env, gate));
            && (forall i :: 0 <= i < |a.log| ==> a.log[i].Wrote? || a.log[i].Posted?)
            && w'.log == w.log + Lift(a.log, PermitOf(gate))
            && At(w', c) == Idle
  {
    if env.provider.FailsBeforeStart? {
      SoloUnprepared(w, c, rid, env, gate);
    } else if HasStart(w.ledger, rid) || env.startWrite.Raises? || (gate.Some? && !env.gateGrants) {
      SoloUnstarted(w, c, rid, env, gate);
    } else {
      SoloStarted(w, c, rid, env, gate);
    }
  }

  lemma PlayFive(w: World, acts: seq<Action>)
    requires |acts| == 5
    ensures Play(w, acts) == Apply(Apply(Apply(Apply(Apply(w, acts[0]), acts[1]), acts[2]), acts[3]), acts[4])
  {
    UnfoldPlay(w, acts);
    UnfoldPlay(Apply(w, acts[0]), acts[1..]);
    assert acts[1..][1..] == acts[2..];
    PlayThree(Apply(Apply(w, acts[0]), acts[1]), acts[2..]);
  }

  // ---------------------------------------------------------------- running a handed-over grant

  lemma {:induction false} HistAppend(log: seq<SysEvent>, more: seq<SysEvent>, rid: nat)
    ensures Hist(log + more, rid) == Hist(log, rid) + Hist(more, rid)
    decreases |more|
  {
    if more == [] {
      assert log + more == log;
    } else {
      var init, e := more[..|more| - 1], more[|more| - 1];
      var tail := if e.Recorded? && e.rid == rid then [e.outcome] else [];
      HistAppend(log, init, rid);
      SplitLast(log, more);
      HistSnoc(log + init, e, rid);
      assert (Hist(log, rid) + Hist(init, rid)) + tail == Hist(log, rid) + (Hist(init, rid) + tail);
    }
  }

  lemma SplitLast(log: seq<SysEvent>, more: seq<SysEvent>)
    requires more != []
    ensures log + more == (log + more[..|more| - 1]) + [more[|more| - 1]]
  {
  }

  /** The records that one uninterrupted attempt adds. */
  lemma AttemptAdds(rid: nat, env: AttemptEnv, gated: bool, permit: Option<nat>)
    requires env.endWrite.Committed?
    ensures var a := Attempt(rid, env, gated);
            && (forall i :: 0 <= i < |a.log| ==> a.log[i].Wrote? || a.log[i].Posted?)
            && Hist(Lift(a.log, permit), rid) ==
               if StartFailure(env, gated).Some? then [NotStarted] else [HttpStarted, TerminalOutcome(env.provider.result)]
  {
    var a := Attempt(rid, env, gated);
    if StartFailure(env, gated).Some? {
      HistSnoc([], Recorded(rid, NotStarted), rid);
      assert Lift(a.log, permit) == [] + [Recorded(rid, NotStarted)];
    } else {
      var o := TerminalOutcome(env.provider.result);
      assert Lift(a.log, permit) == [Recorded(rid, HttpStarted), Sent(rid, permit, 0), Recorded(rid, o)];
      FullHistory(rid, o, permit);
    }
  }

  lemma FullHistory(rid: nat, o: Outcome, permit: Option<nat>)
    ensures Hist([Recorded(rid, HttpStarted), Sent(rid, permit, 0), Recorded(rid, o)], rid) == [HttpStarted, o]
  {
    var start, sent, end := Recorded(rid, HttpStarted), Sent(rid, permit, 0), Recorded(rid, o);
    HistSnoc([], start, rid);
    assert [] + [start] == [start];
    HistSnoc([start], sent, rid);
    assert [start] + [sent] == [start, sent];
    HistSnoc([start, sent], end, rid);
    assert [start, sent] + [end] == [start, sent, end];
  }

  /** A client, gated or not, that alone runs a reservation to the end leaves a complete history
      exactly when the reservation had no record before: the row still said reservation_granted. */
  lemma FullAttemptIsCompleteIffUnused(w: World, c: nat, rid: nat, env: AttemptEnv, gate: Option<Op>)
    requires Inv(w) && Ready(w, c, rid, env, gate) && env.endWrite.Committed?
    ensures CompleteShape(Hist(Play(w, AttemptSteps(c, env, gate)).log, rid)) <==> Hist(w.log, rid) == []
  {
    if Hist(w.log, rid) == [] { NoRecordNoStart(w.log, rid); }
    FullAttemptFrom(w, c, rid, env, gate);
  }

  lemma FullAttemptFrom(w: World, c: nat, rid: nat, env: AttemptEnv, gate: Option<Op>)
    requires Ready(w, c, rid, env, gate) && env.endWrite.Committed? && (Hist(w.log, rid) == [] ==> !HasStart(w.ledger, rid))
    ensures CompleteShape(Hist(Play(w, AttemptSteps(c, env, gate)).log, rid)) <==> Hist(w.log, rid) == []
  {
    var env' := Guarded(env, HasStart(w.ledger, rid));
    var added := Lift(Attempt(rid, env', gate.Some?).log, PermitOf(gate));
    SoloAttempt(w, c, rid, env, gate);
    AttemptAdds(rid, env', gate.Some?, PermitOf(gate));
    HistAppend(w.log, added, rid);
    AppendedShape(Hist(w.log, rid), Hist(added, rid));
  }

  /** Two histories that each end an attempt do not make a complete one. */
  lemma AppendedShape(h: seq<Outcome>, added: seq<Outcome>)
    requires CompleteShape(added)
    ensures CompleteShape(h + added) <==> h == []
  {
    if h != [] {
      assert (h + added)[0] == h[0] && (h + added)[|h|] == added[0];
    }
  }

  lemma {:induction false} NoRecordNoStart(log: seq<SysEvent>, rid: nat)
    requires Hist(log, rid) == []
    ensures Recorded(rid, HttpStarted) !in log
    decreases |log|
  {
    if log != [] {
      NoRecordNoStart(log[..|log| - 1], rid);
      assert log == log[..|log| - 1] + [log[|log| - 1]];
    }
  }

  /** A client, gated or not, given a grant whose start is recorded sends nothing, but appends
      reserved_but_http_not_started to whatever the history was. */
  lemma ReusedGrantOverwritesHistory(w: World, c: nat, rid: nat, env: AttemptEnv, gate: Option<Op>)
    requires Ready(w, c, rid, env, gate) && HasStart(w.ledger, rid) && env.endWrite.Committed?
    ensures var w' := Play(w, AttemptSteps(c, env, gate));
            && w'.log == w.log + [Recorded(rid, NotStarted)]
            && Hist(w'.log, rid) == Hist(w.log, rid) + [NotStarted]
  {
    if env.provider.FailsBeforeStart? { SoloUnprepared(w, c, rid, env, gate); } else { SoloUnstarted(w, c, rid, env, gate); }
    HistSnoc(w.log, Recorded(rid, NotStarted), rid);
  }

  /** A run in which a driver succeeds with the only grant. */
  lemma OneSuccess() returns (w: World, acts: seq<Action>)
    ensures Initial(w) && At(Play(w, acts), 0) == Idle && HasStart(Play(w, acts).ledger, 0)
    ensures Hist(Play(w, acts).log, 0) == [HttpStarted, HttpSucceeded]
  {
    var env := AttemptEnv(Posts(Response(0)), true, Committed, Committed);
    w := World(Ledger(true, map[], map[], true, map[]), map[], []);
    var w1, ask := GrantedTo(w, 0);
    var steps := AttemptSteps(0, env, None);
    SoloStarted(w1, 0, 0, env, None);
    acts := ask + steps;
    PlayConcat(w, ask, steps);
    FirstHistory(w1, Play(w, acts));
    StartIsInLedger(w, acts);
  }

  lemma StartIsInLedger(w: World, acts: seq<Action>)
    requires Initial(w) && Recorded(0, HttpStarted) in Play(w, acts).log
    ensures HasStart(Play(w, acts).ledger, 0)
  {
    InitialInv(w);
    PlayKeepsInv(w, acts);
  }

  /** Such a reuse is reachable: after a success a client is given the same grant again. */
  lemma GrantReuseRun() returns (w: World, acts: seq<Action>)
    ensures Initial(w) && Hist(Play(w, acts).log, 0) == [HttpStarted, HttpSucceeded, NotStarted]
  {
    var first;
    w, first := OneSuccess();
    var w1, adopt := Play(w, first), [Adopt(0, 0, false)];
    var w2 := Apply(w1, adopt[0]);
    var env := AttemptEnv(FailsBeforeStart(Transport), true, Committed, Committed);
    var again := AttemptSteps(0, env, None);
    ReusedGrantOverwritesHistory(w2, 0, 0, env, None);
    UnfoldPlay(w1, adopt);
    acts := first + (adopt + again);
    PlayConcat(w, first, adopt + again);
    PlayConcat(w1, adopt, again);
  }

  lemma FirstHistory(w1: World, w2: World)
    requires w1.log == [Issued(0)]
    requires w2.log == w1.log + ([Recorded(0, HttpStarted), Sent(0, None, 0)] + [Recorded(0, HttpSucceeded)])
    ensures Hist(w2.log, 0) == [HttpStarted, HttpSucceeded] && Recorded(0, HttpStarted) in w2.log
  {
    assert w2.log[1] == Recorded(0, HttpStarted);
    var added := [Recorded(0, HttpStarted), Sent(0, None, 0), Recorded(0, HttpSucceeded)];
    assert w2.log == w1.log + added && w1.log == [] + [Issued(0)];
    HistSnoc([], Issued(0), 0);
    FullHistory(0, HttpSucceeded, None);
    HistAppend(w1.log, added, 0);
  }
}

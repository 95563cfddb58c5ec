/** What every interleaving of callers keeps: POST safety and counting, and the rate of POSTs. */
module FdcSystemLaws {
  import opened Outcomes
  import opened FdcAttempt
  import opened FdcQuota
  import opened FdcSystem

  // ---------------------------------------------------------------- POST safety and counting

  function CountIssued(log: seq<SysEvent>): nat {
    if log == [] then 0
    else CountIssued(log[..|log| - 1]) + if log[|log| - 1].Issued? then 1 else 0
  }

  function CountSent(log: seq<SysEvent>): nat {
    if log == [] then 0
    else CountSent(log[..|log| - 1]) + if log[|log| - 1].Sent? then 1 else 0
  }

  function IssuedRids(log: seq<SysEvent>): set<nat> {
    if log == [] then {}
    else IssuedRids(log[..|log| - 1]) + if log[|log| - 1].Issued? then {log[|log| - 1].rid} else {}
  }

  function SentRids(log: seq<SysEvent>): set<nat> {
    if log == [] then {}
    else SentRids(log[..|log| - 1]) + if log[|log| - 1].Sent? then {log[|log| - 1].rid} else {}
  }

  lemma {:induction false} RidsMeanEvents(log: seq<SysEvent>, rid: nat)
    ensures rid in IssuedRids(log) <==> Issued(rid) in log
    ensures rid in SentRids(log) <==> PostedIn(log, rid)
    decreases |log|
  {
    if log != [] {
      var before, e := log[..|log| - 1], log[|log| - 1];
      RidsMeanEvents(before, rid);
      assert log == before + [e];
      Snoc(before, e);
    }
  }

  lemma SafePrefix(log: seq<SysEvent>, n: nat)
    requires SafeLog(log) && n <= |log|
    ensures SafeLog(log[..n])
  {
    forall i | 0 <= i < n ensures Allowed(log[..n][..i], log[..n][i]) {
      assert log[..n][..i] == log[..i];
      assert Allowed(log[..i], log[i]);
    }
  }

  /** In a safe log every reservation is issued once and POSTed at most once, so counting events is
      counting reservations. */
  lemma {:induction false} SafeLogCounts(log: seq<SysEvent>)
    requires SafeLog(log)
    ensures CountIssued(log) == |IssuedRids(log)| && CountSent(log) == |SentRids(log)|
    decreases |log|
  {
    if log != [] {
      var before, e := log[..|log| - 1], log[|log| - 1];
      SafePrefix(log, |log| - 1);
      SafeLogCounts(before);
      assert Allowed(before, e);
      RidsMeanEvents(before, e.rid);
    }
  }

  lemma PostsHaveGrants(log: seq<SysEvent>)
    requires SafeLog(log)
    ensures SentRids(log) <= IssuedRids(log)
  {
    forall rid | rid in SentRids(log) ensures rid in IssuedRids(log) {
      RidsMeanEvents(log, rid);
      var i :| 0 <= i < |log| && log[i].Sent? && log[i].rid == rid;
      assert Allowed(log[..i], log[i]);
      SentNeedsIssue(log, rid);
    }
  }

  lemma SentNeedsIssue(before: seq<SysEvent>, rid: nat)
    requires SafeLog(before) && Recorded(rid, HttpStarted) in before
    ensures Issued(rid) in before
  {
    var i :| 0 <= i < |before| && before[i] == Recorded(rid, HttpStarted);
    assert Allowed(before[..i], before[i]);
  }

  /** In every reachable state of every interleaving: each POST has its own reservation, issued
      before it, whose start was recorded before it; no reservation is POSTed twice; and POSTs never
      outnumber grants. */
  lemma PostsAreSafe(w: World, acts: seq<Action>)
    requires Initial(w)
    ensures var log := Play(w, acts).log;
            && (forall i :: 0 <= i < |log| && log[i].Sent? ==>
                  && Issued(log[i].rid) in log[..i]
                  && Recorded(log[i].rid, HttpStarted) in log[..i]
                  && (forall j :: 0 <= j < |log| && log[j].Sent? && log[j].rid == log[i].rid ==> j == i))
            && CountSent(log) <= CountIssued(log)
  {
    InitialInv(w);
    PlayKeepsInv(w, acts);
    var log := Play(w, acts).log;
    SafeLogCounts(log);
    PostsHaveGrants(log);
    SubsetSize(SentRids(log), IssuedRids(log));
    forall i | 0 <= i < |log| && log[i].Sent?
      ensures Issued(log[i].rid) in log[..i] && Recorded(log[i].rid, HttpStarted) in log[..i]
    {
      assert Allowed(log[..i], log[i]);
      SafePrefix(log, i);
      SentNeedsIssue(log[..i], log[i].rid);
    }
    forall i, j | 0 <= i < j < |log| && log[i].Sent? && log[j].Sent? ensures log[i].rid != log[j].rid {
      assert Allowed(log[..j], log[j]);
      assert log[..j][i] == log[i];
    }
  }

  // ---------------------------------------------------------------- rates

  lemma ApplyIsLedgerStep(w: World, act: Action) returns (op: Op)
    ensures Apply(w, act).ledger == w.ledger || Apply(w, act).ledger == Step(w.ledger, op)
    ensures op.Reserve? ==> act.Ask? && op == act.op
  {
    match act {
      case Ask(_, o) => op := o;
      case PassGate(_, o) => op := if o.Reserve? then Finish(0) else o;
      case WriteStart(c, at, _) => op := if At(w, c).Cleared? then RecordOutcome(At(w, c).rid, HttpStarted, at) else Finish(0);
      case WriteEnd(c, at, _) => op := if At(w, c).Closing? then RecordOutcome(At(w, c).rid, At(w, c).outcome, at) else Finish(0);
      case Elsewhere(o) => op := if o.Reserve? then Finish(0) else o;
      case _ => op := Finish(0);
    }
  }

  predicate AsksConfigured(acts: seq<Action>, rpm: int, window: int) {
    forall i :: 0 <= i < |acts| && acts[i].Ask? && acts[i].op.Reserve? ==>
      acts[i].op.rpm <= rpm && acts[i].op.window >= window
  }

  lemma {:induction false} PlayKeepsQuota(w: World, acts: seq<Action>, rpm: int, window: int)
    requires Capped(ReservedTimes(w.ledger), window * MICROS, rpm) && AsksConfigured(acts, rpm, window)
    ensures Capped(ReservedTimes(Play(w, acts).ledger), window * MICROS, rpm)
    decreases |acts|
  {
    if acts != [] {
      var op := ApplyIsLedgerStep(w, acts[0]);
      if Apply(w, acts[0]).ledger != w.ledger { StepKeepsQuota(w.ledger, op, rpm, window); }
      PlayKeepsQuota(Apply(w, acts[0]), acts[1..], rpm, window);
    }
  }

  /** The reservations that were POSTed and reserved inside one window. */
  function PostedInWindow(w: World, length: int, end: int): set<nat> {
    set r | r in SentRids(w.log) && r in w.ledger.attempts && end - length < w.ledger.attempts[r].reservedAt <= end
  }

  /** However callers interleave, no window of reservation times holds more than `rpm` POSTs. */
  lemma PostsWithinQuota(w: World, acts: seq<Action>, rpm: nat, window: int, end: int)
    requires Initial(w) && AsksConfigured(acts, rpm, window)
    ensures |PostedInWindow(Play(w, acts), window * MICROS, end)| <= rpm
  {
    assert ReservedTimes(w.ledger) == map[];
    EmptyIsCapped(window * MICROS, rpm);
    PlayKeepsQuota(w, acts, rpm, window);
    var times := ReservedTimes(Play(w, acts).ledger);
    assert |InWindow(times, window * MICROS, end)| <= rpm;
    SubsetSize(PostedInWindow(Play(w, acts), window * MICROS, end), InWindow(times, window * MICROS, end));
  }

  predicate GatesLimited(acts: seq<Action>, limit: int) {
    forall i :: 0 <= i < |acts| && acts[i].PassGate? ==> GateLimited(acts[i].op, limit)
  }

  lemma ApplyOnGate(w: World, act: Action)
    ensures Apply(w, act).ledger.gate == w.ledger.gate ||
            (act.PassGate? && Apply(w, act).ledger == Step(w.ledger, act.op))
  {
  }

  lemma {:induction false} PlayKeepsGate(w: World, acts: seq<Action>, limit: int)
    requires Capped(w.ledger.gate, REQUIRED_WINDOW_SECONDS * MICROS, limit) && GatesLimited(acts, limit)
    ensures Capped(Play(w, acts).ledger.gate, REQUIRED_WINDOW_SECONDS * MICROS, limit)
    decreases |acts|
  {
    if acts != [] {
      ApplyOnGate(w, acts[0]);
      if acts[0].PassGate? { StepKeepsGate(w.ledger, acts[0].op, limit); }
      PlayKeepsGate(Apply(w, acts[0]), acts[1..], limit);
    }
  }

  // ---------------------------------------------------------------- gate permits and POSTs

  /** The gate permit a caller has taken and not yet used. */
  function Permit(p: Proc): Option<nat> {
    match p
    case Cleared(_, gate) => gate
    case Started(_, gate) => gate
    case _ => None
  }

  predicate UsedPermit(log: seq<SysEvent>, g: nat) {
    exists i :: 0 <= i < |log| && log[i].Sent? && log[i].gate == Some(g)
  }

  ghost predicate GateInv(w: World) {
    && (forall c :: Permit(At(w, c)).Some? ==>
          Permit(At(w, c)).value in w.ledger.gate && !UsedPermit(w.log, Permit(At(w, c)).value))
    && (forall c, d :: Permit(At(w, c)).Some? && Permit(At(w, c)) == Permit(At(w, d)) ==> c == d)
    && (forall g :: UsedPermit(w.log, g) ==> g in w.ledger.gate)
    && (forall i, j :: 0 <= i < j < |w.log| && w.log[i].Sent? && w.log[j].Sent? && w.log[i].gate.Some? ==>
          w.log[i].gate != w.log[j].gate)
  }

  lemma GateOnlyGrows(w: World, act: Action)
    ensures forall g :: g in w.ledger.gate ==> g in Apply(w, act).ledger.gate
    ensures act.PassGate? && Permit(At(Apply(w, act), act.c)).Some? && Permit(At(Apply(w, act), act.c)) != Permit(At(w, act.c)) ==>
              act.op.AcquireGate? && Permit(At(Apply(w, act), act.c)) == Some(act.op.id) &&
              act.op.id !in w.ledger.gate && act.op.id in Apply(w, act).ledger.gate
  {
  }

  lemma UsedSnoc(log: seq<SysEvent>, e: SysEvent)
    ensures forall g: nat :: UsedPermit(log + [e], g) <==> UsedPermit(log, g) || (e.Sent? && e.gate == Some(g))
  {
    var longer := log + [e];
    forall g: nat ensures UsedPermit(longer, g) <==> UsedPermit(log, g) || (e.Sent? && e.gate == Some(g)) {
      if UsedPermit(log, g) {
        var i :| 0 <= i < |log| && log[i].Sent? && log[i].gate == Some(g);
        assert longer[i] == log[i];
      }
      if e.Sent? && e.gate == Some(g) { assert longer[|log|] == e; }
    }
  }

  /** What one action does, as far as permits are concerned. */
  ghost predicate PermitStep(w: World, w': World, c: nat) {
    && (forall d :: d != c ==> At(w', d) == At(w, d))
    && (forall g :: g in w.ledger.gate ==> g in w'.ledger.gate)
    && (Permit(At(w', c)) == Permit(At(w, c)) || Permit(At(w', c)).None? ||
        (Permit(At(w', c)).value in w'.ledger.gate && Permit(At(w', c)).value !in w.ledger.gate))
    && (w'.log == w.log || exists e :: Logs(w, w', c, e))
  }

  ghost predicate Logs(w: World, w': World, c: nat, e: SysEvent) {
    && w'.log == w.log + [e]
    && (e.Sent? ==> At(w, c).Started? && e.gate == Permit(At(w, c)) && Permit(At(w', c)).None?)
  }

  lemma ApplyIsPermitStep(w: World, act: Action)
    ensures PermitStep(w, Apply(w, act), if act.Elsewhere? then 0 else act.c)
  {
    GateOnlyGrows(w, act);
    var w' := Apply(w, act);
    if w'.log != w.log {
      assert Logs(w, w', act.c, w'.log[|w'.log| - 1]);
    }
  }

  lemma PermitStepKeepsGateInv(w: World, w': World, c: nat)
    requires GateInv(w) && PermitStep(w, w', c)
    ensures GateInv(w')
  {
    if w'.log != w.log {
      var e :| Logs(w, w', c, e);
      UsedSnoc(w.log, e);
      forall i, j | 0 <= i < j < |w'.log| && w'.log[i].Sent? && w'.log[j].Sent? && w'.log[i].gate.Some?
        ensures w'.log[i].gate != w'.log[j].gate
      {
        assert w.log[i] == w'.log[i];
        assert UsedPermit(w.log, w'.log[i].gate.value);
      }
    }
  }

  lemma {:induction false} PlayKeepsGateInv(w: World, acts: seq<Action>)
    requires GateInv(w)
    ensures GateInv(Play(w, acts))
    decreases |acts|
  {
    if acts != [] {
      ApplyIsPermitStep(w, acts[0]);
      PermitStepKeepsGateInv(w, Apply(w, acts[0]), if acts[0].Elsewhere? then 0 else acts[0].c);
      PlayKeepsGateInv(Apply(w, acts[0]), acts[1..]);
    }
  }

  /** Positions of the gated POSTs inside one window of actual send times. */
  function GatedPosts(log: seq<SysEvent>, length: int, end: int): set<nat> {
    set i: nat | i < |log| && log[i].Sent? && log[i].gate.Some? && end - length < log[i].at <= end
  }

  /** Every gated POST leaves at most `lag` after its gate grant. */
  ghost predicate Lagged(w: World, lag: int) {
    forall i :: 0 <= i < |w.log| && w.log[i].Sent? && w.log[i].gate.Some? && w.log[i].gate.value in w.ledger.gate ==>
      w.ledger.gate[w.log[i].gate.value] <= w.log[i].at <= w.ledger.gate[w.log[i].gate.value] + lag
  }

  lemma {:induction false} InjectionSize(s: set<nat>, log: seq<SysEvent>, t: set<nat>)
    requires forall i :: i in s ==> i < |log| && log[i].Sent? && log[i].gate.Some? && log[i].gate.value in t
    requires forall i, j :: i in s && j in s && i != j ==> log[i].gate != log[j].gate
    ensures |s| <= |t|
    decreases s
  {
    if s != {} {
      var i :| i in s;
      InjectionSize(s - {i}, log, t - {log[i].gate.value});
    }
  }

  /** The physical rate: if every gated POST leaves at most `lag` after its gate grant, no window of
      60 seconds minus `lag` holds more than `limit` of them: 13 for any callers and any settings, or
      any limit that the callers' settings respect. */
  lemma GatedPostRate(w: World, acts: seq<Action>, limit: nat, lag: int, end: int)
    requires Initial(w) && Lagged(Play(w, acts), lag) && GatesLimited(acts, limit)
    ensures |GatedPosts(Play(w, acts).log, REQUIRED_WINDOW_SECONDS * MICROS - lag, end)| <= limit
  {
    var length := REQUIRED_WINDOW_SECONDS * MICROS;
    EmptyIsCapped(length, limit);
    PlayKeepsGate(w, acts, limit);
    PlayKeepsGateInv(w, acts);
    var w' := Play(w, acts);
    var posts, permits := GatedPosts(w'.log, length - lag, end), InWindow(w'.ledger.gate, length, end);
    forall i | i in posts ensures w'.log[i].gate.value in permits {
      assert UsedPermit(w'.log, w'.log[i].gate.value);
    }
    forall i, j | i in posts && j in posts && i != j ensures w'.log[i].gate != w'.log[j].gate {
      if i < j { assert w'.log[i].gate != w'.log[j].gate; } else { assert w'.log[j].gate != w'.log[i].gate; }
    }
    InjectionSize(posts, w'.log, permits);
    assert |permits| <= limit;
  }
}

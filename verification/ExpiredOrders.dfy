/** Classifying expired orders by a diagnosis and repairing the safe ones
    (backfill_expired_odno_orders.py). */
module ExpiredOrders {
  import opened Outcomes

  datatype Verdict =
    | Filled | Partial | Expired | PaperMissing | Manual | PositionDeltaFilled | PositionDeltaPartial
    | Absent | OtherVerdict(text: string)

  /** The KIS order status: missing, one of the fill codes 21, 22, 11, 12, or another code. */
  datatype OrderStat = NoStat | FillCode | OtherCode

  /** The position delta as read: missing, a number, or something that is not a number. */
  datatype Delta = NoDelta | Number(value: real) | NotANumber

  datatype Match = Match(
    matched: bool, verdict: Verdict, ordStat: OrderStat, filledQty: Option<int>,
    delta: Delta, positionVerdict: Verdict, directOdno: bool)

  datatype Diagnosis = Failed | NoMatchDict(verdict: Verdict) | Diagnosed(verdict: Verdict, details: Match)

  datatype Class = AutoFixSafe | TruthProbeConflict | ManualCheck

  datatype Status = ExpiredStatus | FilledStatus | PartiallyFilledStatus | OtherStatus(name: string)

  datatype ConflictType =
    | DeltaFilled | DeltaPartial | PaperTruthMissing | OrdStatConflict | QtyMismatch | DeltaNoVerdict

  datatype Classified = Classified(class_: Class, target: Option<Status>, conflict: Option<ConflictType>)

  // ---------------------------------------------------------------- classification

  /** `_classify`, with the list of reasons as a count. */
  method Classify(d: Diagnosis, requested: Option<int>) returns (r: Classified)
    ensures r == Decision(d, requested)
  {
    if d.Failed? { return Classified(ManualCheck, None, None); }
    if d.NoMatchDict? { return Classified(ManualCheck, None, None); }
    var m := d.details;
    if d.verdict == Manual { return Classified(ManualCheck, None, None); }
    if !m.matched { return Classified(ManualCheck, None, None); }

    var reasons: nat := 0;
    var conflict: Option<ConflictType> := None;
    if m.positionVerdict == PositionDeltaFilled {
      var kisFilled := m.directOdno && m.filledQty.Some? && requested.Some? && m.filledQty.value >= requested.value
                       && m.ordStat == FillCode;
      if !kisFilled {
        reasons := reasons + 1;
        conflict := Some(DeltaFilled);
      }
    } else if m.positionVerdict == PositionDeltaPartial {
      reasons := reasons + 1;
      conflict := Some(DeltaPartial);
    }
    if m.verdict in {PaperMissing, PositionDeltaFilled, PositionDeltaPartial} {
      reasons := reasons + 1;
      if conflict.None? { conflict := Some(PaperTruthMissing); }
    }
    if m.ordStat == OtherCode && m.filledQty.Some? && m.filledQty.value > 0 {
      reasons := reasons + 1;
      if conflict.None? { conflict := Some(OrdStatConflict); }
    }
    if d.verdict == Filled && m.filledQty.Some? && requested.Some? && m.filledQty.value != requested.value {
      reasons := reasons + 1;
      if conflict.None? { conflict := Some(QtyMismatch); }
    }
    if d.verdict == Partial && m.filledQty.Some? && requested.Some? && m.filledQty.value > requested.value {
      reasons := reasons + 1;
      if conflict.None? { conflict := Some(QtyMismatch); }
    }
    if m.delta.Number? && m.delta.value != 0.0 {
      if m.positionVerdict == Absent && m.verdict != Expired {
        reasons := reasons + 1;
        if conflict.None? { conflict := Some(DeltaNoVerdict); }
      }
    }
    if reasons > 0 { return Classified(TruthProbeConflict, None, conflict); }

    if !m.directOdno { return Classified(ManualCheck, None, None); }
    if d.verdict == Expired { return Classified(AutoFixSafe, None, None); }
    if d.verdict != Filled && d.verdict != Partial { return Classified(ManualCheck, None, None); }
    r := Classified(AutoFixSafe, Some(if d.verdict == Filled then FilledStatus else PartiallyFilledStatus), None);
  }

  /** The evidence of a position delta contradicts or does not support the match. */
  predicate DeltaConflict(m: Match, requested: Option<int>) {
    || m.positionVerdict == PositionDeltaPartial
    || (m.positionVerdict == PositionDeltaFilled &&
        !(m.directOdno && m.ordStat == FillCode && m.filledQty.Some? && requested.Some? && m.filledQty.value >= requested.value))
    || (m.delta.Number? && m.delta.value != 0.0 && m.positionVerdict == Absent && m.verdict != Expired)
  }

  /** The matched execution contradicts the diagnosis. */
  predicate FillConflict(v: Verdict, m: Match, requested: Option<int>) {
    || m.verdict in {PaperMissing, PositionDeltaFilled, PositionDeltaPartial}
    || (m.ordStat == OtherCode && m.filledQty.Some? && m.filledQty.value > 0)
    || (v == Filled && m.filledQty.Some? && requested.Some? && m.filledQty.value != requested.value)
    || (v == Partial && m.filledQty.Some? && requested.Some? && m.filledQty.value > requested.value)
  }

  predicate Conflicting(d: Diagnosis, requested: Option<int>)
    requires d.Diagnosed?
  {
    DeltaConflict(d.details, requested) || FillConflict(d.verdict, d.details, requested)
  }

  /** The diagnosis can be acted on at all. */
  predicate Usable(d: Diagnosis) {
    d.Diagnosed? && d.verdict != Manual && d.details.matched
  }

  /** Which of several conflicts is reported: position deltas first, a delta without verdict last. */
  function ConflictOf(d: Diagnosis, requested: Option<int>): ConflictType
    requires d.Diagnosed? && Conflicting(d, requested)
  {
    var m := d.details;
    if m.positionVerdict == PositionDeltaFilled && DeltaConflict(m, requested) then DeltaFilled
    else if m.positionVerdict == PositionDeltaPartial then DeltaPartial
    else if m.verdict in {PaperMissing, PositionDeltaFilled, PositionDeltaPartial} then PaperTruthMissing
    else if m.ordStat == OtherCode && m.filledQty.Some? && m.filledQty.value > 0 then OrdStatConflict
    else if FillConflict(d.verdict, m, requested) then QtyMismatch
    else DeltaNoVerdict
  }

  /** The classification as a decision table: unusable, conflicting, indirect, then by verdict. */
  function Decision(d: Diagnosis, requested: Option<int>): Classified {
    if !Usable(d) then Classified(ManualCheck, None, None)
    else if Conflicting(d, requested) then Classified(TruthProbeConflict, None, Some(ConflictOf(d, requested)))
    else if !d.details.directOdno then Classified(ManualCheck, None, None)
    else match d.verdict
      case Filled => Classified(AutoFixSafe, Some(FilledStatus), None)
      case Partial => Classified(AutoFixSafe, Some(PartiallyFilledStatus), None)
      case Expired => Classified(AutoFixSafe, None, None)
      case _ => Classified(ManualCheck, None, None)
  }

  /** When an order is to be repaired, and to what: exactly on a usable, direct, conflict-free match
      whose verdict is filled (with equal quantities where both are known) or partially filled (with a
      known fill not above the request). */
  lemma TargetsAreJustified(d: Diagnosis, requested: Option<int>)
    ensures var t := Decision(d, requested).target;
            && (t == Some(FilledStatus) <==>
                  Usable(d) && d.verdict == Filled && d.details.directOdno && !Conflicting(d, requested))
            && (t == Some(PartiallyFilledStatus) <==>
                  Usable(d) && d.verdict == Partial && d.details.directOdno && !Conflicting(d, requested))
            && (t.Some? ==> Decision(d, requested).class_ == AutoFixSafe &&
                            (t.value == FilledStatus || t.value == PartiallyFilledStatus))
            && (t == Some(FilledStatus) ==>
                  d.details.filledQty.Some? && requested.Some? ==> d.details.filledQty.value == requested.value)
            && (t == Some(PartiallyFilledStatus) ==>
                  d.details.filledQty.Some? && requested.Some? ==> d.details.filledQty.value <= requested.value)
  {
  }

  /** The KIS fill confirms a position delta that says filled. */
  predicate Confirmed(m: Match, requested: Option<int>) {
    m.directOdno && m.ordStat == FillCode && m.filledQty.Some? && requested.Some? && m.filledQty.value >= requested.value
  }

  predicate KnownBoth(m: Match, requested: Option<int>) {
    m.filledQty.Some? && requested.Some?
  }

  /** When a repair is made, field by field: the order is matched directly by its number, and position
      delta, paper verdict, order status and quantities all agree with the verdict. */
  lemma RepairExactly(d: Diagnosis, requested: Option<int>)
    requires d.Diagnosed?
    ensures var m := d.details;
            var quiet :=
              && m.matched && m.directOdno && m.positionVerdict != PositionDeltaPartial
              && (m.positionVerdict == PositionDeltaFilled ==> Confirmed(m, requested))
              && m.verdict !in [PaperMissing, PositionDeltaFilled, PositionDeltaPartial]
              && !(m.ordStat == OtherCode && m.filledQty.Some? && m.filledQty.value > 0)
              && !(m.delta.Number? && m.delta.value != 0.0 && m.positionVerdict == Absent && m.verdict != Expired);
            && (Decision(d, requested) == Classified(AutoFixSafe, Some(FilledStatus), None) <==>
                quiet && d.verdict == Filled && (KnownBoth(m, requested) ==> m.filledQty.value == requested.value))
            && (Decision(d, requested) == Classified(AutoFixSafe, Some(PartiallyFilledStatus), None) <==>
                quiet && d.verdict == Partial && (KnownBoth(m, requested) ==> m.filledQty.value <= requested.value))
            && (Decision(d, requested) == Classified(AutoFixSafe, None, None) <==> quiet && d.verdict == Expired)
            && (Decision(d, requested).class_ == AutoFixSafe <==>
                Decision(d, requested) in [Classified(AutoFixSafe, Some(FilledStatus), None),
                  Classified(AutoFixSafe, Some(PartiallyFilledStatus), None), Classified(AutoFixSafe, None, None)])
  {
  }

  /** A failed or undiagnosed order is left to a person; so is an unmatched one, one with the verdict
      manual, an indirect match without conflict, and a direct one with any other verdict. */
  lemma ManualExactly(d: Diagnosis, requested: Option<int>)
    ensures d.Failed? || d.NoMatchDict? ==> Decision(d, requested) == Classified(ManualCheck, None, None)
    ensures d.Diagnosed? && (d.verdict == Manual || !d.details.matched) ==> Decision(d, requested) == Classified(ManualCheck, None, None)
    ensures d.Diagnosed? && d.verdict != Manual && d.details.matched && Decision(d, requested).class_ == ManualCheck ==>
              !d.details.directOdno || d.verdict !in [Filled, Partial, Expired]
  {
  }

  /** Which conflict is reported, in the order of the checks. */
  lemma ConflictExactly(d: Diagnosis, requested: Option<int>)
    requires d.Diagnosed? && d.verdict != Manual && d.details.matched
    ensures var m, c := d.details, Decision(d, requested).conflict;
            var delta := (m.positionVerdict == PositionDeltaFilled && !Confirmed(m, requested)) || m.positionVerdict == PositionDeltaPartial;
            var paper := m.verdict in [PaperMissing, PositionDeltaFilled, PositionDeltaPartial];
            var stat := m.ordStat == OtherCode && m.filledQty.Some? && m.filledQty.value > 0;
            var qty := KnownBoth(m, requested) &&
                       ((d.verdict == Filled && m.filledQty.value != requested.value) || (d.verdict == Partial && m.filledQty.value > requested.value));
            var loose := m.delta.Number? && m.delta.value != 0.0 && m.positionVerdict == Absent && m.verdict != Expired;
            c == if delta then Some(if m.positionVerdict == PositionDeltaFilled then DeltaFilled else DeltaPartial)
                 else if paper then Some(PaperTruthMissing)
                 else if stat then Some(OrdStatConflict)
                 else if qty then Some(QtyMismatch)
                 else if loose then Some(DeltaNoVerdict)
                 else None
    ensures Decision(d, requested).class_ == TruthProbeConflict <==> Decision(d, requested).conflict.Some?
  {
  }

  // ---------------------------------------------------------------- the batch

  datatype Order = Order(id: nat, requested: Option<int>)

  datatype Totals = Totals(safe: nat, conflicts: nat, manual: nat, filled: nat, partial: nat)

  /** What one order asks for. */
  function TargetOf(inventory: seq<Order>, diagnose: nat -> Diagnosis, i: nat): Option<Status>
    requires i < |inventory|
  {
    Decision(diagnose(i), inventory[i].requested).target
  }

  /** The table after the first `n` orders of a real run: the guarded update moves only expired rows. */
  function Repaired(table: map<nat, Status>, inventory: seq<Order>, diagnose: nat -> Diagnosis, n: nat): map<nat, Status>
    requires n <= |inventory|
    decreases n, 0
  {
    if n == 0 then table
    else
      var before := Repaired(table, inventory, diagnose, n - 1);
      if Applies(table, inventory, diagnose, n - 1)
      then before[inventory[n - 1].id := TargetOf(inventory, diagnose, n - 1).value]
      else before
  }

  /** Order `i` has a target and its row is still expired when its turn comes. */
  predicate Applies(table: map<nat, Status>, inventory: seq<Order>, diagnose: nat -> Diagnosis, i: nat)
    requires i < |inventory|
    decreases i, 1
  {
    var t, before := TargetOf(inventory, diagnose, i), Repaired(table, inventory, diagnose, i);
    t.Some? && inventory[i].id in before && before[inventory[i].id] == ExpiredStatus
  }

  /** Orders among the first `n` that want `status`, or that get it in a real run. */
  function Wanting(inventory: seq<Order>, diagnose: nat -> Diagnosis, status: Status, n: nat): nat
    requires n <= |inventory|
  {
    if n == 0 then 0
    else Wanting(inventory, diagnose, status, n - 1) + if TargetOf(inventory, diagnose, n - 1) == Some(status) then 1 else 0
  }

  function Getting(table: map<nat, Status>, inventory: seq<Order>, diagnose: nat -> Diagnosis, status: Status, n: nat): nat
    requires n <= |inventory|
  {
    if n == 0 then 0
    else
      Getting(table, inventory, diagnose, status, n - 1) +
      if TargetOf(inventory, diagnose, n - 1) == Some(status) && Applies(table, inventory, diagnose, n - 1) then 1 else 0
  }

  /** Orders among the first `n` that fall into a class. */
  function InClass(inventory: seq<Order>, diagnose: nat -> Diagnosis, class_: Class, n: nat): nat
    requires n <= |inventory|
  {
    if n == 0 then 0
    else
      InClass(inventory, diagnose, class_, n - 1) +
      if Decision(diagnose(n - 1), inventory[n - 1].requested).class_ == class_ then 1 else 0
  }

  class OrderTable {
    var statuses: map<nat, Status>

    /** `_apply_fix`: UPDATE ... WHERE order_request_id = id AND status = 'expired'. */
    method ApplyFix(id: nat, target: Status) returns (applied: bool)
      modifies this
      ensures applied == (id in old(statuses) && old(statuses)[id] == ExpiredStatus)
      ensures statuses == if applied then old(statuses)[id := target] else old(statuses)
    {
      applied := id in statuses && statuses[id] == ExpiredStatus;
      if applied { statuses := statuses[id := target]; }
    }

    /** The loop of `main`. */
    method RunBatch(inventory: seq<Order>, diagnose: nat -> Diagnosis, dryRun: bool) returns (t: Totals)
      modifies this
      ensures t.safe + t.conflicts + t.manual == |inventory|
      ensures t.safe == InClass(inventory, diagnose, AutoFixSafe, |inventory|)
      ensures t.conflicts == InClass(inventory, diagnose, TruthProbeConflict, |inventory|)
      ensures t.manual == InClass(inventory, diagnose, ManualCheck, |inventory|)
      ensures statuses == if dryRun then old(statuses) else Repaired(old(statuses), inventory, diagnose, |inventory|)
      ensures dryRun ==> t.filled == Wanting(inventory, diagnose, FilledStatus, |inventory|)
      ensures dryRun ==> t.partial == Wanting(inventory, diagnose, PartiallyFilledStatus, |inventory|)
      ensures !dryRun ==> t.filled == Getting(old(statuses), inventory, diagnose, FilledStatus, |inventory|)
      ensures !dryRun ==> t.partial == Getting(old(statuses), inventory, diagnose, PartiallyFilledStatus, |inventory|)
    {
      t := Totals(0, 0, 0, 0, 0);
      for i := 0 to |inventory|
        invariant t.safe + t.conflicts + t.manual == i
        invariant t.safe == InClass(inventory, diagnose, AutoFixSafe, i)
        invariant t.conflicts == InClass(inventory, diagnose, TruthProbeConflict, i)
        invariant t.manual == InClass(inventory, diagnose, ManualCheck, i)
        invariant statuses == if dryRun then old(statuses) else Repaired(old(statuses), inventory, diagnose, i)
        invariant dryRun ==> t.filled == Wanting(inventory, diagnose, FilledStatus, i)
        invariant dryRun ==> t.partial == Wanting(inventory, diagnose, PartiallyFilledStatus, i)
        invariant !dryRun ==> t.filled == Getting(old(statuses), inventory, diagnose, FilledStatus, i)
        invariant !dryRun ==> t.partial == Getting(old(statuses), inventory, diagnose, PartiallyFilledStatus, i)
      {
        var c := Classify(diagnose(i), inventory[i].requested);
        TargetsAreJustified(diagnose(i), inventory[i].requested);
        match c.class_ {
          case AutoFixSafe => t := t.(safe := t.safe + 1);
          case TruthProbeConflict => t := t.(conflicts := t.conflicts + 1);
          case ManualCheck => t := t.(manual := t.manual + 1);
        }
        if c.class_ == AutoFixSafe && c.target.Some? {
          var applied := true;
          if !dryRun { applied := ApplyFix(inventory[i].id, c.target.value); }
          if applied {
            if c.target.value == FilledStatus { t := t.(filled := t.filled + 1); }
            else if c.target.value == PartiallyFilledStatus { t := t.(partial := t.partial + 1); }
          }
        }
      }
    }
  }

  // ---------------------------------------------------------------- laws of the batch

  /** Some order `i` before `n` with this id asks for `status`. */
  predicate AskedFor(inventory: seq<Order>, diagnose: nat -> Diagnosis, id: nat, status: Status, n: nat)
    requires n <= |inventory|
  {
    exists i :: 0 <= i < n && inventory[i].id == id && TargetOf(inventory, diagnose, i) == Some(status)
  }

  /** A batch moves only expired orders, and only to a status that the diagnosis of that very order
      justified (see TargetsAreJustified). */
  lemma {:induction false} OnlyExpiredOrdersMove(table: map<nat, Status>, inventory: seq<Order>, diagnose: nat -> Diagnosis, n: nat, id: nat)
    requires n <= |inventory|
    ensures var after := Repaired(table, inventory, diagnose, n);
            && after.Keys == table.Keys
            && (id in table && after[id] != table[id] ==>
                  table[id] == ExpiredStatus && AskedFor(inventory, diagnose, id, after[id], n))
    decreases n
  {
    if n > 0 {
      OnlyExpiredOrdersMove(table, inventory, diagnose, n - 1, id);
      TargetsAreJustified(diagnose(n - 1), inventory[n - 1].requested);
      var after, before := Repaired(table, inventory, diagnose, n), Repaired(table, inventory, diagnose, n - 1);
      if id in table && after[id] != table[id] {
        if after[id] == before[id] {
          var i :| 0 <= i < n - 1 && inventory[i].id == id && TargetOf(inventory, diagnose, i) == Some(after[id]);
          assert AskedFor(inventory, diagnose, id, after[id], n);
        } else {
          assert Applies(table, inventory, diagnose, n - 1) && inventory[n - 1].id == id;
          assert TargetOf(inventory, diagnose, n - 1) == Some(after[id]);
        }
      }
    }
  }

  /** An expired order moves to the target of its first diagnosis that has one. */
  lemma {:induction false} FirstTargetIsApplied(table: map<nat, Status>, inventory: seq<Order>, diagnose: nat -> Diagnosis, n: nat, i: nat)
    requires i < n <= |inventory| && FirstAndExpired(table, inventory, diagnose, i) && TargetOf(inventory, diagnose, i).Some?
    ensures inventory[i].id in Repaired(table, inventory, diagnose, n)
    ensures Repaired(table, inventory, diagnose, n)[inventory[i].id] == TargetOf(inventory, diagnose, i).value
    decreases n
  {
    TargetsAreJustified(diagnose(i), inventory[i].requested);
    if n == i + 1 {
      AppliesExactly(table, inventory, diagnose, i);
    } else {
      FirstTargetIsApplied(table, inventory, diagnose, n - 1, i);
    }
  }

  /** How many marks are set. */
  function Marked(marks: seq<bool>): set<nat> {
    set i: nat | i < |marks| && marks[i]
  }

  lemma OneMoreMark(marks: seq<bool>)
    requires marks != []
    ensures |Marked(marks)| == |Marked(marks[..|marks| - 1])| + if marks[|marks| - 1] then 1 else 0
  {
    var n := |marks| - 1;
    assert Marked(marks) == Marked(marks[..n]) + if marks[n] then {n} else {};
  }

  /** The reported totals are sizes of sets of orders: those in a class, those that want a status, and
      those that get it. */
  lemma {:induction false} ClassTotalIsSize(inventory: seq<Order>, diagnose: nat -> Diagnosis, class_: Class, marks: seq<bool>)
    requires |marks| <= |inventory|
    requires forall i :: 0 <= i < |marks| ==> marks[i] == (Decision(diagnose(i), inventory[i].requested).class_ == class_)
    ensures InClass(inventory, diagnose, class_, |marks|) == |Marked(marks)|
    decreases |marks|
  {
    if marks == [] {
      assert Marked(marks) == {};
    } else {
      ClassTotalIsSize(inventory, diagnose, class_, marks[..|marks| - 1]);
      OneMoreMark(marks);
    }
  }

  lemma {:induction false} WantedTotalIsSize(inventory: seq<Order>, diagnose: nat -> Diagnosis, status: Status, marks: seq<bool>)
    requires |marks| <= |inventory|
    requires forall i :: 0 <= i < |marks| ==> marks[i] == (TargetOf(inventory, diagnose, i) == Some(status))
    ensures Wanting(inventory, diagnose, status, |marks|) == |Marked(marks)|
    decreases |marks|
  {
    if marks == [] {
      assert Marked(marks) == {};
    } else {
      WantedTotalIsSize(inventory, diagnose, status, marks[..|marks| - 1]);
      OneMoreMark(marks);
    }
  }

  lemma {:induction false} AppliedTotalIsSize(table: map<nat, Status>, inventory: seq<Order>, diagnose: nat -> Diagnosis,
                                              status: Status, marks: seq<bool>)
    requires |marks| <= |inventory|
    requires forall i :: 0 <= i < |marks| ==>
               marks[i] == (TargetOf(inventory, diagnose, i) == Some(status) && FirstAndExpired(table, inventory, diagnose, i))
    ensures Getting(table, inventory, diagnose, status, |marks|) == |Marked(marks)|
    decreases |marks|
  {
    if marks == [] {
      assert Marked(marks) == {};
    } else {
      var n := |marks| - 1;
      AppliedTotalIsSize(table, inventory, diagnose, status, marks[..n]);
      OneMoreMark(marks);
      if TargetOf(inventory, diagnose, n) == Some(status) { AppliesExactly(table, inventory, diagnose, n); }
    }
  }

  /** The dry run counts bound the real ones. */
  lemma {:induction false} DryRunBoundsRealRun(table: map<nat, Status>, inventory: seq<Order>, diagnose: nat -> Diagnosis, status: Status, n: nat)
    requires n <= |inventory|
    ensures Getting(table, inventory, diagnose, status, n) <= Wanting(inventory, diagnose, status, n)
    ensures Getting(table, inventory, diagnose, status, n) == Wanting(inventory, diagnose, status, n) <==>
            forall i :: 0 <= i < n && TargetOf(inventory, diagnose, i) == Some(status) ==> Applies(table, inventory, diagnose, i)
    decreases n
  {
    if n > 0 { DryRunBoundsRealRun(table, inventory, diagnose, status, n - 1); }
  }

  /** Order `i` finds its row expired exactly when the row was expired at the start and no earlier
      order of the inventory with the same id had a target. */
  lemma {:induction false} AppliesExactly(table: map<nat, Status>, inventory: seq<Order>, diagnose: nat -> Diagnosis, i: nat)
    requires i < |inventory| && TargetOf(inventory, diagnose, i).Some?
    ensures Applies(table, inventory, diagnose, i) <==>
            inventory[i].id in table && table[inventory[i].id] == ExpiredStatus &&
            forall j :: 0 <= j < i && inventory[j].id == inventory[i].id ==> TargetOf(inventory, diagnose, j).None?
  {
    RowStaysExpired(table, inventory, diagnose, i, inventory[i].id);
  }

  lemma {:induction false} RowStaysExpired(table: map<nat, Status>, inventory: seq<Order>, diagnose: nat -> Diagnosis, n: nat, id: nat)
    requires n <= |inventory|
    ensures var after := Repaired(table, inventory, diagnose, n);
            id in after && after[id] == ExpiredStatus <==>
            id in table && table[id] == ExpiredStatus &&
            forall j :: 0 <= j < n && inventory[j].id == id ==> TargetOf(inventory, diagnose, j).None?
    decreases n
  {
    if n > 0 {
      RowStaysExpired(table, inventory, diagnose, n - 1, id);
      TargetsAreJustified(diagnose(n - 1), inventory[n - 1].requested);
    }
  }

  /** The dry run predicts the real counts exactly when every order with a target is still expired and
      is the first of its id to have one; in particular when ids are distinct and all are expired. */
  lemma DryRunIsExact(table: map<nat, Status>, inventory: seq<Order>, diagnose: nat -> Diagnosis)
    ensures var n := |inventory|;
            (Getting(table, inventory, diagnose, FilledStatus, n) == Wanting(inventory, diagnose, FilledStatus, n) &&
             Getting(table, inventory, diagnose, PartiallyFilledStatus, n) == Wanting(inventory, diagnose, PartiallyFilledStatus, n))
            <==>
            forall i :: 0 <= i < n && TargetOf(inventory, diagnose, i).Some? ==> FirstAndExpired(table, inventory, diagnose, i)
  {
    var n := |inventory|;
    DryRunBoundsRealRun(table, inventory, diagnose, FilledStatus, n);
    DryRunBoundsRealRun(table, inventory, diagnose, PartiallyFilledStatus, n);
    forall i | 0 <= i < n && TargetOf(inventory, diagnose, i).Some?
      ensures Applies(table, inventory, diagnose, i) <==> FirstAndExpired(table, inventory, diagnose, i)
      ensures TargetOf(inventory, diagnose, i) == Some(FilledStatus) || TargetOf(inventory, diagnose, i) == Some(PartiallyFilledStatus)
    {
      AppliesExactly(table, inventory, diagnose, i);
      TargetsAreJustified(diagnose(i), inventory[i].requested);
    }
  }

  predicate FirstAndExpired(table: map<nat, Status>, inventory: seq<Order>, diagnose: nat -> Diagnosis, i: nat)
    requires i < |inventory|
  {
    inventory[i].id in table && table[inventory[i].id] == ExpiredStatus &&
    forall j :: 0 <= j < i && inventory[j].id == inventory[i].id ==> TargetOf(inventory, diagnose, j).None?
  }
}

/** Rewriting references from KOSPI/KOSDAQ instruments to their KRX twin and deleting what is
    then unused (reconcile_instrument_canonical_consistency.py, with the foreign keys of
    db/migrations). */
module Canonical {
  import opened Outcomes

  datatype Market = KRX | KOSPI | KOSDAQ | OtherMarket(code: string)

  /** `bare`: no exchange code, no market segment and empty metadata. */
  datatype Instrument = Instrument(symbol: string, market: Market, bare: bool)

  /** A row's instrument, if the column is set, and the rest of its unique key, if the table has one
      that includes the instrument (signal_feature_snapshots and universe_freeze_run_items do). */
  datatype Row = Row(ref: Option<nat>, key: Option<nat>)

  type Table = map<nat, Row>

  const REFERENCE_TABLES := 7

  /** `ledgers`: the instruments that the realized P&L tables refer to; these tables are not rewritten
      and their foreign keys refuse the delete of such an instrument. */
  datatype Db = Db(instruments: map<nat, Instrument>, tables: seq<Table>, memberships: map<nat, nat>, ledgers: set<nat>)

  // ---------------------------------------------------------------- what the statements mean

  predicate IsLegacy(m: Market) {
    m == KOSPI || m == KOSDAQ
  }

  predicate TwinOf(instruments: map<nat, Instrument>, i: nat, c: nat) {
    i in instruments && c in instruments && instruments[c].symbol == instruments[i].symbol && instruments[c].market == KRX
  }

  /** A legacy row with a KRX row of the same symbol. */
  predicate Mapped(instruments: map<nat, Instrument>, i: nat) {
    i in instruments && IsLegacy(instruments[i].market) && exists c :: c in instruments && TwinOf(instruments, i, c)
  }

  predicate SameKey(a: Instrument, b: Instrument) {
    a.symbol == b.symbol && a.market == b.market
  }

  /** The unique constraint on (symbol, market_code). */
  ghost predicate UniqueKeys(instruments: map<nat, Instrument>) {
    forall i, j | i in instruments && j in instruments :: SameKey(instruments[i], instruments[j]) ==> i == j
  }

  function Twin(instruments: map<nat, Instrument>, i: nat): (c: nat)
    requires UniqueKeys(instruments) && Mapped(instruments, i)
    ensures TwinOf(instruments, i, c)
  {
    var c :| c in instruments && TwinOf(instruments, i, c); c
  }

  /** Where a reference points after the rewrite. */
  function Redirect(instruments: map<nat, Instrument>, ref: Option<nat>): Option<nat>
    requires UniqueKeys(instruments)
  {
    if ref.Some? && Mapped(instruments, ref.value) then Some(Twin(instruments, ref.value)) else ref
  }

  function RewrittenTable(instruments: map<nat, Instrument>, t: Table): Table
    requires UniqueKeys(instruments)
  {
    map r | r in t :: t[r].(ref := Redirect(instruments, t[r].ref))
  }

  /** The rows of a table that refer to a mapped legacy instrument. */
  function LegacyRefs(instruments: map<nat, Instrument>, t: Table): set<nat> {
    set r | r in t && t[r].ref.Some? && Mapped(instruments, t[r].ref.value)
  }

  predicate SameSlot(a: Row, b: Row) {
    a.key.Some? && a.key == b.key && a.ref.Some? && a.ref == b.ref
  }

  /** The table's unique key holds. */
  predicate UniqueIn(t: Table) {
    forall r, q | r in t && q in t && r != q :: !SameSlot(t[r], t[q])
  }

  function Rewritten(db: Db): Db
    requires UniqueKeys(db.instruments)
  {
    db.(tables := seq(|db.tables|, k requires 0 <= k < |db.tables| => RewrittenTable(db.instruments, db.tables[k])))
  }

  /** The delete cascades to the memberships of the deleted rows. */
  function WithoutLegacy(db: Db): Db {
    db.(instruments := map i | i in db.instruments && !Mapped(db.instruments, i) :: db.instruments[i],
        memberships := map m | m in db.memberships && !Mapped(db.instruments, db.memberships[m]) :: db.memberships[m])
  }

  /** The memberships whose instrument is not deleted. */
  function Cascade(memberships: map<nat, nat>, gone: set<nat>): map<nat, nat> {
    map m | m in memberships && memberships[m] !in gone :: memberships[m]
  }

  function MappedRows(instruments: map<nat, Instrument>): set<nat> {
    set i | i in instruments && Mapped(instruments, i)
  }

  /** Deleting by id set, cascade included. */
  function Deleted(db: Db, gone: set<nat>): Db {
    db.(instruments := db.instruments - gone, memberships := Cascade(db.memberships, gone))
  }

  lemma LegacyGone(db: Db, gone: set<nat>)
    requires gone == MappedRows(db.instruments)
    ensures WithoutLegacy(db) == Deleted(db, gone)
    ensures |gone| == |db.instruments.Keys| - |Deleted(db, gone).instruments.Keys|
  {
    assert WithoutLegacy(db).instruments == db.instruments - gone;
    CascadeGone(db, gone);
    RowsGone(db.instruments, gone);
  }

  lemma CascadeGone(db: Db, gone: set<nat>)
    requires gone == MappedRows(db.instruments)
    ensures WithoutLegacy(db).memberships == Cascade(db.memberships, gone)
  {
  }

  lemma RowsGone(instruments: map<nat, Instrument>, gone: set<nat>)
    requires gone <= instruments.Keys
    ensures |gone| == |instruments.Keys| - |(instruments - gone).Keys|
  {
    assert instruments.Keys == (instruments - gone).Keys + gone;
  }

  predicate Referenced(db: Db, i: nat) {
    exists k, r :: 0 <= k < |db.tables| && r in db.tables[k] && db.tables[k][r].ref == Some(i)
  }

  predicate HasMembership(db: Db, i: nat) {
    exists m :: m in db.memberships && db.memberships[m] == i
  }

  predicate Orphan(db: Db, i: nat) {
    i in db.instruments && db.instruments[i].market == KRX && db.instruments[i].bare &&
    !Referenced(db, i) && !HasMembership(db, i)
  }

  function WithoutOrphans(db: Db): Db {
    db.(instruments := map i | i in db.instruments && !Orphan(db, i) :: db.instruments[i])
  }

  /** The whole run. */
  function Reconciled(db: Db): Db
    requires UniqueKeys(db.instruments)
  {
    WithoutOrphans(WithoutLegacy(Rewritten(db)))
  }

  ghost predicate LegacyUnreferenced(db: Db) {
    forall i: nat :: Referenced(db, i) ==> !Mapped(db.instruments, i)
  }

  /** A rewrite would give two rows of a table the same unique key. */
  ghost predicate Collides(db: Db)
    requires UniqueKeys(db.instruments)
  {
    exists k :: 0 <= k < |db.tables| && !UniqueIn(RewrittenTable(db.instruments, db.tables[k]))
  }

  /** A ledger refers to a mapped legacy row. */
  ghost predicate LegacyHeld(instruments: map<nat, Instrument>, ledgers: set<nat>) {
    exists i :: i in ledgers && Mapped(instruments, i)
  }

  /** A delete would take an instrument away from a ledger. */
  ghost predicate Blocked(db: Db)
    requires UniqueKeys(db.instruments)
  {
    || LegacyHeld(db.instruments, db.ledgers)
    || (exists i :: i in db.ledgers && Orphan(WithoutLegacy(Rewritten(db)), i))
  }

  // ---------------------------------------------------------------- imperative model

  datatype Summary = Summary(updated: seq<nat>, deletedLegacy: nat, deletedOrphans: nat)

  /** Instruments of the first set that a ledger refers to. */
  function Held(gone: set<nat>, ledgers: set<nat>): set<nat> {
    gone * ledgers
  }

  lemma LegacyHeldIff(instruments: map<nat, Instrument>, ledgers: set<nat>)
    ensures Held(MappedRows(instruments), ledgers) != {} <==> LegacyHeld(instruments, ledgers)
  {
    var held := Held(MappedRows(instruments), ledgers);
    if held != {} {
      var i :| i in held;
      assert i in ledgers && Mapped(instruments, i);
    }
    if i :| i in ledgers && Mapped(instruments, i) { assert i in held; }
  }

  class Database {
    var instruments: map<nat, Instrument>
    var tables: seq<Table>
    var memberships: map<nat, nat>
    var ledgers: set<nat>

    function View(): Db
      reads this
    {
      Db(instruments, tables, memberships, ledgers)
    }

    /** `_update_reference_table`; the statement fails as a whole on a unique key. */
    method UpdateReferenceTable(k: nat) returns (r: Result<nat>)
      requires k < |tables| && UniqueKeys(instruments)
      modifies `tables
      ensures r.Ok? <==> UniqueIn(RewrittenTable(instruments, old(tables)[k]))
      ensures r.Err? ==> tables == old(tables)
      ensures r.Ok? ==> tables == old(tables)[k := RewrittenTable(instruments, old(tables)[k])]
      ensures r.Ok? ==> r.value == |LegacyRefs(instruments, old(tables)[k])|
    {
      var t := tables[k];
      var hit := LegacyRefs(instruments, t);
      var moved := map r | r in t :: if r in hit then t[r].(ref := Some(Twin(instruments, t[r].ref.value))) else t[r];
      assert moved == RewrittenTable(instruments, t);
      if !UniqueIn(moved) { return Err; }
      tables := tables[k := moved];
      r := Ok(|hit|);
    }

    /** `_delete_legacy_rows`, refused when a ledger refers to one of them.  The reference tables have
        been rewritten by then and do not. */
    method DeleteLegacyRows() returns (r: Result<nat>)
      requires LegacyUnreferenced(View())
      modifies `instruments, `memberships
      ensures r.Err? <==> LegacyHeld(old(instruments), ledgers)
      ensures View() == if r.Ok? then WithoutLegacy(old(View())) else old(View())
      ensures r.Ok? ==> r.value == |old(instruments).Keys| - |instruments.Keys|
    {
      var gone := MappedRows(instruments);
      LegacyHeldIff(instruments, ledgers);
      if Held(gone, ledgers) != {} { return Err; }
      LegacyGone(View(), gone);
      r := Ok(|gone|);
      var after := Deleted(View(), gone);
      instruments, memberships := after.instruments, after.memberships;
    }

    /** `_delete_orphan_canonical_rows`, refused when a ledger refers to one of them. */
    method DeleteOrphanCanonicalRows() returns (r: Result<nat>)
      modifies `instruments
      ensures r.Err? <==> exists i :: i in ledgers && Orphan(old(View()), i)
      ensures View() == if r.Ok? then WithoutOrphans(old(View())) else old(View())
      ensures r.Ok? ==> r.value == |old(instruments).Keys| - |instruments.Keys|
    {
      var gone := set i | i in instruments && Orphan(View(), i);
      var held := Held(gone, ledgers);
      if held != {} {
        var i :| i in held;
        assert i in ledgers && Orphan(View(), i);
        return Err;
      }
      assert forall i :: i in ledgers && Orphan(View(), i) ==> i in held;
      var left := instruments - gone;
      RowsGone(instruments, gone);
      assert left == WithoutOrphans(old(View())).instruments;
      instruments := left;
      r := Ok(|gone|);
    }

    /** The seven UPDATE statements, up to the first that fails. */
    method UpdateAll() returns (r: Result<seq<nat>>)
      requires UniqueKeys(instruments) && |tables| == REFERENCE_TABLES
      modifies `tables
      ensures r.Err? <==> Collides(old(View()))
      ensures r.Ok? ==> View() == Rewritten(old(View())) && |r.value| == REFERENCE_TABLES
      ensures r.Ok? ==>
                forall k :: 0 <= k < REFERENCE_TABLES ==> r.value[k] == |LegacyRefs(instruments, old(tables)[k])|
    {
      var updated: seq<nat> := [];
      for k := 0 to REFERENCE_TABLES
        invariant |updated| == k && |tables| == REFERENCE_TABLES
        invariant forall j :: 0 <= j < k ==> tables[j] == RewrittenTable(instruments, old(tables)[j]) && UniqueIn(tables[j])
        invariant forall j :: k <= j < REFERENCE_TABLES ==> tables[j] == old(tables)[j]
        invariant forall j :: 0 <= j < k ==> updated[j] == |LegacyRefs(instruments, old(tables)[j])|
      {
        var n := UpdateReferenceTable(k);
        if n.Err? { return Err; }
        updated := updated + [n.value];
      }
      assert View() == Rewritten(old(View()));
      r := Ok(updated);
    }

    /** `_run`: everything in one transaction, rolled back on a failure and without `apply`. */
    method Run(apply: bool) returns (r: Result<Summary>)
      requires UniqueKeys(instruments) && |tables| == REFERENCE_TABLES
      modifies this
      ensures r.Err? <==> Collides(old(View())) || Blocked(old(View()))
      ensures View() == if r.Ok? && apply then Reconciled(old(View())) else old(View())
      ensures r.Ok? ==> |r.value.updated| == REFERENCE_TABLES
      ensures r.Ok? ==> forall k :: 0 <= k < REFERENCE_TABLES ==>
                r.value.updated[k] == |LegacyRefs(old(instruments), old(tables)[k])|
      ensures r.Ok? ==>
                r.value.deletedLegacy + r.value.deletedOrphans ==
                |old(instruments).Keys| - |Reconciled(old(View())).instruments.Keys|
    {
      var before := View();
      r := Statements();
      if r.Err? || !apply {
        instruments, tables, memberships, ledgers := before.instruments, before.tables, before.memberships, before.ledgers;
      }
    }

    /** The statements of the transaction; after an error the state does not matter, it is rolled back. */
    method Statements() returns (r: Result<Summary>)
      requires UniqueKeys(instruments) && |tables| == REFERENCE_TABLES
      modifies this
      ensures r.Err? <==> Collides(old(View())) || Blocked(old(View()))
      ensures r.Ok? ==> View() == Reconciled(old(View())) && |r.value.updated| == REFERENCE_TABLES
      ensures r.Ok? ==> forall k :: 0 <= k < REFERENCE_TABLES ==>
                r.value.updated[k] == |LegacyRefs(old(instruments), old(tables)[k])|
      ensures r.Ok? ==> r.value.deletedLegacy + r.value.deletedOrphans == |old(instruments).Keys| - |instruments.Keys|
    {
      ghost var start := View();
      var updated := UpdateAll();
      if updated.Err? { return Err; }
      RewrittenAvoidsLegacy(start);
      var legacy := DeleteLegacyRows();
      if legacy.Err? { return Err; }
      var orphans := DeleteOrphanCanonicalRows();
      if orphans.Err? { return Err; }
      r := Ok(Summary(updated.value, legacy.value, orphans.value));
    }
  }

  /** After the rewrites no reference table refers to a mapped legacy row. */
  lemma RewrittenAvoidsLegacy(db: Db)
    requires UniqueKeys(db.instruments)
    ensures LegacyUnreferenced(Rewritten(db))
  {
    forall i: nat | Referenced(Rewritten(db), i) ensures !Mapped(db.instruments, i) {
      var k, r :| 0 <= k < |db.tables| && r in Rewritten(db).tables[k] && Rewritten(db).tables[k][r].ref == Some(i);
      assert Some(i) == Redirect(db.instruments, db.tables[k][r].ref);
      if db.tables[k][r].ref.Some? && Mapped(db.instruments, db.tables[k][r].ref.value) {
        TwinStays(db.instruments, db.tables[k][r].ref.value);
      }
    }
  }

  // ---------------------------------------------------------------- laws

  /** Foreign keys: references and memberships point at existing instruments. */
  ghost predicate ForeignKeys(db: Db) {
    && (forall k, r | 0 <= k < |db.tables| && r in db.tables[k] && db.tables[k][r].ref.Some? :: db.tables[k][r].ref.value in db.instruments)
    && (forall m :: m in db.memberships ==> db.memberships[m] in db.instruments)
  }

  /** The symbol a reference resolves to. */
  function Meaning(db: Db, ref: Option<nat>): Option<string> {
    if ref.Some? && ref.value in db.instruments then Some(db.instruments[ref.value].symbol) else None
  }

  lemma TwinStays(instruments: map<nat, Instrument>, i: nat)
    requires UniqueKeys(instruments) && Mapped(instruments, i)
    ensures !Mapped(instruments, Twin(instruments, i))
  {
  }

  /** Which instruments survive: those that are not a mapped legacy row and, if a bare KRX row, are
      referenced under themselves or a mapped twin, or have a membership of their own. */
  lemma SurvivorsExactly(db: Db, i: nat)
    requires UniqueKeys(db.instruments)
    ensures i in Reconciled(db).instruments <==>
            i in db.instruments && !Mapped(db.instruments, i) &&
            !(db.instruments[i].market == KRX && db.instruments[i].bare && !Referenced(Rewritten(db), i) && !HasMembership(db, i))
    ensures i in Reconciled(db).instruments ==> Reconciled(db).instruments[i] == db.instruments[i]
  {
    var rewritten := Rewritten(db);
    var dropped := WithoutLegacy(rewritten);
    if i in dropped.instruments {
      if HasMembership(db, i) {
        var m :| m in db.memberships && db.memberships[m] == i;
        assert m in dropped.memberships && dropped.memberships[m] == i;
      }
      assert HasMembership(dropped, i) <==> HasMembership(db, i);
      assert Referenced(dropped, i) <==> Referenced(rewritten, i);
    }
  }

  /** Every reference of every table keeps its symbol, never dangles, and an unset one stays unset. */
  lemma ReferencesKeepTheirSymbol(db: Db, k: nat, r: nat)
    requires UniqueKeys(db.instruments) && ForeignKeys(db) && k < |db.tables| && r in db.tables[k]
    ensures var after := Reconciled(db);
            && |after.tables| == |db.tables| && after.tables[k].Keys == db.tables[k].Keys
            && after.tables[k][r].key == db.tables[k][r].key
            && Meaning(after, after.tables[k][r].ref) == Meaning(db, db.tables[k][r].ref)
            && (after.tables[k][r].ref.Some? <==> db.tables[k][r].ref.Some?)
            && (after.tables[k][r].ref.Some? ==> after.tables[k][r].ref.value in after.instruments)
  {
    var ref, now := db.tables[k][r].ref, Rewritten(db).tables[k][r].ref;
    assert now == Redirect(db.instruments, ref);
    if ref.Some? {
      assert ref.value in db.instruments;
      if Mapped(db.instruments, ref.value) { TwinStays(db.instruments, ref.value); }
      assert Referenced(Rewritten(db), now.value);
      SurvivorsExactly(db, now.value);
    }
  }

  /** No legacy row with a pre-existing KRX twin survives, and foreign keys still hold. */
  lemma NoMappedRowSurvives(db: Db)
    requires UniqueKeys(db.instruments) && ForeignKeys(db)
    ensures var after := Reconciled(db);
            && UniqueKeys(after.instruments) && ForeignKeys(after)
            && forall i :: i in after.instruments ==> !Mapped(db.instruments, i) && !Mapped(after.instruments, i)
  {
    var after := Reconciled(db);
    forall i | i in after.instruments ensures !Mapped(db.instruments, i) && !Mapped(after.instruments, i) {
      SurvivorsExactly(db, i);
    }
    forall k, r | 0 <= k < |after.tables| && r in after.tables[k] && after.tables[k][r].ref.Some?
      ensures after.tables[k][r].ref.value in after.instruments
    {
      ReferencesKeepTheirSymbol(db, k, r);
    }
    forall m | m in after.memberships ensures after.memberships[m] in after.instruments {
      assert HasMembership(db, after.memberships[m]);
      SurvivorsExactly(db, after.memberships[m]);
    }
  }

  // ---------------------------------------------------------------- market by market

  /** A KRX row of the same symbol exists. */
  ghost predicate HasKrxRow(instruments: map<nat, Instrument>, i: nat) {
    i in instruments && exists c :: c in instruments && instruments[c].symbol == instruments[i].symbol && instruments[c].market == KRX
  }

  lemma MappedExactly(instruments: map<nat, Instrument>, i: nat)
    requires i in instruments
    ensures Mapped(instruments, i) <==> (instruments[i].market == KOSPI || instruments[i].market == KOSDAQ) && HasKrxRow(instruments, i)
  {
    if HasKrxRow(instruments, i) {
      var c :| c in instruments && instruments[c].symbol == instruments[i].symbol && instruments[c].market == KRX;
      assert TwinOf(instruments, i, c);
    }
  }

  /** A KOSPI or KOSDAQ row `i` with a KRX row `c` of its symbol: `i` is gone after the run, and every
      reference to `i` is a reference to `c`. */
  lemma LegacyMovesToKrx(db: Db, i: nat, c: nat)
    requires UniqueKeys(db.instruments) && i in db.instruments && c in db.instruments
    requires db.instruments[i].symbol == db.instruments[c].symbol && db.instruments[c].market == KRX
    requires db.instruments[i].market == KOSPI || db.instruments[i].market == KOSDAQ
    ensures i !in Reconciled(db).instruments
    ensures forall k, r | 0 <= k < |db.tables| && r in db.tables[k] && db.tables[k][r].ref == Some(i) ::
              Reconciled(db).tables[k][r] == Row(Some(c), db.tables[k][r].key)
  {
    assert TwinOf(db.instruments, i, c) && Mapped(db.instruments, i);
    SurvivorsExactly(db, i);
    RedirectPointsTo(db.instruments, Some(i), c);
  }

  /** A row of any other market, and a KOSPI or KOSDAQ row without a KRX row of its symbol: references to
      it are unchanged, and unless it is a KRX row it survives as it is. */
  lemma OthersStay(db: Db, i: nat)
    requires UniqueKeys(db.instruments) && i in db.instruments
    requires (db.instruments[i].market != KOSPI && db.instruments[i].market != KOSDAQ) || !HasKrxRow(db.instruments, i)
    ensures forall k, r | 0 <= k < |db.tables| && r in db.tables[k] && db.tables[k][r].ref == Some(i) ::
              Reconciled(db).tables[k][r] == db.tables[k][r]
    ensures db.instruments[i].market != KRX ==> i in Reconciled(db).instruments && Reconciled(db).instruments[i] == db.instruments[i]
  {
    MappedExactly(db.instruments, i);
    SurvivorsExactly(db, i);
  }

  /** A reference points at `i`, or at a KOSPI or KOSDAQ row of its symbol. */
  ghost predicate SymbolReferenced(db: Db, i: nat)
    requires i in db.instruments
  {
    exists k, r :: 0 <= k < |db.tables| && r in db.tables[k] && RefersToSymbol(db.instruments, db.tables[k][r].ref, i)
  }

  predicate RefersToSymbol(instruments: map<nat, Instrument>, ref: Option<nat>, i: nat)
    requires i in instruments
  {
    ref == Some(i) ||
    (ref.Some? && ref.value in instruments && instruments[ref.value].symbol == instruments[i].symbol &&
     (instruments[ref.value].market == KOSPI || instruments[ref.value].market == KOSDAQ))
  }

  /** A KRX row is deleted if and only if it is bare, no membership is on it, and no table refers to it or
      to a KOSPI or KOSDAQ row of its symbol. */
  lemma KrxRowGoesIff(db: Db, i: nat)
    requires UniqueKeys(db.instruments) && i in db.instruments && db.instruments[i].market == KRX
    ensures i !in Reconciled(db).instruments <==>
            db.instruments[i].bare && (forall m :: m in db.memberships ==> db.memberships[m] != i) && !SymbolReferenced(db, i)
  {
    SurvivorsExactly(db, i);
    ReferencedAfterIff(db, i);
    forall k, r | 0 <= k < |db.tables| && r in db.tables[k]
      ensures PointsTo(db.instruments, db.tables[k][r].ref, i) <==> RefersToSymbol(db.instruments, db.tables[k][r].ref, i)
    {
      PointsToSymbol(db.instruments, db.tables[k][r].ref, i);
    }
  }

  lemma PointsToSymbol(instruments: map<nat, Instrument>, ref: Option<nat>, i: nat)
    requires UniqueKeys(instruments) && i in instruments && instruments[i].market == KRX
    ensures PointsTo(instruments, ref, i) <==> RefersToSymbol(instruments, ref, i)
  {
    if ref.Some? && ref.value in instruments { MappedExactly(instruments, ref.value); }
    if RefersToSymbol(instruments, ref, i) && ref != Some(i) { assert TwinOf(instruments, ref.value, i); }
  }

  /** The reported count of a table: its rows that refer to a KOSPI or KOSDAQ row with a KRX row. */
  lemma CountsExactly(instruments: map<nat, Instrument>, t: Table)
    ensures LegacyRefs(instruments, t) ==
            set r | r in t && t[r].ref.Some? && t[r].ref.value in instruments && HasKrxRow(instruments, t[r].ref.value) &&
                    (instruments[t[r].ref.value].market == KOSPI || instruments[t[r].ref.value].market == KOSDAQ)
  {
    forall r | r in t && t[r].ref.Some? && t[r].ref.value in instruments
      ensures Mapped(instruments, t[r].ref.value) <==>
              HasKrxRow(instruments, t[r].ref.value) &&
              (instruments[t[r].ref.value].market == KOSPI || instruments[t[r].ref.value].market == KOSDAQ)
    {
      MappedExactly(instruments, t[r].ref.value);
    }
  }

  // ---------------------------------------------------------------- when the run is refused

  /** The row would end up under the KRX instrument of its symbol. */
  predicate Canonicalised(instruments: map<nat, Instrument>, i: nat) {
    Mapped(instruments, i) || (i in instruments && instruments[i].market == KRX)
  }

  /** Two rows of one key refer to different instruments of one symbol that become one. */
  ghost predicate TwinRows(instruments: map<nat, Instrument>, a: Row, b: Row) {
    && a.key.Some? && a.key == b.key && a.ref.Some? && b.ref.Some? && a.ref != b.ref
    && Canonicalised(instruments, a.ref.value) && Canonicalised(instruments, b.ref.value)
    && instruments[a.ref.value].symbol == instruments[b.ref.value].symbol
  }

  lemma RedirectsMeet(instruments: map<nat, Instrument>, a: nat, b: nat)
    requires UniqueKeys(instruments) && a in instruments && b in instruments && a != b
    ensures Redirect(instruments, Some(a)) == Redirect(instruments, Some(b)) <==>
            Canonicalised(instruments, a) && Canonicalised(instruments, b) && instruments[a].symbol == instruments[b].symbol
  {
    var x, y := Redirect(instruments, Some(a)).value, Redirect(instruments, Some(b)).value;
    assert Mapped(instruments, a) ==> TwinOf(instruments, a, x);
    assert Mapped(instruments, b) ==> TwinOf(instruments, b, y);
    if x == y {
      assert Mapped(instruments, a) || Mapped(instruments, b);
    }
    if Canonicalised(instruments, a) && Canonicalised(instruments, b) && instruments[a].symbol == instruments[b].symbol {
      assert SameKey(instruments[x], instruments[y]);
    }
  }

  /** An UPDATE is refused if and only if two rows of one unique key refer to a symbol's KRX row and
      its legacy rows, or to two legacy rows of it. */
  lemma UpdateRefusedIff(instruments: map<nat, Instrument>, t: Table)
    requires UniqueKeys(instruments) && UniqueIn(t)
    requires forall r :: r in t && t[r].ref.Some? ==> t[r].ref.value in instruments
    ensures UniqueIn(RewrittenTable(instruments, t)) <==>
            forall r, q | r in t && q in t && r != q :: !TwinRows(instruments, t[r], t[q])
  {
    var now := RewrittenTable(instruments, t);
    forall r, q | r in t && q in t && r != q ensures SameSlot(now[r], now[q]) <==> TwinRows(instruments, t[r], t[q]) {
      assert !SameSlot(t[r], t[q]);
      if t[r].ref.Some? && t[q].ref.Some? && t[r].ref != t[q].ref {
        RedirectsMeet(instruments, t[r].ref.value, t[q].ref.value);
      }
    }
  }

  /** The deletes are refused if and only if they would leave a ledger without its instrument: the
      foreign keys of the ledgers hold after a run exactly when it was not refused for them. */
  lemma BlockedIffLedgerWouldDangle(db: Db)
    requires UniqueKeys(db.instruments) && db.ledgers <= db.instruments.Keys
    ensures Blocked(db) <==> !(Reconciled(db).ledgers <= Reconciled(db).instruments.Keys)
  {
    var mid := WithoutLegacy(Rewritten(db));
    assert Reconciled(db).ledgers == db.ledgers;
    forall i | i in db.ledgers
      ensures i !in Reconciled(db).instruments <==> Mapped(db.instruments, i) || Orphan(mid, i)
    {
    }
    if Blocked(db) {
      if i :| i in db.ledgers && Mapped(db.instruments, i) { assert i !in Reconciled(db).instruments; }
      if i :| i in db.ledgers && Orphan(mid, i) { assert i !in Reconciled(db).instruments; }
    }
  }

  /** A reference points at the KRX row `i` or at a mapped legacy row whose twin is `i`. */
  ghost predicate Reaches(db: Db, i: nat) {
    exists k, r :: 0 <= k < |db.tables| && r in db.tables[k] && PointsTo(db.instruments, db.tables[k][r].ref, i)
  }

  predicate PointsTo(instruments: map<nat, Instrument>, ref: Option<nat>, i: nat) {
    ref.Some? && (ref.value == i || (Mapped(instruments, ref.value) && TwinOf(instruments, ref.value, i)))
  }

  /** A bare KRX row without membership that no reference reaches. */
  ghost predicate Unused(db: Db, i: nat) {
    i in db.instruments && db.instruments[i].market == KRX && db.instruments[i].bare && !HasMembership(db, i) && !Reaches(db, i)
  }

  lemma RedirectPointsTo(instruments: map<nat, Instrument>, ref: Option<nat>, i: nat)
    requires UniqueKeys(instruments) && i in instruments && instruments[i].market == KRX
    ensures Redirect(instruments, ref) == Some(i) <==> PointsTo(instruments, ref, i)
  {
    if ref.Some? && Mapped(instruments, ref.value) {
      assert TwinOf(instruments, ref.value, Twin(instruments, ref.value));
      assert TwinOf(instruments, ref.value, i) ==> SameKey(instruments[i], instruments[Twin(instruments, ref.value)]);
    }
  }

  lemma ReferencedAfterIff(db: Db, i: nat)
    requires UniqueKeys(db.instruments) && i in db.instruments && db.instruments[i].market == KRX
    ensures Referenced(Rewritten(db), i) <==> Reaches(db, i)
  {
    forall k, r | 0 <= k < |db.tables| && r in db.tables[k]
      ensures Rewritten(db).tables[k][r].ref == Some(i) <==> PointsTo(db.instruments, db.tables[k][r].ref, i)
    {
      RedirectPointsTo(db.instruments, db.tables[k][r].ref, i);
    }
  }

  /** The deletes are refused if and only if, before the run, a ledger refers to a legacy row that has a
      KRX twin, or to a bare KRX row without membership that no reference of the seven tables reaches. */
  lemma BlockedIff(db: Db)
    requires UniqueKeys(db.instruments)
    ensures Blocked(db) <==> exists i :: i in db.ledgers && (Mapped(db.instruments, i) || Unused(db, i))
  {
    var mid := WithoutLegacy(Rewritten(db));
    forall i | i in db.ledgers && !Mapped(db.instruments, i) ensures Orphan(mid, i) <==> Unused(db, i) {
      OrphanIff(db, i);
    }
    if Blocked(db) {
      if i :| i in db.ledgers && Orphan(mid, i) { assert Mapped(db.instruments, i) || Unused(db, i); }
    }
  }

  lemma OrphanIff(db: Db, i: nat)
    requires UniqueKeys(db.instruments) && !Mapped(db.instruments, i)
    ensures Orphan(WithoutLegacy(Rewritten(db)), i) <==> Unused(db, i)
  {
    var rewritten := Rewritten(db);
    var mid := WithoutLegacy(rewritten);
    if i in db.instruments && db.instruments[i].market == KRX {
      ReferencedAfterIff(db, i);
      assert Referenced(mid, i) <==> Referenced(rewritten, i);
      if HasMembership(db, i) {
        var m :| m in db.memberships && db.memberships[m] == i;
        assert mid.memberships[m] == i;
      }
    }
  }

  /** Concretely: a ledger refers to a KOSPI row that has a KRX twin, and nothing else refers to anything. */
  lemma LedgerRefusesTheRun() returns (db: Db)
    ensures |db.tables| == REFERENCE_TABLES && UniqueKeys(db.instruments) && ForeignKeys(db) && db.ledgers <= db.instruments.Keys
    ensures !Collides(db) && Blocked(db)
  {
    var none: Table := map[];
    db := Db(map[0 := Instrument("005930", KOSPI, false), 1 := Instrument("005930", KRX, false)],
             [none, none, none, none, none, none, none], map[], {0});
    assert TwinOf(db.instruments, 0, 1) && Mapped(db.instruments, 0);
    BlockedIff(db);
  }

  /** Concretely: one universe froze a symbol under its KOSPI and its KRX row; the run is refused. */
  lemma TwinItemsRefuseTheRun() returns (db: Db)
    ensures |db.tables| == REFERENCE_TABLES && UniqueKeys(db.instruments) && ForeignKeys(db)
    ensures (forall k :: 0 <= k < |db.tables| ==> UniqueIn(db.tables[k])) && Collides(db)
  {
    var none: Table := map[];
    var items: Table := map[0 := Row(Some(0), Some(5)), 1 := Row(Some(1), Some(5))];
    db := Db(map[0 := Instrument("005930", KOSPI, false), 1 := Instrument("005930", KRX, false)],
             [none, none, none, none, none, none, items], map[], {});
    assert TwinOf(db.instruments, 0, 1) && Mapped(db.instruments, 0);
    UpdateRefusedIff(db.instruments, items);
    assert TwinRows(db.instruments, items[0], items[1]);
    assert db.tables[6] == items;
  }

  predicate HasSymbol(db: Db, symbol: string) {
    exists j :: j in db.instruments && db.instruments[j].symbol == symbol
  }

  /** Every symbol that some table refers to still has an instrument. */
  lemma ReferencedSymbolsSurvive(db: Db, i: nat)
    requires UniqueKeys(db.instruments) && ForeignKeys(db) && Referenced(db, i)
    ensures i in db.instruments && HasSymbol(Reconciled(db), db.instruments[i].symbol)
  {
    var k, r :| 0 <= k < |db.tables| && r in db.tables[k] && db.tables[k][r].ref == Some(i);
    assert db.tables[k][r].ref.value in db.instruments;
    ReferencesKeepTheirSymbol(db, k, r);
    var j := Reconciled(db).tables[k][r].ref.value;
    assert j in Reconciled(db).instruments;
  }

  /** Memberships are not rewritten: they survive, each on its own instrument, exactly when they are
      not on a mapped legacy row; those are cascaded away. */
  lemma MembershipsSurviveIffUnmapped(db: Db, m: nat)
    requires UniqueKeys(db.instruments) && ForeignKeys(db) && m in db.memberships
    ensures m in Reconciled(db).memberships <==> !Mapped(db.instruments, db.memberships[m])
    ensures m in Reconciled(db).memberships ==> Reconciled(db).memberships[m] == db.memberships[m]
  {
  }

  /** Concretely: a membership held by a KOSPI row that has a KRX twin is lost, and the run accepts this. */
  lemma MembershipOnLegacyIsLost() returns (db: Db)
    ensures |db.tables| == REFERENCE_TABLES && UniqueKeys(db.instruments) && ForeignKeys(db) && !Collides(db) && !Blocked(db)
    ensures 0 in db.memberships && 0 !in Reconciled(db).memberships
  {
    var none: Table := map[];
    db := Db(map[0 := Instrument("005930", KOSPI, false), 1 := Instrument("005930", KRX, false)],
             [none, none, none, none, none, none, none], map[0 := 0], {});
    assert TwinOf(db.instruments, 0, 1);
    assert Mapped(db.instruments, 0);
  }

  /** A second run is not refused and changes nothing. */
  lemma ReconcileIsIdempotent(db: Db)
    requires UniqueKeys(db.instruments) && ForeignKeys(db)
    ensures UniqueKeys(Reconciled(db).instruments) && Reconciled(Reconciled(db)) == Reconciled(db)
    ensures (!Collides(db) ==> !Collides(Reconciled(db))) && !Blocked(Reconciled(db))
  {
    var after := Reconciled(db);
    NoMappedRowSurvives(db);
    NothingToRewrite(after);
    assert WithoutLegacy(after) == after by {
      assert WithoutLegacy(after).instruments == after.instruments;
      assert WithoutLegacy(after).memberships == after.memberships;
    }
    forall i ensures !Orphan(after, i) {
      if i in after.instruments { SurvivorIsNoOrphan(db, i); }
    }
    assert WithoutOrphans(after).instruments == after.instruments;
    forall k | 0 <= k < |after.tables|
      ensures RewrittenTable(after.instruments, after.tables[k]) == RewrittenTable(db.instruments, db.tables[k])
    {
      assert Rewritten(after).tables[k] == after.tables[k] == RewrittenTable(db.instruments, db.tables[k]);
    }
  }

  lemma NothingToRewrite(db: Db)
    requires UniqueKeys(db.instruments) && forall i :: i in db.instruments ==> !Mapped(db.instruments, i)
    ensures Rewritten(db) == db
  {
    forall k | 0 <= k < |db.tables| ensures RewrittenTable(db.instruments, db.tables[k]) == db.tables[k] {
    }
    assert Rewritten(db).tables == db.tables;
  }

  lemma SurvivorIsNoOrphan(db: Db, i: nat)
    requires UniqueKeys(db.instruments) && i in Reconciled(db).instruments
    ensures !Orphan(Reconciled(db), i)
  {
    var before := WithoutLegacy(Rewritten(db));
    assert !Orphan(before, i);
    assert Referenced(Reconciled(db), i) <==> Referenced(before, i);
    assert HasMembership(Reconciled(db), i) <==> HasMembership(before, i);
  }
}

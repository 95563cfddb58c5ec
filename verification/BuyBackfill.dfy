/** Backfilling BUY decision quantities that were capped at 1
    (backfill_buy_trade_decision_quantity.py), with money and prices as exact numbers. */
module BuyBackfill {
  import opened Outcomes

  const ALLOCATION_PCT := 0.2
  const MIN_ENTRY_THRESHOLD := 500000.0
  const DEFAULT_QUANTITY_APPROVE := 10
  const DEFAULT_QUANTITY_BUY := 100

  // ---------------------------------------------------------------- the allocation formula

  /** The orderable amount if positive, else the available cash if positive. */
  function EffectiveCash(orderable: Option<real>, available: Option<real>): Option<real> {
    if orderable.Some? && orderable.value > 0.0 then orderable
    else if available.Some? && available.value > 0.0 then available
    else None
  }

  /** Whole shares for a notional, at least one; nothing below the entry threshold of a new position. */
  function SharesFor(cash: real, price: real, isNew: bool): int
    requires price > 0.0
  {
    var notional := cash * ALLOCATION_PCT;
    if isNew && notional < MIN_ENTRY_THRESHOLD then 1
    else
      var quantity := (notional / price).Floor;
      if quantity < 1 then 1 else quantity
  }

  /** `reconstruct_buy_quantity` */
  function Reconstruct(orderable: Option<real>, available: Option<real>, price: Option<real>, isNew: bool): Option<int> {
    var cash := EffectiveCash(orderable, available);
    if cash.None? || price.None? || price.value <= 0.0 then None
    else Some(SharesFor(cash.value, price.value, isNew))
  }

  lemma DivideBounds(x: real, p: real, q: int)
    requires p > 0.0
    ensures q as real * p <= x <==> q as real <= x / p
    ensures x < (q + 1) as real * p <==> x / p < (q + 1) as real
  {
    var d := x / p;
    assert d * p == x;
    assert q as real <= d <==> q as real * p <= d * p by {
      if q as real <= d { assert (d - q as real) * p >= 0.0; }
      if q as real > d { assert (q as real - d) * p > 0.0; }
    }
    assert d < (q + 1) as real <==> d * p < (q + 1) as real * p by {
      if d < (q + 1) as real { assert ((q + 1) as real - d) * p > 0.0; }
      if d >= (q + 1) as real { assert (d - (q + 1) as real) * p >= 0.0; }
    }
  }

  /** A reconstructed quantity above one is the largest whole number of shares that a fifth of the
      effective cash buys; the quantity is never below one, and is one exactly when that fifth is
      below the threshold of a new position or buys fewer than two shares. */
  lemma SharesAreLargestAffordable(cash: real, price: real, isNew: bool)
    requires price > 0.0
    ensures var q := SharesFor(cash, price, isNew);
            && q >= 1
            && (q > 1 ==> q as real * price <= cash / 5.0 < (q + 1) as real * price)
            && (q == 1 <==> (isNew && cash / 5.0 < MIN_ENTRY_THRESHOLD) || cash / 5.0 < 2.0 * price)
  {
    var notional := cash * ALLOCATION_PCT;
    assert notional == cash / 5.0;
    var q := (notional / price).Floor;
    DivideBounds(notional, price, q);
    DivideBounds(notional, price, 1);
    assert q < 2 <==> notional / price < 2.0;
  }

  lemma FloorMonotone(x: real, y: real)
    requires x <= y
    ensures x.Floor <= y.Floor
  {
  }

  lemma QuotientMonotone(a: real, b: real, p: real, r: real)
    requires a <= b && 0.0 < p <= r
    ensures a / p <= b / p
    ensures b >= 0.0 ==> b / r <= b / p
  {
    var x, y, z := a / p, b / p, b / r;
    assert x * p == a && y * p == b && z * r == b;
  }

  /** More cash never buys fewer shares and a higher price never more, across the threshold too. */
  lemma SharesMonotone(cash: real, more: real, price: real, dearer: real, isNew: bool)
    requires 0.0 <= cash <= more && 0.0 < price <= dearer
    ensures SharesFor(cash, price, isNew) <= SharesFor(more, price, isNew)
    ensures SharesFor(cash, dearer, isNew) <= SharesFor(cash, price, isNew)
  {
    var a, b := cash * ALLOCATION_PCT, more * ALLOCATION_PCT;
    QuotientMonotone(a, b, price, dearer);
    QuotientMonotone(a, a, price, dearer);
    FloorMonotone(a / price, b / price);
    FloorMonotone(a / dearer, a / price);
  }

  // ---------------------------------------------------------------- rows and prices

  datatype Kind = Enter | Add | RebalanceEnter | Approve | Buy

  datatype Row = Row(
    id: nat, kind: Kind, symbol: string, createdAt: int, orderable: Option<real>, available: Option<real>, quantity: int)

  datatype Update = Update(id: nat, oldQuantity: int, newQuantity: int, reconstructed: bool)

  /** The per-symbol price cache and the lookups that filled it. */
  datatype Cache = Cache(prices: map<string, Option<real>>, lookups: seq<(string, int)>)

  datatype Report = Report(total: nat, reconstructed: nat, defaults: nat, skipped: nat, updates: seq<Update>, lookups: seq<(string, int)>)

  predicate HasCash(r: Row) {
    r.orderable.Some? || r.available.Some?
  }

  predicate IsNew(k: Kind) {
    k == Enter || k == RebalanceEnter
  }

  function DefaultQuantity(k: Kind): int {
    if k == Approve then DEFAULT_QUANTITY_APPROVE else DEFAULT_QUANTITY_BUY
  }

  /** The quantity worth keeping for a row at a price: a reconstruction of one is not kept. */
  function Rebuilt(r: Row, price: Option<real>): Option<int> {
    if !HasCash(r) then None
    else
      var q := Reconstruct(r.orderable, r.available, price, IsNew(r.kind));
      if q.Some? && q.value > 1 then q else None
  }

  function UpdateFor(r: Row, price: Option<real>): Update {
    var q := Rebuilt(r, price);
    Update(r.id, r.quantity, if q.Some? then q.value else DefaultQuantity(r.kind), q.Some?)
  }

  /** The creation time of the first row of a symbol that has cash data. */
  function FirstCashTime(rows: seq<Row>, symbol: string): Option<int> {
    if rows == [] then None
    else if rows[0].symbol == symbol && HasCash(rows[0]) then Some(rows[0].createdAt)
    else FirstCashTime(rows[1..], symbol)
  }

  /** The price every row of a symbol is given: the one found for its first row with cash data. */
  function BatchPrice(rows: seq<Row>, symbol: string, lookup: (string, int) -> Option<real>): Option<real> {
    var t := FirstCashTime(rows, symbol);
    if t.Some? then lookup(symbol, t.value) else None
  }

  lemma {:induction false} FirstCashSnoc(rows: seq<Row>, r: Row, symbol: string)
    ensures FirstCashTime(rows + [r], symbol) ==
            if FirstCashTime(rows, symbol).Some? then FirstCashTime(rows, symbol)
            else if r.symbol == symbol && HasCash(r) then Some(r.createdAt) else None
    decreases |rows|
  {
    var more := rows + [r];
    if rows == [] { assert more[1..] == []; }
    else { FirstCashSnoc(rows[1..], r, symbol); assert more[1..] == rows[1..] + [r]; }
  }

  lemma {:induction false} FirstCashOfPrefix(rows: seq<Row>, n: nat, symbol: string)
    requires n <= |rows| && FirstCashTime(rows[..n], symbol).Some?
    ensures FirstCashTime(rows, symbol) == FirstCashTime(rows[..n], symbol)
    decreases |rows| - n
  {
    if n == |rows| {
      assert rows[..n] == rows;
    } else {
      FirstCashSnoc(rows[..n], rows[n], symbol);
      assert rows[..n + 1] == rows[..n] + [rows[n]];
      FirstCashOfPrefix(rows, n + 1, symbol);
    }
  }

  // ---------------------------------------------------------------- the batch

  /** The guarded UPDATE: a changed quantity is written where the table still holds 1. */
  function Written(table: map<nat, int>, updates: seq<Update>): map<nat, int> {
    if updates == [] then table
    else
      var u := updates[|updates| - 1];
      var before := Written(table, updates[..|updates| - 1]);
      if u.newQuantity != u.oldQuantity && u.id in before && before[u.id] == 1 then before[u.id := u.newQuantity] else before
  }

  function CountReconstructed(updates: seq<Update>): nat {
    if updates == [] then 0
    else CountReconstructed(updates[..|updates| - 1]) + if updates[|updates| - 1].reconstructed then 1 else 0
  }

  function CountUnchanged(updates: seq<Update>): nat {
    if updates == [] then 0
    else
      var u := updates[|updates| - 1];
      CountUnchanged(updates[..|updates| - 1]) + if u.newQuantity == u.oldQuantity then 1 else 0
  }

  /** The cache holds exactly the batch price of each symbol seen with cash data. */
  ghost predicate CacheOf(cache: map<string, Option<real>>, rows: seq<Row>, lookup: (string, int) -> Option<real>) {
    forall s :: (s in cache <==> FirstCashTime(rows, s).Some?) && (s in cache ==> cache[s] == BatchPrice(rows, s, lookup))
  }

  /** One lookup per cached symbol, at the time of its first row with cash data. */
  ghost predicate LookupsOf(lookups: seq<(string, int)>, rows: seq<Row>) {
    && (forall i, j :: 0 <= i < j < |lookups| ==> lookups[i].0 != lookups[j].0)
    && (forall i :: 0 <= i < |lookups| ==> FirstCashTime(rows, lookups[i].0) == Some(lookups[i].1))
    && (forall s :: FirstCashTime(rows, s).Some? ==> (s, FirstCashTime(rows, s).value) in lookups)
  }

  lemma CacheStep(cache: map<string, Option<real>>, lookups: seq<(string, int)>, rows: seq<Row>, r: Row, lookup: (string, int) -> Option<real>)
    requires CacheOf(cache, rows, lookup) && LookupsOf(lookups, rows)
    ensures if HasCash(r) && r.symbol !in cache
            then CacheOf(cache[r.symbol := lookup(r.symbol, r.createdAt)], rows + [r], lookup) &&
                 LookupsOf(lookups + [(r.symbol, r.createdAt)], rows + [r])
            else CacheOf(cache, rows + [r], lookup) && LookupsOf(lookups, rows + [r])
  {
    forall s
      ensures FirstCashTime(rows + [r], s) ==
              if FirstCashTime(rows, s).Some? then FirstCashTime(rows, s)
              else if r.symbol == s && HasCash(r) then Some(r.createdAt) else None
    {
      FirstCashSnoc(rows, r, s);
    }
  }

  /** Later rows do not change the price of a row with cash data, and a row without needs none. */
  lemma PrefixPrice(rows: seq<Row>, k: nat, lookup: (string, int) -> Option<real>)
    requires k < |rows|
    ensures UpdateFor(rows[k], BatchPrice(rows[..k + 1], rows[k].symbol, lookup)) ==
            UpdateFor(rows[k], BatchPrice(rows, rows[k].symbol, lookup))
  {
    if HasCash(rows[k]) {
      FirstCashSnoc(rows[..k], rows[k], rows[k].symbol);
      assert rows[..k + 1] == rows[..k] + [rows[k]];
      FirstCashOfPrefix(rows, k + 1, rows[k].symbol);
    }
  }

  class TradeDecisions {
    var quantities: map<nat, int>

    /** One row of the batch: look its price up if its symbol is new, then rebuild or fall back. */
    method NextUpdate(ghost done: seq<Row>, row: Row, cache: Cache, lookup: (string, int) -> Option<real>)
      returns (u: Update, cache': Cache)
      requires CacheOf(cache.prices, done, lookup) && LookupsOf(cache.lookups, done)
      ensures CacheOf(cache'.prices, done + [row], lookup) && LookupsOf(cache'.lookups, done + [row])
      ensures u == UpdateFor(row, BatchPrice(done + [row], row.symbol, lookup))
    {
      CacheStep(cache.prices, cache.lookups, done, row, lookup);
      cache' := cache;
      var newQuantity: Option<int> := None;
      if HasCash(row) {
        if row.symbol !in cache.prices {
          var found := lookup(row.symbol, row.createdAt);
          cache' := Cache(cache.prices[row.symbol := found], cache.lookups + [(row.symbol, row.createdAt)]);
        }
        FirstCashSnoc(done, row, row.symbol);
        var price := cache'.prices[row.symbol];
        if price.Some? && price.value > 0.0 {
          var rebuilt := Reconstruct(row.orderable, row.available, price, IsNew(row.kind));
          if rebuilt.Some? && rebuilt.value > 1 { newQuantity := rebuilt; }
        }
      }
      var quantity := if newQuantity.Some? then newQuantity.value
                      else if row.kind == Approve then DEFAULT_QUANTITY_APPROVE else DEFAULT_QUANTITY_BUY;
      u := Update(row.id, row.quantity, quantity, newQuantity.Some?);
    }

    /** `apply_backfill` */
    method ApplyBackfill(rows: seq<Row>, lookup: (string, int) -> Option<real>, dryRun: bool) returns (report: Report)
      modifies this
      ensures |report.updates| == |rows| == report.total
      ensures forall i :: 0 <= i < |rows| ==> report.updates[i] == UpdateFor(rows[i], BatchPrice(rows, rows[i].symbol, lookup))
      ensures report.reconstructed + report.defaults == report.total
      ensures report.reconstructed == CountReconstructed(report.updates)
      ensures LookupsOf(report.lookups, rows)
      ensures report.skipped == if dryRun then 0 else CountUnchanged(report.updates)
      ensures quantities == if dryRun then old(quantities) else Written(old(quantities), report.updates)
    {
      var cache, updates: seq<Update> := Cache(map[], []), [];
      var reconstructed, defaults, skipped := 0, 0, 0;
      for k := 0 to |rows|
        invariant quantities == old(quantities)
        invariant |updates| == k && reconstructed + defaults == k && reconstructed == CountReconstructed(updates)
        invariant CacheOf(cache.prices, rows[..k], lookup) && LookupsOf(cache.lookups, rows[..k])
        invariant forall i :: 0 <= i < k ==> updates[i] == UpdateFor(rows[i], BatchPrice(rows, rows[i].symbol, lookup))
      {
        var u;
        u, cache := NextUpdate(rows[..k], rows[k], cache, lookup);
        assert rows[..k + 1] == rows[..k] + [rows[k]];
        PrefixPrice(rows, k, lookup);
        if u.reconstructed { reconstructed := reconstructed + 1; } else { defaults := defaults + 1; }
        assert (updates + [u])[..k] == updates;
        updates := updates + [u];
      }
      assert rows[..|rows|] == rows;
      if !dryRun {
        skipped := WriteUpdates(updates);
      }
      report := Report(|rows|, reconstructed, defaults, skipped, updates, cache.lookups);
    }

    /** The UPDATE statement, row by row. */
    method WriteUpdates(updates: seq<Update>) returns (skipped: nat)
      modifies this
      ensures quantities == Written(old(quantities), updates) && skipped == CountUnchanged(updates)
    {
      skipped := 0;
      for k := 0 to |updates|
        invariant quantities == Written(old(quantities), updates[..k]) && skipped == CountUnchanged(updates[..k])
      {
        var u := updates[k];
        assert updates[..k + 1][..k] == updates[..k];
        if u.newQuantity == u.oldQuantity {
          skipped := skipped + 1;
        } else if u.id in quantities && quantities[u.id] == 1 {
          quantities := quantities[u.id := u.newQuantity];
        }
      }
      assert updates[..|updates|] == updates;
    }
  }

  // ---------------------------------------------------------------- laws of the batch

  /** Every new quantity exceeds one. */
  lemma NewQuantityExceedsOne(r: Row, price: Option<real>)
    ensures UpdateFor(r, price).newQuantity > 1 && UpdateFor(r, price).oldQuantity == r.quantity
  {
  }

  /** The reconstructed quantity of a row with a price is what the batch writes if and only if a fifth of
      the effective cash buys at least two shares and, for a new position, reaches the threshold; a
      reconstruction of one share is replaced by the default. */
  lemma ReconstructionIsKeptIff(r: Row, price: real)
    requires price > 0.0 && EffectiveCash(r.orderable, r.available).Some?
    ensures var cash := EffectiveCash(r.orderable, r.available).value;
            var q := Reconstruct(r.orderable, r.available, Some(price), IsNew(r.kind));
            && q.Some?
            && (UpdateFor(r, Some(price)).newQuantity == q.value <==>
                cash / 5.0 >= 2.0 * price && !(IsNew(r.kind) && cash / 5.0 < MIN_ENTRY_THRESHOLD))
  {
    SharesAreLargestAffordable(EffectiveCash(r.orderable, r.available).value, price, IsNew(r.kind));
  }

  /** What the batch writes for a row at a price, in numbers: with positive cash (the orderable amount if
      positive, else the available cash) and a positive price of which a fifth of the cash buys at least two
      shares, at least 500,000 for an entry, the largest affordable quantity; otherwise 10 for an
      approval and 100 for every other kind. */
  lemma UpdateExactly(r: Row, price: Option<real>)
    ensures var u := UpdateFor(r, price);
            var cash := if r.orderable.Some? && r.orderable.value > 0.0 then r.orderable.value
                        else if r.available.Some? && r.available.value > 0.0 then r.available.value else 0.0;
            var entry := r.kind == Enter || r.kind == RebalanceEnter;
            && u.id == r.id && u.oldQuantity == r.quantity
            && (u.reconstructed <==> price.Some? && price.value > 0.0 && cash > 0.0 && cash / 5.0 >= 2.0 * price.value &&
                                     (entry ==> cash / 5.0 >= 500000.0))
            && (u.reconstructed ==>
                  u.newQuantity as real * price.value <= cash / 5.0 < (u.newQuantity + 1) as real * price.value)
            && (!u.reconstructed ==> u.newQuantity == if r.kind == Approve then 10 else 100)
  {
    var cash := EffectiveCash(r.orderable, r.available);
    if cash.Some? && price.Some? && price.value > 0.0 {
      SharesAreLargestAffordable(cash.value, price.value, IsNew(r.kind));
    }
  }

  /** The price of a symbol is looked up at the time of its first row that has an orderable or available
      amount, and not at all if it has none. */
  lemma {:induction false} FirstCashExactly(rows: seq<Row>, k: nat, symbol: string)
    requires k <= |rows|
    requires forall i :: 0 <= i < k ==> !(rows[i].symbol == symbol && (rows[i].orderable.Some? || rows[i].available.Some?))
    requires k < |rows| ==> rows[k].symbol == symbol && (rows[k].orderable.Some? || rows[k].available.Some?)
    ensures FirstCashTime(rows, symbol) == if k < |rows| then Some(rows[k].createdAt) else None
    decreases k
  {
    if k > 0 { FirstCashExactly(rows[1..], k - 1, symbol); }
  }

  /** The write: with distinct ids, a row that held 1 gets exactly its new quantity, any other row keeps
      what it held. */
  lemma {:induction false} WrittenExactly(table: map<nat, int>, updates: seq<Update>, id: nat)
    requires forall i, j :: 0 <= i < j < |updates| ==> updates[i].id != updates[j].id
    requires forall i :: 0 <= i < |updates| ==> updates[i].newQuantity != updates[i].oldQuantity
    ensures Written(table, updates).Keys == table.Keys
    ensures id in table && (table[id] != 1 || forall i :: 0 <= i < |updates| ==> updates[i].id != id) ==>
              Written(table, updates)[id] == table[id]
    ensures forall i :: 0 <= i < |updates| && updates[i].id == id && id in table && table[id] == 1 ==>
              Written(table, updates)[id] == updates[i].newQuantity
    decreases |updates|
  {
    if updates != [] { WrittenExactly(table, updates[..|updates| - 1], id); }
  }

  /** The reported counts are sizes of sets of rows. */
  lemma {:induction false} CountsAreSizes(updates: seq<Update>)
    ensures CountReconstructed(updates) == |set i: nat | i < |updates| && updates[i].reconstructed|
    decreases |updates|
  {
    var all := set i: nat | i < |updates| && updates[i].reconstructed;
    if updates == [] {
      assert all == {};
    } else {
      var n := |updates| - 1;
      CountsAreSizes(updates[..n]);
      assert all == (set i: nat | i < |updates[..n]| && updates[..n][i].reconstructed) + if updates[n].reconstructed then {n} else {};
    }
  }

  /** Concretely: a fifth of the cash buys one share of this price; the batch writes 100. */
  lemma OneShareBecomesDefault() returns (r: Row, price: real)
    ensures Reconstruct(r.orderable, r.available, Some(price), IsNew(r.kind)) == Some(1)
    ensures UpdateFor(r, Some(price)).newQuantity == DEFAULT_QUANTITY_BUY
  {
    r, price := Row(0, Add, "005930", 0, Some(1000.0), None, 1), 150.0;
    SharesAreLargestAffordable(1000.0, price, false);
  }

  /** Updates of rows whose quantity is 1: none is skipped. */
  lemma {:induction false} NothingSkipped(updates: seq<Update>)
    requires forall i :: 0 <= i < |updates| ==> updates[i].oldQuantity == 1 && updates[i].newQuantity > 1
    ensures CountUnchanged(updates) == 0
    decreases |updates|
  {
    if updates != [] { NothingSkipped(updates[..|updates| - 1]); }
  }

  predicate Capped(table: map<nat, int>, id: nat) {
    id in table && table[id] == 1
  }

  /** After the guarded update no row of the batch is still capped, other rows are untouched, and
      writing the same updates again changes nothing. */
  lemma {:induction false} BatchUncapsItsRows(table: map<nat, int>, updates: seq<Update>)
    requires forall i :: 0 <= i < |updates| ==> updates[i].oldQuantity == 1 && updates[i].newQuantity > 1
    ensures var after := Written(table, updates);
            && after.Keys == table.Keys
            && (forall i :: 0 <= i < |updates| ==> !Capped(after, updates[i].id))
            && (forall id :: id in table && (!Capped(table, id) || forall i :: 0 <= i < |updates| ==> updates[i].id != id) ==>
                  after[id] == table[id])
            && Written(after, updates) == after
    decreases |updates|
  {
    if updates != [] {
      BatchUncapsItsRows(table, updates[..|updates| - 1]);
      WrittenIsStable(Written(table, updates), updates);
    }
  }

  lemma {:induction false} WrittenIsStable(table: map<nat, int>, updates: seq<Update>)
    requires forall i :: 0 <= i < |updates| ==> !Capped(table, updates[i].id)
    ensures Written(table, updates) == table
    decreases |updates|
  {
    if updates != [] { WrittenIsStable(table, updates[..|updates| - 1]); }
  }

  /** For a batch of rows with quantity 1, whatever the prices: the skip branch is never taken, no row
      of the batch is left capped, and running the batch again on the same rows is a no-op. */
  lemma BackfillIsComplete(table: map<nat, int>, rows: seq<Row>, lookup: (string, int) -> Option<real>, updates: seq<Update>)
    requires |updates| == |rows| && forall i :: 0 <= i < |rows| ==> rows[i].quantity == 1
    requires forall i :: 0 <= i < |rows| ==> updates[i] == UpdateFor(rows[i], BatchPrice(rows, rows[i].symbol, lookup))
    ensures CountUnchanged(updates) == 0
    ensures forall i :: 0 <= i < |rows| ==> updates[i].newQuantity > 1 && !Capped(Written(table, updates), rows[i].id)
    ensures Written(Written(table, updates), updates) == Written(table, updates)
  {
    forall i | 0 <= i < |rows| ensures updates[i].oldQuantity == 1 && updates[i].newQuantity > 1 && updates[i].id == rows[i].id {
      NewQuantityExceedsOne(rows[i], BatchPrice(rows, rows[i].symbol, lookup));
    }
    NothingSkipped(updates);
    BatchUncapsItsRows(table, updates);
    assert forall i :: 0 <= i < |updates| ==> !Capped(Written(table, updates), updates[i].id);
  }

  /** With a lookup per row instead of a cache the updates are the same whenever the lookups agree
      across the rows of each symbol that have cash data. */
  lemma CacheIsTransparent(rows: seq<Row>, lookup: (string, int) -> Option<real>, i: nat)
    requires i < |rows|
    requires forall a, b :: 0 <= a < |rows| && 0 <= b < |rows| && HasCash(rows[a]) && HasCash(rows[b]) && rows[a].symbol == rows[b].symbol ==>
               lookup(rows[a].symbol, rows[a].createdAt) == lookup(rows[b].symbol, rows[b].createdAt)
    ensures UpdateFor(rows[i], BatchPrice(rows, rows[i].symbol, lookup)) ==
            UpdateFor(rows[i], lookup(rows[i].symbol, rows[i].createdAt))
  {
    if HasCash(rows[i]) {
      var a := FirstCashIndex(rows, i);
      assert lookup(rows[a].symbol, rows[a].createdAt) == lookup(rows[i].symbol, rows[i].createdAt);
    }
  }

  lemma {:induction false} FirstCashIndex(rows: seq<Row>, i: nat) returns (a: nat)
    requires i < |rows| && HasCash(rows[i])
    ensures a <= i && rows[a].symbol == rows[i].symbol && HasCash(rows[a])
    ensures FirstCashTime(rows, rows[i].symbol) == Some(rows[a].createdAt)
    decreases |rows|
  {
    if rows[0].symbol == rows[i].symbol && HasCash(rows[0]) {
      a := 0;
    } else {
      var b := FirstCashIndex(rows[1..], i - 1);
      a := b + 1;
    }
  }
}

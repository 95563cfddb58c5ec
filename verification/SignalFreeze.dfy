/** Freezing the universe of a business date and purpose once, then reusing it
    (`_resolve_frozen_universe` of generate_signal_feature_snapshot_input.py and
    services/universe_freeze_dedupe.py). */
module SignalFreeze {
  import opened Outcomes
  import opened Text

  datatype Symbol = Symbol(symbol: string, market: string, sourceType: string, reason: string)

  /** `key` is the normalised symbol and market of the item, which the dedupe compares. */
  datatype FreezeItem = FreezeItem(
    symbol: string, market: string, sourceType: string, reason: string, instrument: nat, rank: nat, key: (string, string))

  datatype FreezeRun = FreezeRun(id: nat, date: int, purpose: string, sequence: int)

  datatype Resolution = Resolution(runId: nat, universe: seq<Symbol>, reused: bool, errors: nat)

  function SymbolOf(i: FreezeItem): Symbol {
    Symbol(i.symbol, i.market, i.sourceType, i.reason)
  }

  function UniverseOf(items: seq<FreezeItem>): seq<Symbol> {
    seq(|items|, i requires 0 <= i < |items| => SymbolOf(items[i]))
  }

  // ---------------------------------------------------------------- dedupe

  function KeyFor(symbol: string, market: string): (string, string) {
    (Norm(symbol), Norm(market))
  }

  predicate Clashes(a: FreezeItem, b: FreezeItem) {
    a.key == b.key || a.instrument == b.instrument
  }

  ghost predicate ClashesIn(kept: seq<FreezeItem>, x: FreezeItem) {
    exists i :: 0 <= i < |kept| && Clashes(kept[i], x)
  }

  /** An item kept from an index before `k` clashes with `x`. */
  ghost predicate Preceded(kept: seq<FreezeItem>, at: seq<nat>, x: FreezeItem, k: nat)
    requires |at| == |kept|
  {
    exists i :: 0 <= i < |kept| && at[i] < k && Clashes(kept[i], x)
  }

  /** What is kept, in order, comes from the indices `at`, re-ranked 1, 2, 3, ..., and is pairwise
      distinct in key and instrument; every other item clashes with one kept from an earlier index. */
  ghost predicate DedupedAt(items: seq<FreezeItem>, kept: seq<FreezeItem>, at: seq<nat>) {
    && |at| == |kept|
    && (forall i :: 0 <= i < |at| ==> at[i] < |items| && kept[i] == items[at[i]].(rank := i + 1))
    && (forall i, j :: 0 <= i < j < |at| ==> at[i] < at[j] && !Clashes(kept[i], kept[j]))
    && (forall k: nat {:trigger Preceded(kept, at, items[k], k)} ::
          k < |items| && k !in at ==> Preceded(kept, at, items[k], k))
  }

  ghost predicate Deduped(items: seq<FreezeItem>, kept: seq<FreezeItem>) {
    exists at :: DedupedAt(items, kept, at)
  }

  lemma DedupedDrop(items: seq<FreezeItem>, item: FreezeItem, kept: seq<FreezeItem>, at: seq<nat>)
    requires DedupedAt(items, kept, at) && ClashesIn(kept, item)
    ensures DedupedAt(items + [item], kept, at)
  {
    var all := items + [item];
    forall k: nat | k < |all| && k !in at ensures Preceded(kept, at, all[k], k) {
      if k < |items| { assert Preceded(kept, at, items[k], k); }
    }
  }

  lemma DedupedKeep(items: seq<FreezeItem>, item: FreezeItem, kept: seq<FreezeItem>, at: seq<nat>)
    requires DedupedAt(items, kept, at) && !ClashesIn(kept, item)
    ensures DedupedAt(items + [item], kept + [item.(rank := |kept| + 1)], at + [|items|])
  {
    var all, more, ats := items + [item], kept + [item.(rank := |kept| + 1)], at + [|items|];
    forall k: nat | k < |all| && k !in ats ensures Preceded(more, ats, all[k], k) {
      assert k != |items| by { assert ats[|at|] == |items|; }
      assert k !in at;
      assert Preceded(kept, at, items[k], k);
      var i :| 0 <= i < |kept| && at[i] < k && Clashes(kept[i], items[k]);
      assert ats[i] < k && Clashes(more[i], all[k]);
    }
    forall i, j | 0 <= i < j < |ats| ensures ats[i] < ats[j] && !Clashes(more[i], more[j]) {
      if j == |kept| { assert !Clashes(kept[i], item); }
    }
  }

  /** The first `n` kept items of two descriptions are the same. */
  lemma {:induction false} SameStart(items: seq<FreezeItem>, kept: seq<FreezeItem>, at: seq<nat>,
                                     kept': seq<FreezeItem>, at': seq<nat>, n: nat)
    requires DedupedAt(items, kept, at) && DedupedAt(items, kept', at') && n <= |at| && n <= |at'|
    ensures at[..n] == at'[..n]
  {
    if n > 0 {
      SameStart(items, kept, at, kept', at', n - 1);
      NotEarlier(items, kept, at, kept', at', n - 1);
      NotEarlier(items, kept', at', kept, at, n - 1);
      assert forall i :: 0 <= i < n - 1 ==> at[i] == at[..n - 1][i] && at'[i] == at'[..n - 1][i];
    }
  }

  lemma NotEarlier(items: seq<FreezeItem>, kept: seq<FreezeItem>, at: seq<nat>, kept': seq<FreezeItem>, at': seq<nat>, n: nat)
    requires DedupedAt(items, kept, at) && DedupedAt(items, kept', at') && n < |at| && n <= |at'| && at[..n] == at'[..n]
    ensures n < |at'| && at'[n] <= at[n]
  {
    var k := at[n];
    forall i | 0 <= i < n ensures at'[i] == at[i] && kept'[i] == kept[i] && !Clashes(kept'[i], items[k]) {
      assert at[i] == at[..n][i] && at'[i] == at'[..n][i];
      assert !Clashes(kept[i], kept[n]);
    }
    var j: nat;
    if k in at' {
      j :| j < |at'| && at'[j] == k;
    } else {
      assert Preceded(kept', at', items[k], k);
      j :| j < |at'| && at'[j] < k && Clashes(kept'[j], items[k]);
    }
    assert j >= n;
  }

  /** The description determines the result: the first of each key and instrument, in order. */
  lemma DedupeIsDetermined(items: seq<FreezeItem>, kept: seq<FreezeItem>, kept': seq<FreezeItem>)
    requires Deduped(items, kept) && Deduped(items, kept')
    ensures kept == kept'
  {
    var at :| DedupedAt(items, kept, at);
    var at' :| DedupedAt(items, kept', at');
    var n := if |at| < |at'| then |at| else |at'|;
    SameStart(items, kept, at, kept', at', n);
    if n < |at| { NotEarlier(items, kept, at, kept', at', n); }
    if n < |at'| { NotEarlier(items, kept', at', kept, at, n); }
    assert at[..n] == at && at'[..n] == at';
  }

  /** In terms of columns: no two kept items share the normalised symbol and market or the instrument,
      and every item shares one of them with a kept item. */
  lemma DedupedMeans(items: seq<FreezeItem>, kept: seq<FreezeItem>)
    requires Deduped(items, kept)
    ensures forall i, j :: 0 <= i < j < |kept| ==> kept[i].key != kept[j].key && kept[i].instrument != kept[j].instrument
    ensures forall k :: 0 <= k < |items| ==> SharesOne(kept, items[k])
    ensures forall i :: 0 <= i < |kept| ==> kept[i].rank == i + 1
  {
    var at :| DedupedAt(items, kept, at);
    forall k: nat | k < |items| ensures SharesOne(kept, items[k]) {
      if k in at {
        var i :| 0 <= i < |at| && at[i] == k;
        assert kept[i].key == items[k].key;
      } else {
        assert Preceded(kept, at, items[k], k);
        var i :| 0 <= i < |kept| && at[i] < k && Clashes(kept[i], items[k]);
      }
    }
    forall i, j | 0 <= i < j < |kept| ensures kept[i].key != kept[j].key && kept[i].instrument != kept[j].instrument {
      assert !Clashes(kept[i], kept[j]);
    }
  }

  ghost predicate SharesOne(kept: seq<FreezeItem>, x: FreezeItem) {
    exists i :: 0 <= i < |kept| && (kept[i].key == x.key || kept[i].instrument == x.instrument)
  }

  ghost predicate KeyIn(kept: seq<FreezeItem>, x: (string, string)) {
    exists i :: 0 <= i < |kept| && kept[i].key == x
  }

  ghost predicate InstrumentIn(kept: seq<FreezeItem>, x: nat) {
    exists i :: 0 <= i < |kept| && kept[i].instrument == x
  }

  lemma SeenMore(kept: seq<FreezeItem>, item: FreezeItem)
    ensures forall x :: KeyIn(kept + [item], x) <==> KeyIn(kept, x) || x == item.key
    ensures forall x: nat :: InstrumentIn(kept + [item], x) <==> InstrumentIn(kept, x) || x == item.instrument
  {
    var more := kept + [item];
    forall x ensures KeyIn(more, x) <==> KeyIn(kept, x) || x == item.key {
      if KeyIn(kept, x) { var i :| 0 <= i < |kept| && kept[i].key == x; assert more[i].key == x; }
      if x == item.key { assert more[|kept|].key == x; }
    }
    forall x: nat ensures InstrumentIn(more, x) <==> InstrumentIn(kept, x) || x == item.instrument {
      if InstrumentIn(kept, x) { var i :| 0 <= i < |kept| && kept[i].instrument == x; assert more[i].instrument == x; }
      if x == item.instrument { assert more[|kept|].instrument == x; }
    }
  }

  lemma SeenMeansClash(kept: seq<FreezeItem>, item: FreezeItem)
    ensures KeyIn(kept, item.key) || InstrumentIn(kept, item.instrument) <==> ClashesIn(kept, item)
  {
    if KeyIn(kept, item.key) {
      var i :| 0 <= i < |kept| && kept[i].key == item.key;
      assert Clashes(kept[i], item);
    }
    if InstrumentIn(kept, item.instrument) {
      var i :| 0 <= i < |kept| && kept[i].instrument == item.instrument;
      assert Clashes(kept[i], item);
    }
  }

  /** `dedupe_universe_freeze_run_items` */
  method Dedupe(items: seq<FreezeItem>) returns (kept: seq<FreezeItem>, skipped: nat)
    ensures Deduped(items, kept) && skipped == |items| - |kept|
  {
    var keys: set<(string, string)>, instruments: set<nat> := {}, {};
    ghost var at: seq<nat> := [];
    kept, skipped := [], 0;
    for k := 0 to |items|
      invariant skipped == k - |kept| && DedupedAt(items[..k], kept, at)
      invariant forall x :: x in keys <==> KeyIn(kept, x)
      invariant forall x :: x in instruments <==> InstrumentIn(kept, x)
    {
      var item := items[k];
      assert items[..k + 1] == items[..k] + [item];
      SeenMeansClash(kept, item);
      if item.key in keys || item.instrument in instruments {
        DedupedDrop(items[..k], item, kept, at);
        skipped := skipped + 1;
        continue;
      }
      DedupedKeep(items[..k], item, kept, at);
      SeenMore(kept, item.(rank := |kept| + 1));
      keys, instruments := keys + {item.key}, instruments + {item.instrument};
      kept, at := kept + [item.(rank := |kept| + 1)], at + [k];
    }
    assert items[..|items|] == items;
  }

  // ---------------------------------------------------------------- the store

  predicate For(r: FreezeRun, date: int, purpose: string) {
    r.date == date && r.purpose == purpose
  }

  /** A value of the two freeze tables. */
  datatype Store = Store(runs: seq<FreezeRun>, items: map<nat, seq<FreezeItem>>)

  function ItemsOf(s: Store, id: nat): seq<FreezeItem> {
    if id in s.items then s.items[id] else []
  }

  /** `id` is a fresh uuid. */
  predicate Unused(s: Store, id: nat) {
    id !in s.items && forall i :: 0 <= i < |s.runs| ==> s.runs[i].id != id
  }

  /** Every run is the only one of its date and purpose, has sequence 1 and items. */
  ghost predicate OneRunEach(s: Store) {
    && (forall i :: 0 <= i < |s.runs| ==> s.runs[i].sequence == 1 && ItemsOf(s, s.runs[i].id) != [])
    && (forall i, j :: 0 <= i < j < |s.runs| ==>
          s.runs[i].id != s.runs[j].id && !For(s.runs[j], s.runs[i].date, s.runs[i].purpose))
  }

  /** The answer that run `i` gives. */
  predicate AnswerOf(s: Store, i: nat, r: Resolution)
    requires i < |s.runs|
  {
    r.runId == s.runs[i].id && r.universe == UniverseOf(ItemsOf(s, s.runs[i].id))
  }

  /** Run `i` is the latest of its date and purpose. */
  predicate Latest(s: Store, date: int, purpose: string, i: nat)
    requires i < |s.runs|
  {
    For(s.runs[i], date, purpose) &&
    forall j :: 0 <= j < |s.runs| && For(s.runs[j], date, purpose) ==> s.runs[j].sequence <= s.runs[i].sequence
  }

  /** The latest run has items and is the answer. */
  ghost predicate Reuses(s: Store, date: int, purpose: string, r: Resolution) {
    r.reused && r.errors == 0 &&
    exists i :: 0 <= i < |s.runs| && Latest(s, date, purpose, i) && ItemsOf(s, s.runs[i].id) != [] && AnswerOf(s, i, r)
  }

  /** There is no run yet and `sequence` is 1, or the latest run has no items and precedes `sequence`. */
  ghost predicate NextSequence(s: Store, date: int, purpose: string, sequence: int) {
    || (sequence == 1 && forall i :: 0 <= i < |s.runs| ==> !For(s.runs[i], date, purpose))
    || (exists i :: 0 <= i < |s.runs| && Latest(s, date, purpose, i) && ItemsOf(s, s.runs[i].id) == [] &&
          sequence == s.runs[i].sequence + 1)
  }

  ghost predicate Adds(s: Store, s': Store, date: int, purpose: string, r: Resolution) {
    && !r.reused && |s'.runs| == |s.runs| + 1
    && var run := s'.runs[|s.runs|];
    && Unused(s, run.id) && run.id == r.runId && For(run, date, purpose) && NextSequence(s, date, purpose, run.sequence)
    && run.id in s'.items && s'.items[run.id] != [] && r.universe == UniverseOf(s'.items[run.id])
    && s' == Store(s.runs + [run], s.items[run.id := s'.items[run.id]])
  }

  /** What one resolution may do to the store: reuse, fail without writing, or add one run. */
  ghost predicate Resolves(s: Store, s': Store, date: int, purpose: string, r: Result<Resolution>) {
    if r.Err? then s' == s && exists sequence :: NextSequence(s, date, purpose, sequence)
    else (s' == s && Reuses(s, date, purpose, r.value)) || Adds(s, s', date, purpose, r.value)
  }

  class FreezeTables {
    var runs: seq<FreezeRun>
    var items: map<nat, seq<FreezeItem>>

    function View(): Store
      reads this
    {
      Store(runs, items)
    }

    constructor ()
      ensures View() == Store([], map[])
    {
      runs, items := [], map[];
    }

    /** `get_latest`: the run of the highest sequence, the later one on a tie. */
    method GetLatest(date: int, purpose: string) returns (r: Option<FreezeRun>)
      ensures r.None? ==> forall i :: 0 <= i < |runs| ==> !(runs[i].date == date && runs[i].purpose == purpose)
      ensures r.Some? ==> r.value in runs && r.value.date == date && r.value.purpose == purpose
      ensures r.Some? ==> forall i :: 0 <= i < |runs| && For(runs[i], date, purpose) ==> runs[i].sequence <= r.value.sequence
    {
      r := None;
      for i := 0 to |runs|
        invariant r.None? ==> forall k :: 0 <= k < i ==> !For(runs[k], date, purpose)
        invariant r.Some? ==> r.value in runs && For(r.value, date, purpose)
        invariant r.Some? ==> forall k :: 0 <= k < i && For(runs[k], date, purpose) ==> runs[k].sequence <= r.value.sequence
      {
        if For(runs[i], date, purpose) && (r.None? || r.value.sequence <= runs[i].sequence) { r := Some(runs[i]); }
      }
    }

    /** The rows to freeze: composed symbols with an instrument, ranked by position, then deduped. */
    method Materialize(composed: seq<Symbol>, lookup: map<(string, string), nat>)
      returns (kept: seq<FreezeItem>, errors: nat)
      ensures Deduped(Found(composed, lookup), kept) && errors == |composed| - |Found(composed, lookup)|
    {
      var found: seq<FreezeItem> := [];
      errors := 0;
      for k := 0 to |composed|
        invariant found == Found(composed[..k], lookup) && errors == k - |found|
      {
        var c := composed[k];
        assert composed[..k + 1][..k] == composed[..k];
        if (c.symbol, c.market) in lookup {
          found := found + [FreezeItem(c.symbol, c.market, c.sourceType, c.reason, lookup[(c.symbol, c.market)], k + 1,
                                      KeyFor(c.symbol, c.market))];
        } else {
          errors := errors + 1;
        }
      }
      assert composed[..|composed|] == composed;
      var skipped;
      kept, skipped := Dedupe(found);
    }

    /** `_resolve_frozen_universe` in its own transaction; `id` is the generated uuid. */
    method Resolve(date: int, purpose: string, id: nat, composed: seq<Symbol>, lookup: map<(string, string), nat>)
      returns (r: Result<Resolution>)
      requires Unused(View(), id)
      modifies this
      ensures Resolves(old(View()), View(), date, purpose, r)
      ensures r.Err? ==> !Materializable(composed, lookup)
      ensures r.Ok? && !r.value.reused ==> r.value.runId == id && id in items && Deduped(Found(composed, lookup), items[id])
      ensures r.Ok? && !r.value.reused ==> r.value.errors == |composed| - |Found(composed, lookup)|
    {
      ghost var before := View();
      var existing := GetLatest(date, purpose);
      if existing.Some? {
        var existingItems := ItemsOf(View(), existing.value.id);
        if existingItems != [] {
          ghost var i :| 0 <= i < |runs| && runs[i] == existing.value;
          r := Ok(Resolution(existing.value.id, UniverseOf(existingItems), true, 0));
          assert Latest(before, date, purpose, i) && AnswerOf(before, i, r.value);
          return;
        }
      }
      var sequence := if existing.None? then 1 else existing.value.sequence + 1;
      assert NextSequence(before, date, purpose, sequence) by {
        if existing.Some? {
          var i :| 0 <= i < |runs| && runs[i] == existing.value;
          assert Latest(before, date, purpose, i);
        }
      }
      var kept, errors := Materialize(composed, lookup);
      MaterializedIff(composed, lookup, kept);
      if kept == [] { return Err; }
      var run := FreezeRun(id, date, purpose, sequence);
      runs := runs + [run];
      items := items[id := kept];
      r := Ok(Resolution(id, UniverseOf(kept), false, errors));
    }
  }

  /** The composed symbols that have an instrument, in order, ranked by their position. */
  function Found(composed: seq<Symbol>, lookup: map<(string, string), nat>): seq<FreezeItem> {
    if composed == [] then []
    else
      var c, before := composed[|composed| - 1], Found(composed[..|composed| - 1], lookup);
      if (c.symbol, c.market) in lookup
      then before + [FreezeItem(c.symbol, c.market, c.sourceType, c.reason, lookup[(c.symbol, c.market)], |composed|,
                                KeyFor(c.symbol, c.market))]
      else before
  }

  /** Some composed symbol has an instrument. */
  ghost predicate Materializable(composed: seq<Symbol>, lookup: map<(string, string), nat>) {
    exists i :: 0 <= i < |composed| && (composed[i].symbol, composed[i].market) in lookup
  }

  /** The item that a composed symbol with an instrument becomes: that instrument, its position as rank,
      and its stripped and upper-cased symbol and market as key. */
  predicate FoundFrom(c: Symbol, position: nat, lookup: map<(string, string), nat>, x: FreezeItem) {
    && (c.symbol, c.market) in lookup
    && x == FreezeItem(c.symbol, c.market, c.sourceType, c.reason, lookup[(c.symbol, c.market)], position + 1,
                       (Upper(Strip(c.symbol)), Upper(Strip(c.market))))
  }

  /** The composed symbols with an instrument stand at the increasing indices `at`. */
  ghost predicate FoundAt(composed: seq<Symbol>, lookup: map<(string, string), nat>, found: seq<FreezeItem>, at: seq<nat>) {
    && |at| == |found| && (forall i, j :: 0 <= i < j < |at| ==> at[i] < at[j])
    && (forall k: nat :: k < |composed| ==> (k in at <==> (composed[k].symbol, composed[k].market) in lookup))
    && (forall i :: 0 <= i < |at| ==> at[i] < |composed| && FoundFrom(composed[at[i]], at[i], lookup, found[i]))
  }

  lemma FoundNext(composed: seq<Symbol>, lookup: map<(string, string), nat>, found: seq<FreezeItem>, at: seq<nat>, c: Symbol)
    requires FoundAt(composed, lookup, found, at)
    ensures (c.symbol, c.market) !in lookup ==> FoundAt(composed + [c], lookup, found, at)
    ensures forall x :: FoundFrom(c, |composed|, lookup, x) ==> FoundAt(composed + [c], lookup, found + [x], at + [|composed|])
  {
    assert |composed| !in at;
  }

  /** What is found: every composed symbol with an instrument once, in order. */
  lemma {:induction false} FoundExactly(composed: seq<Symbol>, lookup: map<(string, string), nat>) returns (at: seq<nat>)
    ensures FoundAt(composed, lookup, Found(composed, lookup), at)
    decreases |composed|
  {
    if composed == [] {
      at := [];
    } else {
      var before, c := composed[..|composed| - 1], composed[|composed| - 1];
      var found := Found(before, lookup);
      at := FoundExactly(before, lookup);
      FoundNext(before, lookup, found, at, c);
      assert composed == before + [c];
      if (c.symbol, c.market) in lookup {
        assert FoundFrom(c, |before|, lookup, Found(composed, lookup)[|found|]);
        at := at + [|before|];
      }
    }
  }

  lemma {:induction false} FoundIff(composed: seq<Symbol>, lookup: map<(string, string), nat>)
    ensures Found(composed, lookup) != [] <==> Materializable(composed, lookup)
    decreases |composed|
  {
    if composed != [] {
      var before := composed[..|composed| - 1];
      FoundIff(before, lookup);
      if Materializable(before, lookup) {
        var i :| 0 <= i < |before| && (before[i].symbol, before[i].market) in lookup;
        assert (composed[i].symbol, composed[i].market) in lookup;
      }
      if Materializable(composed, lookup) {
        var i :| 0 <= i < |composed| && (composed[i].symbol, composed[i].market) in lookup;
        if i < |before| { assert (before[i].symbol, before[i].market) in lookup; }
      }
    }
  }

  /** Something is frozen exactly when some composed symbol has an instrument. */
  lemma MaterializedIff(composed: seq<Symbol>, lookup: map<(string, string), nat>, kept: seq<FreezeItem>)
    requires Deduped(Found(composed, lookup), kept)
    ensures kept != [] <==> Materializable(composed, lookup)
  {
    var found := Found(composed, lookup);
    var at :| DedupedAt(found, kept, at);
    FoundIff(composed, lookup);
    if kept != [] { assert at[0] < |found|; }
    if found != [] { assert 0 !in at ==> Preceded(kept, at, found[0], 0); }
  }

  /** One resolution over the runs' columns: a reused run is of the date and purpose, of the highest
      sequence, and has items; a new one is appended with sequence 1 if there was none of the date and purpose,
      else with one more than the highest; a failure changes nothing. */
  lemma ResolvesExactly(s: Store, s': Store, date: int, purpose: string, r: Result<Resolution>)
    requires Resolves(s, s', date, purpose, r)
    ensures r.Err? || r.value.reused ==> s' == s
    ensures r.Ok? && r.value.reused ==> HighestOf(s, date, purpose, r.value.runId) && r.value.runId in s.items && s.items[r.value.runId] != []
    ensures r.Ok? && !r.value.reused ==>
              && |s'.runs| == |s.runs| + 1 && s'.runs[..|s.runs|] == s.runs
              && var run := s'.runs[|s.runs|];
              && run.id == r.value.runId && run.date == date && run.purpose == purpose
              && (forall i :: 0 <= i < |s.runs| && s.runs[i].date == date && s.runs[i].purpose == purpose ==>
                    s.runs[i].sequence < run.sequence)
              && (run.sequence == 1 || SequenceBefore(s, date, purpose, run.sequence))
              && ((forall i :: 0 <= i < |s.runs| ==> !(s.runs[i].date == date && s.runs[i].purpose == purpose)) ==> run.sequence == 1)
  {
    if r.Ok? && r.value.reused {
      var i :| 0 <= i < |s.runs| && Latest(s, date, purpose, i) && ItemsOf(s, s.runs[i].id) != [] && AnswerOf(s, i, r.value);
      assert s.runs[i].id == r.value.runId;
    } else if r.Ok? {
      var run := s'.runs[|s.runs|];
      if i :| 0 <= i < |s.runs| && Latest(s, date, purpose, i) && ItemsOf(s, s.runs[i].id) == [] && run.sequence == s.runs[i].sequence + 1 {
        assert s.runs[i].date == date && s.runs[i].purpose == purpose;
      }
    }
  }

  ghost predicate HighestOf(s: Store, date: int, purpose: string, id: nat) {
    exists i :: 0 <= i < |s.runs| && s.runs[i].id == id && s.runs[i].date == date && s.runs[i].purpose == purpose &&
      forall j :: 0 <= j < |s.runs| && s.runs[j].date == date && s.runs[j].purpose == purpose ==> s.runs[j].sequence <= s.runs[i].sequence
  }

  ghost predicate SequenceBefore(s: Store, date: int, purpose: string, sequence: int) {
    exists i :: 0 <= i < |s.runs| && s.runs[i].date == date && s.runs[i].purpose == purpose && s.runs[i].sequence + 1 == sequence
  }

  // ---------------------------------------------------------------- any sequence of resolutions

  datatype Call = Call(date: int, purpose: string, composed: seq<Symbol>, lookup: map<(string, string), nat>)

  /** Resolving a date and purpose that already has its run reuses it and writes nothing; otherwise
      it adds the first run or writes nothing. */
  lemma ResolveKeepsOneRun(s: Store, s': Store, date: int, purpose: string, r: Result<Resolution>)
    requires OneRunEach(s) && Resolves(s, s', date, purpose, r)
    ensures OneRunEach(s')
    ensures r.Ok? && !r.value.reused ==> forall i :: 0 <= i < |s.runs| ==> !For(s.runs[i], date, purpose)
  {
    if s' != s {
      var run := s'.runs[|s.runs|];
      assert run.sequence == 1;
      forall i | 0 <= i < |s'.runs| ensures s'.runs[i].sequence == 1 && ItemsOf(s', s'.runs[i].id) != [] {
        if i < |s.runs| { assert s'.runs[i] == s.runs[i] && s.runs[i].id != run.id; }
      }
    }
  }

  /** `r` is the answer that the run of this date and purpose gives. */
  ghost predicate Answers(s: Store, date: int, purpose: string, r: Resolution) {
    exists i :: 0 <= i < |s.runs| && For(s.runs[i], date, purpose) && AnswerOf(s, i, r)
  }

  lemma AnswersPersist(s: Store, s': Store, date: int, purpose: string, r: Result<Resolution>, d: int, p: string, earlier: Resolution)
    requires Resolves(s, s', date, purpose, r) && Answers(s, d, p, earlier)
    ensures Answers(s', d, p, earlier)
  {
    var i :| 0 <= i < |s.runs| && For(s.runs[i], d, p) && AnswerOf(s, i, earlier);
    if s' != s {
      assert s'.runs[i] == s.runs[i] && s.runs[i].id != s'.runs[|s.runs|].id;
      assert AnswerOf(s', i, earlier);
    }
  }

  lemma NewAnswer(s: Store, s': Store, date: int, purpose: string, r: Result<Resolution>)
    requires Resolves(s, s', date, purpose, r) && r.Ok?
    ensures Answers(s', date, purpose, r.value)
  {
    if !r.value.reused { assert AnswerOf(s', |s.runs|, r.value); }
  }

  lemma SameAnswer(s: Store, s': Store, date: int, purpose: string, first: Resolution, r: Result<Resolution>)
    requires OneRunEach(s) && Answers(s, date, purpose, first) && Resolves(s, s', date, purpose, r)
    ensures r.Ok? && r.value.reused && s' == s && r.value.runId == first.runId && r.value.universe == first.universe
  {
    ResolveKeepsOneRun(s, s', date, purpose, r);
    var i :| 0 <= i < |s.runs| && For(s.runs[i], date, purpose) && AnswerOf(s, i, first);
    var j :| 0 <= j < |s.runs| && For(s.runs[j], date, purpose) && AnswerOf(s, j, r.value);
    assert i == j;
  }

  predicate SameKey(a: Call, b: Call) {
    a.date == b.date && a.purpose == b.purpose
  }

  predicate SameRun(first: Resolution, r: Result<Resolution>) {
    r.Ok? && r.value.reused && r.value.runId == first.runId && r.value.universe == first.universe
  }

  /** Once a call has an answer, every later call for the same date and purpose gives the same one. */
  ghost predicate Settled(calls: seq<Call>, results: seq<Result<Resolution>>) {
    |results| <= |calls| &&
    forall i, j | 0 <= i < j < |results| && results[i].Ok? && SameKey(calls[i], calls[j]) ::
      SameRun(results[i].value, results[j])
  }

  /** From an empty store, any sequence of resolutions keeps at most one run per date and purpose,
      with sequence 1 and items; once a call has succeeded, every later call for the same date and
      purpose returns the same run and universe, reused. */
  method ResolveAll(calls: seq<Call>) returns (tables: FreezeTables, results: seq<Result<Resolution>>)
    ensures fresh(tables) && OneRunEach(tables.View())
    ensures |results| == |calls| && Settled(calls, results)
    ensures forall i :: 0 <= i < |calls| && results[i].Ok? ==> Stored(tables.View(), calls[i], results[i].value)
    ensures forall i, j :: 0 <= i < j < |tables.runs| ==>
              tables.runs[i].date != tables.runs[j].date || tables.runs[i].purpose != tables.runs[j].purpose
  {
    tables := new FreezeTables();
    results := [];
    for k := 0 to |calls|
      invariant fresh(tables) && |results| == k
      invariant StateOk(tables.View(), calls, results, k)
    {
      var c := calls[k];
      ghost var before := tables.View();
      var r := tables.Resolve(c.date, c.purpose, k, c.composed, c.lookup);
      StateStep(before, tables.View(), calls, results, k, r);
      results := results + [r];
    }
    forall i | 0 <= i < |calls| && results[i].Ok? ensures Stored(tables.View(), calls[i], results[i].value) {
      AnswersAreStored(tables.View(), calls[i], results[i].value);
    }
  }

  /** The answer is a stored run of the call's date and purpose, with that run's items as universe. */
  ghost predicate Stored(s: Store, c: Call, r: Resolution) {
    exists i :: 0 <= i < |s.runs| && s.runs[i].id == r.runId && s.runs[i].date == c.date && s.runs[i].purpose == c.purpose
      && s.runs[i].sequence == 1 && r.runId in s.items && s.items[r.runId] != []
      && |r.universe| == |s.items[r.runId]| && Symbols(r.universe, s.items[r.runId])
  }

  predicate Symbols(universe: seq<Symbol>, items: seq<FreezeItem>)
    requires |universe| == |items|
  {
    forall j :: 0 <= j < |items| ==>
      universe[j] == Symbol(items[j].symbol, items[j].market, items[j].sourceType, items[j].reason)
  }

  lemma AnswersAreStored(s: Store, c: Call, r: Resolution)
    requires OneRunEach(s) && Answers(s, c.date, c.purpose, r)
    ensures Stored(s, c, r)
  {
    var i :| 0 <= i < |s.runs| && For(s.runs[i], c.date, c.purpose) && AnswerOf(s, i, r);
    assert ItemsOf(s, s.runs[i].id) != [];
    assert s.runs[i].id == r.runId && s.runs[i].date == c.date && s.runs[i].purpose == c.purpose;
  }

  /** The store and the answers after `k` calls, call `i` having drawn uuid `i`. */
  ghost predicate StateOk(s: Store, calls: seq<Call>, results: seq<Result<Resolution>>, k: nat) {
    && OneRunEach(s) && |results| == k <= |calls|
    && (forall id :: id in s.items ==> id < k)
    && (forall i :: 0 <= i < |s.runs| ==> s.runs[i].id < k)
    && (forall i :: 0 <= i < k && results[i].Ok? ==> Answers(s, calls[i].date, calls[i].purpose, results[i].value))
    && Settled(calls, results)
  }

  lemma StateStep(s: Store, s': Store, calls: seq<Call>, results: seq<Result<Resolution>>, k: nat, r: Result<Resolution>)
    requires k < |calls| && StateOk(s, calls, results, k)
    requires Resolves(s, s', calls[k].date, calls[k].purpose, r) && (r.Ok? && !r.value.reused ==> r.value.runId == k)
    ensures StateOk(s', calls, results + [r], k + 1)
  {
    var c, more := calls[k], results + [r];
    ResolveKeepsOneRun(s, s', c.date, c.purpose, r);
    if r.Ok? { NewAnswer(s, s', c.date, c.purpose, r); }
    forall i | 0 <= i < k && results[i].Ok? ensures Answers(s', calls[i].date, calls[i].purpose, results[i].value) {
      AnswersPersist(s, s', c.date, c.purpose, r, calls[i].date, calls[i].purpose, results[i].value);
    }
    assert Settled(calls, more) by {
      forall i | 0 <= i < k && results[i].Ok? && SameKey(calls[i], c) ensures SameRun(results[i].value, r) {
        SameAnswer(s, s', c.date, c.purpose, results[i].value, r);
      }
    }
  }
}

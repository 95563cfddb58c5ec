/** Building signal-feature input and retrying its tail: each round's error rows are the next
    round's universe (`_build_rows`, `_load_retry_universe_from_input`,
    `_with_regime_benchmark_symbol` and `_run` of generate_signal_feature_snapshot_input.py). */
module SignalRounds {
  import opened Outcomes
  import opened Text

  datatype Item = Item(symbol: string, market: string, sourceType: string, reason: string)

  datatype Row = Row(symbol: string, market: string, bars: nat)

  datatype FetchError = FetchError(symbol: string, market: string, code: string)

  /** What fetching one item comes to; an exception carries its error code. */
  datatype Fetched = GotBars(count: nat) | Failed(code: string)

  type Key = (string, string)

  const MIN_BARS := 20
  const BENCHMARK := Item("069500", "KRX", "regime_benchmark", "regime_benchmark_snapshot")

  predicate SupportedMarket(market: string) {
    market in {"KRX", "KOSPI", "KOSDAQ"}
  }

  /** The retry key of a symbol and a market. */
  function KeyOf(symbol: string, market: string): Key {
    (Strip(symbol), Norm(market))
  }

  predicate NonEmpty(k: Key) {
    k.0 != "" && k.1 != ""
  }

  ghost predicate HasKey(items: seq<Item>, k: Key) {
    exists i :: 0 <= i < |items| && KeyOf(items[i].symbol, items[i].market) == k
  }

  ghost predicate RowKey(rows: seq<Row>, k: Key) {
    exists i :: 0 <= i < |rows| && KeyOf(rows[i].symbol, rows[i].market) == k
  }

  ghost predicate ErrorKey(errors: seq<FetchError>, k: Key) {
    exists i :: 0 <= i < |errors| && KeyOf(errors[i].symbol, errors[i].market) == k
  }

  // ---------------------------------------------------------------- one round

  /** `_build_rows`; `fetched` lists the items whose bars were asked for. */
  method BuildRows(universe: seq<Item>, results: nat -> Fetched)
    returns (rows: seq<Row>, errors: seq<FetchError>, fetched: seq<Item>)
    ensures Splits(universe, results, rows, errors)
    ensures |rows| + |errors| == |universe|
    ensures FetchedOf(universe, fetched)
  {
    rows, errors, fetched := [], [], [];
    ghost var good: seq<nat>, bad: seq<nat> := [], [];
    for index := 0 to |universe|
      invariant SplitAt(universe, results, index, rows, errors, good, bad)
      invariant |rows| + |errors| == index
      invariant FetchedOf(universe[..index], fetched)
    {
      var item := universe[index];
      assert universe[..index + 1] == universe[..index] + [item];
      FetchedStep(universe[..index], fetched, item);
      if SupportedMarket(Norm(item.market)) { fetched := fetched + [item]; }
      var outcome := BuildOne(item, results(index));
      match outcome {
        case Good(row) =>
          SplitGood(universe, results, index, rows, errors, good, bad);
          rows, good := rows + [row], good + [index];
        case Bad(error) =>
          SplitBad(universe, results, index, rows, errors, good, bad);
          errors, bad := errors + [error], bad + [index];
      }
    }
    assert universe[..|universe|] == universe;
  }

  /** Exactly the items of supported markets are fetched. */
  ghost predicate FetchedOf(items: seq<Item>, fetched: seq<Item>) {
    forall x :: x in fetched <==> x in items && Norm(x.market) in ["KRX", "KOSPI", "KOSDAQ"]
  }

  lemma FetchedStep(items: seq<Item>, fetched: seq<Item>, item: Item)
    requires FetchedOf(items, fetched)
    ensures FetchedOf(items + [item], if SupportedMarket(Norm(item.market)) then fetched + [item] else fetched)
  {
  }

  datatype Built = Good(row: Row) | Bad(error: FetchError)

  /** What becomes of one item. */
  method BuildOne(item: Item, f: Fetched) returns (r: Built)
    ensures r == if Enough(item, f) then Good(RowOf(item, f)) else Bad(ErrorOf(item, f))
  {
    var market := Norm(item.market);
    if !SupportedMarket(market) { return Bad(FetchError(item.symbol, item.market, "unsupported_market")); }
    match f {
      case GotBars(n) =>
        if n < MIN_BARS { return Bad(FetchError(item.symbol, market, "insufficient_bars")); }
        r := Good(Row(item.symbol, market, n));
      case Failed(code) =>
        r := Bad(FetchError(item.symbol, market, code));
    }
  }

  /** The item is on a supported market and its fetch brought at least 20 bars. */
  predicate Enough(item: Item, f: Fetched) {
    Norm(item.market) in ["KRX", "KOSPI", "KOSDAQ"] && f.GotBars? && f.count >= 20
  }

  function RowOf(item: Item, f: Fetched): Row
    requires f.GotBars?
  {
    Row(item.symbol, Norm(item.market), f.count)
  }

  /** The error of an item without enough: its market as given if that is not supported, else the
      normalised market with insufficient_bars or the fetch's own code. */
  function ErrorOf(item: Item, f: Fetched): FetchError {
    if Norm(item.market) !in ["KRX", "KOSPI", "KOSDAQ"] then FetchError(item.symbol, item.market, "unsupported_market")
    else FetchError(item.symbol, Norm(item.market), if f.GotBars? then "insufficient_bars" else f.code)
  }

  predicate Increasing(s: seq<nat>, n: nat) {
    (forall i, j :: 0 <= i < j < |s| ==> s[i] < s[j]) && forall i :: 0 <= i < |s| ==> s[i] < n
  }

  /** The first `n` items: those with enough, at the indices `good`, gave the rows; the others, at the
      indices `bad`, gave the errors; both in order. */
  ghost predicate SplitAt(universe: seq<Item>, results: nat -> Fetched, n: nat, rows: seq<Row>, errors: seq<FetchError>,
                          good: seq<nat>, bad: seq<nat>)
    requires n <= |universe|
  {
    && |good| == |rows| && |bad| == |errors| && Increasing(good, n) && Increasing(bad, n)
    && (forall i: nat :: i < n ==> (i in good <==> Enough(universe[i], results(i))) && (i in bad <==> i !in good))
    && (forall j :: 0 <= j < |rows| ==> results(good[j]).GotBars? && rows[j] == RowOf(universe[good[j]], results(good[j])))
    && (forall j :: 0 <= j < |errors| ==> errors[j] == ErrorOf(universe[bad[j]], results(bad[j])))
  }

  ghost predicate Splits(universe: seq<Item>, results: nat -> Fetched, rows: seq<Row>, errors: seq<FetchError>) {
    exists good, bad :: SplitAt(universe, results, |universe|, rows, errors, good, bad)
  }

  lemma SplitGood(universe: seq<Item>, results: nat -> Fetched, n: nat, rows: seq<Row>, errors: seq<FetchError>,
                  good: seq<nat>, bad: seq<nat>)
    requires n < |universe| && SplitAt(universe, results, n, rows, errors, good, bad) && Enough(universe[n], results(n))
    ensures SplitAt(universe, results, n + 1, rows + [RowOf(universe[n], results(n))], errors, good + [n], bad)
  {
    assert n !in bad;
  }

  lemma SplitBad(universe: seq<Item>, results: nat -> Fetched, n: nat, rows: seq<Row>, errors: seq<FetchError>,
                 good: seq<nat>, bad: seq<nat>)
    requires n < |universe| && SplitAt(universe, results, n, rows, errors, good, bad) && !Enough(universe[n], results(n))
    ensures SplitAt(universe, results, n + 1, rows, errors + [ErrorOf(universe[n], results(n))], good, bad + [n])
  {
    assert n !in good;
  }

  /** The rows are exactly those of the items that had enough. */
  ghost predicate RowsOfEnough(universe: seq<Item>, results: nat -> Fetched, rows: seq<Row>) {
    && (forall x :: x in rows ==> RowOfSome(universe, results, x))
    && (forall i: nat :: i < |universe| && Enough(universe[i], results(i)) ==> RowOf(universe[i], results(i)) in rows)
  }

  ghost predicate RowOfSome(universe: seq<Item>, results: nat -> Fetched, x: Row) {
    exists i: nat :: i < |universe| && Enough(universe[i], results(i)) && x == RowOf(universe[i], results(i))
  }

  lemma SplitRows(universe: seq<Item>, results: nat -> Fetched, rows: seq<Row>, errors: seq<FetchError>)
    requires Splits(universe, results, rows, errors)
    ensures RowsOfEnough(universe, results, rows)
  {
    var good, bad :| SplitAt(universe, results, |universe|, rows, errors, good, bad);
    forall x | x in rows ensures RowOfSome(universe, results, x) {
      var j :| 0 <= j < |rows| && rows[j] == x;
      assert good[j] in good;
    }
    forall i: nat | i < |universe| && Enough(universe[i], results(i)) ensures RowOf(universe[i], results(i)) in rows {
      var j :| 0 <= j < |good| && good[j] == i;
      assert rows[j] == RowOf(universe[i], results(i));
    }
  }

  /** A key is a row key if and only if some item with that key had enough, and an error key if and only
      if some item with that key had not. */
  lemma SplitKeys(universe: seq<Item>, results: nat -> Fetched, rows: seq<Row>, errors: seq<FetchError>, k: Key)
    requires Splits(universe, results, rows, errors)
    ensures RowKey(rows, k) <==> exists i: nat :: i < |universe| && KeyOf(universe[i].symbol, universe[i].market) == k && Enough(universe[i], results(i))
    ensures ErrorKey(errors, k) <==> exists i: nat :: i < |universe| && KeyOf(universe[i].symbol, universe[i].market) == k && !Enough(universe[i], results(i))
  {
    var good, bad :| SplitAt(universe, results, |universe|, rows, errors, good, bad);
    SplitRowKeys(universe, results, rows, errors, good, bad, k);
    SplitErrorKeys(universe, results, rows, errors, good, bad, k);
  }

  lemma SplitRowKeys(universe: seq<Item>, results: nat -> Fetched, rows: seq<Row>, errors: seq<FetchError>,
                     good: seq<nat>, bad: seq<nat>, k: Key)
    requires SplitAt(universe, results, |universe|, rows, errors, good, bad)
    ensures RowKey(rows, k) <==> exists i: nat :: i < |universe| && KeyOf(universe[i].symbol, universe[i].market) == k && Enough(universe[i], results(i))
  {
    if RowKey(rows, k) {
      var j :| 0 <= j < |rows| && KeyOf(rows[j].symbol, rows[j].market) == k;
      NormIdempotent(universe[good[j]].market);
      assert good[j] in good;
    }
    if i: nat :| i < |universe| && KeyOf(universe[i].symbol, universe[i].market) == k && Enough(universe[i], results(i)) {
      var j :| 0 <= j < |good| && good[j] == i;
      NormIdempotent(universe[i].market);
      assert KeyOf(rows[j].symbol, rows[j].market) == k;
    }
  }

  lemma SplitErrorKeys(universe: seq<Item>, results: nat -> Fetched, rows: seq<Row>, errors: seq<FetchError>,
                       good: seq<nat>, bad: seq<nat>, k: Key)
    requires SplitAt(universe, results, |universe|, rows, errors, good, bad)
    ensures ErrorKey(errors, k) <==> exists i: nat :: i < |universe| && KeyOf(universe[i].symbol, universe[i].market) == k && !Enough(universe[i], results(i))
  {
    if ErrorKey(errors, k) {
      var j :| 0 <= j < |errors| && KeyOf(errors[j].symbol, errors[j].market) == k;
      NormIdempotent(universe[bad[j]].market);
      assert bad[j] in bad;
    }
    if i: nat :| i < |universe| && KeyOf(universe[i].symbol, universe[i].market) == k && !Enough(universe[i], results(i)) {
      assert i in bad;
      var j :| 0 <= j < |bad| && bad[j] == i;
      NormIdempotent(universe[i].market);
      assert KeyOf(errors[j].symbol, errors[j].market) == k;
    }
  }

  /** Every key of the universe is in the rows or in the errors, and nothing else is. */
  lemma RoundPartitions(universe: seq<Item>, results: nat -> Fetched, rows: seq<Row>, errors: seq<FetchError>, k: Key)
    requires Splits(universe, results, rows, errors)
    ensures HasKey(universe, k) <==> RowKey(rows, k) || ErrorKey(errors, k)
  {
    SplitKeys(universe, results, rows, errors, k);
    if HasKey(universe, k) {
      var i :| 0 <= i < |universe| && KeyOf(universe[i].symbol, universe[i].market) == k;
      assert Enough(universe[i], results(i)) || !Enough(universe[i], results(i));
    }
  }

  lemma KeySnoc(items: seq<Item>, x: Item, k: Key)
    ensures HasKey(items + [x], k) <==> HasKey(items, k) || KeyOf(x.symbol, x.market) == k
  {
    var more := items + [x];
    if HasKey(items, k) {
      var i :| 0 <= i < |items| && KeyOf(items[i].symbol, items[i].market) == k;
      assert more[i] == items[i];
    }
    if KeyOf(x.symbol, x.market) == k { assert more[|items|] == x; }
  }

  lemma ErrorSnoc(errors: seq<FetchError>, x: FetchError, k: Key)
    ensures ErrorKey(errors + [x], k) <==> ErrorKey(errors, k) || KeyOf(x.symbol, x.market) == k
  {
    var more := errors + [x];
    if ErrorKey(errors, k) {
      var i :| 0 <= i < |errors| && KeyOf(errors[i].symbol, errors[i].market) == k;
      assert more[i] == errors[i];
    }
    if KeyOf(x.symbol, x.market) == k { assert more[|errors|] == x; }
  }

  // ---------------------------------------------------------------- the next universe

  /** The last item of the file's universe with this key supplies source type and reason. */
  function MetadataFor(symbols: seq<Item>, k: Key): Option<Item> {
    if symbols == [] then None
    else
      var last := symbols[|symbols| - 1];
      if KeyOf(last.symbol, last.market) == k then Some(last) else MetadataFor(symbols[..|symbols| - 1], k)
  }

  function RetryItem(symbols: seq<Item>, k: Key): Item {
    var meta := MetadataFor(symbols, k);
    Item(k.0, k.1,
         if meta.Some? && meta.value.sourceType != "" then meta.value.sourceType else "tail_retry",
         if meta.Some? && meta.value.reason != "" then meta.value.reason else "signal_feature_tail_retry")
  }

  /** The last item of the file with the key supplies source type and reason, each with its default. */
  lemma {:induction false} RetryItemExactly(symbols: seq<Item>, k: Key, j: nat)
    requires j < |symbols| && KeyOf(symbols[j].symbol, symbols[j].market) == k
    requires forall i :: j < i < |symbols| ==> KeyOf(symbols[i].symbol, symbols[i].market) != k
    ensures RetryItem(symbols, k) ==
            Item(k.0, k.1, if symbols[j].sourceType == "" then "tail_retry" else symbols[j].sourceType,
                 if symbols[j].reason == "" then "signal_feature_tail_retry" else symbols[j].reason)
    decreases |symbols|
  {
    if j < |symbols| - 1 { RetryItemExactly(symbols[..|symbols| - 1], k, j); }
  }

  /** The key an item already carries. */
  function OwnKey(x: Item): Key {
    (x.symbol, x.market)
  }

  predicate Carries(retry: seq<Item>, k: Key) {
    exists j :: 0 <= j < |retry| && OwnKey(retry[j]) == k
  }

  /** One item per non-empty error key, with that very key and the file's own metadata. */
  ghost predicate RetriesOf(symbols: seq<Item>, errors: seq<FetchError>, retry: seq<Item>) {
    && (forall i, j :: 0 <= i < j < |retry| ==> OwnKey(retry[i]) != OwnKey(retry[j]))
    && (forall i :: 0 <= i < |retry| ==> IsRetry(symbols, errors, retry[i]))
    && (forall i :: 0 <= i < |errors| && NonEmpty(ErrorOwnKey(errors[i])) ==> Carries(retry, ErrorOwnKey(errors[i])))
  }

  function ErrorOwnKey(e: FetchError): Key {
    KeyOf(e.symbol, e.market)
  }

  ghost predicate IsRetry(symbols: seq<Item>, errors: seq<FetchError>, x: Item) {
    x == RetryItem(symbols, OwnKey(x)) && NonEmpty(OwnKey(x)) && ErrorKey(errors, OwnKey(x))
  }

  lemma CarriesSnoc(retry: seq<Item>, x: Item, k: Key)
    ensures Carries(retry + [x], k) <==> Carries(retry, k) || OwnKey(x) == k
  {
    var more := retry + [x];
    if Carries(retry, k) {
      var j :| 0 <= j < |retry| && OwnKey(retry[j]) == k;
      assert OwnKey(more[j]) == k;
    }
    if OwnKey(x) == k { assert OwnKey(more[|retry|]) == k; }
  }

  lemma StillRetry(symbols: seq<Item>, errors: seq<FetchError>, e: FetchError, x: Item)
    requires IsRetry(symbols, errors, x)
    ensures IsRetry(symbols, errors + [e], x)
  {
    ErrorSnoc(errors, e, OwnKey(x));
  }

  /** An error whose key is empty or already carried adds nothing. */
  lemma RetriesDrop(symbols: seq<Item>, errors: seq<FetchError>, e: FetchError, retry: seq<Item>)
    requires RetriesOf(symbols, errors, retry) && (NonEmpty(ErrorOwnKey(e)) ==> Carries(retry, ErrorOwnKey(e)))
    ensures RetriesOf(symbols, errors + [e], retry)
  {
    forall i | 0 <= i < |retry| ensures IsRetry(symbols, errors + [e], retry[i]) {
      StillRetry(symbols, errors, e, retry[i]);
    }
  }

  lemma RetriesAdd(symbols: seq<Item>, errors: seq<FetchError>, e: FetchError, retry: seq<Item>, x: Item)
    requires RetriesOf(symbols, errors, retry) && NonEmpty(ErrorOwnKey(e)) && !Carries(retry, ErrorOwnKey(e))
    requires x == RetryItem(symbols, ErrorOwnKey(e))
    ensures RetriesOf(symbols, errors + [e], retry + [x])
  {
    var more, longer := errors + [e], retry + [x];
    ErrorSnoc(errors, e, OwnKey(x));
    forall i | 0 <= i < |longer| ensures IsRetry(symbols, more, longer[i]) {
      if i < |retry| { StillRetry(symbols, errors, e, retry[i]); }
    }
    forall i, j | 0 <= i < j < |longer| ensures OwnKey(longer[i]) != OwnKey(longer[j]) {
      assert OwnKey(retry[i]) != OwnKey(x);
    }
    forall i | 0 <= i < |more| && NonEmpty(ErrorOwnKey(more[i])) ensures Carries(longer, ErrorOwnKey(more[i])) {
      CarriesSnoc(retry, x, ErrorOwnKey(more[i]));
    }
  }

  ghost predicate SeenIs(seen: set<Key>, retry: seq<Item>) {
    forall k :: k in seen <==> Carries(retry, k)
  }

  lemma SeenAdd(seen: set<Key>, retry: seq<Item>, x: Item)
    requires SeenIs(seen, retry)
    ensures SeenIs(seen + {OwnKey(x)}, retry + [x])
  {
    forall k: Key ensures k in seen + {OwnKey(x)} <==> Carries(retry + [x], k) {
      CarriesSnoc(retry, x, k);
    }
  }

  /** `_load_retry_universe_from_input` */
  method LoadRetryUniverse(symbols: seq<Item>, errors: seq<FetchError>) returns (retry: seq<Item>)
    ensures RetriesOf(symbols, errors, retry)
    ensures forall i :: 0 <= i < |retry| ==> retry[i].symbol != "" && retry[i].market != ""
    ensures forall e :: 0 <= e < |errors| && Strip(errors[e].symbol) != "" && Norm(errors[e].market) != "" ==>
              Carries(retry, (Strip(errors[e].symbol), Norm(errors[e].market)))
  {
    var seen: set<Key> := {};
    retry := [];
    for i := 0 to |errors|
      invariant RetriesOf(symbols, errors[..i], retry)
      invariant SeenIs(seen, retry)
    {
      assert errors[..i + 1] == errors[..i] + [errors[i]];
      var key := KeyOf(errors[i].symbol, errors[i].market);
      if key.0 == "" || key.1 == "" || key in seen {
        RetriesDrop(symbols, errors[..i], errors[i], retry);
        continue;
      }
      var item := RetryItem(symbols, key);
      RetriesAdd(symbols, errors[..i], errors[i], retry, item);
      SeenAdd(seen, retry, item);
      seen := seen + {key};
      retry := retry + [item];
    }
    assert errors[..|errors|] == errors;
    RetriesHaveBothParts(symbols, errors, retry);
  }

  lemma RetriesHaveBothParts(symbols: seq<Item>, errors: seq<FetchError>, retry: seq<Item>)
    requires RetriesOf(symbols, errors, retry)
    ensures forall i :: 0 <= i < |retry| ==> retry[i].symbol != "" && retry[i].market != ""
    ensures forall e :: 0 <= e < |errors| && Strip(errors[e].symbol) != "" && Norm(errors[e].market) != "" ==>
              Carries(retry, (Strip(errors[e].symbol), Norm(errors[e].market)))
  {
    forall i | 0 <= i < |retry| ensures retry[i].symbol != "" && retry[i].market != "" {
      assert IsRetry(symbols, errors, retry[i]);
    }
    forall e | 0 <= e < |errors| && Strip(errors[e].symbol) != "" && Norm(errors[e].market) != ""
      ensures Carries(retry, (Strip(errors[e].symbol), Norm(errors[e].market)))
    {
      assert NonEmpty(ErrorOwnKey(errors[e]));
    }
  }

  /** Keys are stable under retry: normalising a key again changes nothing. */
  lemma KeyOfKey(symbol: string, market: string)
    ensures var k := KeyOf(symbol, market); KeyOf(k.0, k.1) == k
  {
    StripTrims(symbol);
    NormIdempotent(market);
  }

  /** `_with_regime_benchmark_symbol` */
  function WithBenchmark(universe: seq<Item>): seq<Item> {
    if exists i :: 0 <= i < |universe| && universe[i].symbol == BENCHMARK.symbol then universe else universe + [BENCHMARK]
  }

  function BenchmarkKey(): Key {
    KeyOf(BENCHMARK.symbol, BENCHMARK.market)
  }

  /** The benchmark is 069500 on KRX, appended exactly when no item has that symbol. */
  lemma BenchmarkExactly(universe: seq<Item>)
    ensures WithBenchmark(universe) ==
            universe + if exists i :: 0 <= i < |universe| && universe[i].symbol == "069500" then []
                       else [Item("069500", "KRX", "regime_benchmark", "regime_benchmark_snapshot")]
  {
  }

  lemma BenchmarkAddsOnlyItsKey(universe: seq<Item>, k: Key)
    ensures HasKey(universe, k) ==> HasKey(WithBenchmark(universe), k)
    ensures HasKey(WithBenchmark(universe), k) ==> HasKey(universe, k) || k == BenchmarkKey()
  {
    KeySnoc(universe, BENCHMARK, k);
  }

  // ---------------------------------------------------------------- rounds

  /** The keys of the retry universe are exactly the non-empty error keys. */
  lemma RetryKeys(symbols: seq<Item>, errors: seq<FetchError>, retry: seq<Item>, k: Key)
    requires RetriesOf(symbols, errors, retry)
    ensures HasKey(retry, k) <==> ErrorKey(errors, k) && NonEmpty(k)
  {
    if HasKey(retry, k) {
      var i :| 0 <= i < |retry| && KeyOf(retry[i].symbol, retry[i].market) == k;
      assert IsRetry(symbols, errors, retry[i]);
      var e :| 0 <= e < |errors| && KeyOf(errors[e].symbol, errors[e].market) == OwnKey(retry[i]);
      KeyOfKey(errors[e].symbol, errors[e].market);
    }
    if ErrorKey(errors, k) && NonEmpty(k) {
      var e :| 0 <= e < |errors| && KeyOf(errors[e].symbol, errors[e].market) == k;
      KeyOfKey(errors[e].symbol, errors[e].market);
      assert NonEmpty(ErrorOwnKey(errors[e]));
      var i :| 0 <= i < |retry| && OwnKey(retry[i]) == k;
      assert KeyOf(retry[i].symbol, retry[i].market) == k;
    }
  }

  /** One round: add the benchmark, fetch, and read the errors back as the next universe. */
  method Round(universe: seq<Item>, results: nat -> Fetched)
    returns (rows: seq<Row>, errors: seq<FetchError>, fetched: seq<Item>, next: seq<Item>)
    ensures |rows| + |errors| == |WithBenchmark(universe)| && Splits(WithBenchmark(universe), results, rows, errors)
    ensures RetriesOf(WithBenchmark(universe), errors, next)
    ensures forall k :: HasKey(universe, k) ==> RowKey(rows, k) || ErrorKey(errors, k)
    ensures forall k :: RowKey(rows, k) || ErrorKey(errors, k) ==> HasKey(universe, k) || k == BenchmarkKey()
    ensures forall k :: HasKey(next, k) <==> ErrorKey(errors, k) && NonEmpty(k)
    ensures forall x :: x in fetched ==> HasKey(universe, KeyOf(x.symbol, x.market)) || KeyOf(x.symbol, x.market) == BenchmarkKey()
  {
    var all := WithBenchmark(universe);
    rows, errors, fetched := BuildRows(all, results);
    next := LoadRetryUniverse(all, errors);
    forall k
      ensures HasKey(universe, k) ==> RowKey(rows, k) || ErrorKey(errors, k)
      ensures RowKey(rows, k) || ErrorKey(errors, k) ==> HasKey(universe, k) || k == BenchmarkKey()
      ensures HasKey(next, k) <==> ErrorKey(errors, k) && NonEmpty(k)
    {
      BenchmarkAddsOnlyItsKey(universe, k);
      RoundPartitions(all, results, rows, errors, k);
      RetryKeys(all, errors, next, k);
    }
    forall x | x in fetched
      ensures HasKey(universe, KeyOf(x.symbol, x.market)) || KeyOf(x.symbol, x.market) == BenchmarkKey()
    {
      var i :| 0 <= i < |all| && all[i] == x;
      assert HasKey(all, KeyOf(x.symbol, x.market));
      BenchmarkAddsOnlyItsKey(universe, KeyOf(x.symbol, x.market));
    }
  }

  /** `row` is what some round made of one of its items that had enough. */
  ghost predicate RowFrom(universes: seq<seq<Item>>, env: (nat, nat) -> Fetched, row: Row) {
    exists t: nat, i: nat :: t < |universes| && i < |universes[t]| && Enough(universes[t][i], env(t, i)) && row == RowOf(universes[t][i], env(t, i))
  }

  /** The rows are exactly those of the items that had enough in some round. */
  ghost predicate SucceededIn(universes: seq<seq<Item>>, env: (nat, nat) -> Fetched, succeeded: seq<Row>) {
    && (forall x :: x in succeeded ==> RowFrom(universes, env, x))
    && (forall t: nat, i: nat | t < |universes| && i < |universes[t]| && Enough(universes[t][i], env(t, i)) ::
          RowOf(universes[t][i], env(t, i)) in succeeded)
  }

  lemma MoreSucceeded(universes: seq<seq<Item>>, env: (nat, nat) -> Fetched, succeeded: seq<Row>, all: seq<Item>, rows: seq<Row>,
                      results: nat -> Fetched)
    requires SucceededIn(universes, env, succeeded) && RowsOfEnough(all, results, rows)
    requires forall i: nat :: results(i) == env(|universes|, i)
    ensures SucceededIn(universes + [all], env, succeeded + rows)
  {
    var r, more := |universes|, universes + [all];
    forall x | x in succeeded + rows ensures RowFrom(more, env, x) {
      if x in succeeded {
        var t: nat, i: nat :| t < |universes| && i < |universes[t]| && Enough(universes[t][i], env(t, i)) && x == RowOf(universes[t][i], env(t, i));
        assert more[t] == universes[t];
      } else {
        assert RowOfSome(all, results, x);
        var i: nat :| i < |all| && Enough(all[i], results(i)) && x == RowOf(all[i], results(i));
        assert more[r] == all && Enough(more[r][i], env(r, i)) && x == RowOf(more[r][i], env(r, i));
      }
    }
    forall t: nat, i: nat | t < |more| && i < |more[t]| && Enough(more[t][i], env(t, i))
      ensures RowOf(more[t][i], env(t, i)) in succeeded + rows
    {
      if t < r { assert more[t] == universes[t]; } else { assert more[t] == all && results(i) == env(r, i); }
    }
  }

  ghost predicate ErrorsOf(universe: seq<Item>, results: nat -> Fetched, errors: seq<FetchError>) {
    exists rows :: Splits(universe, results, rows, errors)
  }

  /** Any positive number of rounds, with arbitrary results: nothing outside the original universe
      and the benchmark is ever fetched; the rows are exactly those of items that brought at least 20 bars
      in some round; the errors are those of the last round; and every non-empty key of the original
      universe has succeeded in some round or is in the latest error list. */
  method TailRetry(universe: seq<Item>, env: (nat, nat) -> Fetched, rounds: nat)
    returns (succeeded: seq<Row>, errors: seq<FetchError>, fetched: seq<Item>, ghost universes: seq<seq<Item>>)
    requires rounds >= 1
    ensures forall k :: HasKey(universe, k) && NonEmpty(k) ==> RowKey(succeeded, k) || ErrorKey(errors, k)
    ensures forall x :: x in fetched ==> HasKey(universe, KeyOf(x.symbol, x.market)) || KeyOf(x.symbol, x.market) == BenchmarkKey()
    ensures forall k :: RowKey(succeeded, k) || ErrorKey(errors, k) ==> HasKey(universe, k) || k == BenchmarkKey()
    ensures |universes| == rounds && universes[0] == WithBenchmark(universe) && SucceededIn(universes, env, succeeded)
    ensures ErrorsOf(universes[rounds - 1], (i: nat) => env(rounds - 1, i), errors)
  {
    var current := universe;
    universes := [];
    succeeded, errors, fetched := [], [], [];
    for r := 0 to rounds
      invariant forall k :: HasKey(universe, k) && NonEmpty(k) ==> RowKey(succeeded, k) || HasKey(current, k)
      invariant forall k :: HasKey(current, k) ==> HasKey(universe, k) || k == BenchmarkKey()
      invariant forall k :: RowKey(succeeded, k) || ErrorKey(errors, k) ==> HasKey(universe, k) || k == BenchmarkKey()
      invariant forall x :: x in fetched ==> HasKey(universe, KeyOf(x.symbol, x.market)) || KeyOf(x.symbol, x.market) == BenchmarkKey()
      invariant r > 0 ==> forall k :: HasKey(current, k) ==> ErrorKey(errors, k)
      invariant |universes| == r && SucceededIn(universes, env, succeeded)
      invariant if r == 0 then current == universe else universes[0] == WithBenchmark(universe)
      invariant r > 0 ==> ErrorsOf(universes[r - 1], (i: nat) => env(r - 1, i), errors)
    {
      var results := (i: nat) => env(r, i);
      var rows, errs, fetchedNow, next := Round(current, results);
      forall k ensures RowKey(succeeded + rows, k) <==> RowKey(succeeded, k) || RowKey(rows, k) {
        RowConcat(succeeded, rows, k);
      }
      SplitRows(WithBenchmark(current), results, rows, errs);
      MoreSucceeded(universes, env, succeeded, WithBenchmark(current), rows, results);
      assert ErrorsOf(WithBenchmark(current), results, errs);
      universes := universes + [WithBenchmark(current)];
      succeeded, errors, fetched, current := succeeded + rows, errs, fetched + fetchedNow, next;
    }
  }

  lemma RowConcat(a: seq<Row>, b: seq<Row>, k: Key)
    ensures RowKey(a + b, k) <==> RowKey(a, k) || RowKey(b, k)
  {
    if RowKey(a, k) {
      var i :| 0 <= i < |a| && KeyOf(a[i].symbol, a[i].market) == k;
      assert (a + b)[i] == a[i];
    }
    if RowKey(b, k) {
      var i :| 0 <= i < |b| && KeyOf(b[i].symbol, b[i].market) == k;
      assert (a + b)[|a| + i] == b[i];
    }
  }
}

/** Applying grouped memberships to the membership table (`_apply_seed` of
    import_instrument_index_membership_seed.py over
    repositories/postgres/instrument_index_memberships.py). */
module SeedImport {
  import opened Outcomes
  import opened Text
  import opened SeedBuild
  import opened SeedLoad

  /** An active membership: instrument and code. */
  type Pair = (nat, string)

  datatype Summary = Summary(targets: nat, resolved: nat, skipped: nat, updated: nat, deactivated: nat)

  /** The target map and the counters of the first loop. */
  datatype Tally = Tally(targets: map<string, set<nat>>, resolved: nat, skipped: nat)

  type Seed = map<string, seq<string>>

  /** Different symbols resolve to different instruments. */
  ghost predicate Injective(resolve: map<string, nat>) {
    forall s, t :: s in resolve && t in resolve && resolve[s] == resolve[t] ==> s == t
  }

  function Elems(order: seq<string>): (r: set<string>)
    ensures forall s :: s in r <==> s in order
  {
    if order == [] then {} else Elems(order[..|order| - 1]) + {order[|order| - 1]}
  }

  predicate Distinct(order: seq<string>) {
    forall i, j :: 0 <= i < j < |order| ==> order[i] != order[j]
  }

  /** `order` is a listing of `keys` without repetition: the iteration order of a dictionary. */
  ghost predicate Enumerates(order: seq<string>, keys: set<string>) {
    Elems(order) == keys && Distinct(order)
  }

  // ---------------------------------------------------------------- the instrument lookup

  /** The columns that `get_by_symbol_any_market` compares. */
  datatype Listing = Listing(
    symbol: string, krxExchange: bool, krxMarket: bool, active: bool, segmented: bool, updatedAt: int, createdAt: int)

  function Preference(a: Listing): nat {
    if a.krxExchange && a.krxMarket then 0
    else if a.krxExchange && a.active then 1
    else if a.krxExchange then 2
    else if a.active then 3
    else 4
  }

  /** `a` comes before `b` in the order of the query. */
  predicate Beats(a: Listing, b: Listing) {
    || Preference(a) < Preference(b)
    || (Preference(a) == Preference(b) && a.segmented && !b.segmented)
    || (Preference(a) == Preference(b) && a.segmented == b.segmented && a.updatedAt > b.updatedAt)
    || (Preference(a) == Preference(b) && a.segmented == b.segmented && a.updatedAt == b.updatedAt && a.createdAt > b.createdAt)
  }

  predicate HasSymbol(instruments: map<nat, Listing>, i: nat, symbol: string) {
    i in instruments && instruments[i].symbol == symbol
  }

  /** A first row of the query: of the symbol, and beaten by no other row of it. */
  ghost predicate Chosen(instruments: map<nat, Listing>, symbol: string, i: nat) {
    HasSymbol(instruments, i, symbol) &&
    forall j :: HasSymbol(instruments, j, symbol) ==> !Beats(instruments[j], instruments[i])
  }

  /** `get_by_symbol_any_market` */
  method GetBySymbolAnyMarket(instruments: map<nat, Listing>, symbol: string) returns (r: Option<nat>)
    ensures r.None? ==> forall i :: !HasSymbol(instruments, i, symbol)
    ensures r.Some? ==> Chosen(instruments, symbol, r.value)
  {
    r := None;
    var todo := instruments.Keys;
    while todo != {}
      invariant todo <= instruments.Keys
      invariant r.None? ==> forall i :: HasSymbol(instruments, i, symbol) ==> i in todo
      invariant r.Some? ==> HasSymbol(instruments, r.value, symbol)
      invariant r.Some? ==> forall i :: HasSymbol(instruments, i, symbol) && i !in todo ==> !Beats(instruments[i], instruments[r.value])
      decreases |todo|
    {
      var i :| i in todo;
      todo := todo - {i};
      if instruments[i].symbol == symbol && (r.None? || Beats(instruments[i], instruments[r.value])) { r := Some(i); }
    }
  }

  /** The order of the query, tier by tier: a KRX listing on the KRX market first; then, if there is none,
      an active one on the KRX exchange; then any on the KRX exchange; then any active one.  Within its
      tier a chosen listing has a KOSPI or KOSDAQ segment if any has, and among those it is the one
      updated last, and of those the one created last. */
  lemma ChosenExactly(instruments: map<nat, Listing>, symbol: string, i: nat, j: nat)
    requires Chosen(instruments, symbol, i) && HasSymbol(instruments, j, symbol)
    ensures var a, b := instruments[i], instruments[j];
            && (b.krxExchange && b.krxMarket ==> a.krxExchange && a.krxMarket)
            && (b.krxExchange && b.active ==> a.krxExchange && (a.krxMarket || a.active))
            && (b.krxExchange ==> a.krxExchange)
            && (b.active ==> a.krxExchange || a.active)
            && (SameTier(a, b) && b.segmented ==> a.segmented)
            && (SameTier(a, b) && b.segmented == a.segmented ==> a.updatedAt >= b.updatedAt)
            && (SameTier(a, b) && b.segmented == a.segmented && a.updatedAt == b.updatedAt ==> a.createdAt >= b.createdAt)
  {
    assert !Beats(instruments[j], instruments[i]);
  }

  /** Both on the KRX market of the KRX exchange, or neither and alike in exchange and activity. */
  predicate SameTier(a: Listing, b: Listing) {
    || (a.krxExchange && a.krxMarket && b.krxExchange && b.krxMarket)
    || (!(a.krxExchange && a.krxMarket) && !(b.krxExchange && b.krxMarket) && a.krxExchange == b.krxExchange && a.active == b.active)
  }

  /** Every symbol that some instrument has is resolved to a first row for it, and no other symbol is. */
  ghost predicate ResolvedBy(instruments: map<nat, Listing>, symbols: set<string>, resolve: map<string, nat>) {
    && (forall s :: s in resolve ==> s in symbols && Chosen(instruments, s, resolve[s]))
    && (forall s, i :: s in symbols && HasSymbol(instruments, i, s) ==> s in resolve)
  }

  method ResolveSymbols(instruments: map<nat, Listing>, order: seq<string>) returns (resolve: map<string, nat>)
    ensures ResolvedBy(instruments, Elems(order), resolve)
  {
    resolve := map[];
    for k := 0 to |order|
      invariant forall s :: s in resolve ==> s in order[..k] && Chosen(instruments, s, resolve[s])
      invariant forall s, i :: s in order[..k] && HasSymbol(instruments, i, s) ==> s in resolve
    {
      var found := GetBySymbolAnyMarket(instruments, order[k]);
      assert order[..k + 1] == order[..k] + [order[k]];
      if found.Some? { resolve := resolve[order[k] := found.value]; }
    }
    assert order[..|order|] == order;
  }

  /** The lookup compares the symbol column, so two symbols never share an instrument. */
  lemma ResolvedIsInjective(instruments: map<nat, Listing>, symbols: set<string>, resolve: map<string, nat>)
    requires ResolvedBy(instruments, symbols, resolve)
    ensures Injective(resolve)
  {
    forall s, t | s in resolve && t in resolve && resolve[s] == resolve[t] ensures s == t {
      assert Chosen(instruments, s, resolve[s]) && Chosen(instruments, t, resolve[t]);
    }
  }

  /** No two listings of a symbol are both first in the order of the query. */
  ghost predicate NoTies(instruments: map<nat, Listing>, symbols: set<string>) {
    forall s, i, j | s in symbols && Chosen(instruments, s, i) && Chosen(instruments, s, j) :: i == j
  }

  lemma {:induction false} BestAmong(instruments: map<nat, Listing>, ids: set<nat>) returns (best: nat)
    requires ids != {} && ids <= instruments.Keys
    ensures best in ids && forall j :: j in ids ==> !Beats(instruments[j], instruments[best])
    decreases ids
  {
    var i: nat :| i in ids;
    if ids == {i} {
      best := i;
    } else {
      best := BestAmong(instruments, ids - {i});
      if Beats(instruments[i], instruments[best]) { best := i; }
    }
  }

  /** Every symbol that some instrument has has a first listing. */
  lemma SomeChosen(instruments: map<nat, Listing>, symbol: string, i: nat) returns (best: nat)
    requires HasSymbol(instruments, i, symbol)
    ensures Chosen(instruments, symbol, best)
  {
    var ids := set j | j in instruments && instruments[j].symbol == symbol;
    assert i in ids;
    best := BestAmong(instruments, ids);
  }

  /** The lookups can be made, with any first listing for one symbol. */
  lemma SomeResolution(instruments: map<nat, Listing>, symbols: set<string>, s: string, i: nat) returns (resolve: map<string, nat>)
    requires s in symbols && Chosen(instruments, s, i)
    ensures ResolvedBy(instruments, symbols, resolve) && s in resolve && resolve[s] == i
  {
    resolve := AnyResolution(instruments, symbols);
    resolve := resolve[s := i];
  }

  lemma {:induction false} AnyResolution(instruments: map<nat, Listing>, symbols: set<string>) returns (resolve: map<string, nat>)
    ensures ResolvedBy(instruments, symbols, resolve)
    decreases symbols
  {
    if symbols == {} {
      resolve := map[];
    } else {
      var s :| s in symbols;
      resolve := AnyResolution(instruments, symbols - {s});
      if i :| HasSymbol(instruments, i, s) {
        var best := SomeChosen(instruments, s, i);
        resolve := resolve[s := best];
      }
    }
  }

  ghost predicate Determined(instruments: map<nat, Listing>, symbols: set<string>) {
    forall a, b | ResolvedBy(instruments, symbols, a) && ResolvedBy(instruments, symbols, b) :: a == b
  }

  lemma SameResolution(instruments: map<nat, Listing>, symbols: set<string>, a: map<string, nat>, b: map<string, nat>)
    requires NoTies(instruments, symbols) && ResolvedBy(instruments, symbols, a) && ResolvedBy(instruments, symbols, b)
    ensures a == b
  {
    forall s | s in a ensures s in b && a[s] == b[s] {
      assert Chosen(instruments, s, a[s]) && HasSymbol(instruments, a[s], s);
      assert Chosen(instruments, s, b[s]);
    }
    forall s | s in b ensures s in a {
      assert Chosen(instruments, s, b[s]) && HasSymbol(instruments, b[s], s);
    }
  }

  /** The lookups have one possible result if and only if no first listing of a symbol is tied. */
  lemma LookupsDeterminedIff(instruments: map<nat, Listing>, symbols: set<string>)
    ensures Determined(instruments, symbols) <==> NoTies(instruments, symbols)
  {
    if NoTies(instruments, symbols) {
      forall a, b | ResolvedBy(instruments, symbols, a) && ResolvedBy(instruments, symbols, b) ensures a == b {
        SameResolution(instruments, symbols, a, b);
      }
    } else {
      var s, i, j :| s in symbols && Chosen(instruments, s, i) && Chosen(instruments, s, j) && i != j;
      var a := SomeResolution(instruments, symbols, s, i);
      var b := SomeResolution(instruments, symbols, s, j);
      assert a[s] != b[s];
    }
  }

  // ---------------------------------------------------------------- closed form

  /** The memberships that the resolved symbols in `done` ask for. */
  function Asked(seed: Seed, resolve: map<string, nat>, done: set<string>): set<Pair>
  {
    set s, c | s in done && s in seed && s in resolve && c in seed[s] :: (resolve[s], c)
  }

  function Instruments(resolve: map<string, nat>, done: set<string>): set<nat> {
    set s | s in done && s in resolve :: resolve[s]
  }

  /** After the first loop: listed instruments are merged with, or replaced by, what the seed asks. */
  function Listed(rows: set<Pair>, seed: Seed, resolve: map<string, nat>, done: set<string>, replaceListed: bool): set<Pair> {
    Asked(seed, resolve, done) +
    if replaceListed then (set p | p in rows && p.0 !in Instruments(resolve, done)) else rows
  }

  /** Memberships of a code in the seed that the seed does not ask for. */
  function Stale(rows: set<Pair>, asked: set<Pair>): set<Pair> {
    set p | p in rows && p !in asked && p.1 in Codes(asked)
  }

  function Codes(asked: set<Pair>): set<string> {
    set p | p in asked :: p.1
  }

  function Imported(rows: set<Pair>, seed: Seed, resolve: map<string, nat>, replaceListed: bool, snapshot: bool): set<Pair> {
    var listed := Listed(rows, seed, resolve, seed.Keys, replaceListed);
    if snapshot then listed - Stale(listed, Asked(seed, resolve, seed.Keys)) else listed
  }

  // ---------------------------------------------------------------- imperative model

  class MembershipTable {
    var active: set<Pair>

    constructor (active: set<Pair>)
      ensures this.active == active
    {
      this.active := active;
    }

    /** `sync_current_memberships`: end what is not wanted, then insert what is missing. */
    method Sync(id: nat, codes: set<string>)
      modifies this
      ensures forall p :: p in active <==> if p.0 == id then p.1 in codes else p in old(active)
    {
      var current := set p | p in active && p.0 == id :: p.1;
      var removed := current - codes;
      active := active - set c | c in removed :: (id, c);
      var todo := codes;
      while todo != {}
        invariant todo <= codes
        invariant forall p :: p in active <==>
                    if p.0 == id then p.1 in codes && (p in old(active) || p.1 !in todo) else p in old(active)
        decreases |todo|
      {
        var code :| code in todo;
        if code !in current { active := active + {(id, code)}; }
        todo := todo - {code};
      }
    }

    method ListActive(id: nat) returns (codes: set<string>)
      ensures forall c :: c in codes <==> (id, c) in active
    {
      codes := set p | p in active && p.0 == id :: p.1;
    }

    method ListInstruments(code: string) returns (ids: set<nat>)
      ensures forall i :: i in ids <==> (i, code) in active
    {
      ids := set p | p in active && p.1 == code :: p.0;
    }

    /** The effect of one resolved symbol. */
    method ApplySymbol(id: nat, seedCodes: set<string>, replaceListed: bool)
      modifies this
      ensures forall p :: p in active <==>
                if p.0 == id then p.1 in seedCodes || (!replaceListed && p in old(active)) else p in old(active)
    {
      var finalCodes := seedCodes;
      if !replaceListed {
        var existing := ListActive(id);
        finalCodes := finalCodes + existing;
      }
      Sync(id, finalCodes);
    }

    /** End one code on every instrument outside its targets. */
    method CloseStale(code: string, targets: set<nat>) returns (closed: nat)
      modifies this
      ensures forall p :: p in active <==> p in old(active) && (p.1 == code ==> p.0 in targets)
      ensures active <= old(active) && closed == |old(active)| - |active|
    {
      var ids := ListInstruments(code);
      var todo := ids - targets;
      closed := 0;
      while todo != {}
        invariant todo <= ids - targets
        invariant forall p :: p in active <==> p in old(active) && (p.1 == code && p.0 !in targets ==> p.0 in todo)
        invariant active <= old(active) && closed == |old(active)| - |active|
        decreases |todo|
      {
        var id :| id in todo;
        ghost var before := active;
        var existing := ListActive(id);
        Sync(id, existing - {code});
        assert active == before - {(id, code)};
        closed := closed + 1;
        todo := todo - {id};
      }
    }

    /** One resolved symbol of the first loop: note its targets, then rewrite its instrument. */
    method ImportSymbol(ghost rows: set<Pair>, seed: Seed, resolve: map<string, nat>, ghost done: set<string>,
                        symbol: string, replaceListed: bool, targets0: map<string, set<nat>>)
      returns (targets: map<string, set<nat>>)
      requires Injective(resolve) && symbol in seed && symbol in resolve && symbol !in done
      requires active == Listed(rows, seed, resolve, done, replaceListed)
      requires TargetsOf(targets0, Asked(seed, resolve, done))
      modifies this
      ensures active == Listed(rows, seed, resolve, done + {symbol}, replaceListed)
      ensures TargetsOf(targets, Asked(seed, resolve, done + {symbol}))
    {
      AskedGrows(seed, resolve, done, symbol);
      targets := AddTargets(targets0, resolve[symbol], seed[symbol], Asked(seed, resolve, done));
      ListedGrows(rows, seed, resolve, done, symbol, replaceListed);
      ApplySymbol(resolve[symbol], (set c | c in seed[symbol]), replaceListed);
      assert forall p :: p in active <==> p in Listed(rows, seed, resolve, done + {symbol}, replaceListed);
    }

    /** One iteration of the first loop. */
    method ImportNext(ghost rows: set<Pair>, seed: Seed, resolve: map<string, nat>, ghost done: set<string>,
                      symbol: string, replaceListed: bool, t: Tally)
      returns (t': Tally)
      requires Injective(resolve) && symbol in seed && symbol !in done
      requires Progress(active, rows, seed, resolve, done, replaceListed, t)
      modifies this
      ensures Progress(active, rows, seed, resolve, done + {symbol}, replaceListed, t')
      ensures t'.resolved == t.resolved + (if symbol in resolve then 1 else 0)
      ensures t'.skipped == t.skipped + (if symbol in resolve then 0 else 1)
    {
      if symbol !in resolve {
        AskedSkips(seed, resolve, done, symbol);
        t' := t.(skipped := t.skipped + 1);
      } else {
        var targets := ImportSymbol(rows, seed, resolve, done, symbol, replaceListed, t.targets);
        t' := t.(targets := targets, resolved := t.resolved + 1);
      }
    }

    /** The first loop, in whatever order the dictionary lists its symbols. */
    method ImportListed(seed: Seed, order: seq<string>, resolve: map<string, nat>, replaceListed: bool) returns (t: Tally)
      requires Injective(resolve) && Enumerates(order, seed.Keys)
      modifies this
      ensures Progress(active, old(active), seed, resolve, seed.Keys, replaceListed, t)
      ensures t.resolved == |seed.Keys * resolve.Keys| && t.resolved + t.skipped == |seed.Keys|
    {
      t := Tally(map[], 0, 0);
      StartsInProgress(active, seed, resolve, replaceListed);
      for k := 0 to |order|
        invariant Progress(active, old(active), seed, resolve, Elems(order[..k]), replaceListed, t)
        invariant t.resolved == Hits(order[..k], resolve) && t.resolved + t.skipped == k
      {
        NextElem(order, k, resolve);
        t := ImportNext(old(active), seed, resolve, Elems(order[..k]), order[k], replaceListed, t);
      }
      assert order[..|order|] == order;
      HitsCount(order, resolve);
    }

    /** The snapshot loop over the codes of the target map, in any order. */
    method CloseAll(targets: map<string, set<nat>>, ghost asked: set<Pair>) returns (closed: nat)
      requires TargetsOf(targets, asked)
      modifies this
      ensures active == old(active) - Stale(old(active), asked)
      ensures closed == |Stale(old(active), asked)|
    {
      closed := 0;
      ghost var before := active;
      var todo := targets.Keys;
      while todo != {}
        invariant todo <= targets.Keys
        invariant ClosedFor(before, active, targets.Keys - todo, asked)
        invariant closed == |before| - |active|
        decreases |todo|
      {
        var code :| code in todo;
        var n := CloseStale(code, targets[code]);
        closed := closed + n;
        todo := todo - {code};
      }
      ClosedExactly(before, active, targets, asked);
    }

    /** `_apply_seed`; the lookups only read the instruments, so they are made first. */
    method ApplySeed(seed: Seed, order: seq<string>, instruments: map<nat, Listing>, replaceListed: bool, snapshot: bool)
      returns (r: Summary, resolve: map<string, nat>)
      requires Enumerates(order, seed.Keys)
      modifies this
      ensures ResolvedBy(instruments, seed.Keys, resolve)
      ensures active == Imported(old(active), seed, resolve, replaceListed, snapshot)
      ensures var listed := Listed(old(active), seed, resolve, seed.Keys, replaceListed);
              r.deactivated == if snapshot then |Stale(listed, Asked(seed, resolve, seed.Keys))| else 0
      ensures r.targets == |seed.Keys| && r.resolved + r.skipped == r.targets && r.updated == r.resolved
      ensures r.resolved == |resolve.Keys|
      ensures !snapshot && !replaceListed ==> old(active) <= active
      ensures snapshot && !replaceListed ==> r.deactivated == |old(active) - active|
    {
      resolve := ResolveSymbols(instruments, order);
      ResolvedIsInjective(instruments, seed.Keys, resolve);
      assert seed.Keys * resolve.Keys == resolve.Keys;
      var t := ImportListed(seed, order, resolve, replaceListed);
      var deactivated := 0;
      if snapshot {
        deactivated := CloseAll(t.targets, Asked(seed, resolve, seed.Keys));
      }
      r := Summary(|seed.Keys|, t.resolved, t.skipped, t.resolved, deactivated);
      if !replaceListed {
        MergeLosesNothing(old(active), seed, resolve);
        LostAreStale(old(active), seed, resolve);
      }
    }
  }

  /** In merge mode the stale pairs are exactly the memberships that the import ends. */
  lemma LostAreStale(rows: set<Pair>, seed: Seed, resolve: map<string, nat>)
    ensures Stale(Listed(rows, seed, resolve, seed.Keys, false), Asked(seed, resolve, seed.Keys))
         == rows - Imported(rows, seed, resolve, false, true)
  {
  }

  /** What the first loop has made of `rows` once the symbols in `done` are behind it. */
  ghost predicate Progress(active: set<Pair>, rows: set<Pair>, seed: Seed, resolve: map<string, nat>, done: set<string>,
                           replaceListed: bool, t: Tally) {
    && active == Listed(rows, seed, resolve, done, replaceListed)
    && TargetsOf(t.targets, Asked(seed, resolve, done))
  }

  lemma StartsInProgress(rows: set<Pair>, seed: Seed, resolve: map<string, nat>, replaceListed: bool)
    ensures Progress(rows, rows, seed, resolve, {}, replaceListed, Tally(map[], 0, 0))
  {
    NothingDone(rows, seed, resolve, replaceListed);
  }

  lemma NothingDone(rows: set<Pair>, seed: Seed, resolve: map<string, nat>, replaceListed: bool)
    ensures Asked(seed, resolve, {}) == {} && Listed(rows, seed, resolve, {}, replaceListed) == rows
  {
  }

  function Hits(order: seq<string>, resolve: map<string, nat>): nat {
    if order == [] then 0
    else Hits(order[..|order| - 1], resolve) + if order[|order| - 1] in resolve then 1 else 0
  }

  lemma OneMore(some: set<string>, last: string, known: set<string>)
    requires last !in some
    ensures |(some + {last}) * known| == |some * known| + if last in known then 1 else 0
  {
    if last in known {
      assert (some + {last}) * known == some * known + {last};
    } else {
      assert (some + {last}) * known == some * known;
    }
  }

  lemma NextElem(order: seq<string>, k: nat, resolve: map<string, nat>)
    requires k < |order|
    ensures Elems(order[..k + 1]) == Elems(order[..k]) + {order[k]}
    ensures Hits(order[..k + 1], resolve) == Hits(order[..k], resolve) + if order[k] in resolve then 1 else 0
  {
    assert order[..k + 1][..k] == order[..k];
  }

  lemma LastIsNew(order: seq<string>)
    requires order != [] && Distinct(order)
    ensures var before, last := order[..|order| - 1], order[|order| - 1];
            Distinct(before) && last !in Elems(before) && Elems(order) == Elems(before) + {last}
  {
  }

  lemma {:induction false} HitsCount(order: seq<string>, resolve: map<string, nat>)
    requires Distinct(order)
    ensures Hits(order, resolve) == |Elems(order) * resolve.Keys| && |order| == |Elems(order)|
    decreases |order|
  {
    if order != [] {
      var before, last := order[..|order| - 1], order[|order| - 1];
      LastIsNew(order);
      HitsCount(before, resolve);
      OneMore(Elems(before), last, resolve.Keys);
    }
  }

  /** The codes in `codes` are closed on everything the seed does not ask for, and nothing else changed. */
  ghost predicate ClosedFor(before: set<Pair>, after: set<Pair>, codes: set<string>, asked: set<Pair>) {
    after <= before && forall p :: p in before ==> (p in after <==> (p.1 in codes ==> p in asked))
  }

  lemma ClosedExactly(before: set<Pair>, after: set<Pair>, targets: map<string, set<nat>>, asked: set<Pair>)
    requires TargetsOf(targets, asked) && ClosedFor(before, after, targets.Keys, asked)
    ensures after == before - Stale(before, asked) && |Stale(before, asked)| == |before| - |after|
  {
    assert forall p :: p in Stale(before, asked) <==> p in before && p !in after;
    assert before == after + Stale(before, asked);
  }

  // ---------------------------------------------------------------- the target map

  /** `target_instrument_ids_by_code` holds exactly the asked memberships, keyed by code. */
  ghost predicate TargetsOf(targets: map<string, set<nat>>, asked: set<Pair>) {
    && (forall c :: c in targets <==> c in Codes(asked))
    && (forall c, i :: c in targets ==> (i in targets[c] <==> (i, c) in asked))
  }

  method AddTargets(targets0: map<string, set<nat>>, id: nat, codes: seq<string>, ghost asked: set<Pair>)
    returns (targets: map<string, set<nat>>)
    requires TargetsOf(targets0, asked)
    ensures TargetsOf(targets, asked + set c | c in codes :: (id, c))
  {
    targets := targets0;
    ghost var now := asked;
    for k := 0 to |codes|
      invariant TargetsOf(targets, now)
      invariant forall p :: p in now <==> p in asked || (p.0 == id && p.1 in codes[..k])
    {
      var code := codes[k];
      ghost var before := now;
      now := now + {(id, code)};
      assert codes[..k + 1] == codes[..k] + [code];
      CodesGrow(before, (id, code));
      targets := targets[code := (if code in targets then targets[code] else {}) + {id}];
    }
    assert codes[..|codes|] == codes;
    assert now == asked + set c | c in codes :: (id, c);
  }

  lemma CodesGrow(asked: set<Pair>, p: Pair)
    ensures Codes(asked + {p}) == Codes(asked) + {p.1}
  {
    assert p in asked + {p};
    forall c | c in Codes(asked) ensures c in Codes(asked + {p}) {
      var q :| q in asked && q.1 == c;
      assert q in asked + {p};
    }
  }

  lemma AskedSkips(seed: Seed, resolve: map<string, nat>, done: set<string>, symbol: string)
    requires symbol !in resolve
    ensures Asked(seed, resolve, done + {symbol}) == Asked(seed, resolve, done)
    ensures Instruments(resolve, done + {symbol}) == Instruments(resolve, done)
  {
  }

  lemma AskedGrows(seed: Seed, resolve: map<string, nat>, done: set<string>, symbol: string)
    requires symbol in seed && symbol in resolve
    ensures Asked(seed, resolve, done + {symbol}) == Asked(seed, resolve, done) + set c | c in seed[symbol] :: (resolve[symbol], c)
    ensures Instruments(resolve, done + {symbol}) == Instruments(resolve, done) + {resolve[symbol]}
  {
    var more := done + {symbol};
    forall p | p in Asked(seed, resolve, more)
      ensures p in Asked(seed, resolve, done) + set c | c in seed[symbol] :: (resolve[symbol], c)
    {
      var s, c :| s in more && s in seed && s in resolve && c in seed[s] && p == (resolve[s], c);
    }
  }

  lemma ListedGrows(rows: set<Pair>, seed: Seed, resolve: map<string, nat>, done: set<string>, symbol: string, replaceListed: bool)
    requires symbol in seed && symbol in resolve && symbol !in done && Injective(resolve)
    ensures var id := resolve[symbol];
            forall p :: p in Listed(rows, seed, resolve, done + {symbol}, replaceListed) <==>
              if p.0 == id then p.1 in seed[symbol] || (!replaceListed && p in Listed(rows, seed, resolve, done, replaceListed))
              else p in Listed(rows, seed, resolve, done, replaceListed)
  {
    AskedGrows(seed, resolve, done, symbol);
    var id := resolve[symbol];
    forall p: Pair | p in Asked(seed, resolve, done) ensures p.0 != id {
      var s, c :| s in done && s in seed && s in resolve && c in seed[s] && p == (resolve[s], c);
    }
  }

  // ---------------------------------------------------------------- laws

  lemma AskedMeans(seed: Seed, resolve: map<string, nat>, p: Pair)
    ensures p in Asked(seed, resolve, seed.Keys) <==>
            exists s :: s in seed && s in resolve && resolve[s] == p.0 && p.1 in seed[s]
  {
    if s :| s in seed && s in resolve && resolve[s] == p.0 && p.1 in seed[s] {
      assert p == (resolve[s], p.1);
    }
  }

  /** After a snapshot import, in either mode: a code with a resolved seed symbol is active on exactly
      the instruments the seed lists for it. */
  lemma SnapshotIsExact(rows: set<Pair>, seed: Seed, resolve: map<string, nat>, replaceListed: bool, id: nat, code: string)
    requires code in Codes(Asked(seed, resolve, seed.Keys))
    ensures (id, code) in Imported(rows, seed, resolve, replaceListed, true) <==>
            exists s :: s in seed && s in resolve && resolve[s] == id && code in seed[s]
  {
    AskedMeans(seed, resolve, (id, code));
  }

  /** Every other membership: kept, unless replace mode drops it from a listed instrument.  In
      particular a code seen only on unresolved symbols is not snapshotted, and an unlisted
      instrument loses nothing but snapshotted codes. */
  lemma OtherCodesAreKept(rows: set<Pair>, seed: Seed, resolve: map<string, nat>, replaceListed: bool, snapshot: bool, id: nat, code: string)
    requires code !in Codes(Asked(seed, resolve, seed.Keys))
    ensures (id, code) in Imported(rows, seed, resolve, replaceListed, snapshot) <==>
            (id, code) in rows && !(replaceListed && id in Instruments(resolve, seed.Keys))
  {
    assert (id, code) !in Asked(seed, resolve, seed.Keys);
  }

  /** The whole import in one condition, for every table, mode and pair: a membership is active
      afterwards if and only if a resolved seed symbol asks for it, or it was active before and neither
      replace mode (its instrument is that of a seed symbol) nor the snapshot (a resolved seed symbol asks
      for its code) ends it. */
  lemma ImportedExactly(rows: set<Pair>, seed: Seed, resolve: map<string, nat>, replaceListed: bool, snapshot: bool, id: nat, code: string)
    ensures (id, code) in Imported(rows, seed, resolve, replaceListed, snapshot) <==>
            || (exists s :: s in seed && s in resolve && resolve[s] == id && code in seed[s])
            || ((id, code) in rows
                && !(replaceListed && exists s :: s in seed && s in resolve && resolve[s] == id)
                && !(snapshot && exists s :: s in seed && s in resolve && code in seed[s]))
  {
    AskedMeans(seed, resolve, (id, code));
    CodeMeans(seed, resolve, code);
    assert id in Instruments(resolve, seed.Keys) <==> exists s :: s in seed && s in resolve && resolve[s] == id;
  }

  lemma CodeMeans(seed: Seed, resolve: map<string, nat>, code: string)
    ensures code in Codes(Asked(seed, resolve, seed.Keys)) <==> exists s :: s in seed && s in resolve && code in seed[s]
  {
    if s :| s in seed && s in resolve && code in seed[s] {
      AskedMeans(seed, resolve, (resolve[s], code));
      assert (resolve[s], code) in Asked(seed, resolve, seed.Keys);
    }
    if code in Codes(Asked(seed, resolve, seed.Keys)) {
      var p :| p in Asked(seed, resolve, seed.Keys) && p.1 == code;
      AskedMeans(seed, resolve, p);
    }
  }

  /** A merge import without snapshot loses no membership and deactivates nothing. */
  lemma MergeLosesNothing(rows: set<Pair>, seed: Seed, resolve: map<string, nat>)
    ensures rows <= Imported(rows, seed, resolve, false, false)
  {
    forall p | p in rows ensures p in Imported(rows, seed, resolve, false, false) {
      ImportedExactly(rows, seed, resolve, false, false, p.0, p.1);
    }
  }

  /** A second identical import changes no membership and deactivates nothing. */
  lemma ImportIsIdempotent(rows: set<Pair>, seed: Seed, resolve: map<string, nat>, replaceListed: bool, snapshot: bool)
    ensures var once := Imported(rows, seed, resolve, replaceListed, snapshot);
            && Imported(once, seed, resolve, replaceListed, snapshot) == once
            && (snapshot ==>
                  Stale(Listed(once, seed, resolve, seed.Keys, replaceListed), Asked(seed, resolve, seed.Keys)) == {})
  {
    var once := Imported(rows, seed, resolve, replaceListed, snapshot);
    var asked := Asked(seed, resolve, seed.Keys);
    assert asked <= once;
    assert Listed(once, seed, resolve, seed.Keys, replaceListed) == once;
  }

  /** Two imports of one seed, each with its own lookups and its own order: if no first listing is tied,
      the second changes no membership and deactivates nothing. */
  method ImportTwice(table: MembershipTable, seed: Seed, order: seq<string>, again: seq<string>, instruments: map<nat, Listing>,
                     replaceListed: bool, snapshot: bool)
    returns (once: set<Pair>, second: Summary)
    requires Enumerates(order, seed.Keys) && Enumerates(again, seed.Keys)
    modifies table
    ensures NoTies(instruments, seed.Keys) ==> table.active == once && second.deactivated == 0
  {
    ghost var rows := table.active;
    var first, a := table.ApplySeed(seed, order, instruments, replaceListed, snapshot);
    once := table.active;
    var b;
    second, b := table.ApplySeed(seed, again, instruments, replaceListed, snapshot);
    if NoTies(instruments, seed.Keys) {
      SameResolution(instruments, seed.Keys, a, b);
      ImportIsIdempotent(rows, seed, a, replaceListed, snapshot);
    }
  }

  /** Whatever the table holds and whatever the two rounds of lookups choose, the second import changes
      nothing. */
  ghost predicate AlwaysIdempotent(instruments: map<nat, Listing>, seed: Seed, replaceListed: bool, snapshot: bool) {
    forall rows, a, b | ResolvedBy(instruments, seed.Keys, a) && ResolvedBy(instruments, seed.Keys, b) ::
      Imported(Imported(rows, seed, a, replaceListed, snapshot), seed, b, replaceListed, snapshot)
      == Imported(rows, seed, a, replaceListed, snapshot)
  }

  /** A tied symbol: the second import may give its codes to the other listing. */
  lemma TiedListingsMove(instruments: map<nat, Listing>, seed: Seed, s: string, i: nat, j: nat, replaceListed: bool, snapshot: bool)
    returns (a: map<string, nat>, b: map<string, nat>)
    requires s in seed && seed[s] != [] && Chosen(instruments, s, i) && Chosen(instruments, s, j) && i != j
    ensures ResolvedBy(instruments, seed.Keys, a) && ResolvedBy(instruments, seed.Keys, b)
    ensures var once := Imported({}, seed, a, replaceListed, snapshot);
            Imported(once, seed, b, replaceListed, snapshot) != once
  {
    a := SomeResolution(instruments, seed.Keys, s, i);
    b := SomeResolution(instruments, seed.Keys, s, j);
    var once, code := Imported({}, seed, a, replaceListed, snapshot), seed[s][0];
    AskedMeans(seed, a, (j, code));
    forall t | t in seed && t in a && code in seed[t] ensures a[t] != j {
      assert Chosen(instruments, t, a[t]) && HasSymbol(instruments, a[t], t);
    }
    assert (j, code) !in once;
    AskedMeans(seed, b, (j, code));
    assert (j, code) in Imported(once, seed, b, replaceListed, snapshot);
  }

  /** For seeds as the loader makes them, where every symbol has a code: the import is idempotent,
      lookups included, if and only if no first listing of a seed symbol is tied. */
  lemma IdempotentIff(instruments: map<nat, Listing>, seed: Seed, replaceListed: bool, snapshot: bool)
    requires forall s :: s in seed ==> seed[s] != []
    ensures AlwaysIdempotent(instruments, seed, replaceListed, snapshot) <==> NoTies(instruments, seed.Keys)
  {
    if NoTies(instruments, seed.Keys) {
      forall rows, a, b | ResolvedBy(instruments, seed.Keys, a) && ResolvedBy(instruments, seed.Keys, b)
        ensures Imported(Imported(rows, seed, a, replaceListed, snapshot), seed, b, replaceListed, snapshot)
             == Imported(rows, seed, a, replaceListed, snapshot)
      {
        SameResolution(instruments, seed.Keys, a, b);
        ImportIsIdempotent(rows, seed, a, replaceListed, snapshot);
      }
    } else {
      var s, i, j :| s in seed.Keys && Chosen(instruments, s, i) && Chosen(instruments, s, j) && i != j;
      var a, b := TiedListingsMove(instruments, seed, s, i, j, replaceListed, snapshot);
    }
  }

  lemma ListedOnce(order: seq<string>, keys: set<string>)
    requires Sorted(order) && forall s :: s in order <==> s in keys
    ensures Enumerates(order, keys)
  {
    assert Elems(order) == keys;
    forall i, j | 0 <= i < j < |order| ensures order[i] != order[j] { LessTotal(order[i], order[j]); }
  }

  // ---------------------------------------------------------------- the whole pipeline

  function SeedOf(groups: map<string, Group>): Seed {
    map s | s in groups :: groups[s].codes
  }

  /** Some symbol that the manifest lists under `code` resolves to `id`. */
  ghost predicate Carries(m: Manifest, resolve: map<string, nat>, code: string, id: nat) {
    exists s :: Member(m.entries, s, code) && s in resolve && resolve[s] == id
  }

  lemma CarriesMeansAsked(m: Manifest, parse: string -> Option<int>, groups: map<string, Group>, resolve: map<string, nat>, code: string, id: nat)
    requires GroupsOf(m, parse, groups)
    ensures Carries(m, resolve, code, id) <==> (id, code) in Asked(SeedOf(groups), resolve, SeedOf(groups).Keys)
  {
    var seed := SeedOf(groups);
    AskedMeans(seed, resolve, (id, code));
    assert forall s :: s in seed && code in seed[s] <==> s in groups && code in groups[s].codes;
  }

  /** From manifest to table: after build, load and a snapshot import, a code that some resolved
      symbol carries is active on exactly the instruments of the symbols that the manifest's entries of
      that code list. */
  method ImportManifest(m: Manifest, parse: string -> Option<int>, instruments: map<nat, Listing>, table: MembershipTable,
                        replaceListed: bool)
    returns (ok: bool, resolve: map<string, nat>)
    requires ManifestOk(m)
    modifies table
    ensures !ok ==> table.active == old(table.active)
    ensures ok ==> forall s :: s in resolve ==> Chosen(instruments, s, resolve[s])
    ensures ok ==> forall s, c, i | Member(m.entries, s, c) && HasSymbol(instruments, i, s) :: s in resolve
    ensures ok ==> forall code, id: nat, other: nat ::
              Carries(m, resolve, code, other) ==> ((id, code) in table.active <==> Carries(m, resolve, code, id))
  {
    var rows, loaded := BuildAndLoad(m, parse);
    if loaded.Err? { return false, map[]; }
    var seed := SeedOf(loaded.value);
    ghost var before := table.active;
    var order := SortKeys(seed.Keys);
    ListedOnce(order, seed.Keys);
    var summary;
    summary, resolve := table.ApplySeed(seed, order, instruments, replaceListed, true);
    forall code, id: nat, other: nat | Carries(m, resolve, code, other)
      ensures (id, code) in table.active <==> Carries(m, resolve, code, id)
    {
      CarriesMeansAsked(m, parse, loaded.value, resolve, code, other);
      CarriesMeansAsked(m, parse, loaded.value, resolve, code, id);
      SnapshotOfAsked(before, seed, resolve, replaceListed, (other, code), (id, code));
    }
    ok := true;
  }

  lemma SnapshotOfAsked(rows: set<Pair>, seed: Seed, resolve: map<string, nat>, replaceListed: bool, q: Pair, p: Pair)
    requires q in Asked(seed, resolve, seed.Keys) && q.1 == p.1
    ensures p in Imported(rows, seed, resolve, replaceListed, true) <==> p in Asked(seed, resolve, seed.Keys)
  {
    assert p.1 in Codes(Asked(seed, resolve, seed.Keys));
  }
}

/** From a source package to seed rows (build_index_membership_seed_from_source_package.py). */
module SeedBuild {
  import opened Outcomes
  import opened Text

  predicate Supported(code: string) {
    code in {"KOSPI100", "KOSPI200", "KOSDAQ50", "KOSDAQ150"}
  }

  /** One manifest entry with the symbol column of the file it names. */
  datatype Entry = Entry(code: string, note: Option<string>, cells: seq<string>)

  datatype Manifest = Manifest(sourceName: string, sourceRef: string, asOfDate: string, entries: seq<Entry>)

  datatype RawEntry = RawEntry(code: string, csvPath: string, note: string, cells: seq<string>)

  datatype SeedRow = SeedRow(
    symbol: string, code: string, sourceName: string, sourceRef: string, asOfDate: string, note: string)

  datatype Meta = Meta(sourceName: Option<string>, sourceRef: Option<string>, asOf: Option<int>, note: Option<string>)

  datatype Group = Group(codes: seq<string>, meta: Meta)

  // ---------------------------------------------------------------- the manifest

  predicate EntryOk(e: Entry) {
    && Supported(e.code) && Norm(e.code) == e.code
    && (e.note.Some? ==> e.note.value != "" && Strip(e.note.value) == e.note.value)
  }

  predicate ManifestOk(m: Manifest) {
    && m.entries != [] && (forall i :: 0 <= i < |m.entries| ==> EntryOk(m.entries[i]))
    && m.sourceName != "" && Strip(m.sourceName) == m.sourceName
    && m.sourceRef != "" && Strip(m.sourceRef) == m.sourceRef
    && m.asOfDate != "" && Strip(m.asOfDate) == m.asOfDate
  }

  /** What the loader demands of a raw entry. */
  predicate RawOk(raw: RawEntry) {
    Supported(Norm(raw.code)) && Strip(raw.csvPath) != ""
  }

  function EntryOf(raw: RawEntry): Entry {
    Entry(Norm(raw.code), OptText(raw.note), raw.cells)
  }

  /** An entry is accepted if and only if its code is one of the four and it names a file; it keeps the
      normalised code, its note unless that is blank, and the file's cells. */
  lemma EntryExactly(raw: RawEntry)
    ensures RawOk(raw) <==> Norm(raw.code) in ["KOSPI100", "KOSPI200", "KOSDAQ50", "KOSDAQ150"] && Strip(raw.csvPath) != ""
    ensures EntryOf(raw) == Entry(Norm(raw.code), if Strip(raw.note) == "" then None else Some(Strip(raw.note)), raw.cells)
  {
  }

  lemma EntryOfIsOk(raw: RawEntry)
    requires RawOk(raw)
    ensures EntryOk(EntryOf(raw))
  {
    NormIdempotent(raw.code);
    StripTrims(raw.note);
  }

  /** `_load_manifest`: every accepted manifest is in order. */
  method LoadManifest(sourceName: string, sourceRef: string, asOfDate: string, raw: seq<RawEntry>)
    returns (r: Result<Manifest>)
    ensures r.Ok? <==> && raw != [] && Strip(sourceName) != "" && Strip(sourceRef) != "" && Strip(asOfDate) != ""
                       && forall i :: 0 <= i < |raw| ==> RawOk(raw[i])
    ensures r.Ok? ==> ManifestOk(r.value) && |r.value.entries| == |raw|
    ensures r.Ok? ==> forall i :: 0 <= i < |raw| ==> r.value.entries[i] == EntryOf(raw[i])
    ensures r.Ok? ==> r.value.sourceName == Strip(sourceName) && r.value.sourceRef == Strip(sourceRef)
    ensures r.Ok? ==> r.value.asOfDate == Strip(asOfDate)
  {
    if raw == [] { return Err; }
    var entries := LoadEntries(raw);
    if entries.Err? { return Err; }
    if Strip(sourceName) == "" || Strip(sourceRef) == "" || Strip(asOfDate) == "" { return Err; }
    StripTrims(sourceName);
    StripTrims(sourceRef);
    StripTrims(asOfDate);
    r := Ok(Manifest(Strip(sourceName), Strip(sourceRef), Strip(asOfDate), entries.value));
  }

  /** The loop over the manifest's entries. */
  method LoadEntries(raw: seq<RawEntry>) returns (r: Result<seq<Entry>>)
    ensures r.Ok? <==> forall i :: 0 <= i < |raw| ==> RawOk(raw[i])
    ensures r.Ok? ==> |r.value| == |raw|
    ensures r.Ok? ==> forall i :: 0 <= i < |raw| ==> r.value[i] == EntryOf(raw[i]) && EntryOk(r.value[i])
  {
    var entries: seq<Entry> := [];
    for i := 0 to |raw|
      invariant |entries| == i
      invariant forall k :: 0 <= k < i ==> RawOk(raw[k])
      invariant forall k :: 0 <= k < i ==> entries[k] == EntryOf(raw[k]) && EntryOk(entries[k])
    {
      var entry := LoadEntry(raw[i]);
      if entry.Err? { return Err; }
      entries := entries + [entry.value];
    }
    r := Ok(entries);
  }

  method LoadEntry(raw: RawEntry) returns (r: Result<Entry>)
    ensures r.Ok? <==> RawOk(raw)
    ensures r.Ok? ==> r.value == EntryOf(raw) && EntryOk(r.value)
  {
    var code := Norm(raw.code);
    if !Supported(code) { return Err; }
    if Strip(raw.csvPath) == "" { return Err; }
    EntryOfIsOk(raw);
    r := Ok(Entry(code, OptText(raw.note), raw.cells));
  }

  // ---------------------------------------------------------------- who is a member of what

  /** The entry's file lists the symbol. */
  predicate Lists(e: Entry, s: string) {
    s != "" && exists i :: 0 <= i < |e.cells| && Norm(e.cells[i]) == s
  }

  /** Some entry of code `c` lists `s`. */
  predicate Member(entries: seq<Entry>, s: string, c: string) {
    exists k :: 0 <= k < |entries| && entries[k].code == c && Lists(entries[k], s)
  }

  /** The note of the first entry of code `c` that lists `s`. */
  function FirstNote(entries: seq<Entry>, s: string, c: string): Option<string> {
    if entries == [] then None
    else if entries[0].code == c && Lists(entries[0], s) then entries[0].note
    else FirstNote(entries[1..], s, c)
  }

  lemma MemberSnoc(entries: seq<Entry>, e: Entry, s: string, c: string)
    ensures Member(entries + [e], s, c) <==> Member(entries, s, c) || (e.code == c && Lists(e, s))
  {
    var more := entries + [e];
    if Member(entries, s, c) {
      var k :| 0 <= k < |entries| && entries[k].code == c && Lists(entries[k], s);
      assert more[k] == entries[k];
    }
    if e.code == c && Lists(e, s) { assert more[|entries|] == e; }
  }

  lemma {:induction false} FirstNoteSnoc(entries: seq<Entry>, e: Entry, s: string, c: string)
    ensures FirstNote(entries + [e], s, c) ==
            if Member(entries, s, c) then FirstNote(entries, s, c)
            else if e.code == c && Lists(e, s) then e.note else None
    decreases |entries|
  {
    var more := entries + [e];
    if entries == [] {
      assert more[1..] == [];
    } else {
      FirstNoteSnoc(entries[1..], e, s, c);
      assert more[1..] == entries[1..] + [e];
      assert entries == [entries[0]] + entries[1..];
      if Member(entries[1..], s, c) {
        var k :| 0 <= k < |entries[1..]| && entries[1..][k].code == c && Lists(entries[1..][k], s);
        assert entries[k + 1] == entries[1..][k];
      }
    }
  }

  // ---------------------------------------------------------------- the builder

  /** `_load_symbols_from_entry` */
  method LoadSymbols(cells: seq<string>, ghost e: Entry) returns (symbols: seq<string>)
    requires e.cells == cells
    ensures forall i, j :: 0 <= i < j < |symbols| ==> symbols[i] != symbols[j]
    ensures forall s :: s in symbols <==> Lists(e, s)
    ensures forall s :: s in symbols ==> Norm(s) == s && s != ""
  {
    symbols := [];
    for i := 0 to |cells|
      invariant forall i, j :: 0 <= i < j < |symbols| ==> symbols[i] != symbols[j]
      invariant forall s :: s in symbols <==> s != "" && exists k :: 0 <= k < i && Norm(cells[k]) == s
      invariant forall s :: s in symbols ==> Norm(s) == s && s != ""
    {
      var symbol := Norm(cells[i]);
      NormIdempotent(cells[i]);
      if symbol != "" && symbol !in symbols { symbols := symbols + [symbol]; }
    }
  }

  /** The two dictionaries hold exactly the memberships of `es`. */
  ghost predicate Indexed(es: seq<Entry>, codes: map<string, seq<string>>, notes: map<(string, string), Option<string>>) {
    && (forall s, c :: Member(es, s, c) ==> s in codes && c in codes[s])
    && (forall s, c :: s in codes && c in codes[s] ==> Member(es, s, c))
    && (forall s :: s in codes ==> codes[s] != [] && forall i, j :: 0 <= i < j < |codes[s]| ==> codes[s][i] != codes[s][j])
    && (forall s, c :: Member(es, s, c) ==> (s, c) in notes && notes[(s, c)] == FirstNote(es, s, c))
  }

  /** The entry as far as its first symbols have been read. */
  function Partial(e: Entry, symbols: seq<string>): Entry {
    e.(cells := symbols)
  }

  lemma PartialStep(es: seq<Entry>, e: Entry, symbols: seq<string>, x: string, s: string, c: string)
    requires Norm(x) == x && x != ""
    ensures Lists(Partial(e, symbols + [x]), s) <==> Lists(Partial(e, symbols), s) || s == x
    ensures Member(es + [Partial(e, symbols + [x])], s, c) <==>
            Member(es + [Partial(e, symbols)], s, c) || (s == x && c == e.code)
    ensures FirstNote(es + [Partial(e, symbols + [x])], s, c) ==
            if !Member(es + [Partial(e, symbols)], s, c) && s == x && c == e.code then e.note
            else FirstNote(es + [Partial(e, symbols)], s, c)
  {
    var p, q := Partial(e, symbols), Partial(e, symbols + [x]);
    assert Lists(q, s) <==> Lists(p, s) || s == x by {
      if Lists(p, s) {
        var i :| 0 <= i < |symbols| && Norm(symbols[i]) == s;
        assert Norm(q.cells[i]) == s;
      }
      if s == x { assert Norm(q.cells[|symbols|]) == s; }
    }
    MemberSnoc(es, p, s, c);
    MemberSnoc(es, q, s, c);
    FirstNoteSnoc(es, p, s, c);
    FirstNoteSnoc(es, q, s, c);
  }

  lemma SameListing(es: seq<Entry>, p: Entry, e: Entry, s: string, c: string)
    requires p.code == e.code && p.note == e.note && (Lists(p, s) <==> Lists(e, s))
    ensures Member(es + [p], s, c) <==> Member(es + [e], s, c)
    ensures FirstNote(es + [p], s, c) == FirstNote(es + [e], s, c)
  {
    MemberSnoc(es, p, s, c);
    MemberSnoc(es, e, s, c);
    FirstNoteSnoc(es, p, s, c);
    FirstNoteSnoc(es, e, s, c);
  }

  /** The same memberships and notes are indexed the same. */
  lemma IndexedSame(es: seq<Entry>, fs: seq<Entry>, codes: map<string, seq<string>>, notes: map<(string, string), Option<string>>)
    requires Indexed(es, codes, notes)
    requires forall s, c :: Member(es, s, c) <==> Member(fs, s, c)
    requires forall s, c :: Member(es, s, c) ==> FirstNote(es, s, c) == FirstNote(fs, s, c)
    ensures Indexed(fs, codes, notes)
  {
  }

  /** One more membership, with its note when it is new. */
  lemma IndexedStep(es: seq<Entry>, fs: seq<Entry>, x: string, code: string, note: Option<string>,
                    codes: map<string, seq<string>>, notes: map<(string, string), Option<string>>)
    requires Indexed(es, codes, notes)
    requires forall s, c :: Member(fs, s, c) <==> Member(es, s, c) || (s == x && c == code)
    requires forall s, c :: FirstNote(fs, s, c) ==
               if !Member(es, s, c) && s == x && c == code then note else FirstNote(es, s, c)
    ensures var known := if x in codes then codes[x] else [];
            if code in known then Indexed(fs, codes, notes)
            else Indexed(fs, codes[x := known + [code]], notes[(x, code) := note])
  {
    var known := if x in codes then codes[x] else [];
    if code !in known {
      assert !Member(es, x, code);
    }
  }

  method IndexSymbol(ghost es: seq<Entry>, e: Entry, ghost symbols: seq<string>, x: string,
                     codes0: map<string, seq<string>>, notes0: map<(string, string), Option<string>>)
    returns (codes: map<string, seq<string>>, notes: map<(string, string), Option<string>>)
    requires Indexed(es + [Partial(e, symbols)], codes0, notes0) && Norm(x) == x && x != ""
    ensures Indexed(es + [Partial(e, symbols + [x])], codes, notes)
  {
    codes, notes := codes0, notes0;
    ghost var before, after := es + [Partial(e, symbols)], es + [Partial(e, symbols + [x])];
    forall s, c
      ensures Member(after, s, c) <==> Member(before, s, c) || (s == x && c == e.code)
      ensures FirstNote(after, s, c) ==
              if !Member(before, s, c) && s == x && c == e.code then e.note else FirstNote(before, s, c)
    {
      PartialStep(es, e, symbols, x, s, c);
    }
    IndexedStep(before, after, x, e.code, e.note, codes, notes);
    var known := if x in codes then codes[x] else [];
    if e.code !in known {
      codes := codes[x := known + [e.code]];
      notes := notes[(x, e.code) := e.note];
    }
  }

  lemma PartialEnds(es: seq<Entry>, e: Entry, symbols: seq<string>,
                    codes: map<string, seq<string>>, notes: map<(string, string), Option<string>>)
    requires (forall s :: s in symbols <==> Lists(e, s)) && forall s :: s in symbols ==> Norm(s) == s
    requires Indexed(es + [Partial(e, symbols)], codes, notes)
    ensures Indexed(es + [e], codes, notes)
  {
    forall s, c ensures Member(es + [Partial(e, symbols)], s, c) <==> Member(es + [e], s, c)
                ensures FirstNote(es + [Partial(e, symbols)], s, c) == FirstNote(es + [e], s, c) {
      ListsOwnSymbols(e, symbols, s);
      SameListing(es, Partial(e, symbols), e, s, c);
    }
    IndexedSame(es + [Partial(e, symbols)], es + [e], codes, notes);
  }

  lemma PartialBegins(es: seq<Entry>, e: Entry, codes: map<string, seq<string>>, notes: map<(string, string), Option<string>>)
    requires Indexed(es, codes, notes)
    ensures Indexed(es + [Partial(e, [])], codes, notes)
  {
    forall s, c ensures Member(es + [Partial(e, [])], s, c) <==> Member(es, s, c)
                ensures Member(es, s, c) ==> FirstNote(es + [Partial(e, [])], s, c) == FirstNote(es, s, c) {
      MemberSnoc(es, Partial(e, []), s, c);
      FirstNoteSnoc(es, Partial(e, []), s, c);
    }
    IndexedSame(es, es + [Partial(e, [])], codes, notes);
  }

  method IndexEntry(ghost es: seq<Entry>, e: Entry, codes0: map<string, seq<string>>, notes0: map<(string, string), Option<string>>)
    returns (codes: map<string, seq<string>>, notes: map<(string, string), Option<string>>)
    requires Indexed(es, codes0, notes0)
    ensures Indexed(es + [e], codes, notes)
  {
    codes, notes := codes0, notes0;
    var symbols := LoadSymbols(e.cells, e);
    PartialBegins(es, e, codes, notes);
    for j := 0 to |symbols|
      invariant Indexed(es + [Partial(e, symbols[..j])], codes, notes)
    {
      assert symbols[j] in symbols;
      codes, notes := IndexSymbol(es, e, symbols[..j], symbols[j], codes, notes);
      assert symbols[..j + 1] == symbols[..j] + [symbols[j]];
    }
    assert symbols[..|symbols|] == symbols;
    PartialEnds(es, e, symbols, codes, notes);
  }

  lemma ListsOwnSymbols(e: Entry, symbols: seq<string>, s: string)
    requires (forall s :: s in symbols <==> Lists(e, s)) && forall s :: s in symbols ==> Norm(s) == s
    ensures Lists(Partial(e, symbols), s) <==> Lists(e, s)
  {
    if s in symbols {
      var i :| 0 <= i < |symbols| && symbols[i] == s;
      assert Norm(Partial(e, symbols).cells[i]) == s;
    }
    if Lists(Partial(e, symbols), s) {
      var i :| 0 <= i < |symbols| && Norm(symbols[i]) == s;
      assert symbols[i] in symbols;
    }
  }

  function RowFor(m: Manifest, s: string, c: string): SeedRow {
    var note := FirstNote(m.entries, s, c);
    SeedRow(s, c, m.sourceName, m.sourceRef, m.asOfDate, if note.Some? then note.value else "")
  }

  predicate RowLess(a: SeedRow, b: SeedRow) {
    Less(a.symbol, b.symbol) || (a.symbol == b.symbol && Less(a.code, b.code))
  }

  /** The row is that of a membership. */
  ghost predicate RowOk(m: Manifest, row: SeedRow) {
    Member(m.entries, row.symbol, row.code) && row == RowFor(m, row.symbol, row.code)
  }

  /** Strictly sorted by (symbol, code), hence duplicate-free; one row per membership and no other. */
  ghost predicate RowsOf(m: Manifest, rows: seq<SeedRow>) {
    && (forall i, j :: 0 <= i < j < |rows| ==> RowLess(rows[i], rows[j]))
    && (forall i :: 0 <= i < |rows| ==> RowOk(m, rows[i]))
    && (forall s, c :: Member(m.entries, s, c) ==> RowFor(m, s, c) in rows)
  }

  ghost predicate OwnRows(m: Manifest, s: string, rows: seq<SeedRow>) {
    && (forall i, j :: 0 <= i < j < |rows| ==> RowLess(rows[i], rows[j]))
    && (forall r :: r in rows ==> r.symbol == s && RowOk(m, r))
    && (forall c :: Member(m.entries, s, c) ==> RowFor(m, s, c) in rows)
  }

  /** The rows of one symbol. */
  method SymbolRows(m: Manifest, s: string, codes: seq<string>, notes: map<(string, string), Option<string>>)
    returns (rows: seq<SeedRow>)
    requires forall c :: c in codes <==> Member(m.entries, s, c)
    requires forall c :: c in codes ==> (s, c) in notes && notes[(s, c)] == FirstNote(m.entries, s, c)
    ensures OwnRows(m, s, rows)
  {
    var sorted := SortKeys(set c | c in codes);
    rows := [];
    for k := 0 to |sorted|
      invariant |rows| == k
      invariant forall i :: 0 <= i < k ==> rows[i] == RowFor(m, s, sorted[i])
    {
      assert sorted[k] in sorted;
      var note := notes[(s, sorted[k])];
      rows := rows + [SeedRow(s, sorted[k], m.sourceName, m.sourceRef, m.asOfDate, if note.Some? then note.value else "")];
    }
    forall r | r in rows ensures r.symbol == s && RowOk(m, r) {
      var i :| 0 <= i < |rows| && rows[i] == r;
      assert sorted[i] in sorted;
    }
    forall c | Member(m.entries, s, c) ensures RowFor(m, s, c) in rows {
      assert c in sorted;
      var i :| 0 <= i < |sorted| && sorted[i] == c;
      assert rows[i] == RowFor(m, s, c);
    }
  }

  /** `_build_seed_rows` */
  method BuildSeedRows(m: Manifest) returns (rows: seq<SeedRow>)
    ensures RowsOf(m, rows)
  {
    var codes: map<string, seq<string>>, notes: map<(string, string), Option<string>> := map[], map[];
    for i := 0 to |m.entries|
      invariant Indexed(m.entries[..i], codes, notes)
    {
      assert m.entries[..i + 1] == m.entries[..i] + [m.entries[i]];
      codes, notes := IndexEntry(m.entries[..i], m.entries[i], codes, notes);
    }
    assert m.entries[..|m.entries|] == m.entries;
    rows := RowsBySymbol(m, codes, notes);
  }

  /** A cell of an entry gives a row: its normalised symbol, the entry's code, the manifest's source and
      date, and the entry's note, if no earlier entry of that code lists the symbol. */
  lemma CellGivesRow(m: Manifest, rows: seq<SeedRow>, k: nat, i: nat)
    requires RowsOf(m, rows) && k < |m.entries| && i < |m.entries[k].cells| && Norm(m.entries[k].cells[i]) != ""
    requires forall h, j :: 0 <= h < k && m.entries[h].code == m.entries[k].code && 0 <= j < |m.entries[h].cells| ==>
               Norm(m.entries[h].cells[j]) != Norm(m.entries[k].cells[i])
    ensures var e := m.entries[k];
            SeedRow(Norm(e.cells[i]), e.code, m.sourceName, m.sourceRef, m.asOfDate, if e.note.Some? then e.note.value else "") in rows
  {
    var e := m.entries[k];
    var s := Norm(e.cells[i]);
    assert Lists(e, s) && Member(m.entries, s, e.code);
    NoteOfFirst(m.entries, k, s, e.code);
  }

  lemma {:induction false} NoteOfFirst(entries: seq<Entry>, k: nat, s: string, c: string)
    requires k < |entries| && entries[k].code == c && Lists(entries[k], s)
    requires forall h :: 0 <= h < k ==> !(entries[h].code == c && Lists(entries[h], s))
    ensures FirstNote(entries, s, c) == entries[k].note
    decreases k
  {
    if k > 0 { NoteOfFirst(entries[1..], k - 1, s, c); }
  }

  /** Every row comes from a cell. */
  lemma RowHasCell(m: Manifest, rows: seq<SeedRow>, j: nat) returns (k: nat, i: nat)
    requires RowsOf(m, rows) && j < |rows|
    ensures k < |m.entries| && i < |m.entries[k].cells|
    ensures rows[j].symbol == Norm(m.entries[k].cells[i]) != "" && rows[j].code == m.entries[k].code
  {
    assert RowOk(m, rows[j]);
    k :| 0 <= k < |m.entries| && m.entries[k].code == rows[j].code && Lists(m.entries[k], rows[j].symbol);
    i :| 0 <= i < |m.entries[k].cells| && Norm(m.entries[k].cells[i]) == rows[j].symbol;
  }

  /** The rows of the listed symbols, as `RowsOf` describes them. */
  ghost predicate RowsUpTo(m: Manifest, rows: seq<SeedRow>, symbols: seq<string>) {
    && (forall i, j :: 0 <= i < j < |rows| ==> RowLess(rows[i], rows[j]))
    && (forall i :: 0 <= i < |rows| ==> rows[i].symbol in symbols && RowOk(m, rows[i]))
    && (forall s, c :: s in symbols && Member(m.entries, s, c) ==> RowFor(m, s, c) in rows)
  }

  lemma RowsAppend(m: Manifest, rows: seq<SeedRow>, own: seq<SeedRow>, symbols: seq<string>, s: string)
    requires RowsUpTo(m, rows, symbols) && OwnRows(m, s, own) && forall x :: x in symbols ==> Less(x, s)
    ensures RowsUpTo(m, rows + own, symbols + [s])
  {
    var all := rows + own;
    forall j | 0 <= j < |own| ensures own[j].symbol == s && RowOk(m, own[j]) {
      assert own[j] in own;
    }
    forall i, j | 0 <= i < j < |all| ensures RowLess(all[i], all[j]) {
      if i >= |rows| { assert RowLess(own[i - |rows|], own[j - |rows|]); }
      else if j < |rows| { assert RowLess(rows[i], rows[j]); }
    }
  }

  /** The rows, symbol by symbol in sorted order. */
  method RowsBySymbol(m: Manifest, codes: map<string, seq<string>>, notes: map<(string, string), Option<string>>)
    returns (rows: seq<SeedRow>)
    requires Indexed(m.entries, codes, notes)
    ensures RowsOf(m, rows)
  {
    var symbols := SortKeys(codes.Keys);
    rows := [];
    for k := 0 to |symbols|
      invariant RowsUpTo(m, rows, symbols[..k])
    {
      var s := symbols[k];
      assert s in symbols && s in codes;
      var own := SymbolRows(m, s, codes[s], notes);
      RowsAppend(m, rows, own, symbols[..k], s);
      rows := rows + own;
      assert symbols[..k + 1] == symbols[..k] + [s];
    }
    assert symbols[..|symbols|] == symbols;
    forall s, c | Member(m.entries, s, c) ensures s in symbols {
      assert s in codes;
    }
  }
}

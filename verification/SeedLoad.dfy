/** The seed loader (import_instrument_index_membership_seed.py) and its round trip with the builder. */
module SeedLoad {
  import opened Outcomes
  import opened Text
  import opened SeedBuild

  /** What the loader reads from one row; rows with an empty symbol or code are skipped. */
  datatype Reading = Skipped | Read(symbol: string, code: string, meta: Result<Meta>)

  /** A row's metadata; Err when its date does not parse. */
  function MetaOf(r: SeedRow, parse: string -> Option<int>): Result<Meta> {
    var date := OptText(r.asOfDate);
    if date.Some? && parse(date.value).None? then Err
    else Ok(Meta(OptText(r.sourceName), OptText(r.sourceRef),
                 if date.Some? then parse(date.value) else None, OptText(r.note)))
  }

  function ReadingOf(r: SeedRow, parse: string -> Option<int>): Reading {
    if Norm(r.symbol) == "" || Norm(r.code) == "" then Skipped else Read(Norm(r.symbol), Norm(r.code), MetaOf(r, parse))
  }

  function Readings(rows: seq<SeedRow>, parse: string -> Option<int>): seq<Reading> {
    seq(|rows|, i requires 0 <= i < |rows| => ReadingOf(rows[i], parse))
  }

  predicate ReadOk(r: Reading) {
    r.Read? ==> Supported(r.code) && r.meta.Ok?
  }

  predicate Agree(a: Reading, b: Reading) {
    a.Read? && b.Read? && a.symbol == b.symbol ==> a.meta == b.meta
  }

  /** Every row read is supported and dated, and the rows of a symbol carry the same metadata. */
  ghost predicate Acceptable(rs: seq<Reading>) {
    && (forall i :: 0 <= i < |rs| ==> ReadOk(rs[i]))
    && (forall i, j :: 0 <= i < |rs| && 0 <= j < |rs| ==> Agree(rs[i], rs[j]))
  }

  predicate Says(r: Reading, s: string, c: string) {
    r.Read? && r.symbol == s && r.code == c
  }

  predicate NoRepeats(codes: seq<string>) {
    codes != [] && forall i, j :: 0 <= i < j < |codes| ==> codes[i] != codes[j]
  }

  predicate SaidBy(rs: seq<Reading>, s: string, c: string) {
    exists i :: 0 <= i < |rs| && Says(rs[i], s, c)
  }

  ghost predicate AllSaid(rs: seq<Reading>, groups: map<string, Group>) {
    forall s, c :: s in groups && c in groups[s].codes ==> SaidBy(rs, s, c)
  }

  ghost predicate Grouped(rs: seq<Reading>, groups: map<string, Group>) {
    && (forall s :: s in groups ==> NoRepeats(groups[s].codes))
    && (forall i :: 0 <= i < |rs| && rs[i].Read? ==> rs[i].symbol in groups && rs[i].code in groups[rs[i].symbol].codes)
    && AllSaid(rs, groups)
    && (forall i :: 0 <= i < |rs| && rs[i].Read? && rs[i].symbol in groups ==> rs[i].meta == Ok(groups[rs[i].symbol].meta))
  }

  ghost predicate LoadedFrom(rows: seq<SeedRow>, parse: string -> Option<int>, r: Result<map<string, Group>>) {
    && (r.Ok? <==> Acceptable(Readings(rows, parse)))
    && (r.Ok? ==> Grouped(Readings(rows, parse), r.value))
  }

  function WithCode(groups: map<string, Group>, s: string, c: string, meta: Meta): map<string, Group> {
    var known := if s in groups then groups[s].codes else [];
    groups[s := Group(if c in known then known else known + [c], meta)]
  }

  lemma GroupedStep(rs: seq<Reading>, r: Reading, groups: map<string, Group>)
    requires Grouped(rs, groups) && r.Read? && r.meta.Ok?
    requires r.symbol in groups ==> groups[r.symbol].meta == r.meta.value
    ensures Grouped(rs + [r], WithCode(groups, r.symbol, r.code, r.meta.value))
  {
    var after, more := WithCode(groups, r.symbol, r.code, r.meta.value), rs + [r];
    forall s, c | s in after && c in after[s].codes ensures SaidBy(more, s, c) {
      if s == r.symbol && c == r.code {
        assert Says(more[|rs|], s, c);
      } else {
        assert s in groups && c in groups[s].codes && SaidBy(rs, s, c);
        var i :| 0 <= i < |rs| && Says(rs[i], s, c);
        assert Says(more[i], s, c);
      }
    }
  }

  lemma GroupedSkip(rs: seq<Reading>, groups: map<string, Group>)
    requires Grouped(rs, groups)
    ensures Grouped(rs + [Skipped], groups)
  {
    var more := rs + [Skipped];
    forall s, c | s in groups && c in groups[s].codes ensures SaidBy(more, s, c) {
      assert SaidBy(rs, s, c);
      var i :| 0 <= i < |rs| && Says(rs[i], s, c);
      assert Says(more[i], s, c);
    }
  }

  /** Two rows of one symbol differ in metadata. */
  lemma Inconsistent(rs: seq<Reading>, i: nat, groups: map<string, Group>)
    requires i < |rs| && Grouped(rs[..i], groups) && rs[i].Read? && rs[i].symbol in groups
    requires rs[i].meta != Ok(groups[rs[i].symbol].meta)
    ensures !Acceptable(rs)
  {
    var s := rs[i].symbol;
    var c := groups[s].codes[0];
    assert c in groups[s].codes && SaidBy(rs[..i], s, c);
    var k :| 0 <= k < |rs[..i]| && Says(rs[..i][k], s, c);
    assert rs[..i][k] == rs[k];
    assert !Agree(rs[k], rs[i]);
  }

  lemma GroupedAgree(rs: seq<Reading>, groups: map<string, Group>)
    requires Grouped(rs, groups) && forall i :: 0 <= i < |rs| ==> ReadOk(rs[i])
    ensures Acceptable(rs)
  {
  }

  /** One row of the file. */
  method LoadRow(ghost rs: seq<Reading>, ghost i: nat, reading: Reading, groups: map<string, Group>)
    returns (r: Result<map<string, Group>>)
    requires i < |rs| && rs[i] == reading && Grouped(rs[..i], groups)
    ensures r.Ok? ==> Grouped(rs[..i + 1], r.value) && ReadOk(reading)
    ensures r.Err? ==> !Acceptable(rs)
  {
    assert rs[..i + 1] == rs[..i] + [reading];
    if reading.Skipped? {
      GroupedSkip(rs[..i], groups);
      return Ok(groups);
    }
    if !Supported(reading.code) || reading.meta.Err? {
      assert !ReadOk(rs[i]);
      return Err;
    }
    if reading.symbol in groups && groups[reading.symbol].meta != reading.meta.value {
      Inconsistent(rs, i, groups);
      return Err;
    }
    GroupedStep(rs[..i], reading, groups);
    r := Ok(WithCode(groups, reading.symbol, reading.code, reading.meta.value));
  }

  /** `_load_seed_rows` */
  method LoadSeedRows(rows: seq<SeedRow>, parse: string -> Option<int>) returns (r: Result<map<string, Group>>)
    ensures LoadedFrom(rows, parse, r)
  {
    ghost var rs := Readings(rows, parse);
    var groups: map<string, Group> := map[];
    for i := 0 to |rows|
      invariant Grouped(rs[..i], groups)
      invariant forall k :: 0 <= k < i ==> ReadOk(rs[k])
    {
      var next := LoadRow(rs, i, ReadingOf(rows[i], parse), groups);
      if next.Err? { return Err; }
      groups := next.value;
    }
    assert rs[..|rows|] == rs;
    GroupedAgree(rs, groups);
    r := Ok(groups);
  }

  // ---------------------------------------------------------------- the loader in terms of the file

  /** The row is read at all. */
  predicate Counts(r: SeedRow) {
    Norm(r.symbol) != "" && Norm(r.code) != ""
  }

  predicate Dated(r: SeedRow, parse: string -> Option<int>) {
    Strip(r.asOfDate) == "" || parse(Strip(r.asOfDate)).Some?
  }

  function DateOf(r: SeedRow, parse: string -> Option<int>): Option<int> {
    if Strip(r.asOfDate) == "" then None else parse(Strip(r.asOfDate))
  }

  /** The two rows carry the same source name, reference, date and note, up to surrounding blanks. */
  predicate SameSource(a: SeedRow, b: SeedRow, parse: string -> Option<int>) {
    && Strip(a.sourceName) == Strip(b.sourceName) && Strip(a.sourceRef) == Strip(b.sourceRef) && Strip(a.note) == Strip(b.note)
    && DateOf(a, parse) == DateOf(b, parse)
  }

  predicate OneSymbol(a: SeedRow, b: SeedRow) {
    Counts(a) && Counts(b) && Norm(a.symbol) == Norm(b.symbol)
  }

  /** Every row read has one of the four codes and no bad date, and the rows of a symbol agree. */
  ghost predicate FileOk(rows: seq<SeedRow>, parse: string -> Option<int>) {
    && (forall i :: 0 <= i < |rows| && Counts(rows[i]) ==>
          Norm(rows[i].code) in ["KOSPI100", "KOSPI200", "KOSDAQ50", "KOSDAQ150"] && Dated(rows[i], parse))
    && (forall i, j | 0 <= i < |rows| && 0 <= j < |rows| && OneSymbol(rows[i], rows[j]) :: SameSource(rows[i], rows[j], parse))
  }

  lemma MetaExactly(a: SeedRow, b: SeedRow, parse: string -> Option<int>)
    ensures MetaOf(a, parse).Ok? <==> Dated(a, parse)
    ensures Dated(a, parse) && Dated(b, parse) ==> (MetaOf(a, parse) == MetaOf(b, parse) <==> SameSource(a, b, parse))
  {
  }

  /** The loader's acceptance, in terms of the file. */
  lemma AcceptableIffFileOk(rows: seq<SeedRow>, parse: string -> Option<int>)
    ensures Acceptable(Readings(rows, parse)) <==> FileOk(rows, parse)
  {
    var rs := Readings(rows, parse);
    forall i | 0 <= i < |rows|
      ensures rs[i].Read? <==> Counts(rows[i])
      ensures rs[i].Read? ==> (ReadOk(rs[i]) <==> Norm(rows[i].code) in ["KOSPI100", "KOSPI200", "KOSDAQ50", "KOSDAQ150"] && Dated(rows[i], parse))
    {
      MetaExactly(rows[i], rows[i], parse);
    }
    forall i, j | 0 <= i < |rows| && 0 <= j < |rows| && Counts(rows[i]) && Counts(rows[j]) && Dated(rows[i], parse) && Dated(rows[j], parse)
      ensures Agree(rs[i], rs[j]) <==> (Norm(rows[i].symbol) == Norm(rows[j].symbol) ==> SameSource(rows[i], rows[j], parse))
    {
      MetaExactly(rows[i], rows[j], parse);
    }
  }

  /** A loaded file, in terms of its rows: a symbol has a code if and only if a row says so, and the
      group carries the source, date and note of each of its rows. */
  lemma LoadedExactly(rows: seq<SeedRow>, parse: string -> Option<int>, r: Result<map<string, Group>>)
    requires LoadedFrom(rows, parse, r)
    ensures r.Ok? <==> FileOk(rows, parse)
    ensures r.Ok? ==> forall s, c :: (s in r.value && c in r.value[s].codes) <==> RowSays(rows, s, c)
    ensures r.Ok? ==> forall i :: 0 <= i < |rows| && Counts(rows[i]) ==>
              Norm(rows[i].symbol) in r.value && CarriesSource(r.value[Norm(rows[i].symbol)].meta, rows[i], parse)
  {
    AcceptableIffFileOk(rows, parse);
    if r.Ok? {
      forall s, c ensures (s in r.value && c in r.value[s].codes) <==> RowSays(rows, s, c) {
        CodeIffRow(rows, parse, r.value, s, c);
      }
      forall i | 0 <= i < |rows| && Counts(rows[i])
        ensures Norm(rows[i].symbol) in r.value && CarriesSource(r.value[Norm(rows[i].symbol)].meta, rows[i], parse)
      {
        GroupCarriesRow(rows, parse, r.value, i);
      }
    }
  }

  lemma CodeIffRow(rows: seq<SeedRow>, parse: string -> Option<int>, groups: map<string, Group>, s: string, c: string)
    requires Grouped(Readings(rows, parse), groups)
    ensures (s in groups && c in groups[s].codes) <==> RowSays(rows, s, c)
  {
    var rs := Readings(rows, parse);
    if s in groups && c in groups[s].codes {
      assert SaidBy(rs, s, c);
      var i :| 0 <= i < |rs| && Says(rs[i], s, c);
      assert rs[i] == ReadingOf(rows[i], parse);
    }
    if RowSays(rows, s, c) {
      var i :| 0 <= i < |rows| && Counts(rows[i]) && Norm(rows[i].symbol) == s && Norm(rows[i].code) == c;
      assert rs[i] == ReadingOf(rows[i], parse);
    }
  }

  lemma GroupCarriesRow(rows: seq<SeedRow>, parse: string -> Option<int>, groups: map<string, Group>, i: nat)
    requires Grouped(Readings(rows, parse), groups) && i < |rows| && Counts(rows[i])
    ensures Norm(rows[i].symbol) in groups && CarriesSource(groups[Norm(rows[i].symbol)].meta, rows[i], parse)
  {
    assert Readings(rows, parse)[i] == ReadingOf(rows[i], parse);
  }

  ghost predicate RowSays(rows: seq<SeedRow>, s: string, c: string) {
    exists i :: 0 <= i < |rows| && Counts(rows[i]) && Norm(rows[i].symbol) == s && Norm(rows[i].code) == c
  }

  function Blankless(s: string): Option<string> {
    if Strip(s) == "" then None else Some(Strip(s))
  }

  predicate CarriesSource(meta: Meta, r: SeedRow, parse: string -> Option<int>) {
    meta == Meta(Blankless(r.sourceName), Blankless(r.sourceRef), DateOf(r, parse), Blankless(r.note))
  }

  // ---------------------------------------------------------------- round trip

  /** For each symbol, the notes kept for its codes are the same. */
  ghost predicate NotesAgree(m: Manifest) {
    forall s, c, d :: Member(m.entries, s, c) && Member(m.entries, s, d) ==>
      FirstNote(m.entries, s, c) == FirstNote(m.entries, s, d)
  }

  lemma {:induction false} NotesAreClean(entries: seq<Entry>, s: string, c: string)
    requires forall i :: 0 <= i < |entries| ==> EntryOk(entries[i])
    ensures var n := FirstNote(entries, s, c); OptText(if n.Some? then n.value else "") == n
    decreases |entries|
  {
    if entries != [] { NotesAreClean(entries[1..], s, c); }
  }

  function ManifestMeta(m: Manifest, parse: string -> Option<int>, s: string, c: string): Meta {
    Meta(Some(m.sourceName), Some(m.sourceRef), parse(m.asOfDate), FirstNote(m.entries, s, c))
  }

  /** What the loader reads from the row built for a membership. */
  function BuiltReading(m: Manifest, parse: string -> Option<int>, s: string, c: string): Reading {
    Read(s, c, if parse(m.asOfDate).None? then Err else Ok(ManifestMeta(m, parse, s, c)))
  }

  lemma RowReadsBack(m: Manifest, s: string, c: string, parse: string -> Option<int>)
    requires ManifestOk(m) && Member(m.entries, s, c)
    ensures ReadingOf(RowFor(m, s, c), parse) == BuiltReading(m, parse, s, c) && Supported(c)
  {
    var k :| 0 <= k < |m.entries| && m.entries[k].code == c && Lists(m.entries[k], s);
    var i :| 0 <= i < |m.entries[k].cells| && Norm(m.entries[k].cells[i]) == s;
    NormIdempotent(m.entries[k].cells[i]);
    assert Norm(s) == s && Norm(c) == c;
    MetaReadsBack(m, s, c, parse);
  }

  lemma MetaReadsBack(m: Manifest, s: string, c: string, parse: string -> Option<int>)
    requires ManifestOk(m)
    ensures MetaOf(RowFor(m, s, c), parse) == if parse(m.asOfDate).None? then Err else Ok(ManifestMeta(m, parse, s, c))
  {
    NotesAreClean(m.entries, s, c);
  }

  ghost predicate OnlyMembers(m: Manifest, rs: seq<Reading>) {
    forall i :: 0 <= i < |rs| ==> rs[i].Read? && Member(m.entries, rs[i].symbol, rs[i].code) && Supported(rs[i].code)
  }

  /** The readings are exactly those of the memberships. */
  ghost predicate ReadsMembers(m: Manifest, parse: string -> Option<int>, rs: seq<Reading>) {
    && OnlyMembers(m, rs)
    && (forall i :: 0 <= i < |rs| ==> rs[i].Read? && rs[i] == BuiltReading(m, parse, rs[i].symbol, rs[i].code))
    && (forall s, c :: Member(m.entries, s, c) ==> BuiltReading(m, parse, s, c) in rs)
  }

  lemma BuiltRowsReadMembers(m: Manifest, parse: string -> Option<int>, rows: seq<SeedRow>)
    requires ManifestOk(m) && RowsOf(m, rows)
    ensures ReadsMembers(m, parse, Readings(rows, parse))
  {
    var rs := Readings(rows, parse);
    forall i | 0 <= i < |rs|
      ensures rs[i].Read? && Member(m.entries, rs[i].symbol, rs[i].code) && Supported(rs[i].code)
      ensures rs[i] == BuiltReading(m, parse, rs[i].symbol, rs[i].code)
    {
      RowReadsBack(m, rows[i].symbol, rows[i].code, parse);
    }
    forall s, c | Member(m.entries, s, c) ensures BuiltReading(m, parse, s, c) in rs {
      RowReadsBack(m, s, c, parse);
      var i :| 0 <= i < |rows| && rows[i] == RowFor(m, s, c);
      assert rs[i] == BuiltReading(m, parse, s, c);
    }
  }

  lemma AcceptanceOfBuiltRows(m: Manifest, parse: string -> Option<int>, rs: seq<Reading>)
    requires ReadsMembers(m, parse, rs)
    ensures Acceptable(rs) <==> rs == [] || (parse(m.asOfDate).Some? && NotesAgree(m))
  {
    if Acceptable(rs) && rs != [] {
      assert ReadOk(rs[0]);
      forall s, c, d | Member(m.entries, s, c) && Member(m.entries, s, d)
        ensures FirstNote(m.entries, s, c) == FirstNote(m.entries, s, d)
      {
        var i :| 0 <= i < |rs| && rs[i] == BuiltReading(m, parse, s, c);
        var j :| 0 <= j < |rs| && rs[j] == BuiltReading(m, parse, s, d);
        assert Agree(rs[i], rs[j]);
      }
    }
    if parse(m.asOfDate).Some? && NotesAgree(m) {
      forall i, j | 0 <= i < |rs| && 0 <= j < |rs| ensures Agree(rs[i], rs[j]) {
        assert rs[i] == BuiltReading(m, parse, rs[i].symbol, rs[i].code);
        assert rs[j] == BuiltReading(m, parse, rs[j].symbol, rs[j].code);
      }
    }
  }

  /** The loader's groups are the manifest: each symbol has exactly the codes of the entries listing
      it, with the manifest's metadata and the note kept for each of its codes. */
  ghost predicate GroupsOf(m: Manifest, parse: string -> Option<int>, groups: map<string, Group>) {
    && (forall s, c :: Member(m.entries, s, c) <==> s in groups && c in groups[s].codes)
    && (forall s, c :: Member(m.entries, s, c) && s in groups ==> groups[s].meta == ManifestMeta(m, parse, s, c))
    && (forall s :: s in groups ==> NoRepeats(groups[s].codes))
  }

  lemma MemberIsGrouped(m: Manifest, parse: string -> Option<int>, rs: seq<Reading>, groups: map<string, Group>, s: string, c: string)
    requires BuiltReading(m, parse, s, c) in rs && Acceptable(rs) && Grouped(rs, groups)
    ensures s in groups && c in groups[s].codes && groups[s].meta == ManifestMeta(m, parse, s, c)
  {
    var i :| 0 <= i < |rs| && rs[i] == BuiltReading(m, parse, s, c);
    assert ReadOk(rs[i]);
  }

  lemma GroupedIsMember(m: Manifest, rs: seq<Reading>, groups: map<string, Group>, s: string, c: string)
    requires OnlyMembers(m, rs) && AllSaid(rs, groups) && s in groups && c in groups[s].codes
    ensures Member(m.entries, s, c)
  {
    assert SaidBy(rs, s, c);
    var i :| 0 <= i < |rs| && Says(rs[i], s, c);
    assert Member(m.entries, rs[i].symbol, rs[i].code);
  }

  lemma GroupsOfBuiltRows(m: Manifest, parse: string -> Option<int>, rs: seq<Reading>, groups: map<string, Group>)
    requires ReadsMembers(m, parse, rs) && Acceptable(rs) && Grouped(rs, groups)
    ensures GroupsOf(m, parse, groups)
  {
    forall s, c
      ensures Member(m.entries, s, c) <==> s in groups && c in groups[s].codes
      ensures Member(m.entries, s, c) && s in groups ==> groups[s].meta == ManifestMeta(m, parse, s, c)
    {
      if Member(m.entries, s, c) { MemberIsGrouped(m, parse, rs, groups, s, c); }
      if s in groups && c in groups[s].codes { GroupedIsMember(m, rs, groups, s, c); }
    }
  }

  /** The loader accepts the builder's rows exactly when there is nothing to read or the date parses
      and each symbol's notes agree, and then recovers the manifest. */
  lemma BuildLoadRoundTrip(m: Manifest, parse: string -> Option<int>, rows: seq<SeedRow>, r: Result<map<string, Group>>)
    requires ManifestOk(m) && RowsOf(m, rows) && LoadedFrom(rows, parse, r)
    ensures r.Ok? <==> rows == [] || (parse(m.asOfDate).Some? && NotesAgree(m))
    ensures r.Ok? ==> GroupsOf(m, parse, r.value)
  {
    var rs := Readings(rows, parse);
    BuiltRowsReadMembers(m, parse, rows);
    AcceptanceOfBuiltRows(m, parse, rs);
    if r.Ok? { GroupsOfBuiltRows(m, parse, rs, r.value); }
  }

  /** Building and loading in one go. */
  method BuildAndLoad(m: Manifest, parse: string -> Option<int>) returns (rows: seq<SeedRow>, r: Result<map<string, Group>>)
    requires ManifestOk(m)
    ensures RowsOf(m, rows)
    ensures r.Ok? <==> rows == [] || (parse(m.asOfDate).Some? && NotesAgree(m))
    ensures r.Ok? ==> GroupsOf(m, parse, r.value)
  {
    rows := BuildSeedRows(m);
    r := LoadSeedRows(rows, parse);
    BuildLoadRoundTrip(m, parse, rows, r);
  }
}

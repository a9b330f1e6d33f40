/** From a parsed file to the data of one `COPY`: the column mapping, the encoding in chunks, and the whole import. */
module Import {
  import opened Options
  import opened Gathering
  import opened ByteStrings
  import opened Csv
  import opened CsvCorrect
  import opened JsonImport
  import opened CopyText
  import opened CopyCorrect

  /* ---- The column mapping ---- */

  datatype MappingEntry = MappingEntry(sourceColumn: nat, tableColumn: string)

  datatype TargetColumn = TargetColumn(name: string, nullable: bool, hasDefault: bool)

  datatype MappingError =
    | MappingEmpty
    | MappingMismatch
    | MappingDuplicate(name: string)
    | RequiredUnmapped(names: seq<string>)

  predicate Matches(entry: MappingEntry, sourceCount: nat, columns: seq<TargetColumn>) {
    entry.sourceColumn < sourceCount && exists c <- columns :: c.name == entry.tableColumn
  }

  predicate MappedBefore(mapping: seq<MappingEntry>, i: nat, name: string)
    requires i <= |mapping|
  {
    exists k :: 0 <= k < i && mapping[k].tableColumn == name
  }

  predicate Required(column: TargetColumn) { !column.nullable && !column.hasDefault }

  predicate Unmapped(mapping: seq<MappingEntry>, column: TargetColumn) {
    Required(column) && !MappedBefore(mapping, |mapping|, column.name)
  }

  function UnmappedPart(mapping: seq<MappingEntry>): TargetColumn -> seq<string> {
    (column: TargetColumn) => if Unmapped(mapping, column) then [column.name] else []
  }

  // Every entry names a column of the file and one of the table, no table column twice, and no required one is left.
  ghost predicate MappingAccepted(mapping: seq<MappingEntry>, sourceCount: nat, columns: seq<TargetColumn>) {
    mapping != [] && (forall i :: 0 <= i < |mapping| ==> EntryFits(mapping[i], sourceCount, columns)) &&
    (forall i, j :: 0 <= i < j < |mapping| ==> mapping[i].tableColumn != mapping[j].tableColumn) &&
    (forall c <- columns :: !LeftOut(mapping, c))
  }

  ghost predicate EntryFits(entry: MappingEntry, sourceCount: nat, columns: seq<TargetColumn>) {
    0 <= entry.sourceColumn < sourceCount && exists i :: 0 <= i < |columns| && columns[i].name == entry.tableColumn
  }

  // The column must have a value and gets none.
  ghost predicate LeftOut(mapping: seq<MappingEntry>, column: TargetColumn) {
    !(column.nullable || column.hasDefault) && column.name !in Targets(mapping)
  }

  lemma MatchesMeans(entry: MappingEntry, sourceCount: nat, columns: seq<TargetColumn>)
    ensures Matches(entry, sourceCount, columns) <==> EntryFits(entry, sourceCount, columns)
  {
    if i :| 0 <= i < |columns| && columns[i].name == entry.tableColumn {
      assert columns[i] in columns;
    }
  }

  lemma UnmappedMeans(mapping: seq<MappingEntry>, column: TargetColumn)
    ensures Unmapped(mapping, column) <==> LeftOut(mapping, column)
  {
    if MappedBefore(mapping, |mapping|, column.name) {
      var k :| 0 <= k < |mapping| && mapping[k].tableColumn == column.name;
      assert Targets(mapping)[k] == column.name;
    }
  }

  // Each error names what is wrong.
  ghost predicate MappingExplains(error: MappingError, mapping: seq<MappingEntry>, sourceCount: nat,
                                  columns: seq<TargetColumn>) {
    match error
    case MappingEmpty => mapping == []
    case MappingMismatch => exists i :: 0 <= i < |mapping| && !EntryFits(mapping[i], sourceCount, columns)
    case MappingDuplicate(name) =>
      exists i, j :: 0 <= i < j < |mapping| && mapping[i].tableColumn == mapping[j].tableColumn == name
    case RequiredUnmapped(names) =>
      names != [] && forall n :: n in names <==> exists c <- columns :: LeftOut(mapping, c) && c.name == n
  }

  function Sources(mapping: seq<MappingEntry>): seq<nat> {
    seq(|mapping|, i requires 0 <= i < |mapping| => mapping[i].sourceColumn)
  }

  function Targets(mapping: seq<MappingEntry>): seq<string> {
    seq(|mapping|, i requires 0 <= i < |mapping| => mapping[i].tableColumn)
  }

  method MissingColumns(mapping: seq<MappingEntry>, columns: seq<TargetColumn>) returns (missing: seq<string>)
    ensures missing == Gather(columns, UnmappedPart(mapping))
    ensures forall n :: n in missing <==> exists c <- columns :: LeftOut(mapping, c) && c.name == n
    ensures missing == [] <==> forall c <- columns :: !LeftOut(mapping, c)
  {
    missing := [];
    for i := 0 to |columns|
      invariant missing == Gather(columns[..i], UnmappedPart(mapping))
    {
      GatherStep(columns, i, UnmappedPart(mapping));
      if Unmapped(mapping, columns[i]) {
        missing := missing + [columns[i].name];
      }
    }
    assert columns[..|columns|] == columns;
    MissingMean(mapping, columns);
  }

  lemma MissingMean(mapping: seq<MappingEntry>, columns: seq<TargetColumn>)
    ensures var missing := Gather(columns, UnmappedPart(mapping));
      (forall n :: n in missing <==> exists c <- columns :: LeftOut(mapping, c) && c.name == n) &&
      (missing == [] <==> forall c <- columns :: !LeftOut(mapping, c))
  {
    GatherEmpty(columns, UnmappedPart(mapping));
    forall c: TargetColumn
      ensures Unmapped(mapping, c) <==> LeftOut(mapping, c)
    {
      UnmappedMeans(mapping, c);
    }
    hide Unmapped, LeftOut;
    assert forall c <- columns :: UnmappedPart(mapping)(c) == [] <==> !LeftOut(mapping, c);
    forall n
      ensures n in Gather(columns, UnmappedPart(mapping)) <==> exists c <- columns :: LeftOut(mapping, c) && c.name == n
    {
      GatherMember(columns, UnmappedPart(mapping), n);
      assert forall c: TargetColumn :: n in UnmappedPart(mapping)(c) <==> LeftOut(mapping, c) && c.name == n;
    }
  }

  method ValidateMapping(mapping: seq<MappingEntry>, sourceColumns: seq<string>, columns: seq<TargetColumn>)
      returns (r: Result<(seq<nat>, seq<string>), MappingError>)
    ensures r.Ok? <==> MappingAccepted(mapping, |sourceColumns|, columns)
    ensures r.Ok? ==> r.value == (Sources(mapping), Targets(mapping))
    ensures r.Ok? ==>
      |r.value.0| == |mapping| == |r.value.1| &&
      forall i :: 0 <= i < |mapping| ==>
        r.value.0[i] == mapping[i].sourceColumn && r.value.1[i] == mapping[i].tableColumn
    ensures r.Err? ==> MappingExplains(r.error, mapping, |sourceColumns|, columns)
  {
    if mapping == [] {
      return Err(MappingEmpty);
    }
    var used: set<string> := {};
    var indexes: seq<nat>, targets: seq<string> := [], [];
    for i := 0 to |mapping|
      invariant used == set k | 0 <= k < i :: mapping[k].tableColumn
      invariant indexes == Sources(mapping[..i]) && targets == Targets(mapping[..i])
      invariant forall k :: 0 <= k < i ==> EntryFits(mapping[k], |sourceColumns|, columns)
      invariant forall j, k :: 0 <= j < k < i ==> mapping[j].tableColumn != mapping[k].tableColumn
    {
      var entry := mapping[i];
      MatchesMeans(entry, |sourceColumns|, columns);
      if !Matches(entry, |sourceColumns|, columns) {
        return Err(MappingMismatch);
      }
      if entry.tableColumn in used {
        return Err(MappingDuplicate(entry.tableColumn));
      }
      used := used + {entry.tableColumn};
      indexes := indexes + [entry.sourceColumn];
      targets := targets + [entry.tableColumn];
    }
    assert mapping[..|mapping|] == mapping;
    var missing := MissingColumns(mapping, columns);
    if missing != [] {
      return Err(RequiredUnmapped(missing));
    }
    return Ok((indexes, targets));
  }

  /* ---- Encoding in chunks ---- */

  const COPY_CHUNK_BYTES := 1024 * 1024

  predicate InRange(rows: seq<seq<Cell>>, indexes: seq<nat>) {
    forall r, k :: 0 <= r < |rows| && 0 <= k < |indexes| ==> indexes[k] < |rows[r]|
  }

  function ValueOf(utf8: string -> Bytes, cell: Cell): Value {
    if cell.None? then None else Some(utf8(cell.value))
  }

  function Selected(utf8: string -> Bytes, row: seq<Cell>, indexes: seq<nat>): seq<Value>
    requires forall k :: 0 <= k < |indexes| ==> indexes[k] < |row|
  {
    seq(|indexes|, k requires 0 <= k < |indexes| => ValueOf(utf8, row[indexes[k]]))
  }

  // The mapped cells, row for row.
  function Mapped(utf8: string -> Bytes, rows: seq<seq<Cell>>, indexes: seq<nat>): seq<seq<Value>>
    requires InRange(rows, indexes)
  {
    seq(|rows|, r requires 0 <= r < |rows| => Selected(utf8, rows[r], indexes))
  }

  function Whole(): Bytes -> Bytes { (chunk: Bytes) => chunk }

  function Joined(chunks: seq<Bytes>): Bytes { Gather(chunks, Whole()) }

  // `cuts` says which rows each chunk holds: whole rows, and no more of them than it takes to reach the chunk size.
  ghost predicate CutAtRows(chunks: seq<Bytes>, cuts: seq<nat>, rows: seq<seq<Value>>) {
    |cuts| == |chunks| + 1 && cuts[0] == 0 && cuts[|chunks|] <= |rows| &&
    forall i: nat :: i < |chunks| ==> ChunkHolds(chunks[i], cuts[i], cuts[i + 1], rows)
  }

  ghost predicate ChunkHolds(chunk: Bytes, first: nat, end: nat, rows: seq<seq<Value>>) {
    first < end <= |rows| && chunk == EncodeAll(rows[first..end]) &&
      |EncodeAll(rows[first..end - 1])| < 1048576
  }

  ghost predicate FullUpTo(chunks: seq<Bytes>, count: int) {
    forall i :: 0 <= i < |chunks| && i < count ==> |chunks[i]| >= 1048576
  }

  lemma EncodeMore(rows: seq<seq<Value>>, start: nat, i: nat)
    requires start <= i < |rows|
    ensures EncodeAll(rows[start..i + 1]) == EncodeAll(rows[start..i]) + EncodeRow(rows[i])
  {
    GatherStep(rows[start..], i - start, CopyText.RowPart());
    assert rows[start..][..i - start + 1] == rows[start..i + 1] && rows[start..][..i - start] == rows[start..i];
  }

  lemma JoinedMore(chunks: seq<Bytes>, chunk: Bytes)
    ensures Joined(chunks + [chunk]) == Joined(chunks) + chunk
  {
    GatherLast(chunks, chunk, Whole());
  }

  lemma EncodeSplit(rows: seq<seq<Value>>, start: nat, i: nat)
    requires start <= i <= |rows|
    ensures EncodeAll(rows[..start]) + EncodeAll(rows[start..i]) == EncodeAll(rows[..i])
  {
    GatherConcat(rows[..start], rows[start..i], CopyText.RowPart());
    assert rows[..start] + rows[start..i] == rows[..i];
  }

  lemma OneMoreChunk(chunks: seq<Bytes>, cuts: seq<nat>, rows: seq<seq<Value>>, end: nat, chunk: Bytes)
    requires CutAtRows(chunks, cuts, rows) && cuts[|chunks|] < end <= |rows|
    requires chunk == EncodeAll(rows[cuts[|chunks|]..end])
    requires |EncodeAll(rows[cuts[|chunks|]..end - 1])| < COPY_CHUNK_BYTES
    ensures CutAtRows(chunks + [chunk], cuts + [end], rows)
  {
  }

  method SelectRow(utf8: string -> Bytes, row: seq<Cell>, indexes: seq<nat>) returns (values: seq<Value>)
    requires forall k :: 0 <= k < |indexes| ==> indexes[k] < |row|
    ensures values == Selected(utf8, row, indexes)
  {
    values := [];
    for k := 0 to |indexes|
      invariant values == Selected(utf8, row, indexes)[..k]
    {
      values := values + [ValueOf(utf8, row[indexes[k]])];
    }
  }

  lemma NothingCut(rows: seq<seq<Value>>)
    ensures CutAtRows([], [0], rows) && FullUpTo([], 0) &&
      Joined([]) == EncodeAll(rows[..0]) == EncodeAll(rows[0..0]) == []
  {
  }

  method EncodeRows(utf8: string -> Bytes, rows: seq<seq<Cell>>, indexes: seq<nat>)
      returns (chunks: seq<Bytes>, ghost cuts: seq<nat>)
    requires InRange(rows, indexes)
    ensures Joined(chunks) == EncodeAll(Mapped(utf8, rows, indexes))
    ensures CutAtRows(chunks, cuts, Mapped(utf8, rows, indexes)) && cuts[|chunks|] == |rows|
    ensures FullUpTo(chunks, |chunks| - 1)
  {
    hide EncodeAll, Joined, CutAtRows, FullUpTo, EncodeRow;
    ghost var mapped := Mapped(utf8, rows, indexes);
    ghost var start := 0;
    var buffer := new Buffer();
    chunks, cuts := [], [0];
    NothingCut(mapped);
    for i := 0 to |rows|
      invariant fresh(buffer)
      invariant start <= i && CutAtRows(chunks, cuts, mapped) && |cuts| == |chunks| + 1 && start == cuts[|chunks|]
      invariant FullUpTo(chunks, |chunks|) && Joined(chunks) == EncodeAll(mapped[..start])
      invariant buffer.data == EncodeAll(mapped[start..i]) && |buffer.data| < COPY_CHUNK_BYTES
      invariant buffer.data == [] <==> start == i
    {
      var values := SelectRow(utf8, rows[i], indexes);
      EncodeMore(mapped, start, i);
      RowNotEmpty(values);
      PushCopyTextRow(buffer, values);
      if |buffer.data| >= COPY_CHUNK_BYTES {
        OneMoreChunk(chunks, cuts, mapped, i + 1, buffer.data);
        JoinedMore(chunks, buffer.data);
        EncodeSplit(mapped, start, i + 1);
        FullMore(chunks, buffer.data);
        chunks, cuts, start := chunks + [buffer.data], cuts + [i + 1], i + 1;
        buffer := new Buffer();
        assert mapped[i + 1..i + 1] == [];
        NothingCut(mapped[i + 1..]);
      }
    }
    EncodeSplit(mapped, start, |rows|);
    assert mapped[..|rows|] == mapped;
    if buffer.data != [] {
      LastShort(mapped, start, |rows|, buffer.data);
      OneMoreChunk(chunks, cuts, mapped, |rows|, buffer.data);
      JoinedMore(chunks, buffer.data);
      FullStays(chunks, buffer.data);
      chunks, cuts := chunks + [buffer.data], cuts + [|rows|];
    } else {
      FullFewer(chunks);
    }
  }

  lemma FullFewer(chunks: seq<Bytes>)
    requires FullUpTo(chunks, |chunks|)
    ensures FullUpTo(chunks, |chunks| - 1)
  {
  }

  lemma RowNotEmpty(values: seq<Value>)
    ensures |EncodeRow(values)| > 0
  {
  }

  lemma FullMore(chunks: seq<Bytes>, chunk: Bytes)
    requires FullUpTo(chunks, |chunks|) && |chunk| >= COPY_CHUNK_BYTES
    ensures FullUpTo(chunks + [chunk], |chunks| + 1)
  {
  }

  lemma FullStays(chunks: seq<Bytes>, chunk: Bytes)
    requires FullUpTo(chunks, |chunks|)
    ensures FullUpTo(chunks + [chunk], |chunks|)
  {
  }

  lemma LastShort(rows: seq<seq<Value>>, start: nat, end: nat, data: Bytes)
    requires start < end <= |rows| && data == EncodeAll(rows[start..end]) && |data| < COPY_CHUNK_BYTES
    ensures |EncodeAll(rows[start..end - 1])| < COPY_CHUNK_BYTES
  {
    EncodeMore(rows, start, end - 1);
  }

  /* ---- The whole import ---- */

  // One character other than a quote or a line break; `\t` spells a tab and nothing means a comma.
  function DelimiterOf(input: Option<string>): (delimiter: Option<char>)
    ensures delimiter.Some? ==> delimiter.value != QUOTE && delimiter.value != '\n' && delimiter.value != '\r'
    ensures delimiter.None? <==>
      input.Some? && input.value != "" && input.value != "\\t" &&
      (|input.value| > 1 || input.value[0] == QUOTE || input.value[0] == '\n' || input.value[0] == '\r')
    ensures input.None? || input.value == "" ==> delimiter == Some(',')
    ensures input == Some("\\t") ==> delimiter == Some('\t')
    ensures delimiter.Some? && input.Some? && |input.value| == 1 ==> input.value == [delimiter.value]
  {
    if input.None? || input.value == "" then Some(',')
    else if input.value == "\\t" then Some('\t')
    else if |input.value| == 1 && input.value[0] != QUOTE && input.value[0] != '\n' && input.value[0] != '\r' then
      Some(input.value[0])
    else None
  }

  datatype ImportError = FileInvalid(parse: ImportParseError) | MappingInvalid(mapping: MappingError) | NoRows

  // What is sent to PostgreSQL: the target columns and the data.
  datatype CopyData = CopyData(columns: seq<string>, chunks: seq<Bytes>)

  // PostgreSQL reads exactly the mapped cells, row for row, NULL kept apart from empty.
  ghost predicate Delivers(utf8: string -> Bytes, p: ParsedImport, mapping: seq<MappingEntry>, copy: CopyData) {
    var read := Decode(Joined(copy.chunks));
    |copy.columns| == |mapping| && |read| == |p.rows| &&
    (forall k :: 0 <= k < |mapping| ==> copy.columns[k] == mapping[k].tableColumn) &&
    forall r :: 0 <= r < |p.rows| ==>
      |read[r]| == |mapping| &&
      forall k :: 0 <= k < |mapping| ==> Carries(utf8, p.rows[r], mapping[k].sourceColumn, read[r][k])
  }

  // The value is the text of the cell, or NULL if that is.
  ghost predicate Carries(utf8: string -> Bytes, row: seq<Cell>, source: nat, value: Value) {
    source < |row| && match row[source] case None => value.None? case Some(text) => value == Some(utf8(text))
  }

  lemma MappedCarries(utf8: string -> Bytes, p: ParsedImport, mapping: seq<MappingEntry>, copy: CopyData)
    requires InRange(p.rows, Sources(mapping)) && copy.columns == Targets(mapping)
    requires Decode(Joined(copy.chunks)) == Mapped(utf8, p.rows, Sources(mapping))
    ensures Delivers(utf8, p, mapping, copy)
  {
    hide Decode, Joined;
    forall r, k | 0 <= r < |p.rows| && 0 <= k < |mapping|
      ensures Carries(utf8, p.rows[r], mapping[k].sourceColumn, Mapped(utf8, p.rows, Sources(mapping))[r][k])
    {
      assert Sources(mapping)[k] == mapping[k].sourceColumn;
    }
  }

  lemma MappedNotEmpty(utf8: string -> Bytes, rows: seq<seq<Cell>>, indexes: seq<nat>)
    requires InRange(rows, indexes) && indexes != []
    ensures CopyCorrect.NoneEmpty(Mapped(utf8, rows, indexes))
  {
  }

  lemma AcceptedInRange(p: ParsedImport, mapping: seq<MappingEntry>, columns: seq<TargetColumn>)
    requires AllWide(p.rows, |p.columns|) && MappingAccepted(mapping, |p.columns|, columns)
    ensures InRange(p.rows, Sources(mapping)) && Sources(mapping) != []
  {
    forall r, k | 0 <= r < |p.rows| && 0 <= k < |Sources(mapping)|
      ensures Sources(mapping)[k] < |p.rows[r]|
    {
      assert EntryFits(mapping[k], |p.columns|, columns);
    }
  }

  // Only an accepted file, mapped as the table demands and with rows, is imported.
  ghost predicate Importable(parsed: Result<ParsedImport, ImportParseError>, mapping: seq<MappingEntry>,
                             columns: seq<TargetColumn>) {
    parsed.Ok? && MappingAccepted(mapping, |parsed.value.columns|, columns) && parsed.value.rows != []
  }

  // The first of the three that fails: the file, the mapping, the rows.
  ghost predicate ImportExplains(error: ImportError, parsed: Result<ParsedImport, ImportParseError>,
                                 mapping: seq<MappingEntry>, columns: seq<TargetColumn>) {
    match error
    case FileInvalid(e) => parsed == Err(e)
    case MappingInvalid(e) => parsed.Ok? && MappingExplains(e, mapping, |parsed.value.columns|, columns)
    case NoRows => parsed.Ok? && MappingAccepted(mapping, |parsed.value.columns|, columns) && parsed.value.rows == []
  }

  method PrepareImport(utf8: string -> Bytes, parsed: Result<ParsedImport, ImportParseError>,
                       mapping: seq<MappingEntry>,
                       columns: seq<TargetColumn>) returns (r: Result<CopyData, ImportError>)
    requires parsed.Ok? ==> AllWide(parsed.value.rows, |parsed.value.columns|)
    ensures r.Ok? <==> Importable(parsed, mapping, columns)
    ensures r.Ok? ==> Delivers(utf8, parsed.value, mapping, r.value)
    ensures r.Err? ==> ImportExplains(r.error, parsed, mapping, columns)
  {
    hide MappingAccepted, MappingExplains, InRange, Mapped, AllWide, Delivers;
    if parsed.Err? {
      return Err(FileInvalid(parsed.error));
    }
    var p := parsed.value;
    var mapped := ValidateMapping(mapping, p.columns, columns);
    if mapped.Err? {
      return Err(MappingInvalid(mapped.error));
    }
    if p.rows == [] {
      return Err(NoRows);
    }
    AcceptedInRange(p, mapping, columns);
    var chunks, cuts := EncodeRows(utf8, p.rows, mapped.value.0);
    MappedNotEmpty(utf8, p.rows, mapped.value.0);
    CopyRoundTrip(Mapped(utf8, p.rows, mapped.value.0));
    MappedCarries(utf8, p, mapping, CopyData(mapped.value.1, chunks));
    return Ok(CopyData(mapped.value.1, chunks));
  }

  method ImportCsv(utf8: string -> Bytes, text: string, o: CsvOptions, mapping: seq<MappingEntry>,
                   columns: seq<TargetColumn>)
      returns (r: Result<CopyData, ImportError>)
    ensures r.Ok? <==> Importable(Parsed(o, text), mapping, columns)
    ensures r.Ok? ==> Delivers(utf8, Parsed(o, text).value, mapping, r.value)
    ensures r.Err? ==> ImportExplains(r.error, Parsed(o, text), mapping, columns)
  {
    hide Parsed, Importable, Delivers, ImportExplains;
    var parsed := ParseCsv(text, o);
    AcceptedIsTable(o, text);
    r := PrepareImport(utf8, parsed, mapping, columns);
  }

  method ImportJson(utf8: string -> Bytes, decoded: Decoded, mapping: seq<MappingEntry>, columns: seq<TargetColumn>)
      returns (r: Result<CopyData, ImportError>)
    ensures r.Ok? <==> Importable(ParsedJson(decoded), mapping, columns)
    ensures r.Ok? ==> Delivers(utf8, ParsedJson(decoded).value, mapping, r.value)
    ensures r.Err? ==> ImportExplains(r.error, ParsedJson(decoded), mapping, columns)
  {
    hide Importable, Delivers, ImportExplains;
    var parsed := ParseJson(decoded);
    if decoded.JsonArray? && parsed.Ok? {
      AcceptedJson(decoded.items);
    }
    r := PrepareImport(utf8, parsed, mapping, columns);
  }
}

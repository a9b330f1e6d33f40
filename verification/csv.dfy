/** CSV files as the importer reads them: RFC 4180, section 2, with a delimiter of the user's choice. */
module Csv {
  import opened Options
  import opened Text
  import opened Numbers
  import opened Identifiers

  // `None` is NULL.
  type Cell = Option<string>

  datatype CsvOptions = CsvOptions(delimiter: char, hasHeader: bool, emptyAsNull: bool)

  datatype ParsedImport = ParsedImport(columns: seq<string>, rows: seq<seq<Cell>>)

  datatype ImportParseError =
    | Empty
    | UnterminatedQuote(line: nat)
    | FieldCount(line: nat, expected: nat, found: nat)
    | InvalidJson
    | JsonNotArrayOfObjects(position: nat)
    | DuplicateColumn(name: string)

  datatype Record = Record(line: nat, cells: seq<Cell>)

  const BOM := '\U{FEFF}'
  const QUOTE := '"'

  // Everything the character loop keeps.
  datatype Scan = Scan(
    field: string, quoted: bool, inQuotes: bool, record: seq<Cell>, records: seq<Record>,
    line: nat, recordLine: nat, quoteLine: nat)

  const START := Scan("", false, false, [], [], 1, 1, 1)

  function FinishedCell(o: CsvOptions, s: Scan): Cell {
    if o.emptyAsNull && s.field == "" && !s.quoted then None else Some(s.field)
  }

  function FinishField(o: CsvOptions, s: Scan): Scan {
    s.(field := "", quoted := false, record := s.record + [FinishedCell(o, s)])
  }

  // A line of one empty or NULL cell.
  predicate Blank(cells: seq<Cell>) { |cells| == 1 && (cells[0].None? || cells[0].value == "") }

  function FinishRecord(s: Scan): Scan {
    s.(record := [],
       records := if Blank(s.record) then s.records else s.records + [Record(s.recordLine, s.record)],
       line := s.line + 1, recordLine := s.line + 1)
  }

  // The effect of a character that is not the first of an escaped quote; `more` is the text after it.
  function Next(o: CsvOptions, s: Scan, c: char, more: string): Scan {
    if s.inQuotes then
      if c == QUOTE then s.(inQuotes := false)
      else s.(field := s.field + [c], line := if c == '\n' then s.line + 1 else s.line)
    else if c == QUOTE && s.field == "" && !s.quoted then s.(inQuotes := true, quoted := true, quoteLine := s.line)
    else if c == '\r' && more != "" && more[0] == '\n' then s
    else if c == '\n' || c == '\r' then FinishRecord(FinishField(o, s))
    else if c == o.delimiter then FinishField(o, s)
    else s.(field := s.field + [c])
  }

  predicate EscapedQuote(s: Scan, text: string) {
    s.inQuotes && |text| > 1 && text[0] == QUOTE && text[1] == QUOTE
  }

  function ScanFrom(o: CsvOptions, s: Scan, text: string): Scan
    decreases |text|
  {
    if text == "" then s
    else if EscapedQuote(s, text) then ScanFrom(o, s.(field := s.field + [QUOTE]), text[2..])
    else ScanFrom(o, Next(o, s, text[0], text[1..]), text[1..])
  }

  // What is left at the end of the file is a record too.
  function FinishText(o: CsvOptions, s: Scan): Result<seq<Record>, ImportParseError> {
    if s.inQuotes then Err(UnterminatedQuote(s.quoteLine))
    else if s.field != "" || s.quoted || s.record != [] then
      Ok(s.records + [Record(s.recordLine, s.record + [FinishedCell(o, s)])])
    else Ok(s.records)
  }

  function Unmarked(text: string): string { if text != "" && text[0] == BOM then text[1..] else text }

  function Records(o: CsvOptions, text: string): Result<seq<Record>, ImportParseError> {
    FinishText(o, ScanFrom(o, START, Unmarked(text)))
  }

  /* ---- Columns and rows ---- */

  function NumberedColumn(index: nat): string { "column_" + Decimal(index) }

  function HeaderName(index: nat, cell: Cell): string {
    if cell.None? || Trim(cell.value) == "" then NumberedColumn(index) else Trim(cell.value)
  }

  function HeaderNames(header: seq<Cell>): seq<string> {
    seq(|header|, i requires 0 <= i < |header| => HeaderName(i + 1, header[i]))
  }

  function NumberedColumns(count: nat): seq<string> {
    seq(count, i requires 0 <= i < count => NumberedColumn(i + 1))
  }

  function Cells(records: seq<Record>): seq<seq<Cell>> {
    seq(|records|, i requires 0 <= i < |records| => records[i].cells)
  }

  // The first name that was there before.
  function Repeated(names: seq<string>): Option<string> {
    if names == [] then None
    else
      var n := |names| - 1;
      var before := Repeated(names[..n]);
      if before.Some? then before else if names[n] in names[..n] then Some(names[n]) else None
  }

  // The first record of another width.
  function FirstWrong(width: nat, records: seq<Record>): Option<Record> {
    if records == [] then None
    else if |records[0].cells| != width then Some(records[0])
    else FirstWrong(width, records[1..])
  }

  function WithColumns(columns: seq<string>, records: seq<Record>): Result<ParsedImport, ImportParseError> {
    var wrong := FirstWrong(|columns|, records);
    if wrong.Some? then Err(FieldCount(wrong.value.line, |columns|, |wrong.value.cells|))
    else if columns == [] then Err(Empty)
    else
      var repeated := Repeated(columns);
      if repeated.Some? then Err(DuplicateColumn(repeated.value)) else Ok(ParsedImport(columns, Cells(records)))
  }

  // The first record gives the width.
  function Tabulated(o: CsvOptions, records: seq<Record>): Result<ParsedImport, ImportParseError> {
    if o.hasHeader then
      if records == [] then Err(Empty) else WithColumns(HeaderNames(records[0].cells), records[1..])
    else WithColumns(NumberedColumns(if records == [] then 0 else |records[0].cells|), records)
  }

  function Parsed(o: CsvOptions, text: string): Result<ParsedImport, ImportParseError> {
    var records := Records(o, text);
    if records.Err? then Err(records.error) else Tabulated(o, records.value)
  }

  /* ---- The loops ---- */

  method ScanRecords(o: CsvOptions, text: string) returns (result: Result<seq<Record>, ImportParseError>)
    ensures result == Records(o, text)
  {
    var chars := Unmarked(text);
    var field, quoted, inQuotes := "", false, false;
    var record: seq<Cell>, records: seq<Record> := [], [];
    var line, recordLine, quoteLine := 1, 1, 1;
    var i := 0;
    assert chars[0..] == chars;
    while i < |chars|
      invariant i <= |chars|
      invariant ScanFrom(o, START, chars) ==
        ScanFrom(o, Scan(field, quoted, inQuotes, record, records, line, recordLine, quoteLine), chars[i..])
    {
      var c := chars[i];
      ghost var rest := chars[i..];
      assert rest[1..] == chars[i + 1..];
      i := i + 1;
      if inQuotes {
        if c == QUOTE && i < |chars| && chars[i] == QUOTE {
          assert rest[2..] == chars[i + 1..];
          i := i + 1;
          field := field + [QUOTE];
        } else if c == QUOTE {
          inQuotes := false;
        } else {
          if c == '\n' {
            line := line + 1;
          }
          field := field + [c];
        }
        continue;
      }
      if c == QUOTE && field == "" && !quoted {
        inQuotes, quoted, quoteLine := true, true, line;
      } else if c == '\r' && i < |chars| && chars[i] == '\n' {
      } else if c == '\n' || c == '\r' {
        record := record + [if o.emptyAsNull && field == "" && !quoted then None else Some(field)];
        field, quoted := "", false;
        if !Blank(record) {
          records := records + [Record(recordLine, record)];
        }
        record := [];
        line := line + 1;
        recordLine := line;
      } else if c == o.delimiter {
        record := record + [if o.emptyAsNull && field == "" && !quoted then None else Some(field)];
        field, quoted := "", false;
      } else {
        field := field + [c];
      }
    }
    if inQuotes {
      return Err(UnterminatedQuote(quoteLine));
    }
    if field != "" || quoted || record != [] {
      record := record + [if o.emptyAsNull && field == "" && !quoted then None else Some(field)];
      records := records + [Record(recordLine, record)];
    }
    return Ok(records);
  }

  function Members(names: seq<string>): set<string> { set name | name in names }

  lemma RepeatedNext(columns: seq<string>, i: nat, seen: set<string>)
    requires i < |columns| && Repeated(columns[..i]).None? && seen == Members(columns[..i])
    ensures Repeated(columns[..i + 1]) == if columns[i] in seen then Some(columns[i]) else None
    ensures Members(columns[..i + 1]) == seen + {columns[i]}
  {
    assert columns[..i + 1][..i] == columns[..i];
    assert columns[..i + 1] == columns[..i] + [columns[i]];
  }

  method RejectDuplicateColumns(columns: seq<string>) returns (repeated: Option<string>)
    ensures repeated == Repeated(columns)
  {
    hide Repeated;
    var seen: set<string> := {};
    RepeatedNone();
    assert columns[..0] == [];
    for i := 0 to |columns|
      invariant seen == Members(columns[..i])
      invariant Repeated(columns[..i]).None?
    {
      RepeatedNext(columns, i, seen);
      if columns[i] in seen {
        RepeatedStays(columns, i + 1);
        return Some(columns[i]);
      }
      seen := seen + {columns[i]};
    }
    assert columns[..|columns|] == columns;
    return None;
  }

  lemma RepeatedNone()
    ensures Repeated([]).None?
  {
  }

  lemma {:induction false} RepeatedStays(names: seq<string>, i: nat)
    requires i <= |names| && Repeated(names[..i]).Some?
    ensures Repeated(names) == Repeated(names[..i])
    decreases |names|
  {
    if i == |names| {
      assert names[..i] == names;
    } else {
      assert names[..|names| - 1][..i] == names[..i];
      RepeatedStays(names[..|names| - 1], i);
    }
  }

  lemma {:induction false} FirstWrongFrom(width: nat, records: seq<Record>, i: nat)
    requires i <= |records| && forall k :: 0 <= k < i ==> |records[k].cells| == width
    ensures FirstWrong(width, records) == FirstWrong(width, records[i..])
  {
    if i > 0 {
      FirstWrongFrom(width, records[1..], i - 1);
      assert records[1..][i - 1..] == records[i..];
    } else {
      assert records[0..] == records;
    }
  }

  // Every record has a cell, so a width of 0 means that no record was read yet.
  lemma {:induction false} ScanHasCells(o: CsvOptions, s: Scan, text: string)
    requires forall r <- s.records :: r.cells != []
    ensures forall r <- ScanFrom(o, s, text).records :: r.cells != []
    decreases |text|
  {
    if text != "" {
      if EscapedQuote(s, text) {
        ScanHasCells(o, s.(field := s.field + [QUOTE]), text[2..]);
      } else {
        ScanHasCells(o, Next(o, s, text[0], text[1..]), text[1..]);
      }
    }
  }

  lemma RecordsHaveCells(o: CsvOptions, text: string)
    ensures Records(o, text).Ok? ==> forall r <- Records(o, text).value :: r.cells != []
  {
    ScanHasCells(o, START, Unmarked(text));
  }

  method ParseCsv(text: string, o: CsvOptions) returns (parsed: Result<ParsedImport, ImportParseError>)
    ensures parsed == Parsed(o, text)
  {
    var scanned := ScanRecords(o, text);
    if scanned.Err? {
      return Err(scanned.error);
    }
    RecordsHaveCells(o, text);
    var records := scanned.value;
    var columns: Option<seq<string>>, expected := None, 0;
    if o.hasHeader {
      if records == [] {
        return Err(Empty);
      }
      columns := Some(HeaderNames(records[0].cells));
      expected := |records[0].cells|;
      records := records[1..];
    }
    ghost var width := if o.hasHeader then expected else if records == [] then 0 else |records[0].cells|;
    var rows: seq<seq<Cell>> := [];
    for i := 0 to |records|
      invariant rows == Cells(records[..i])
      invariant expected == if o.hasHeader || i > 0 then width else 0
      invariant forall k :: 0 <= k < i ==> |records[k].cells| == width
    {
      assert records[i] in scanned.value;
      if expected == 0 {
        expected := |records[i].cells|;
      }
      if |records[i].cells| != expected {
        FirstWrongFrom(width, records, i);
        return Err(FieldCount(records[i].line, expected, |records[i].cells|));
      }
      rows := rows + [records[i].cells];
    }
    assert records[..|records|] == records;
    FirstWrongFrom(width, records, |records|);
    var names := if columns.Some? then columns.value else NumberedColumns(expected);
    if names == [] {
      return Err(Empty);
    }
    var repeated := RejectDuplicateColumns(names);
    if repeated.Some? {
      return Err(DuplicateColumn(repeated.value));
    }
    return Ok(ParsedImport(names, rows));
  }
}

/** What the CSV reader promises. */
module CsvCorrect {
  import opened Options
  import opened Text
  import opened TextCorrect
  import opened Numbers
  import opened Identifiers
  import opened Csv

  /* ---- Every accepted file is a table ---- */

  ghost predicate Distinct(names: seq<string>) {
    forall i, j :: 0 <= i < j < |names| ==> names[i] != names[j]
  }

  predicate NoneEmpty(rows: seq<seq<Cell>>) { forall i :: 0 <= i < |rows| ==> rows[i] != [] }

  predicate AllWide(rows: seq<seq<Cell>>, width: nat) { forall i :: 0 <= i < |rows| ==> |rows[i]| == width }

  // Every row is as wide as the column list, whose names are distinct and not empty.
  ghost predicate IsTable(p: ParsedImport) {
    p.columns != [] && Distinct(p.columns) && (forall name <- p.columns :: name != "") &&
    AllWide(p.rows, |p.columns|)
  }

  lemma {:induction false} RepeatedExactly(names: seq<string>)
    ensures Repeated(names).None? <==> Distinct(names)
  {
    if names != [] {
      var n := |names| - 1;
      RepeatedExactly(names[..n]);
      assert names == names[..n] + [names[n]];
      if names[n] in names[..n] {
        var i: nat :| i < n && names[..n][i] == names[n];
        assert names[i] == names[n];
      }
    }
  }

  lemma {:induction false} FirstWrongExactly(width: nat, records: seq<Record>)
    ensures FirstWrong(width, records).None? <==> forall r <- records :: |r.cells| == width
    ensures FirstWrong(width, records).Some? ==>
      FirstWrong(width, records).value in records && |FirstWrong(width, records).value.cells| != width
  {
    if records != [] {
      FirstWrongExactly(width, records[1..]);
      assert records == [records[0]] + records[1..];
    }
  }

  lemma WithColumnsIsTable(columns: seq<string>, records: seq<Record>)
    requires forall name <- columns :: name != ""
    ensures WithColumns(columns, records).Ok? ==> IsTable(WithColumns(columns, records).value)
  {
    FirstWrongExactly(|columns|, records);
    RepeatedExactly(columns);
    forall i | 0 <= i < |records| && WithColumns(columns, records).Ok?
      ensures |Cells(records)[i]| == |columns|
    {
      assert records[i] in records;
    }
  }

  lemma AcceptedIsTable(o: CsvOptions, text: string)
    ensures Parsed(o, text).Ok? ==> IsTable(Parsed(o, text).value)
  {
    var records := Records(o, text);
    if records.Ok? {
      if o.hasHeader {
        if records.value != [] {
          WithColumnsIsTable(HeaderNames(records.value[0].cells), records.value[1..]);
        }
      } else {
        WithColumnsIsTable(NumberedColumns(if records.value == [] then 0 else |records.value[0].cells|), records.value);
      }
    }
  }

  /* ---- Every file, as it may be written ---- */

  // A field as it stands in a file: bare, or in quotes with quotes doubled and perhaps more text after the closing one.
  // A bare field without text is the one that may stand for NULL.
  datatype Form = Bare(text: string) | InQuotes(text: string, tail: string)

  datatype Ending = Lf | Cr | CrLf

  datatype Line = Line(forms: seq<Form>, ending: Ending)

  // `last`: what comes after the last line end; one empty bare field if nothing does.
  datatype File = File(marked: bool, lines: seq<Line>, last: seq<Form>)

  predicate Delimits(delimiter: char) { delimiter != QUOTE && delimiter != '\r' && delimiter != '\n' }

  predicate Ordinary(delimiter: char, text: string) { delimiter !in text && '\r' !in text && '\n' !in text }

  predicate StartsWith(text: string, c: char) { text != "" && text[0] == c }

  predicate FormOk(delimiter: char, f: Form) {
    match f
    case Bare(text) => Ordinary(delimiter, text) && !StartsWith(text, QUOTE)
    case InQuotes(_, tail) => Ordinary(delimiter, tail) && !StartsWith(tail, QUOTE)
  }

  predicate FormsOk(delimiter: char, forms: seq<Form>) {
    forms != [] && forall i :: 0 <= i < |forms| ==> FormOk(delimiter, forms[i])
  }

  function PrintForm(f: Form): string {
    match f
    case Bare(text) => text
    case InQuotes(text, tail) => [QUOTE] + Doubled(text) + [QUOTE] + tail
  }

  function PrintForms(delimiter: char, forms: seq<Form>): string {
    if forms == [] then ""
    else if |forms| == 1 then PrintForm(forms[0])
    else PrintForm(forms[0]) + [delimiter] + PrintForms(delimiter, forms[1..])
  }

  function PrintEnding(ending: Ending): string {
    match ending
    case Lf => ['\n']
    case Cr => ['\r']
    case CrLf => ['\r', '\n']
  }

  // The lines, and the text after them. After a carriage return a line feed would belong to the same line end.
  ghost predicate LinesOk(delimiter: char, lines: seq<Line>, rest: string) {
    lines != [] ==>
      FormsOk(delimiter, lines[0].forms) && LinesOk(delimiter, lines[1..], rest) &&
      (lines[0].ending == Cr ==> !StartsWith(PrintLines(delimiter, lines[1..], rest), '\n'))
  }

  ghost function PrintLines(delimiter: char, lines: seq<Line>, rest: string): string {
    if lines == [] || lines[0].forms == [] then rest
    else
      PrintForms(delimiter, lines[0].forms) + PrintEnding(lines[0].ending) + PrintLines(delimiter, lines[1..], rest)
  }

  // Only a file with a byte order mark may go on with one.
  ghost predicate MarkOk(marked: bool, text: string) { marked || !StartsWith(text, BOM) }

  function Marked(marked: bool, text: string): string { if marked then [BOM] + text else text }

  ghost predicate FileOk(delimiter: char, file: File) {
    FormsOk(delimiter, file.last) && LinesOk(delimiter, file.lines, PrintForms(delimiter, file.last)) &&
    MarkOk(file.marked, PrintLines(delimiter, file.lines, PrintForms(delimiter, file.last)))
  }

  ghost function Written(delimiter: char, file: File): string {
    Marked(file.marked, PrintLines(delimiter, file.lines, PrintForms(delimiter, file.last)))
  }

  /* ---- What a file holds ---- */

  function ValueIn(f: Form): string {
    match f
    case Bare(text) => text
    case InQuotes(text, tail) => text + tail
  }

  function CellIn(o: CsvOptions, f: Form): Cell { if f == Bare("") && o.emptyAsNull then None else Some(ValueIn(f)) }

  function CellsIn(o: CsvOptions, forms: seq<Form>): seq<Cell> {
    seq(|forms|, i requires 0 <= i < |forms| => CellIn(o, forms[i]))
  }

  // A line of one field without text is skipped.
  predicate EmptyLine(forms: seq<Form>) { |forms| == 1 && ValueIn(forms[0]) == "" }

  function LineFeeds(text: string): nat {
    if text == "" then 0 else (if text[0] == '\n' then 1 else 0) + LineFeeds(text[1..])
  }

  // The line breaks inside fields.
  function Breaks(forms: seq<Form>): nat {
    if forms == [] then 0
    else (if forms[0].InQuotes? then LineFeeds(forms[0].text) else 0) + Breaks(forms[1..])
  }

  function LineCount(lines: seq<Line>): nat {
    if lines == [] then 0 else 1 + Breaks(lines[0].forms) + LineCount(lines[1..])
  }

  // The records of the lines, each with the number of the line it starts on.
  function RecordsIn(o: CsvOptions, lines: seq<Line>, line: nat): seq<Record> {
    if lines == [] then []
    else
      (if EmptyLine(lines[0].forms) then [] else [Record(line, CellsIn(o, lines[0].forms))]) +
      RecordsIn(o, lines[1..], line + 1 + Breaks(lines[0].forms))
  }

  function AllRecords(o: CsvOptions, file: File): seq<Record> {
    RecordsIn(o, file.lines, 1) +
    if file.last == [Bare("")] then [] else [Record(1 + LineCount(file.lines), CellsIn(o, file.last))]
  }

  /* ---- Scanning what was written ---- */

  // Between two fields.
  predicate Between(s: Scan) { s.field == "" && !s.quoted && !s.inQuotes }

  predicate Stops(delimiter: char, rest: string) {
    rest == "" || rest[0] == delimiter || rest[0] == '\r' || rest[0] == '\n'
  }

  lemma {:induction false} ScanQuoted(o: CsvOptions, s: Scan, value: string, rest: string)
    requires s.inQuotes && !StartsWith(rest, QUOTE)
    ensures ScanFrom(o, s, Doubled(value) + [QUOTE] + rest) ==
            ScanFrom(o, s.(field := s.field + value, inQuotes := false, line := s.line + LineFeeds(value)), rest)
    decreases |value|
  {
    var text := Doubled(value) + [QUOTE] + rest;
    if value == "" {
      assert text == [QUOTE] + rest;
      assert s.field + value == s.field;
    } else {
      var more := Doubled(value[1..]) + [QUOTE] + rest;
      var next := ScanDoubled(o, s, value, more);
      assert text == Doubled([value[0]]) + more;
      ScanQuoted(o, next, value[1..], rest);
      assert s.field + [value[0]] + value[1..] == s.field + value;
    }
  }

  // One character between quotes.
  lemma ScanDoubled(o: CsvOptions, s: Scan, value: string, more: string) returns (next: Scan)
    requires s.inQuotes && value != ""
    ensures next == s.(field := s.field + [value[0]], line := if value[0] == '\n' then s.line + 1 else s.line)
    ensures ScanFrom(o, s, Doubled([value[0]]) + more) == ScanFrom(o, next, more)
    ensures Doubled(value) == Doubled([value[0]]) + Doubled(value[1..])
  {
    var step := if value[0] == QUOTE then [QUOTE, QUOTE] else [value[0]];
    assert [value[0]][1..] == "" && Doubled([value[0]]) == step;
    assert (step + more)[|step|..] == more;
    next := s.(field := s.field + [value[0]], line := if value[0] == '\n' then s.line + 1 else s.line);
  }

  // Text that opens no quotes goes into the field as it stands.
  lemma {:induction false} ScanOrdinary(o: CsvOptions, s: Scan, text: string, rest: string)
    requires !s.inQuotes && Ordinary(o.delimiter, text) && Stops(o.delimiter, rest) && Delimits(o.delimiter)
    requires s.field == "" && !s.quoted ==> !StartsWith(text, QUOTE)
    ensures ScanFrom(o, s, text + rest) == ScanFrom(o, s.(field := s.field + text), rest)
    decreases |text|
  {
    if text == "" {
      assert text + rest == rest && s.field + text == s.field;
    } else {
      var next := s.(field := s.field + [text[0]]);
      assert text[0] in text && (text + rest)[1..] == text[1..] + rest;
      assert Next(o, s, text[0], (text + rest)[1..]) == next;
      ScanOrdinary(o, next, text[1..], rest);
      assert s.field + [text[0]] + text[1..] == s.field + text;
    }
  }

  function AfterForm(s: Scan, f: Form): Scan {
    match f
    case Bare(text) => s.(field := text)
    case InQuotes(text, tail) =>
      s.(field := text + tail, quoted := true, quoteLine := s.line, line := s.line + LineFeeds(text))
  }

  lemma ScanForm(o: CsvOptions, s: Scan, f: Form, rest: string)
    requires Between(s) && FormOk(o.delimiter, f) && Stops(o.delimiter, rest) && Delimits(o.delimiter)
    ensures ScanFrom(o, s, PrintForm(f) + rest) == ScanFrom(o, AfterForm(s, f), rest)
    ensures FinishedCell(o, AfterForm(s, f)) == CellIn(o, f)
  {
    match f
    case Bare(text) =>
      ScanOrdinary(o, s, text, rest);
      assert "" + text == text;
    case InQuotes(text, tail) =>
      ScanInQuotes(o, s, text, tail, rest);
  }

  lemma ScanOpening(o: CsvOptions, s: Scan, body: string)
    requires Between(s)
    ensures ScanFrom(o, s, [QUOTE] + body) ==
            ScanFrom(o, s.(inQuotes := true, quoted := true, quoteLine := s.line), body)
  {
    assert ([QUOTE] + body)[1..] == body;
  }

  lemma ScanInQuotes(o: CsvOptions, s: Scan, text: string, tail: string, rest: string)
    requires Between(s) && FormOk(o.delimiter, InQuotes(text, tail)) && Stops(o.delimiter, rest) &&
      Delimits(o.delimiter)
    ensures ScanFrom(o, s, PrintForm(InQuotes(text, tail)) + rest) ==
            ScanFrom(o, AfterForm(s, InQuotes(text, tail)), rest)
  {
    hide ScanFrom, LineFeeds, Ordinary;
    var body := Doubled(text) + [QUOTE] + (tail + rest);
    assert PrintForm(InQuotes(text, tail)) + rest == [QUOTE] + body;
    ScanOpening(o, s, body);
    var open := s.(inQuotes := true, quoted := true, quoteLine := s.line);
    ScanQuoted(o, open, text, tail + rest);
    assert "" + text == text;
    ScanOrdinary(o, open.(field := text, inQuotes := false, line := s.line + LineFeeds(text)), tail, rest);
  }

  // A delimiter after a field starts the next one.
  lemma ScanDelimiter(o: CsvOptions, s: Scan, more: string)
    requires !s.inQuotes && Delimits(o.delimiter)
    ensures ScanFrom(o, s, [o.delimiter] + more) == ScanFrom(o, FinishField(o, s), more)
  {
    assert ([o.delimiter] + more)[1..] == more;
  }

  // The state before the last of these fields is finished.
  lemma {:induction false} ScanForms(o: CsvOptions, s: Scan, forms: seq<Form>, rest: string) returns (after: Scan)
    requires Between(s) && FormsOk(o.delimiter, forms) && Stops(o.delimiter, rest) && Delimits(o.delimiter)
    ensures ScanFrom(o, s, PrintForms(o.delimiter, forms) + rest) == ScanFrom(o, after, rest)
    ensures !after.inQuotes && after.records == s.records && after.recordLine == s.recordLine &&
      after.line == s.line + Breaks(forms)
    ensures after.record + [FinishedCell(o, after)] == s.record + CellsIn(o, forms)
    ensures |after.record| == |s.record| + |forms| - 1
    ensures |forms| == 1 ==> after == AfterForm(s, forms[0])
    decreases |forms|
  {
    hide ScanFrom, PrintForm, LineFeeds;
    var f := forms[0];
    if |forms| == 1 {
      ScanForm(o, s, f, rest);
      after := AfterForm(s, f);
      assert forms[1..] == [] && CellsIn(o, forms) == [CellIn(o, f)];
    } else {
      var more := PrintForms(o.delimiter, forms[1..]) + rest;
      ScanForm(o, s, f, [o.delimiter] + more);
      assert PrintForms(o.delimiter, forms) + rest == PrintForm(f) + ([o.delimiter] + more);
      ScanDelimiter(o, AfterForm(s, f), more);
      after := ScanForms(o, FinishField(o, AfterForm(s, f)), forms[1..], rest);
      assert CellsIn(o, forms) == [CellIn(o, f)] + CellsIn(o, forms[1..]);
    }
  }

  // A line end completes the record.
  lemma ScanEnding(o: CsvOptions, s: Scan, ending: Ending, rest: string)
    requires !s.inQuotes && Delimits(o.delimiter) && (ending == Cr ==> !StartsWith(rest, '\n'))
    ensures ScanFrom(o, s, PrintEnding(ending) + rest) == ScanFrom(o, FinishRecord(FinishField(o, s)), rest)
  {
    var text := PrintEnding(ending) + rest;
    assert (['\n'] + rest)[1..] == rest && (['\r'] + rest)[1..] == rest;
    if ending == CrLf {
      assert text[1..] == ['\n'] + rest;
      assert Next(o, s, '\r', text[1..]) == s;
    }
  }

  lemma EndingStops(delimiter: char, ending: Ending, rest: string)
    ensures Stops(delimiter, PrintEnding(ending) + rest)
  {
  }

  lemma EmptyMeans(o: CsvOptions, forms: seq<Form>)
    ensures Blank(CellsIn(o, forms)) <==> EmptyLine(forms)
  {
  }

  // One written line is one record, or none if it is empty.
  lemma ScanRow(o: CsvOptions, s: Scan, forms: seq<Form>, ending: Ending, rest: string) returns (after: Scan)
    requires Between(s) && s.record == [] && FormsOk(o.delimiter, forms) && Delimits(o.delimiter)
    requires ending == Cr ==> !StartsWith(rest, '\n')
    ensures ScanFrom(o, s, PrintForms(o.delimiter, forms) + PrintEnding(ending) + rest) == ScanFrom(o, after, rest)
    ensures Between(after) && after.record == [] && after.line == after.recordLine == s.line + 1 + Breaks(forms)
    ensures after.records ==
      if EmptyLine(forms) then s.records else s.records + [Record(s.recordLine, CellsIn(o, forms))]
  {
    hide ScanFrom, PrintForms, PrintEnding, CellsIn;
    var tail := PrintEnding(ending) + rest;
    EndingStops(o.delimiter, ending, rest);
    var mid := ScanForms(o, s, forms, tail);
    assert PrintForms(o.delimiter, forms) + PrintEnding(ending) + rest == PrintForms(o.delimiter, forms) + tail;
    ScanEnding(o, mid, ending, rest);
    after := FinishRecord(FinishField(o, mid));
    EmptyMeans(o, forms);
    assert [] + CellsIn(o, forms) == CellsIn(o, forms);
  }

  lemma {:induction false} ScanLines(o: CsvOptions, s: Scan, lines: seq<Line>, rest: string) returns (after: Scan)
    requires Between(s) && s.record == [] && s.line == s.recordLine && Delimits(o.delimiter)
    requires LinesOk(o.delimiter, lines, rest)
    ensures ScanFrom(o, s, PrintLines(o.delimiter, lines, rest)) == ScanFrom(o, after, rest)
    ensures Between(after) && after.record == [] && after.line == after.recordLine == s.line + LineCount(lines)
    ensures after.records == s.records + RecordsIn(o, lines, s.line)
    decreases |lines|
  {
    hide ScanFrom, PrintForms, PrintEnding, CellsIn;
    if lines == [] {
      after := s;
      assert s.records + [] == s.records;
    } else {
      var forms, more := lines[0].forms, PrintLines(o.delimiter, lines[1..], rest);
      var next := ScanRow(o, s, forms, lines[0].ending, more);
      after := ScanLines(o, next, lines[1..], rest);
    }
  }

  lemma UnmarkedWritten(marked: bool, text: string)
    requires MarkOk(marked, text)
    ensures Unmarked(Marked(marked, text)) == text
  {
    assert ([BOM] + text)[1..] == text;
  }

  // Every file is read as the records it holds.
  lemma RecordsBack(o: CsvOptions, file: File)
    requires Delimits(o.delimiter) && FileOk(o.delimiter, file)
    ensures Records(o, Written(o.delimiter, file)) == Ok(AllRecords(o, file))
  {
    hide ScanFrom, PrintForms, CellsIn, RecordsIn;
    var last := PrintForms(o.delimiter, file.last);
    UnmarkedWritten(file.marked, PrintLines(o.delimiter, file.lines, last));
    var mid := ScanLines(o, START, file.lines, last);
    var end := ScanForms(o, mid, file.last, "");
    assert [] + CellsIn(o, file.last) == CellsIn(o, file.last);
    assert last + "" == last;
    ScanNothing(o, end);
    LastBack(o, mid, end, file.last);
    assert [] + RecordsIn(o, file.lines, 1) == RecordsIn(o, file.lines, 1);
  }

  // What is left at the end is a record, unless it is nothing.
  lemma LastBack(o: CsvOptions, mid: Scan, end: Scan, forms: seq<Form>)
    requires Between(mid) && mid.record == [] && forms != [] && !end.inQuotes
    requires end.record + [FinishedCell(o, end)] == CellsIn(o, forms) && |end.record| == |forms| - 1
    requires end.recordLine == mid.line && (|forms| == 1 ==> end == AfterForm(mid, forms[0]))
    ensures FinishText(o, end) ==
            Ok(end.records + if forms == [Bare("")] then [] else [Record(mid.line, CellsIn(o, forms))])
  {
    hide CellsIn;
    assert |forms| == 1 ==> forms == [forms[0]];
    assert end.records + [] == end.records;
  }

  lemma ScanNothing(o: CsvOptions, s: Scan)
    ensures ScanFrom(o, s, "") == s
  {
  }

  /* ---- A field that is never closed ---- */

  function PrintEach(delimiter: char, forms: seq<Form>): string {
    if forms == [] then "" else PrintForm(forms[0]) + [delimiter] + PrintEach(delimiter, forms[1..])
  }

  // Whole lines, whole fields, and a field in quotes that runs to the end of the file.
  ghost function Unclosed(delimiter: char, marked: bool, lines: seq<Line>, forms: seq<Form>, text: string): string {
    Marked(marked, PrintLines(delimiter, lines, PrintEach(delimiter, forms) + [QUOTE] + Doubled(text)))
  }

  ghost predicate UnclosedOk(delimiter: char, marked: bool, lines: seq<Line>, forms: seq<Form>, text: string) {
    var rest := PrintEach(delimiter, forms) + [QUOTE] + Doubled(text);
    (forall i :: 0 <= i < |forms| ==> FormOk(delimiter, forms[i])) && LinesOk(delimiter, lines, rest) &&
    MarkOk(marked, PrintLines(delimiter, lines, rest))
  }

  lemma {:induction false} ScanOpen(o: CsvOptions, s: Scan, text: string)
    requires s.inQuotes
    ensures var end := ScanFrom(o, s, Doubled(text)); end.inQuotes && end.quoteLine == s.quoteLine
    decreases |text|
  {
    if text != "" {
      var next := ScanDoubled(o, s, text, Doubled(text[1..]));
      ScanOpen(o, next, text[1..]);
    }
  }

  lemma {:induction false} ScanEach(o: CsvOptions, s: Scan, forms: seq<Form>, rest: string) returns (after: Scan)
    requires Between(s) && (forall i :: 0 <= i < |forms| ==> FormOk(o.delimiter, forms[i])) && Delimits(o.delimiter)
    ensures ScanFrom(o, s, PrintEach(o.delimiter, forms) + rest) == ScanFrom(o, after, rest)
    ensures Between(after) && after.line == s.line + Breaks(forms)
    decreases |forms|
  {
    hide ScanFrom, PrintForm, LineFeeds;
    if forms == [] {
      assert "" + rest == rest;
      after := s;
    } else {
      var more := PrintEach(o.delimiter, forms[1..]) + rest;
      ScanForm(o, s, forms[0], [o.delimiter] + more);
      assert PrintEach(o.delimiter, forms) + rest == PrintForm(forms[0]) + ([o.delimiter] + more);
      ScanDelimiter(o, AfterForm(s, forms[0]), more);
      after := ScanEach(o, FinishField(o, AfterForm(s, forms[0])), forms[1..], rest);
    }
  }

  // It is reported with the line its quotes open on.
  lemma UnclosedRefused(o: CsvOptions, marked: bool, lines: seq<Line>, forms: seq<Form>, text: string)
    requires Delimits(o.delimiter) && UnclosedOk(o.delimiter, marked, lines, forms, text)
    ensures Records(o, Unclosed(o.delimiter, marked, lines, forms, text)) ==
            Err(UnterminatedQuote(1 + LineCount(lines) + Breaks(forms)))
  {
    hide ScanFrom, PrintEach, RecordsIn, PrintForms, PrintForm, LineFeeds, Doubled, CellsIn;
    var open := [QUOTE] + Doubled(text);
    var rest := PrintEach(o.delimiter, forms) + [QUOTE] + Doubled(text);
    assert rest == PrintEach(o.delimiter, forms) + open;
    UnmarkedWritten(marked, PrintLines(o.delimiter, lines, rest));
    var mid := ScanLines(o, START, lines, rest);
    var before := ScanEach(o, mid, forms, open);
    ScanOpening(o, before, Doubled(text));
    ScanOpen(o, before.(inQuotes := true, quoted := true, quoteLine := before.line), text);
  }

  /* ---- Every text is one or the other ---- */

  // The field that is being read.
  datatype Part = InBare(text: string) | Opened(text: string) | Closed(text: string, tail: string)

  predicate PartOk(delimiter: char, p: Part) {
    match p
    case InBare(text) => FormOk(delimiter, Bare(text))
    case Opened(_) => true
    case Closed(text, tail) => FormOk(delimiter, InQuotes(text, tail))
  }

  function PrintPart(p: Part): string {
    match p
    case InBare(text) => text
    case Opened(text) => [QUOTE] + Doubled(text)
    case Closed(text, tail) => [QUOTE] + Doubled(text) + [QUOTE] + tail
  }

  function FormOf(p: Part): Form
    requires !p.Opened?
  {
    if p.InBare? then Bare(p.text) else InQuotes(p.text, p.tail)
  }

  // The rest of the text, as lines, the fields of the line that is left, and what is open there.
  datatype Rest = Rest(lines: seq<Line>, forms: seq<Form>, part: Part)

  // The first of these forms come before.
  ghost function PrintRest(delimiter: char, r: Rest): string {
    PrintLines(delimiter, r.lines, PrintEach(delimiter, r.forms) + PrintPart(r.part))
  }

  ghost predicate RestOk(delimiter: char, r: Rest) {
    (forall i :: 0 <= i < |r.forms| ==> FormOk(delimiter, r.forms[i])) && PartOk(delimiter, r.part) &&
    LinesOk(delimiter, r.lines, PrintEach(delimiter, r.forms) + PrintPart(r.part))
  }

  lemma {:induction false} DoubledConcat(a: string, b: string)
    ensures Doubled(a + b) == Doubled(a) + Doubled(b)
  {
    if a == "" {
      assert "" + b == b && Doubled(a) + Doubled(b) == Doubled(b);
    } else {
      assert (a + b)[1..] == a[1..] + b;
      DoubledConcat(a[1..], b);
    }
  }

  lemma DoubledMore(text: string, c: char)
    ensures Doubled(text + [c]) == Doubled(text) + if c == QUOTE then [QUOTE, QUOTE] else [c]
  {
    DoubledConcat(text, [c]);
    assert [c][1..] == "" && Doubled([c]) == if c == QUOTE then [QUOTE, QUOTE] else [c];
  }

  // One more character of the same field.
  function Longer(p: Part, c: char): Part {
    match p
    case InBare(text) => InBare(text + [c])
    case Opened(text) => Opened(text + [c])
    case Closed(text, tail) => Closed(text, tail + [c])
  }

  lemma LongerPrints(delimiter: char, p: Part, c: char)
    requires PartOk(delimiter, p) && (p == InBare("") || (p.Closed? && p.tail == "") ==> c != QUOTE)
    requires !p.Opened? ==> c != delimiter && c != '\r' && c != '\n'
    ensures PartOk(delimiter, Longer(p, c))
    ensures PrintPart(Longer(p, c)) == PrintPart(p) + if p.Opened? && c == QUOTE then [QUOTE, QUOTE] else [c]
  {
    if p.Opened? {
      DoubledMore(p.text, c);
    }
  }

  // The rest of a text in which this field has just ended.
  function WithField(delimiter: char, f: Form, r: Rest): Rest {
    if r.lines == [] then r.(forms := [f] + r.forms)
    else r.(lines := [r.lines[0].(forms := [f] + r.lines[0].forms)] + r.lines[1..])
  }

  lemma FieldPrints(delimiter: char, f: Form, r: Rest)
    requires FormOk(delimiter, f) && RestOk(delimiter, r)
    ensures RestOk(delimiter, WithField(delimiter, f, r))
    ensures PrintRest(delimiter, WithField(delimiter, f, r)) == PrintForm(f) + [delimiter] + PrintRest(delimiter, r)
  {
    hide PrintForm, FormOk;
    if r.lines == [] {
      assert ([f] + r.forms)[1..] == r.forms;
    } else {
      assert ([f] + r.lines[0].forms)[1..] == r.lines[0].forms;
      var all := WithField(delimiter, f, r);
      assert all.lines[1..] == r.lines[1..];
    }
  }

  function WithLine(f: Form, ending: Ending, r: Rest): Rest { r.(lines := [Line([f], ending)] + r.lines) }

  lemma LinePrints(delimiter: char, f: Form, ending: Ending, r: Rest)
    requires FormOk(delimiter, f) && RestOk(delimiter, r)
    requires ending == Cr ==> !StartsWith(PrintRest(delimiter, r), '\n')
    ensures RestOk(delimiter, WithLine(f, ending, r))
    ensures PrintRest(delimiter, WithLine(f, ending, r)) == PrintForm(f) + PrintEnding(ending) + PrintRest(delimiter, r)
  {
    hide PrintForm, FormOk, PrintEnding;
    var all := WithLine(f, ending, r);
    assert all.lines[1..] == r.lines;
  }

  // The field is as it is, whatever its part was called.
  lemma PartPrints(delimiter: char, p: Part)
    requires !p.Opened? && PartOk(delimiter, p)
    ensures FormOk(delimiter, FormOf(p)) && PrintForm(FormOf(p)) == PrintPart(p)
  {
  }

  lemma NothingLeft(delimiter: char, p: Part)
    requires PartOk(delimiter, p)
    ensures RestOk(delimiter, Rest([], [], p)) && PrintRest(delimiter, Rest([], [], p)) == PrintPart(p) + ""
  {
  }

  lemma NewPart(delimiter: char)
    ensures PartOk(delimiter, InBare("")) && PrintPart(InBare("")) == ""
  {
  }

  lemma OpensPart(delimiter: char)
    ensures PartOk(delimiter, Opened("")) && PrintPart(Opened("")) == [QUOTE] && PrintPart(InBare("")) == ""
  {
  }

  lemma ClosesPart(delimiter: char, text: string)
    ensures PartOk(delimiter, Closed(text, "")) && PrintPart(Closed(text, "")) == PrintPart(Opened(text)) + [QUOTE]
  {
  }

  // Reading on from within a field.
  lemma {:induction false} ReadsOn(delimiter: char, p: Part, text: string) returns (r: Rest)
    requires Delimits(delimiter) && PartOk(delimiter, p)
    requires p.Closed? && p.tail == "" ==> !StartsWith(text, QUOTE)
    ensures RestOk(delimiter, r) && PrintRest(delimiter, r) == PrintPart(p) + text
    decreases |text|
  {
    hide RestOk, PrintRest, PartOk, PrintPart, PrintForm, FormOk;
    if text == "" {
      r := Rest([], [], p);
      NothingLeft(delimiter, p);
    } else {
      var c := text[0];
      assert text == [c] + text[1..];
      if p.Opened? && c == QUOTE && !StartsWith(text[1..], QUOTE) {
        ClosesPart(delimiter, p.text);
        r := ReadsOn(delimiter, Closed(p.text, ""), text[1..]);
      } else if p.Opened? && c == QUOTE {
        LongerPrints(delimiter, p, c);
        r := ReadsOn(delimiter, Longer(p, c), text[2..]);
        assert text == [QUOTE, QUOTE] + text[2..];
      } else if p == InBare("") && c == QUOTE {
        OpensPart(delimiter);
        r := ReadsOn(delimiter, Opened(""), text[1..]);
        assert "" + text == text;
      } else if p.Opened? || (c != delimiter && c != '\r' && c != '\n') {
        LongerPrints(delimiter, p, c);
        r := ReadsOn(delimiter, Longer(p, c), text[1..]);
      } else {
        r := ReadsEnd(delimiter, p, text);
      }
    }
  }

  function AfterEnd(text: string): nat { if StartsWith(text, '\r') && StartsWith(text[1..], '\n') then 2 else 1 }

  // The field ends here.
  lemma {:induction false} ReadsEnd(delimiter: char, p: Part, text: string) returns (r: Rest)
    requires Delimits(delimiter) && PartOk(delimiter, p) && !p.Opened? && text != ""
    requires text[0] == delimiter || text[0] == '\r' || text[0] == '\n'
    ensures RestOk(delimiter, r) && PrintRest(delimiter, r) == PrintPart(p) + text
    decreases |text|, 0
  {
    hide RestOk, PrintRest, PartOk, PrintPart;
    NewPart(delimiter);
    var rest := text[AfterEnd(text)..];
    var more := ReadsOn(delimiter, InBare(""), rest);
    assert "" + rest == rest;
    if text[0] == '\r' || text[0] == '\n' {
      r := EndsLine(delimiter, p, text, more);
    } else {
      r := EndsField(delimiter, p, text, more);
    }
  }

  lemma EndsLine(delimiter: char, p: Part, text: string, more: Rest) returns (r: Rest)
    requires PartOk(delimiter, p) && !p.Opened? && text != "" && (text[0] == '\r' || text[0] == '\n')
    requires RestOk(delimiter, more) && PrintRest(delimiter, more) == text[AfterEnd(text)..]
    ensures RestOk(delimiter, r) && PrintRest(delimiter, r) == PrintPart(p) + text
  {
    hide RestOk, PrintRest, PartOk, PrintPart, PrintForm, FormOk, PrintEnding, AfterEnd, EndingOf;
    PartPrints(delimiter, p);
    EndingPrints(text);
    LinePrints(delimiter, FormOf(p), EndingOf(text), more);
    r := WithLine(FormOf(p), EndingOf(text), more);
  }

  lemma EndsField(delimiter: char, p: Part, text: string, more: Rest) returns (r: Rest)
    requires PartOk(delimiter, p) && !p.Opened? && text != "" && text[0] == delimiter && Delimits(delimiter)
    requires RestOk(delimiter, more) && PrintRest(delimiter, more) == text[AfterEnd(text)..]
    ensures RestOk(delimiter, r) && PrintRest(delimiter, r) == PrintPart(p) + text
  {
    hide RestOk, PrintRest, PartOk, PrintPart, PrintForm, FormOk;
    PartPrints(delimiter, p);
    assert text == [delimiter] + text[1..];
    FieldPrints(delimiter, FormOf(p), more);
    r := WithField(delimiter, FormOf(p), more);
  }

  function EndingOf(text: string): Ending
    requires text != ""
  {
    if text[0] == '\n' then Lf else if StartsWith(text[1..], '\n') then CrLf else Cr
  }

  lemma EndingPrints(text: string)
    requires text != "" && (text[0] == '\r' || text[0] == '\n')
    ensures var rest := text[AfterEnd(text)..];
      text == PrintEnding(EndingOf(text)) + rest && (EndingOf(text) == Cr ==> !StartsWith(rest, '\n'))
  {
  }

  lemma {:induction false} EachAndLast(delimiter: char, forms: seq<Form>, f: Form)
    ensures PrintForms(delimiter, forms + [f]) == PrintEach(delimiter, forms) + PrintForm(f)
  {
    if forms == [] {
      assert "" + PrintForm(f) == PrintForm(f);
    } else {
      assert (forms + [f])[1..] == forms[1..] + [f];
      EachAndLast(delimiter, forms[1..], f);
    }
  }

  // Any text is a file, or ends in a field that is never closed.
  lemma EveryText(delimiter: char, text: string)
    requires Delimits(delimiter)
    ensures
      (exists file :: FileOk(delimiter, file) && Written(delimiter, file) == text) ||
      exists marked, lines, forms, open ::
        UnclosedOk(delimiter, marked, lines, forms, open) && Unclosed(delimiter, marked, lines, forms, open) == text
  {
    hide PrintForm, FormOk, Doubled;
    var marked := StartsWith(text, BOM);
    var body := if marked then text[1..] else text;
    assert text == Marked(marked, body);
    NewPart(delimiter);
    var r := ReadsOn(delimiter, InBare(""), body);
    assert "" + body == body;
    if r.part.Opened? {
      var rest := PrintEach(delimiter, r.forms) + [QUOTE] + Doubled(r.part.text);
      assert rest == PrintEach(delimiter, r.forms) + PrintPart(r.part);
      assert UnclosedOk(delimiter, marked, r.lines, r.forms, r.part.text);
    } else {
      var f := FormOf(r.part);
      PartPrints(delimiter, r.part);
      EachAndLast(delimiter, r.forms, f);
      var file := File(marked, r.lines, r.forms + [f]);
      assert FileOk(delimiter, file) && Written(delimiter, file) == text;
    }
  }

  // So there is only one way to read a text: what the records of one file are, or where a field is not closed.
  lemma RecordsExactly(o: CsvOptions, text: string, records: seq<Record>)
    requires Delimits(o.delimiter)
    ensures Records(o, text) == Ok(records) <==>
      exists file :: FileOk(o.delimiter, file) && Written(o.delimiter, file) == text && AllRecords(o, file) == records
  {
    hide FileOk, Written, AllRecords, UnclosedOk, Unclosed, Records;
    forall file | FileOk(o.delimiter, file) && Written(o.delimiter, file) == text
      ensures Records(o, text) == Ok(AllRecords(o, file))
    {
      RecordsBack(o, file);
    }
    if Records(o, text) == Ok(records) {
      EveryText(o.delimiter, text);
      if marked, lines, forms, open :|
        UnclosedOk(o.delimiter, marked, lines, forms, open) &&
        Unclosed(o.delimiter, marked, lines, forms, open) == text {
        UnclosedRefused(o, marked, lines, forms, open);
      }
    }
  }

  /* ---- From records to a table ---- */

  // A header cell names its column; one without text leaves it its number.
  ghost predicate NameFor(cell: Cell, number: nat, name: string) {
    if cell.None? || Spaces(cell.value) then name == "column_" + Decimal(number) else Trims(cell.value, name)
  }

  // The first record gives the width, and if there is a header the names.
  ghost predicate NamesFor(o: CsvOptions, records: seq<Record>, names: seq<string>) {
    |names| == (if records == [] then 0 else |records[0].cells|) &&
    forall i :: 0 <= i < |names| ==>
      if o.hasHeader then NameFor(records[0].cells[i], i + 1, names[i]) else names[i] == "column_" + Decimal(i + 1)
  }

  function Body(o: CsvOptions, records: seq<Record>): seq<Record> {
    if o.hasHeader && records != [] then records[1..] else records
  }

  // The first record of another width.
  ghost predicate WrongAt(body: seq<Record>, width: nat, i: nat) {
    i < |body| && |body[i].cells| != width && forall j :: 0 <= j < i ==> |body[j].cells| == width
  }

  // The first name that is there already.
  ghost predicate AgainAt(names: seq<string>, i: nat) {
    i < |names| && names[i] in names[..i] && Distinct(names[..i])
  }

  ghost predicate Tabulates(o: CsvOptions, records: seq<Record>, names: seq<string>,
                            result: Result<ParsedImport, ImportParseError>) {
    var body := Body(o, records);
    match result
    case Ok(p) =>
      records != [] && p.columns == names && Distinct(names) && |p.rows| == |body| &&
      forall i :: 0 <= i < |body| ==> p.rows[i] == body[i].cells && |body[i].cells| == |names|
    case Err(e) =>
      if records == [] then e == Empty
      else if exists i: nat :: WrongAt(body, |names|, i) then
        exists i: nat :: WrongAt(body, |names|, i) && e == FieldCount(body[i].line, |names|, |body[i].cells|)
      else exists i: nat :: AgainAt(names, i) && e == DuplicateColumn(names[i])
  }

  lemma BlankTrims(text: string)
    ensures Spaces(text) <==> Trim(text) == ""
  {
    TrimExactly(text);
    if Spaces(text) {
      assert Around(text, text, "", "");
      TrimsOne(text, "");
    } else if Trim(text) == "" {
      var m, n := TrimsWithin(text, "");
    }
  }

  lemma HeaderNameOne(cell: Cell, number: nat, name: string)
    ensures NameFor(cell, number, name) <==> name == HeaderName(number, cell)
  {
    if cell.Some? {
      BlankTrims(cell.value);
      TrimsOne(cell.value, name);
    }
  }

  function NamesRead(o: CsvOptions, records: seq<Record>): seq<string> {
    if o.hasHeader && records != [] then HeaderNames(records[0].cells)
    else NumberedColumns(if records == [] then 0 else |records[0].cells|)
  }

  lemma NamesOne(o: CsvOptions, records: seq<Record>, names: seq<string>)
    ensures NamesFor(o, records, names) <==> names == NamesRead(o, records)
  {
    if records != [] && |names| == |records[0].cells| {
      forall i | 0 <= i < |names|
        ensures NameFor(records[0].cells[i], i + 1, names[i]) <==> names[i] == HeaderName(i + 1, records[0].cells[i])
      {
        HeaderNameOne(records[0].cells[i], i + 1, names[i]);
      }
    }
  }

  lemma {:induction false} RepeatedAt(names: seq<string>) returns (i: nat)
    requires Repeated(names).Some?
    ensures AgainAt(names, i) && Repeated(names) == Some(names[i])
  {
    var n := |names| - 1;
    RepeatedExactly(names[..n]);
    if Repeated(names[..n]).Some? {
      i := RepeatedAt(names[..n]);
      assert names[..n][..i] == names[..i];
    } else {
      i := n;
    }
  }

  lemma {:induction false} WrongIs(width: nat, records: seq<Record>) returns (i: nat)
    requires FirstWrong(width, records).Some?
    ensures WrongAt(records, width, i) && FirstWrong(width, records) == Some(records[i])
  {
    if |records[0].cells| != width {
      i := 0;
    } else {
      var k := WrongIs(width, records[1..]);
      i := k + 1;
    }
  }

  lemma WrongNever(width: nat, records: seq<Record>)
    requires FirstWrong(width, records).None?
    ensures forall i :: 0 <= i < |records| ==> |records[i].cells| == width
  {
    FirstWrongExactly(width, records);
    assert forall i :: 0 <= i < |records| ==> records[i] in records;
  }

  // The table is the records under these names, or the first thing that is wrong with them.
  lemma TabulatedExactly(o: CsvOptions, records: seq<Record>)
    requires forall r <- records :: r.cells != []
    ensures NamesFor(o, records, NamesRead(o, records))
    ensures Tabulates(o, records, NamesRead(o, records), Tabulated(o, records))
  {
    hide FirstWrong, Repeated, HeaderName, NumberedColumn;
    var names, body := NamesRead(o, records), Body(o, records);
    NamesOne(o, records, names);
    if records != [] {
      assert records[0] in records;
      RepeatedExactly(names);
      assert Tabulated(o, records) == WithColumns(names, body);
      if FirstWrong(|names|, body).Some? {
        var i := WrongIs(|names|, body);
      } else {
        WrongNever(|names|, body);
        if Repeated(names).Some? {
          var i := RepeatedAt(names);
        }
      }
    } else {
      NoneWrong(0);
      assert NumberedColumns(0) == [];
    }
  }

  // Every file is read as the table its records make, every other text is refused for the field that is not closed.
  lemma ParsedExactly(o: CsvOptions, file: File)
    requires Delimits(o.delimiter) && FileOk(o.delimiter, file)
    ensures var records := AllRecords(o, file);
      exists names :: NamesFor(o, records, names) && Tabulates(o, records, names, Parsed(o, Written(o.delimiter, file)))
  {
    hide NamesFor, Tabulates, Written, FileOk, AllRecords, Records, NamesRead, Tabulated;
    RecordsBack(o, file);
    RecordsHaveCells(o, Written(o.delimiter, file));
    TabulatedExactly(o, AllRecords(o, file));
  }

  lemma UnclosedParsed(o: CsvOptions, marked: bool, lines: seq<Line>, forms: seq<Form>, text: string)
    requires Delimits(o.delimiter) && UnclosedOk(o.delimiter, marked, lines, forms, text)
    ensures Parsed(o, Unclosed(o.delimiter, marked, lines, forms, text)) ==
            Err(UnterminatedQuote(1 + LineCount(lines) + Breaks(forms)))
  {
    hide Unclosed, UnclosedOk, Records;
    UnclosedRefused(o, marked, lines, forms, text);
  }

  /* ---- Round trips ---- */

  lemma NumberedDistinct(count: nat)
    ensures Distinct(NumberedColumns(count))
  {
    var names := NumberedColumns(count);
    forall i, j | 0 <= i < j < count
      ensures names[i] != names[j]
    {
      if names[i] == names[j] {
        assert names[i][|"column_"|..] == Decimal(i + 1) && names[j][|"column_"|..] == Decimal(j + 1);
        DecimalApart(i + 1, j + 1);
      }
    }
  }

  ghost predicate RecordsWide(records: seq<Record>, width: nat) { forall r <- records :: |r.cells| == width }

  lemma WidthsOf(records: seq<Record>, width: nat)
    requires RecordsWide(records, width)
    ensures FirstWrong(width, records).None?
  {
    FirstWrongExactly(width, records);
  }

  // Without a header, a file of one width is read as its records, columns numbered.
  lemma CsvRoundTrip(o: CsvOptions, file: File, width: nat)
    requires Delimits(o.delimiter) && FileOk(o.delimiter, file) && !o.hasHeader && width > 0
    requires RecordsWide(AllRecords(o, file), width)
    ensures var records := AllRecords(o, file);
      Parsed(o, Written(o.delimiter, file)) ==
      if records == [] then Err(Empty) else Ok(ParsedImport(NumberedColumns(width), Cells(records)))
  {
    hide Written, FileOk, AllRecords, Records, FirstWrong;
    RecordsBack(o, file);
    var records := AllRecords(o, file);
    assert records != [] ==> records[0] in records;
    NumberedDistinct(width);
    RepeatedExactly(NumberedColumns(width));
    if records != [] {
      WidthsOf(records, width);
    } else {
      NoneWrong(0);
    }
  }

  lemma NoneWrong(width: nat)
    ensures FirstWrong(width, []).None?
  {
  }

  // All lines, and what comes after them.
  function AllForms(file: File): seq<seq<Form>> {
    FormsOf(file.lines) + if file.last == [Bare("")] then [] else [file.last]
  }

  function FormsOf(lines: seq<Line>): seq<seq<Form>> {
    if lines == [] then [] else [lines[0].forms] + FormsOf(lines[1..])
  }

  function AllCells(o: CsvOptions, rows: seq<seq<Form>>): seq<seq<Cell>> {
    seq(|rows|, i requires 0 <= i < |rows| => CellsIn(o, rows[i]))
  }

  lemma {:induction false} NoneSkipped(o: CsvOptions, lines: seq<Line>, line: nat)
    ensures |RecordsIn(o, lines, line)| <= |lines| == |FormsOf(lines)|
    ensures (forall i :: 0 <= i < |lines| ==> !EmptyLine(lines[i].forms)) ==>
      Cells(RecordsIn(o, lines, line)) == AllCells(o, FormsOf(lines))
    ensures |RecordsIn(o, lines, line)| == |lines| ==> forall i :: 0 <= i < |lines| ==> !EmptyLine(lines[i].forms)
  {
    hide EmptyLine;
    if lines != [] {
      var more, rest := RecordsIn(o, lines[1..], line + 1 + Breaks(lines[0].forms)), FormsOf(lines[1..]);
      NoneSkipped(o, lines[1..], line + 1 + Breaks(lines[0].forms));
      var first := Record(line, CellsIn(o, lines[0].forms));
      assert Cells([first] + more) == [first.cells] + Cells(more);
      assert AllCells(o, [lines[0].forms] + rest) == [CellsIn(o, lines[0].forms)] + AllCells(o, rest);
      assert lines == [lines[0]] + lines[1..];
      assert forall i :: 0 <= i < |lines| - 1 ==> lines[1..][i] == lines[i + 1];
      if forall i :: 0 <= i < |lines| ==> !EmptyLine(lines[i].forms) {
        assert !EmptyLine(lines[0].forms);
      }
    }
  }

  lemma AllOrSome(o: CsvOptions, file: File)
    ensures Cells(AllRecords(o, file)) == AllCells(o, AllForms(file)) <==>
            forall i :: 0 <= i < |file.lines| ==> !EmptyLine(file.lines[i].forms)
  {
    hide EmptyLine, RecordsIn, FormsOf, CellsIn;
    NoneSkipped(o, file.lines, 1);
    var a, b := RecordsIn(o, file.lines, 1), if file.last == [Bare("")] then [] else
      [Record(1 + LineCount(file.lines), CellsIn(o, file.last))];
    var c, d := FormsOf(file.lines), if file.last == [Bare("")] then [] else [file.last];
    assert Cells(a + b) == Cells(a) + Cells(b) && AllCells(o, c + d) == AllCells(o, c) + AllCells(o, d);
    assert Cells(b) == AllCells(o, d) && |Cells(a)| == |a| && |AllCells(o, c)| == |c|;
  }

  // What is written comes back cell by cell, exactly if something is written and no line is empty.
  lemma CsvRoundTripExactly(o: CsvOptions, file: File, width: nat)
    requires Delimits(o.delimiter) && FileOk(o.delimiter, file) && !o.hasHeader && width > 0
    requires RecordsWide(AllRecords(o, file), width)
    ensures Parsed(o, Written(o.delimiter, file)) ==
            Ok(ParsedImport(NumberedColumns(width), AllCells(o, AllForms(file)))) <==>
            AllForms(file) != [] && forall i :: 0 <= i < |file.lines| ==> !EmptyLine(file.lines[i].forms)
  {
    hide Written, FileOk, AllRecords, RecordsWide, Parsed, EmptyLine, AllForms;
    CsvRoundTrip(o, file, width);
    AllOrSome(o, file);
    assert |Cells(AllRecords(o, file))| == |AllRecords(o, file)|;
    assert |AllCells(o, AllForms(file))| == |AllForms(file)|;
  }

  // With a header, the first record names the columns and the others are the rows.
  lemma CsvHeaderRoundTrip(o: CsvOptions, file: File, names: seq<string>)
    requires Delimits(o.delimiter) && FileOk(o.delimiter, file) && o.hasHeader
    requires AllRecords(o, file) != [] && RecordsWide(AllRecords(o, file), |names|)
    requires Distinct(names) && forall i :: 0 <= i < |names| ==>
      NameFor(AllRecords(o, file)[0].cells[i], i + 1, names[i])
    ensures Parsed(o, Written(o.delimiter, file)) == Ok(ParsedImport(names, Cells(AllRecords(o, file)[1..])))
  {
    hide Written, FileOk, AllRecords, Records, NameFor;
    RecordsBack(o, file);
    RecordsHaveCells(o, Written(o.delimiter, file));
    var records := AllRecords(o, file);
    assert records[0] in records;
    NamesOne(o, records, names);
    RepeatedExactly(names);
    WidthsOf(records[1..], |names|);
  }
}

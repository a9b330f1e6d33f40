/** What the editor shows after running a script. */
module ScriptResult {
  import opened Options
  import opened Gathering

  datatype Value = Null | Text(text: string) | Number(n: nat)

  type Row = map<string, Value>

  datatype Message =
    | RowDescription(columns: seq<string>)
    | RowData(cells: seq<(string, Option<string>)>)
    | CommandComplete(affected: nat)
    | Other

  datatype QueryResult = QueryResult(columns: seq<string>, rows: seq<Row>)

  function CellValue(cell: Option<string>): Value { if cell.None? then Null else Text(cell.value) }

  // Of two columns with one name the later one stays.
  function RowMap(cells: seq<(string, Option<string>)>): Row {
    if cells == [] then map[]
    else
      var last := cells[|cells| - 1];
      RowMap(cells[..|cells| - 1])[last.0 := CellValue(last.1)]
  }

  const ROWS_AFFECTED := "rows_affected"

  function AffectedRow(count: nat): QueryResult { QueryResult([ROWS_AFFECTED], [map[ROWS_AFFECTED := Number(count)]]) }

  /* ---- Declaratively ---- */

  // Where the last completed statement ended.
  function LastComplete(messages: seq<Message>): (at: Option<nat>)
    ensures at.Some? ==> at.value < |messages| && messages[at.value].CommandComplete?
  {
    if messages == [] then None
    else if messages[|messages| - 1].CommandComplete? then Some(|messages| - 1)
    else LastComplete(messages[..|messages| - 1])
  }

  // The last row description of the statement that is running at `end`.
  function DescriptionBefore(messages: seq<Message>, end: nat): (at: Option<nat>)
    requires end <= |messages|
    ensures at.Some? ==> at.value < end && messages[at.value].RowDescription?
  {
    if end == 0 || messages[end - 1].CommandComplete? then None
    else if messages[end - 1].RowDescription? then Some(end - 1)
    else DescriptionBefore(messages, end - 1)
  }

  function RowPart(): Message -> seq<Row> {
    (message: Message) => if message.RowData? then [RowMap(message.cells)] else []
  }

  function RowsIn(messages: seq<Message>): seq<Row> { Gather(messages, RowPart()) }

  // The outcome of the statement that completes at `end`: its rows if it described columns, else the count.
  function StatementOutcome(messages: seq<Message>, end: nat): QueryResult
    requires end < |messages| && messages[end].CommandComplete?
  {
    var description := DescriptionBefore(messages, end);
    if description.None? then AffectedRow(messages[end].affected)
    else if messages[description.value].columns == [] then AffectedRow(0)
    else QueryResult(messages[description.value].columns, RowsIn(messages[description.value + 1..end]))
  }

  // Only the last completed statement is shown.
  function Outcome(messages: seq<Message>): QueryResult {
    var last := LastComplete(messages);
    if last.None? then AffectedRow(0) else StatementOutcome(messages, last.value)
  }

  /* ---- The loop ---- */

  // What the loop holds of the statement that is running.
  ghost predicate Holds(messages: seq<Message>, i: nat, columns: Option<seq<string>>, rows: seq<Row>)
    requires i <= |messages|
  {
    var description := DescriptionBefore(messages, i);
    (columns.Some? <==> description.Some?) &&
    (description.Some? ==>
       columns == Some(messages[description.value].columns) && rows == RowsIn(messages[description.value + 1..i]))
  }

  // And of the last one that completed.
  ghost predicate Kept(messages: seq<Message>, i: nat, columns: seq<string>, rows: seq<Row>, affected: Option<nat>)
    requires i <= |messages|
  {
    var last := LastComplete(messages[..i]);
    if last.None? then columns == [] && affected.None?
    else if columns == [] then
      StatementOutcome(messages, last.value) == AffectedRow(if affected.None? then 0 else affected.value)
    else StatementOutcome(messages, last.value) == QueryResult(columns, rows)
  }

  lemma LastCompleteNext(messages: seq<Message>, i: nat)
    requires i < |messages|
    ensures LastComplete(messages[..i + 1]) ==
      if messages[i].CommandComplete? then Some(i) else LastComplete(messages[..i])
  {
    assert messages[..i + 1][..i] == messages[..i];
  }

  lemma RowsNext(messages: seq<Message>, first: nat, i: nat)
    requires first <= i < |messages|
    ensures RowsIn(messages[first..i + 1]) == RowsIn(messages[first..i]) + RowPart()(messages[i])
  {
    GatherStep(messages[first..], i - first, RowPart());
    assert messages[first..][..i - first + 1] == messages[first..i + 1] &&
      messages[first..][..i - first] == messages[first..i];
  }

  method BuildRow(cells: seq<(string, Option<string>)>) returns (row: Row)
    ensures row == RowMap(cells)
  {
    row := map[];
    for i := 0 to |cells|
      invariant row == RowMap(cells[..i])
    {
      assert cells[..i + 1][..i] == cells[..i];
      row := row[cells[i].0 := CellValue(cells[i].1)];
    }
    assert cells[..|cells|] == cells;
  }

  lemma HoldsNext(messages: seq<Message>, i: nat, columns: Option<seq<string>>, rows: seq<Row>)
    requires i < |messages| && Holds(messages, i, columns, rows)
    ensures messages[i].RowDescription? ==> Holds(messages, i + 1, Some(messages[i].columns), [])
    ensures messages[i].RowData? ==> Holds(messages, i + 1, columns, rows + [RowMap(messages[i].cells)])
    ensures messages[i].CommandComplete? ==> Holds(messages, i + 1, None, rows) && Holds(messages, i + 1, None, [])
    ensures messages[i].Other? ==> Holds(messages, i + 1, columns, rows)
  {
    var description := DescriptionBefore(messages, i);
    if messages[i].RowDescription? {
      assert messages[i + 1..i + 1] == [];
    } else if description.Some? && !messages[i].CommandComplete? {
      RowsNext(messages, description.value + 1, i);
    }
  }

  method FoldMessages(messages: seq<Message>) returns (result: QueryResult)
    ensures result == Outcome(messages)
  {
    hide Holds, Kept, RowsIn;
    var currentColumns: Option<seq<string>>, currentRows: seq<Row> := None, [];
    var finalColumns: seq<string>, finalRows: seq<Row>, finalAffected: Option<nat> := [], [], None;
    Starts(messages);
    for i := 0 to |messages|
      invariant Holds(messages, i, currentColumns, currentRows)
      invariant Kept(messages, i, finalColumns, finalRows, finalAffected)
    {
      HoldsNext(messages, i, currentColumns, currentRows);
      KeptNext(messages, i, currentColumns, currentRows, finalColumns, finalRows, finalAffected);
      match messages[i]
      case RowDescription(columns) =>
        currentColumns := Some(columns);
        currentRows := [];
      case RowData(cells) =>
        var row := BuildRow(cells);
        currentRows := currentRows + [row];
      case CommandComplete(affected) =>
        if currentColumns.Some? {
          finalColumns, finalRows, finalAffected := currentColumns.value, currentRows, None;
          currentRows := [];
        } else {
          finalColumns, finalRows, finalAffected := [], [], Some(affected);
        }
        currentColumns := None;
      case Other =>
    }
    Ends(messages, finalColumns, finalRows, finalAffected);
    if finalColumns == [] {
      var count := if finalAffected.None? then 0 else finalAffected.value;
      return QueryResult([ROWS_AFFECTED], [map[ROWS_AFFECTED := Number(count)]]);
    }
    return QueryResult(finalColumns, finalRows);
  }

  lemma Starts(messages: seq<Message>)
    ensures Holds(messages, 0, None, []) && Kept(messages, 0, [], [], None)
  {
  }

  lemma KeptNext(messages: seq<Message>, i: nat, columns: Option<seq<string>>, rows: seq<Row>,
                 finalColumns: seq<string>, finalRows: seq<Row>, finalAffected: Option<nat>)
    requires i < |messages| && Holds(messages, i, columns, rows) &&
      Kept(messages, i, finalColumns, finalRows, finalAffected)
    ensures !messages[i].CommandComplete? ==> Kept(messages, i + 1, finalColumns, finalRows, finalAffected)
    ensures messages[i].CommandComplete? && columns.Some? ==> Kept(messages, i + 1, columns.value, rows, None)
    ensures messages[i].CommandComplete? && columns.None? ==> Kept(messages, i + 1, [], [], Some(messages[i].affected))
  {
    LastCompleteNext(messages, i);
  }

  lemma Ends(messages: seq<Message>, columns: seq<string>, rows: seq<Row>, affected: Option<nat>)
    requires Kept(messages, |messages|, columns, rows, affected)
    ensures Outcome(messages) ==
            if columns == [] then AffectedRow(if affected.None? then 0 else affected.value)
              else QueryResult(columns, rows)
  {
    assert messages[..|messages|] == messages;
  }

  /* ---- Whose rows they are ---- */

  // The statement that completes at `end` began after the one before it completed.
  ghost predicate Began(messages: seq<Message>, begin: nat, end: nat)
    requires end < |messages|
  {
    begin <= end && (begin > 0 ==> messages[begin - 1].CommandComplete?) &&
    forall i :: begin <= i < end ==> !messages[i].CommandComplete?
  }

  lemma {:induction false} DescriptionOwn(messages: seq<Message>, begin: nat, end: nat, at: nat)
    requires begin <= at <= end < |messages| && Began(messages, begin, end)
    ensures DescriptionBefore(messages, at).Some? ==> DescriptionBefore(messages, at).value >= begin
    ensures DescriptionBefore(messages, at).None? <==> forall i :: begin <= i < at ==> !messages[i].RowDescription?
    decreases at
  {
    if at > begin && !messages[at - 1].RowDescription? {
      DescriptionOwn(messages, begin, end, at - 1);
    }
  }

  lemma {:induction false} LastCompleteIs(messages: seq<Message>, end: nat)
    requires end < |messages| && messages[end].CommandComplete?
    requires forall i :: end < i < |messages| ==> !messages[i].CommandComplete?
    ensures LastComplete(messages) == Some(end)
    decreases |messages|
  {
    if end < |messages| - 1 {
      LastCompleteIs(messages[..|messages| - 1], end);
    }
  }

  lemma Slices<T>(s: seq<T>, a: nat, b: nat, c: nat, d: nat)
    requires a <= b <= |s| && c <= d <= b - a
    ensures s[a..b][c..d] == s[a + c..a + d]
  {
    var inner, outer := s[a..b][c..d], s[a + c..a + d];
    forall i | 0 <= i < d - c
      ensures inner[i] == outer[i]
    {
      assert inner[i] == s[a..b][c + i] == s[a + (c + i)];
    }
  }

  lemma SameOutcome(messages: seq<Message>, begin: nat, end: nat)
    requires end < |messages| && messages[end].CommandComplete? && Began(messages, begin, end)
    ensures var own := messages[begin..end + 1];
      own[end - begin] == messages[end] && StatementOutcome(own, end - begin) == StatementOutcome(messages, end)
  {
    hide DescriptionBefore, RowsIn;
    var own := messages[begin..end + 1];
    SameDescription(messages, begin, end, end);
    DescriptionOwn(messages, begin, end, end);
    var description := DescriptionBefore(messages, end);
    if description.Some? {
      var first := description.value - begin + 1;
      Slices(messages, begin, end + 1, first, end - begin);
    }
  }

  // The result is made of the messages of the last completed statement alone: whatever came before it, and whatever
  // came after it without completing, can be left out.
  lemma OnlyLastStatement(messages: seq<Message>, begin: nat, end: nat)
    requires end < |messages| && messages[end].CommandComplete? && Began(messages, begin, end)
    requires forall i :: end < i < |messages| ==> !messages[i].CommandComplete?
    ensures Outcome(messages) == Outcome(messages[begin..end + 1])
  {
    hide LastComplete, StatementOutcome;
    LastCompleteIs(messages, end);
    LastCompleteIs(messages[begin..end + 1], end - begin);
    SameOutcome(messages, begin, end);
  }

  lemma {:induction false} SameDescription(messages: seq<Message>, begin: nat, end: nat, at: nat)
    requires begin <= at <= end < |messages| && Began(messages, begin, end)
    ensures var own, whole := DescriptionBefore(messages[begin..end + 1], at - begin), DescriptionBefore(messages, at);
      (own.Some? <==> whole.Some?) && (own.Some? ==> whole.value == begin + own.value)
    decreases at
  {
    if at > begin {
      assert messages[begin..end + 1][at - begin - 1] == messages[at - 1];
      if !messages[at - 1].RowDescription? {
        SameDescription(messages, begin, end, at - 1);
      }
    }
  }

  /* ---- What is shown, message by message ---- */

  // Each column of the row once, with the value of its last cell.
  ghost predicate RowIs(cells: seq<(string, Option<string>)>, row: Row) {
    (forall name :: name in row <==> exists i :: 0 <= i < |cells| && cells[i].0 == name) &&
    forall i :: 0 <= i < |cells| && (forall j :: i < j < |cells| ==> cells[j].0 != cells[i].0) ==>
      cells[i].0 in row && row[cells[i].0] == Shown(cells[i].1)
  }

  // One row for each row message, in order.
  ghost predicate RowsAre(messages: seq<Message>, rows: seq<Row>) {
    if messages == [] then rows == []
    else
      var n := |messages| - 1;
      if messages[n].RowData? then
        rows != [] && RowIs(messages[n].cells, rows[|rows| - 1]) && RowsAre(messages[..n], rows[..|rows| - 1])
      else RowsAre(messages[..n], rows)
  }

  predicate Counts(result: QueryResult, count: nat) {
    result == QueryResult(["rows_affected"], [map["rows_affected" := Number(count)]])
  }

  // The last description in this part of the messages.
  ghost predicate Describes(messages: seq<Message>, begin: nat, end: nat, at: nat) {
    begin <= at < end <= |messages| && messages[at].RowDescription? &&
    forall i :: at < i < end ==> !messages[i].RowDescription?
  }

  // A statement that described columns shows them with the rows after it; one without columns, or without a
  // description, shows a count.
  ghost predicate Shows(messages: seq<Message>, begin: nat, end: nat, result: QueryResult)
    requires end < |messages| && messages[end].CommandComplete?
  {
    if forall i :: begin <= i < end ==> !messages[i].RowDescription? then Counts(result, messages[end].affected)
    else
      exists at: nat :: Describes(messages, begin, end, at) &&
        if messages[at].columns == [] then Counts(result, 0)
        else result.columns == messages[at].columns && RowsAre(messages[at + 1..end], result.rows)
  }

  function Shown(cell: Option<string>): Value {
    match cell
    case None => Null
    case Some(text) => Text(text)
  }

  lemma {:induction false} RowMapHas(cells: seq<(string, Option<string>)>, name: string)
    ensures name in RowMap(cells) <==> exists i :: 0 <= i < |cells| && cells[i].0 == name
  {
    if cells != [] {
      var n := |cells| - 1;
      RowMapHas(cells[..n], name);
      assert forall i :: 0 <= i < n ==> cells[..n][i] == cells[i];
    }
  }

  lemma {:induction false} RowMapLast(cells: seq<(string, Option<string>)>, i: nat)
    requires i < |cells| && forall j :: i < j < |cells| ==> cells[j].0 != cells[i].0
    ensures cells[i].0 in RowMap(cells) && RowMap(cells)[cells[i].0] == Shown(cells[i].1)
    decreases |cells|
  {
    var n := |cells| - 1;
    if i < n {
      assert forall j :: 0 <= j < n ==> cells[..n][j] == cells[j];
      RowMapLast(cells[..n], i);
      assert cells[n].0 != cells[i].0;
    }
  }

  lemma RowMapIs(cells: seq<(string, Option<string>)>)
    ensures RowIs(cells, RowMap(cells))
  {
    hide RowMap;
    forall name
      ensures name in RowMap(cells) <==> exists i :: 0 <= i < |cells| && cells[i].0 == name
    {
      RowMapHas(cells, name);
    }
    forall i | 0 <= i < |cells| && (forall j :: i < j < |cells| ==> cells[j].0 != cells[i].0)
      ensures cells[i].0 in RowMap(cells) && RowMap(cells)[cells[i].0] == Shown(cells[i].1)
    {
      RowMapLast(cells, i);
    }
  }

  lemma {:induction false} RowsInAre(messages: seq<Message>)
    ensures RowsAre(messages, RowsIn(messages))
  {
    hide RowIs, RowMap;
    if messages != [] {
      var n := |messages| - 1;
      RowsInAre(messages[..n]);
      var front := RowsIn(messages[..n]);
      if messages[n].RowData? {
        RowMapIs(messages[n].cells);
        assert RowsIn(messages) == front + [RowMap(messages[n].cells)];
      } else {
        assert RowsIn(messages) == front + [];
        assert front + [] == front;
      }
    }
  }

  lemma {:induction false} DescriptionLast(messages: seq<Message>, begin: nat, end: nat, at: nat)
    requires begin <= at <= end < |messages| && Began(messages, begin, end)
    ensures DescriptionBefore(messages, at).Some? ==>
      DescriptionBefore(messages, at).value >= begin &&
        Describes(messages, begin, at, DescriptionBefore(messages, at).value)
    decreases at
  {
    DescriptionOwn(messages, begin, end, at);
    if at > begin && !messages[at - 1].RowDescription? {
      DescriptionLast(messages, begin, end, at - 1);
    }
  }

  // The result shows the last completed statement as its messages are, and without one nothing is affected.
  lemma OutcomeExactly(messages: seq<Message>, begin: nat, end: nat)
    requires end < |messages| && messages[end].CommandComplete? && Began(messages, begin, end)
    requires forall i :: end < i < |messages| ==> !messages[i].CommandComplete?
    ensures Shows(messages, begin, end, Outcome(messages))
  {
    hide LastComplete, RowsIn, RowsAre, DescriptionBefore;
    LastCompleteIs(messages, end);
    DescriptionOwn(messages, begin, end, end);
    DescriptionLast(messages, begin, end, end);
    var description := DescriptionBefore(messages, end);
    if description.Some? {
      RowsInAre(messages[description.value + 1..end]);
    }
  }

  lemma {:induction false} NothingCompleted(messages: seq<Message>)
    requires forall i :: 0 <= i < |messages| ==> !messages[i].CommandComplete?
    ensures LastComplete(messages).None? && Counts(Outcome(messages), 0)
  {
    if messages != [] {
      NothingCompleted(messages[..|messages| - 1]);
    }
  }
}

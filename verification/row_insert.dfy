/** Rows inserted in batches of numbered parameters. */
module RowInsert {
  import opened Options
  import opened Gathering

  type Cell = Option<string>

  // The row count of one statement.
  const CHUNK := 500

  // `VALUES ($1, …), …` with the parameters it is sent with.
  datatype Insert = Insert(placeholders: seq<seq<nat>>, parameters: seq<Cell>)

  function Numbers(width: nat, row: nat): seq<nat> {
    seq(width, c requires 0 <= c < width => row * width + c + 1)
  }

  function Placeholders(width: nat, count: nat): seq<seq<nat>> {
    seq(count, r requires 0 <= r < count => Numbers(width, r))
  }

  function WholeRow(): seq<Cell> -> seq<Cell> { (row: seq<Cell>) => row }

  function Flattened(rows: seq<seq<Cell>>): seq<Cell> { Gather(rows, WholeRow()) }

  function InsertOf(width: nat, chunk: seq<seq<Cell>>): Insert {
    Insert(Placeholders(width, |chunk|), Flattened(chunk))
  }

  // `chunks(500)`
  function Chunks(rows: seq<seq<Cell>>): seq<seq<seq<Cell>>>
    decreases |rows|
  {
    if rows == [] then []
    else if |rows| <= CHUNK then [rows]
    else [rows[..CHUNK]] + Chunks(rows[CHUNK..])
  }

  function InsertsOf(width: nat, chunks: seq<seq<seq<Cell>>>): seq<Insert> {
    seq(|chunks|, i requires 0 <= i < |chunks| => InsertOf(width, chunks[i]))
  }

  method BuildInsert(width: nat, chunk: seq<seq<Cell>>) returns (insert: Insert)
    ensures insert == InsertOf(width, chunk)
  {
    var placeholders: seq<seq<nat>> := [];
    for r := 0 to |chunk|
      invariant placeholders == Placeholders(width, |chunk|)[..r]
    {
      var numbers: seq<nat> := [];
      for c := 0 to width
        invariant numbers == Numbers(width, r)[..c]
      {
        numbers := numbers + [r * width + c + 1];
      }
      assert numbers == Numbers(width, r);
      placeholders := placeholders + [numbers];
    }
    var flat: seq<Cell> := [];
    for r := 0 to |chunk|
      invariant flat == Flattened(chunk[..r])
    {
      GatherStep(chunk, r, WholeRow());
      flat := flat + chunk[r];
    }
    assert chunk[..|chunk|] == chunk;
    insert := Insert(placeholders, flat);
  }

  lemma {:induction false} ChunkSizes(rows: seq<seq<Cell>>)
    ensures forall chunk <- Chunks(rows) :: 1 <= |chunk| <= 500
    ensures forall i :: 0 <= i < |Chunks(rows)| - 1 ==> |Chunks(rows)[i]| == 500
    ensures Gather(Chunks(rows), AllRows()) == rows
    decreases |rows|
  {
    if rows == [] {
    } else if |rows| <= CHUNK {
      GatherFirst([rows], AllRows());
      assert [rows][1..] == [] && rows + [] == rows;
    } else {
      ChunkSizes(rows[CHUNK..]);
      GatherFirst(Chunks(rows), AllRows());
      assert Chunks(rows)[1..] == Chunks(rows[CHUNK..]);
      assert rows == rows[..CHUNK] + rows[CHUNK..];
    }
  }

  function AllRows(): seq<seq<Cell>> -> seq<seq<Cell>> { (chunk: seq<seq<Cell>>) => chunk }

  lemma {:induction false} CountRows(chunks: seq<seq<seq<Cell>>>, i: nat)
    requires i < |chunks|
    ensures |Gather(chunks[..i + 1], AllRows())| == |Gather(chunks[..i], AllRows())| + |chunks[i]|
  {
    GatherStep(chunks, i, AllRows());
  }

  // The statements that are sent, and how many rows they insert.
  method ImportTableRows(width: nat, rows: seq<seq<Cell>>) returns (sent: seq<Insert>, inserted: nat)
    ensures sent == InsertsOf(width, Chunks(rows)) && inserted == |rows|
  {
    hide InsertOf, Chunks;
    sent, inserted := [], 0;
    ChunkSizes(rows);
    if rows == [] {
      NoChunks();
      return;
    }
    var chunks := Chunks(rows);
    for i := 0 to |chunks|
      invariant sent == InsertsOf(width, chunks)[..i] && inserted == |Gather(chunks[..i], AllRows())|
    {
      CountRows(chunks, i);
      var insert := BuildInsert(width, chunks[i]);
      sent := sent + [insert];
      inserted := inserted + |chunks[i]|;
    }
    assert chunks[..|chunks|] == chunks;
  }

  lemma NoChunks()
    ensures Chunks([]) == []
  {
  }

  /* ---- Which cell each placeholder stands for ---- */

  predicate AllWide(rows: seq<seq<Cell>>, width: nat) { forall r :: 0 <= r < |rows| ==> |rows[r]| == width }

  lemma {:induction false} FlattenedAt(rows: seq<seq<Cell>>, width: nat, r: nat, c: nat)
    requires AllWide(rows, width) && r < |rows| && c < width
    ensures |Flattened(rows)| == |rows| * width
    ensures r * width + c < |rows| * width && Flattened(rows)[r * width + c] == rows[r][c]
  {
    var n := |rows| - 1;
    FlattenedLength(rows[..n], width);
    FlattenedLength(rows, width);
    assert |rows| * width == n * width + width;
    if r < n {
      FlattenedAt(rows[..n], width, r, c);
    }
  }

  lemma {:induction false} FlattenedLength(rows: seq<seq<Cell>>, width: nat)
    requires AllWide(rows, width)
    ensures |Flattened(rows)| == |rows| * width
  {
    if rows != [] {
      FlattenedLength(rows[..|rows| - 1], width);
      assert |rows| * width == (|rows| - 1) * width + width;
    }
  }

  // In every statement, placeholder (r, c) is bound to cell (r, c) of its chunk, when rows are as wide as the columns.
  lemma PlaceholderBinds(width: nat, chunk: seq<seq<Cell>>, r: nat, c: nat)
    requires AllWide(chunk, width) && r < |chunk| && c < width
    ensures var insert := InsertOf(width, chunk); var n := insert.placeholders[r][c];
      1 <= n <= |insert.parameters| && insert.parameters[n - 1] == chunk[r][c]
  {
    FlattenedAt(chunk, width, r, c);
  }

  function NumberRow(): seq<nat> -> seq<nat> { (numbers: seq<nat>) => numbers }

  // Read in print order, the placeholders are `$1` to the last parameter, each once.
  lemma {:induction false} PlaceholdersCount(width: nat, count: nat)
    ensures |Gather(Placeholders(width, count), NumberRow())| == count * width
    ensures forall i :: 0 <= i < count * width ==> Gather(Placeholders(width, count), NumberRow())[i] == i + 1
  {
    if count == 0 {
      assert Placeholders(width, 0) == [];
    } else {
      var n := count - 1;
      var all := Placeholders(width, count);
      assert all[..n] == Placeholders(width, n) && all[n] == Numbers(width, n);
      PlaceholdersCount(width, n);
      assert count * width == n * width + width;
      assert Gather(all, NumberRow()) == Gather(all[..n], NumberRow()) + Numbers(width, n);
    }
  }
}

/** JSON files as the importer reads them, once the JSON text itself is decoded. */
module JsonImport {
  import opened Options
  import opened Gathering
  import opened Csv

  // Numbers, arrays and objects inside a field are kept as their JSON spelling.
  datatype Json = JsonNull | JsonText(text: string) | JsonBool(flag: bool) | JsonSpelled(spelling: string)

  // One array item as it is written: keys may repeat.
  datatype JsonItem = JsonObject(entries: seq<(string, Json)>) | JsonOther

  datatype Decoded = NotJson | NotArray | JsonArray(items: seq<JsonItem>)

  type Fields = seq<(string, Json)>

  function JsonCell(value: Json): Cell {
    match value
    case JsonNull => None
    case JsonText(text) => Some(text)
    case JsonBool(flag) => Some(if flag then "true" else "false")
    case JsonSpelled(spelling) => Some(spelling)
  }

  // The value a key has in the end: the last one written.
  function LastValue(entries: Fields, key: string): Option<Json> {
    if entries == [] then None
    else if entries[|entries| - 1].0 == key then Some(entries[|entries| - 1].1)
    else LastValue(entries[..|entries| - 1], key)
  }

  function KeyPart(): ((string, Json)) -> seq<string> { (entry: (string, Json)) => [entry.0] }

  function EntryKeys(entries: Fields): seq<string> { Gather(entries, KeyPart()) }

  // Every name where it was first seen.
  function FirstSeen(names: seq<string>): seq<string> {
    if names == [] then []
    else
      var n := |names| - 1;
      var before := FirstSeen(names[..n]);
      if names[n] in before then before else before + [names[n]]
  }

  function ItemKeys(): JsonItem -> seq<string> {
    (item: JsonItem) => if item.JsonObject? then EntryKeys(item.entries) else []
  }

  function AllKeys(items: seq<JsonItem>): seq<string> { FirstSeen(Gather(items, ItemKeys())) }

  // The position of the first item that is no object.
  function FirstOther(items: seq<JsonItem>): Option<nat> {
    if items == [] then None
    else
      var n := |items| - 1;
      var before := FirstOther(items[..n]);
      if before.Some? then before else if items[n].JsonOther? then Some(n) else None
  }

  function CellOf(entries: Fields, key: string): Cell {
    var value := LastValue(entries, key);
    if value.None? then None else JsonCell(value.value)
  }

  function RowOf(columns: seq<string>, entries: Fields): seq<Cell> {
    seq(|columns|, c requires 0 <= c < |columns| => CellOf(entries, columns[c]))
  }

  function RowPart(columns: seq<string>): JsonItem -> seq<seq<Cell>> {
    (item: JsonItem) => if item.JsonObject? then [RowOf(columns, item.entries)] else []
  }

  // Columns are the keys in the order they are first seen; a missing key is NULL.
  function ParsedJson(decoded: Decoded): Result<ParsedImport, ImportParseError> {
    match decoded
    case NotJson => Err(InvalidJson)
    case NotArray => Err(JsonNotArrayOfObjects(0))
    case JsonArray(items) =>
      var other := FirstOther(items);
      if other.Some? then Err(JsonNotArrayOfObjects(other.value + 1))
      else
        var columns := AllKeys(items);
        if columns == [] then Err(Empty) else Ok(ParsedImport(columns, Gather(items, RowPart(columns))))
  }

  /* ---- Reading one object ---- */

  ghost predicate DistinctKeys(fields: Fields) {
    forall i, j :: 0 <= i < j < |fields| ==> fields[i].0 != fields[j].0
  }

  // The fields hold each key once, in the order first seen, with its last value.
  ghost predicate Collects(fields: Fields, entries: Fields) {
    DistinctKeys(fields) && EntryKeys(fields) == FirstSeen(EntryKeys(entries)) &&
    forall k: nat :: k < |fields| ==> LastValue(entries, fields[k].0) == Some(fields[k].1)
  }

  lemma {:induction false} EntryKeysAre(entries: Fields)
    ensures |EntryKeys(entries)| == |entries|
    ensures forall i :: 0 <= i < |entries| ==> EntryKeys(entries)[i] == entries[i].0
  {
    if entries != [] {
      EntryKeysAre(entries[..|entries| - 1]);
    }
  }

  method Position(fields: Fields, key: string) returns (position: Option<nat>)
    ensures position.Some? ==> position.value < |fields| && fields[position.value].0 == key
    ensures position.None? ==> forall i :: 0 <= i < |fields| ==> fields[i].0 != key
  {
    for i := 0 to |fields|
      invariant forall k :: 0 <= k < i ==> fields[k].0 != key
    {
      if fields[i].0 == key {
        return Some(i);
      }
    }
    return None;
  }

  lemma FirstSeenNext(entries: Fields, i: nat)
    requires i < |entries|
    ensures EntryKeys(entries[..i + 1]) == EntryKeys(entries[..i]) + [entries[i].0]
    ensures var before := FirstSeen(EntryKeys(entries[..i]));
      FirstSeen(EntryKeys(entries[..i + 1])) == if entries[i].0 in before then before else before + [entries[i].0]
  {
    GatherStep(entries, i, KeyPart());
    var keys := EntryKeys(entries[..i + 1]);
    assert keys[..|keys| - 1] == EntryKeys(entries[..i]);
  }

  lemma LastValueNext(entries: Fields, i: nat, key: string)
    requires i < |entries|
    ensures LastValue(entries[..i + 1], key) ==
      if entries[i].0 == key then Some(entries[i].1) else LastValue(entries[..i], key)
  {
    assert entries[..i + 1][..i] == entries[..i];
  }

  lemma CollectsNext(fields: Fields, entries: Fields, i: nat, position: Option<nat>, after: Fields)
    requires i < |entries| && Collects(fields, entries[..i])
    requires position.Some? ==> position.value < |fields| && fields[position.value].0 == entries[i].0
    requires position.None? ==> forall k :: 0 <= k < |fields| ==> fields[k].0 != entries[i].0
    requires after == if position.Some? then fields[position.value := entries[i]] else fields + [entries[i]]
    ensures Collects(after, entries[..i + 1])
  {
    FirstSeenNext(entries, i);
    EntryKeysAre(fields);
    EntryKeysAre(after);
    assert entries[i].0 in EntryKeys(fields) <==> position.Some?;
    forall k: nat | k < |after|
      ensures LastValue(entries[..i + 1], after[k].0) == Some(after[k].1)
    {
      LastValueNext(entries, i, after[k].0);
    }
    if position.Some? {
      assert EntryKeys(after) == EntryKeys(fields);
    } else {
      assert EntryKeys(after) == EntryKeys(fields) + [entries[i].0];
    }
  }

  method VisitMap(entries: Fields) returns (fields: Fields)
    ensures Collects(fields, entries)
  {
    hide Collects;
    fields := [];
    CollectsNothing();
    assert entries[..0] == [];
    for i := 0 to |entries|
      invariant Collects(fields, entries[..i])
    {
      ghost var before := fields;
      var position := Position(fields, entries[i].0);
      if position.Some? {
        fields := fields[position.value := entries[i]];
      } else {
        fields := fields + [entries[i]];
      }
      CollectsNext(before, entries, i, position, fields);
    }
    assert entries[..|entries|] == entries;
  }

  lemma CollectsNothing()
    ensures Collects([], [])
  {
  }

  /* ---- Reading the file ---- */

  lemma {:induction false} FirstSeenMembers(names: seq<string>)
    ensures forall n :: n in FirstSeen(names) <==> n in names
    ensures forall i, j :: 0 <= i < j < |FirstSeen(names)| ==> FirstSeen(names)[i] != FirstSeen(names)[j]
  {
    if names != [] {
      FirstSeenMembers(names[..|names| - 1]);
      assert names == names[..|names| - 1] + [names[|names| - 1]];
    }
  }

  lemma OneMoreName(a: seq<string>, b: seq<string>, n: string)
    requires FirstSeen(a + FirstSeen(b)) == FirstSeen(a + b)
    ensures FirstSeen(a + FirstSeen(b + [n])) == FirstSeen(a + b + [n])
  {
    hide FirstSeen;
    FirstSeenStep(b, n);
    FirstSeenStep(a + b, n);
    FirstSeenMembers(b);
    FirstSeenMembers(a + b);
    if n in FirstSeen(b) {
      assert n in b && n in a + b;
    } else {
      assert a + (FirstSeen(b) + [n]) == a + FirstSeen(b) + [n];
      FirstSeenStep(a + FirstSeen(b), n);
    }
  }

  lemma FirstSeenStep(names: seq<string>, n: string)
    ensures FirstSeen(names + [n]) == if n in FirstSeen(names) then FirstSeen(names) else FirstSeen(names) + [n]
  {
    assert (names + [n])[..|names|] == names;
  }

  lemma {:induction false} FirstSeenTwice(a: seq<string>, b: seq<string>)
    ensures FirstSeen(a + FirstSeen(b)) == FirstSeen(a + b)
  {
    if b != [] {
      var n := |b| - 1;
      FirstSeenTwice(a, b[..n]);
      OneMoreName(a, b[..n], b[n]);
      assert b == b[..n] + [b[n]] && a + b == a + b[..n] + [b[n]];
    } else {
      assert a + FirstSeen(b) == a + b;
    }
  }

  // Columns seen so far and where each is.
  ghost predicate Indexed(columns: seq<string>, index: map<string, nat>) {
    (forall n :: n in index <==> n in columns) &&
    forall n <- index :: index[n] < |columns| && columns[index[n]] == n
  }

  method AddColumns(columns: seq<string>, index: map<string, nat>, fields: Fields)
      returns (wider: seq<string>, positions: map<string, nat>)
    requires Indexed(columns, index) && columns == FirstSeen(columns)
    ensures Indexed(wider, positions) && wider == FirstSeen(columns + EntryKeys(fields))
  {
    wider, positions := columns, index;
    assert columns + [] == columns;
    for i := 0 to |fields|
      invariant Indexed(wider, positions) && wider == FirstSeen(columns + EntryKeys(fields[..i]))
    {
      GatherStep(fields, i, KeyPart());
      var key := fields[i].0;
      var seen := columns + EntryKeys(fields[..i]);
      assert columns + EntryKeys(fields[..i + 1]) == seen + [key];
      assert (seen + [key])[..|seen|] == seen;
      if key !in positions {
        positions := positions[key := |wider|];
        wider := wider + [key];
      }
    }
    assert fields[..|fields|] == fields;
  }

  lemma CollectedCell(fields: Fields, entries: Fields, i: nat, key: string)
    requires Collects(fields, entries) && i <= |fields|
    ensures (exists k :: 0 <= k < |fields| && fields[k].0 == key) <==> LastValue(entries, key).Some?
  {
    EntryKeysAre(fields);
    FirstSeenMembers(EntryKeys(entries));
    LastValueKnown(entries, key);
    assert key in EntryKeys(fields) <==> exists k :: 0 <= k < |fields| && fields[k].0 == key;
  }

  lemma {:induction false} LastValueKnown(entries: Fields, key: string)
    ensures LastValue(entries, key).Some? <==> key in EntryKeys(entries)
  {
    if entries != [] {
      LastValueKnown(entries[..|entries| - 1], key);
    }
  }

  // A row of NULLs with the object's fields filled in.
  method FillRow(columns: seq<string>, index: map<string, nat>, fields: Fields,
                 ghost entries: Fields) returns (row: seq<Cell>)
    requires Indexed(columns, index) && Collects(fields, entries) && forall f <- fields :: f.0 in index
    requires forall i, j :: 0 <= i < j < |columns| ==> columns[i] != columns[j]
    ensures row == RowOf(columns, entries)
  {
    row := seq(|columns|, c => None);
    for i := 0 to |fields|
      invariant |row| == |columns|
      invariant forall c :: 0 <= c < |columns| ==>
        row[c] == if exists k :: 0 <= k < i && fields[k].0 == columns[c] then CellOf(entries, columns[c]) else None
    {
      var p := index[fields[i].0];
      row := row[p := JsonCell(fields[i].1)];
      assert LastValue(entries, fields[i].0) == Some(fields[i].1);
      forall c | 0 <= c < |columns|
        ensures row[c] ==
          if exists k :: 0 <= k < i + 1 && fields[k].0 == columns[c] then CellOf(entries, columns[c]) else None
      {
        if c == p {
          assert fields[i].0 == columns[c];
        } else {
          assert fields[i].0 != columns[c];
        }
      }
    }
    forall c | 0 <= c < |columns|
      ensures row[c] == CellOf(entries, columns[c])
    {
      CollectedCell(fields, entries, |fields|, columns[c]);
    }
  }

  // The objects of the file, each with its fields.
  ghost predicate Read(objects: seq<Fields>, items: seq<JsonItem>) {
    |objects| == |items| &&
    forall i: nat :: i < |items| ==> items[i].JsonObject? && Collects(objects[i], items[i].entries)
  }

  lemma KeysNext(items: seq<JsonItem>, i: nat, fields: Fields)
    requires i < |items| && items[i].JsonObject? && Collects(fields, items[i].entries)
    ensures AllKeys(items[..i + 1]) == FirstSeen(AllKeys(items[..i]) + EntryKeys(fields))
  {
    GatherStep(items, i, ItemKeys());
    var before := Gather(items[..i], ItemKeys());
    FirstSeenTwice(before, EntryKeys(items[i].entries));
    FirstSeenFront(before, EntryKeys(fields));
  }

  lemma {:induction false} FirstSeenFront(a: seq<string>, b: seq<string>)
    ensures FirstSeen(FirstSeen(a) + b) == FirstSeen(a + b)
  {
    if b == [] {
      assert FirstSeen(a) + b == FirstSeen(a) && a + b == a;
      FirstSeenOnce(a);
    } else {
      var n := |b| - 1;
      FirstSeenFront(a, b[..n]);
      assert (a + b)[..|a| + n] == a + b[..n];
      assert (FirstSeen(a) + b)[..|FirstSeen(a)| + n] == FirstSeen(a) + b[..n];
    }
  }

  lemma {:induction false} FirstSeenOnce(names: seq<string>)
    ensures FirstSeen(FirstSeen(names)) == FirstSeen(names)
  {
    FirstSeenTwice([], names);
    assert [] + FirstSeen(names) == FirstSeen(names) && [] + names == names;
  }

  lemma AllKeysOnce(items: seq<JsonItem>)
    ensures FirstSeen(AllKeys(items)) == AllKeys(items)
  {
    FirstSeenOnce(Gather(items, ItemKeys()));
  }

  lemma ReadNext(objects: seq<Fields>, items: seq<JsonItem>, i: nat, fields: Fields)
    requires i < |items| && Read(objects, items[..i]) && items[i].JsonObject? && Collects(fields, items[i].entries)
    ensures Read(objects + [fields], items[..i + 1])
  {
    hide Collects;
    assert items[..i + 1] == items[..i] + [items[i]];
  }

  lemma ReadNothing(items: seq<JsonItem>)
    ensures FirstOther(items[..0]).None? && AllKeys(items[..0]) == [] && Read([], items[..0]) && Indexed([], map[])
  {
  }

  lemma OtherNext(items: seq<JsonItem>, i: nat)
    requires i < |items| && FirstOther(items[..i]).None?
    ensures FirstOther(items[..i + 1]) == if items[i].JsonOther? then Some(i) else None
  {
    assert items[..i + 1][..i] == items[..i];
  }

  method ReadObjects(items: seq<JsonItem>)
      returns (other: Option<nat>, columns: seq<string>, index: map<string, nat>, objects: seq<Fields>)
    ensures other == FirstOther(items)
    ensures other.None? ==> columns == AllKeys(items) && Indexed(columns, index) && Read(objects, items)
  {
    hide AllKeys, Read, Indexed, FirstOther, Collects, EntryKeys, FirstSeen;
    columns, index, objects := [], map[], [];
    ReadNothing(items);
    for i := 0 to |items|
      invariant FirstOther(items[..i]).None?
      invariant columns == AllKeys(items[..i]) && Indexed(columns, index) && Read(objects, items[..i])
    {
      OtherNext(items, i);
      if items[i].JsonOther? {
        OtherStays(items, i + 1);
        return Some(i), columns, index, objects;
      }
      var fields := VisitMap(items[i].entries);
      KeysNext(items, i, fields);
      AllKeysOnce(items[..i]);
      ReadNext(objects, items, i, fields);
      columns, index := AddColumns(columns, index, fields);
      objects := objects + [fields];
    }
    assert items[..|items|] == items;
    other := None;
  }

  lemma {:induction false} OtherStays(items: seq<JsonItem>, i: nat)
    requires i <= |items| && FirstOther(items[..i]).Some?
    ensures FirstOther(items) == FirstOther(items[..i])
    decreases |items|
  {
    if i == |items| {
      assert items[..i] == items;
    } else {
      assert items[..|items| - 1][..i] == items[..i];
      OtherStays(items[..|items| - 1], i);
    }
  }

  lemma {:induction false} FieldsIndexed(items: seq<JsonItem>, i: nat, fields: Fields)
    requires i < |items| && items[i].JsonObject? && Collects(fields, items[i].entries)
    ensures forall f <- fields :: f.0 in AllKeys(items)
  {
    FirstSeenMembers(EntryKeys(items[i].entries));
    FirstSeenMembers(Gather(items, ItemKeys()));
    EntryKeysAre(fields);
    forall f | f in fields
      ensures f.0 in AllKeys(items)
    {
      var k: nat :| k < |fields| && fields[k] == f;
      assert EntryKeys(fields)[k] == f.0;
      GatherMember(items, ItemKeys(), f.0);
      assert items[i] in items && f.0 in ItemKeys()(items[i]);
    }
  }

  method FillRows(columns: seq<string>, index: map<string, nat>, objects: seq<Fields>, ghost items: seq<JsonItem>)
      returns (rows: seq<seq<Cell>>)
    requires Read(objects, items) && columns == AllKeys(items) && Indexed(columns, index)
    ensures rows == Gather(items, RowPart(columns))
  {
    hide Indexed, Collects, RowOf, AllKeys, LastValue;
    rows := [];
    AllKeysDistinct(items);
    for i := 0 to |objects|
      invariant rows == Gather(items[..i], RowPart(columns))
    {
      GatherStep(items, i, RowPart(columns));
      FieldsIndexed(items, i, objects[i]);
      IndexedAll(columns, index, objects[i]);
      var row := FillRow(columns, index, objects[i], items[i].entries);
      rows := rows + [row];
    }
    assert items[..|items|] == items;
  }

  lemma AllKeysDistinct(items: seq<JsonItem>)
    ensures var columns := AllKeys(items); forall i, j :: 0 <= i < j < |columns| ==> columns[i] != columns[j]
  {
    FirstSeenMembers(Gather(items, ItemKeys()));
  }

  lemma IndexedAll(columns: seq<string>, index: map<string, nat>, fields: Fields)
    requires Indexed(columns, index) && forall f <- fields :: f.0 in columns
    ensures forall f <- fields :: f.0 in index
  {
  }

  method ParseJson(decoded: Decoded) returns (parsed: Result<ParsedImport, ImportParseError>)
    ensures parsed == ParsedJson(decoded)
  {
    hide Indexed, AllKeys, Read, Gather, FirstOther;
    match decoded {
    case NotJson => return Err(InvalidJson);
    case NotArray => return Err(JsonNotArrayOfObjects(0));
    case JsonArray(items) =>
      var other, columns, index, objects := ReadObjects(items);
      if other.Some? {
        return Err(JsonNotArrayOfObjects(other.value + 1));
      }
      if columns == [] {
        return Err(Empty);
      }
      var rows := FillRows(columns, index, objects, items);
      return Ok(ParsedImport(columns, rows));
    }
  }

  /* ---- What it promises ---- */

  lemma {:induction false} RowsAre(columns: seq<string>, items: seq<JsonItem>)
    requires FirstOther(items).None?
    ensures |Gather(items, RowPart(columns))| == |items|
    ensures forall i :: 0 <= i < |items| ==>
      items[i].JsonObject? && Gather(items, RowPart(columns))[i] == RowOf(columns, items[i].entries)
  {
    if items != [] {
      RowsAre(columns, items[..|items| - 1]);
    }
  }

  // An accepted file has distinct columns, namely the keys, and one row an object: each cell is the text of the last
  // value the object gives its key, and NULL if it gives none.
  lemma AcceptedJson(items: seq<JsonItem>)
    requires ParsedJson(JsonArray(items)).Ok?
    ensures var p := ParsedJson(JsonArray(items)).value;
      p.columns != [] && (forall i, j :: 0 <= i < j < |p.columns| ==> p.columns[i] != p.columns[j]) &&
      (forall n :: n in p.columns <==> exists item <- items :: item.JsonObject? && LastValue(item.entries, n).Some?) &&
      |p.rows| == |items| &&
      forall i :: 0 <= i < |items| ==>
        items[i].JsonObject? && |p.rows[i]| == |p.columns| &&
        forall c :: 0 <= c < |p.columns| ==> p.rows[i][c] == CellOf(items[i].entries, p.columns[c])
  {
    var columns := AllKeys(items);
    FirstSeenMembers(Gather(items, ItemKeys()));
    RowsAre(columns, items);
    forall n
      ensures n in columns <==> exists item <- items :: item.JsonObject? && LastValue(item.entries, n).Some?
    {
      GatherMember(items, ItemKeys(), n);
      forall item | item in items && item.JsonObject?
        ensures n in ItemKeys()(item) <==> LastValue(item.entries, n).Some?
      {
        LastValueKnown(item.entries, n);
      }
    }
  }

  /* ---- Key by key and cell by cell ---- */

  // The position of the last value of a key.
  ghost predicate LastAt(entries: Fields, key: string, k: int) {
    0 <= k < |entries| && entries[k].0 == key && forall l :: k < l < |entries| ==> entries[l].0 != key
  }

  // NULL for a key without a value or with the value null; text as it is, and everything else as JSON spells it.
  ghost predicate CellIs(entries: Fields, key: string, cell: Cell) {
    if exists k :: LastAt(entries, key, k) then
      exists k :: LastAt(entries, key, k) && match entries[k].1
        case JsonNull => cell.None?
        case JsonText(text) => cell == Some(text)
        case JsonBool(flag) => cell == Some(if flag then ['t', 'r', 'u', 'e'] else ['f', 'a', 'l', 's', 'e'])
        case JsonSpelled(spelling) => cell == Some(spelling)
    else cell.None?
  }

  lemma {:induction false} LastValueAt(entries: Fields, key: string) returns (k: int)
    ensures LastValue(entries, key).Some? ==> LastAt(entries, key, k) && LastValue(entries, key) == Some(entries[k].1)
    ensures LastValue(entries, key).None? ==> forall l :: 0 <= l < |entries| ==> entries[l].0 != key
  {
    k := 0;
    if entries != [] {
      var n := |entries| - 1;
      if entries[n].0 == key {
        k := n;
      } else {
        k := LastValueAt(entries[..n], key);
        assert forall l :: 0 <= l < n ==> entries[..n][l] == entries[l];
      }
    }
  }

  lemma CellExactly(entries: Fields, key: string)
    ensures CellIs(entries, key, CellOf(entries, key))
  {
    var k := LastValueAt(entries, key);
    if LastValue(entries, key).Some? {
      assert LastAt(entries, key, k);
    } else {
      assert forall l :: !LastAt(entries, key, l);
    }
  }

  // The key is there before the entry `k` of the item `i`.
  ghost predicate SeenBefore(items: seq<JsonItem>, i: nat, k: nat, key: string) {
    (exists j, l :: 0 <= j < i && j < |items| && Holds(items[j], l, key)) ||
    (i < |items| && exists l :: 0 <= l < k && Holds(items[i], l, key))
  }

  predicate Holds(item: JsonItem, l: int, key: string) {
    item.JsonObject? && 0 <= l < |item.entries| && item.entries[l].0 == key
  }

  // The one column is seen before the other.
  ghost predicate SeenFirst(items: seq<JsonItem>, first: string, second: string) {
    exists i: nat, k: nat :: SeenBefore(items, i, k, first) && !SeenBefore(items, i, k, second)
  }

  lemma {:induction false} FirstSeenOrder(names: seq<string>, i: nat, j: nat) returns (p: nat)
    requires i < j < |FirstSeen(names)|
    ensures p <= |names| && FirstSeen(names)[i] in names[..p] && FirstSeen(names)[j] !in names[..p]
  {
    var n := |names| - 1;
    var before := FirstSeen(names[..n]);
    FirstSeenMembers(names[..n]);
    if j < |before| {
      p := FirstSeenOrder(names[..n], i, j);
      assert names[..n][..p] == names[..p];
    } else {
      p := n;
      assert before[i] in before;
    }
  }

  lemma {:induction false} KeysSplit(items: seq<JsonItem>, p: nat) returns (i: nat, k: nat)
    requires p <= |Gather(items, ItemKeys())|
    ensures forall key :: key in Gather(items, ItemKeys())[..p] <==> SeenBefore(items, i, k, key)
  {
    if items == [] {
      i, k := 0, 0;
    } else {
      var n := |items| - 1;
      var front := Gather(items[..n], ItemKeys());
      if p <= |front| {
        var a, b := KeysSplit(items[..n], p);
        assert Gather(items, ItemKeys())[..p] == front[..p];
        FrontSeen(items, a, b);
        i, k := if a >= n then n else a, if a >= n then 0 else b;
      } else {
        i, k := n, p - |front|;
        WholeSeen(items, k);
      }
    }
  }

  lemma FrontSeen(items: seq<JsonItem>, i: nat, k: nat)
    requires items != []
    ensures var n := |items| - 1; forall key ::
      SeenBefore(items[..n], i, k, key) <==> SeenBefore(items, if i >= n then n else i, if i >= n then 0 else k, key)
  {
    var n := |items| - 1;
    assert forall j :: 0 <= j < n ==> items[..n][j] == items[j];
  }

  lemma WholeSeen(items: seq<JsonItem>, k: nat)
    requires items != []
    requires var n := |items| - 1; |Gather(items[..n], ItemKeys())| + k <= |Gather(items, ItemKeys())|
    ensures var n := |items| - 1; forall key ::
      key in Gather(items, ItemKeys())[..|Gather(items[..n], ItemKeys())| + k] <==> SeenBefore(items, n, k, key)
  {
    var n := |items| - 1;
    var front, last := Gather(items[..n], ItemKeys()), ItemKeys()(items[n]);
    assert Gather(items, ItemKeys())[..|front| + k] == front + last[..k];
    hide Gather, ItemKeys, Holds;
    forall key
      ensures key in front <==> exists j, l :: 0 <= j < n && Holds(items[j], l, key)
      ensures key in last[..k] <==> exists l :: 0 <= l < k && Holds(items[n], l, key)
    {
      KeysHeld(items[..n], key);
      assert forall j :: 0 <= j < n ==> items[..n][j] == items[j];
      KeysOfItem(items[n], k, key);
    }
  }

  lemma KeysOfItem(item: JsonItem, k: nat, key: string)
    requires k <= |ItemKeys()(item)|
    ensures key in ItemKeys()(item)[..k] <==> exists l :: 0 <= l < k && Holds(item, l, key)
  {
    var keys := ItemKeys()(item);
    if item.JsonObject? {
      hide EntryKeys;
      EntryKeysAre(item.entries);
      if l :| 0 <= l < k && Holds(item, l, key) {
        assert keys[..k][l] == key;
      }
      if key in keys[..k] {
        var l :| 0 <= l < k && keys[..k][l] == key;
        assert Holds(item, l, key);
      }
    }
  }

  lemma KeysHeld(items: seq<JsonItem>, key: string)
    ensures key in Gather(items, ItemKeys()) <==> exists j, l :: 0 <= j < |items| && Holds(items[j], l, key)
  {
    GatherMember(items, ItemKeys(), key);
    if item :| item in items && key in ItemKeys()(item) {
      var j :| 0 <= j < |items| && items[j] == item;
      EntryKeysAre(item.entries);
      var l :| 0 <= l < |item.entries| && EntryKeys(item.entries)[l] == key;
      assert Holds(items[j], l, key);
    }
    if j, l :| 0 <= j < |items| && Holds(items[j], l, key) {
      EntryKeysAre(items[j].entries);
      assert EntryKeys(items[j].entries)[l] == key;
      assert items[j] in items && key in ItemKeys()(items[j]);
    }
  }

  // Columns are the keys, each once, in the order they are first seen.
  lemma ColumnsExactly(items: seq<JsonItem>)
    ensures var columns := AllKeys(items);
      (forall key :: key in columns <==> exists j, l :: 0 <= j < |items| && Holds(items[j], l, key)) &&
      forall c, d :: 0 <= c < d < |columns| ==> columns[c] != columns[d] && SeenFirst(items, columns[c], columns[d])
  {
    var names, columns := Gather(items, ItemKeys()), AllKeys(items);
    FirstSeenMembers(names);
    forall key
      ensures key in names <==> exists j, l :: 0 <= j < |items| && Holds(items[j], l, key)
    {
      KeysHeld(items, key);
    }
    forall c, d | 0 <= c < d < |columns|
      ensures SeenFirst(items, columns[c], columns[d])
    {
      var p := FirstSeenOrder(names, c, d);
      var i, k := KeysSplit(items, p);
      assert SeenBefore(items, i, k, columns[c]) && !SeenBefore(items, i, k, columns[d]);
    }
  }

  lemma {:induction false} FirstOtherIs(items: seq<JsonItem>)
    ensures FirstOther(items).None? <==> forall i :: 0 <= i < |items| ==> items[i].JsonObject?
    ensures FirstOther(items).Some? ==>
      var i := FirstOther(items).value;
      i < |items| && items[i].JsonOther? && forall j :: 0 <= j < i ==> items[j].JsonObject?
  {
    if items != [] {
      FirstOtherIs(items[..|items| - 1]);
    }
  }

  // What a decoded file is read as, or why it is refused.
  ghost predicate JsonMeans(decoded: Decoded, result: Result<ParsedImport, ImportParseError>) {
    match decoded
    case NotJson => result == Err(InvalidJson)
    case NotArray => result == Err(JsonNotArrayOfObjects(0))
    case JsonArray(items) =>
      match result
      case Err(e) =>
        if exists i :: 0 <= i < |items| && items[i].JsonOther? then
          exists i: nat :: i < |items| && items[i].JsonOther? && (forall j :: 0 <= j < i ==> items[j].JsonObject?) &&
            e == JsonNotArrayOfObjects(i + 1)
        else e == Empty && forall i, l, key :: 0 <= i < |items| ==> !Holds(items[i], l, key)
      case Ok(p) =>
        p.columns != [] &&
        (forall key :: key in p.columns <==> exists j, l :: 0 <= j < |items| && Holds(items[j], l, key)) &&
        (forall c, d :: 0 <= c < d < |p.columns| ==>
           p.columns[c] != p.columns[d] && SeenFirst(items, p.columns[c], p.columns[d])) &&
        |p.rows| == |items| &&
        forall i :: 0 <= i < |items| ==>
          items[i].JsonObject? && |p.rows[i]| == |p.columns| &&
          forall c :: 0 <= c < |p.columns| ==> CellIs(items[i].entries, p.columns[c], p.rows[i][c])
  }

  lemma JsonExactly(decoded: Decoded)
    ensures JsonMeans(decoded, ParsedJson(decoded))
  {
    hide AllKeys, Holds, SeenFirst, CellIs, CellOf, FirstOther;
    if decoded.JsonArray? {
      var items := decoded.items;
      FirstOtherIs(items);
      ColumnsExactly(items);
      var columns := AllKeys(items);
      if FirstOther(items).None? {
        RowsAre(columns, items);
        forall i, c | 0 <= i < |items| && 0 <= c < |columns|
          ensures CellIs(items[i].entries, columns[c], RowOf(columns, items[i].entries)[c])
        {
          CellExactly(items[i].entries, columns[c]);
        }
        if columns == [] {
          forall i, l, key | 0 <= i < |items|
            ensures !Holds(items[i], l, key)
          {
            assert key !in columns;
          }
        }
      }
    }
  }
}

/** What a comparison reports about each object, said over the two snapshots. */
module Reports {
  import opened Options
  import opened Gathering
  import opened Names
  import opened Text
  import opened TextCorrect
  import opened Snapshots
  import opened Statements
  import opened Diff
  import opened ScriptOrder
  import opened Comparison
  import opened Database
  import opened Applies
  import opened Completeness
  import opened Destruction
  import opened Reordering
  import opened ObjectOrder
  import opened PhaseLists
  import opened DependencyOrder

  /* ---- Names, kinds and statuses ---- */

  datatype Group = SequenceGroup | TableGroup | ViewGroup | RoutineGroup

  function GroupOf(kind: ObjectKind): Group {
    match kind
    case SequenceObject => SequenceGroup
    case TableObject => TableGroup
    case ViewObject => ViewGroup
    case MaterializedViewObject => ViewGroup
    case FunctionObject => RoutineGroup
    case ProcedureObject => RoutineGroup
  }

  function NamesIn(s: SchemaSnapshot, g: Group): set<string> {
    match g
    case SequenceGroup => s.sequences.Keys
    case TableGroup => s.tables.Keys
    case ViewGroup => s.views.Keys
    case RoutineGroup => s.routines.Keys
  }

  // Added if only the source has the object, removed if only the target has it, changed if both have.
  predicate StatusRight(source: SchemaSnapshot, target: SchemaSnapshot, o: ObjectDiff) {
    var wanted, existing := o.name in NamesIn(source, GroupOf(o.kind)), o.name in NamesIn(target, GroupOf(o.kind));
    (o.status == Added <==> wanted && !existing) && (o.status == Removed <==> !wanted && existing) &&
    (o.status == Changed <==> wanted && existing)
  }

  // The source says whether a view is materialized and a routine a procedure; the target if the source lacks it.
  predicate KindRight(source: SchemaSnapshot, target: SchemaSnapshot, o: ObjectDiff) {
    (o.kind.ViewObject? || o.kind.MaterializedViewObject? ==>
       var side := if o.status == Removed then target else source;
       o.name in side.views && (o.kind.MaterializedViewObject? <==> side.views[o.name].materialized)) &&
    (o.kind.FunctionObject? || o.kind.ProcedureObject? ==>
       var side := if o.status == Removed then target else source;
       o.name in side.routines && (o.kind.ProcedureObject? <==> side.routines[o.name].procedure))
  }

  /* ---- Notes ---- */

  ghost predicate RuleDiffers(from: TableSnapshot, to: TableSnapshot, column: string) {
    exists c <- from.columns, d <- to.columns :: c.name == column && d.name == column && c.generated != d.generated
  }

  // What a note means.
  ghost predicate NoteRight(source: SchemaSnapshot, target: SchemaSnapshot, o: ObjectDiff, note: Note) {
    o.status == Changed && o.name in NamesIn(source, GroupOf(o.kind)) && o.name in NamesIn(target, GroupOf(o.kind)) &&
    match note
    case PartitioningDiffers =>
      o.kind.TableObject? && source.tables[o.name].partitionKey != target.tables[o.name].partitionKey
    case GenerationDiffers(column) =>
      o.kind.TableObject? && RuleDiffers(source.tables[o.name], target.tables[o.name], column)
    case ReplaceViewMayFail =>
      o.kind.ViewObject? && !source.views[o.name].materialized && !target.views[o.name].materialized
    case ReplaceRoutineMayFail => o.kind.FunctionObject? || o.kind.ProcedureObject?
  }

  ghost predicate NotesRight(source: SchemaSnapshot, target: SchemaSnapshot, o: ObjectDiff) {
    forall note :: note in o.notes <==> NoteRight(source, target, o, note)
  }

  ghost predicate Right(source: SchemaSnapshot, target: SchemaSnapshot, g: Group, n: string, e: Entry) {
    GroupOf(e.report.kind) == g && e.report.name == n && StatusRight(source, target, e.report) &&
    KindRight(source, target, e.report) && NotesRight(source, target, e.report) &&
    e.report.statements == Untagged(e.tagged)
  }

  lemma SequenceRight(source: SchemaSnapshot, target: SchemaSnapshot, n: string, e: Entry)
    requires e in SequenceEntry(source, target, n)
    ensures Right(source, target, SequenceGroup, n, e)
  {
  }

  lemma ViewRight(source: SchemaSnapshot, target: SchemaSnapshot, n: string, e: Entry)
    requires e in ViewEntry(source, target, n)
    ensures Right(source, target, ViewGroup, n, e)
  {
    hide NormalizeBody;
  }

  lemma RoutineRight(source: SchemaSnapshot, target: SchemaSnapshot, n: string, e: Entry)
    requires e in RoutineEntry(source, target, n)
    ensures Right(source, target, RoutineGroup, n, e)
  {
    hide NormalizeBody, CreateRoutineStatement;
  }

  lemma ColumnMapIs(columns: seq<Column>, c: Column)
    requires DistinctColumns(columns) && c in columns
    ensures c.name in ColumnMap(columns) && ColumnMap(columns)[c.name] == c
  {
    var i: nat :| i < |columns| && columns[i] == c;
    ColumnMapAt(columns, i);
  }

  lemma TableNotes(from: TableSnapshot, to: TableSnapshot, note: Note)
    requires DistinctColumns(to.columns)
    ensures note in AlterTableNotes(from, to) <==>
            (note.PartitioningDiffers? && from.partitionKey != to.partitionKey) ||
            (note.GenerationDiffers? && RuleDiffers(from, to, note.column))
  {
    hide Gather, DistinctColumns, ColumnMap;
    var t := ColumnMap(to.columns);
    GatherMember(from.columns, ColumnNotePart(t), note);
    forall c: Column
      ensures note in ColumnNotePart(t)(c) <==>
              note == GenerationDiffers(c.name) &&
                exists d <- to.columns :: d.name == c.name && c.generated != d.generated
    {
      ColumnNote(to.columns, c, note);
    }
  }

  lemma ColumnNote(to: seq<Column>, c: Column, note: Note)
    requires DistinctColumns(to)
    ensures note in ColumnNotes(ColumnMap(to), c) <==>
            note == GenerationDiffers(c.name) && exists d <- to :: d.name == c.name && c.generated != d.generated
  {
    hide DistinctColumns;
    var t := ColumnMap(to);
    if c.name in t {
      assert t[c.name] in to;
    }
    if d :| d in to && d.name == c.name && c.generated != d.generated {
      ColumnMapIs(to, d);
    }
  }

  lemma TableRight(source: SchemaSnapshot, target: SchemaSnapshot, n: string, e: Entry)
    requires e in TableEntry(source, target, n) &&
      forall t <- target.tables :: DistinctColumns(target.tables[t].columns)
    ensures Right(source, target, TableGroup, n, e)
  {
    hide AlterTableStatements, CreateTableStatements, DropTableStatements, AlterTableNotes, AlterTableDestructive,
      RuleDiffers, DistinctColumns;
    if n in source.tables && n in target.tables {
      forall note: Note
        ensures note in AlterTableNotes(source.tables[n], target.tables[n]) <==>
                (note.PartitioningDiffers? && source.tables[n].partitionKey != target.tables[n].partitionKey) ||
                (note.GenerationDiffers? && RuleDiffers(source.tables[n], target.tables[n], note.column))
      {
        TableNotes(source.tables[n], target.tables[n], note);
      }
    }
  }

  /* ---- All entries ---- */

  lemma EntryNamed(source: SchemaSnapshot, target: SchemaSnapshot, e: Entry) returns (g: Group, n: string)
    requires e in Entries(source, target)
    ensures n in NamesIn(source, g) + NamesIn(target, g) && e in EntryOf(source, target, g, n)
  {
    hide Gather, SequencePart, TablePart, ViewPart, RoutinePart, EntryOf, NamesIn;
    var a := Sorted(source.sequences.Keys + target.sequences.Keys);
    var b := Sorted(source.tables.Keys + target.tables.Keys);
    var c := Sorted(source.views.Keys + target.views.Keys);
    var d := Sorted(source.routines.Keys + target.routines.Keys);
    GatherMember(a, SequencePart(source, target), e);
    GatherMember(b, TablePart(source, target), e);
    GatherMember(c, ViewPart(source, target), e);
    GatherMember(d, RoutinePart(source, target), e);
    if m :| m in a && e in SequencePart(source, target)(m) {
      g, n := SequenceGroup, m;
    } else if m :| m in b && e in TablePart(source, target)(m) {
      g, n := TableGroup, m;
    } else if m :| m in c && e in ViewPart(source, target)(m) {
      g, n := ViewGroup, m;
    } else {
      var m :| m in d && e in RoutinePart(source, target)(m);
      g, n := RoutineGroup, m;
    }
    PartIs(source, target, g, n);
  }

  lemma PartIs(source: SchemaSnapshot, target: SchemaSnapshot, g: Group, n: string)
    ensures EntryOf(source, target, g, n) ==
            (match g
             case SequenceGroup => SequencePart(source, target)(n)
             case TableGroup => TablePart(source, target)(n)
             case ViewGroup => ViewPart(source, target)(n)
             case RoutineGroup => RoutinePart(source, target)(n))
    ensures NamesIn(source, g) + NamesIn(target, g) ==
            (match g
             case SequenceGroup => source.sequences.Keys + target.sequences.Keys
             case TableGroup => source.tables.Keys + target.tables.Keys
             case ViewGroup => source.views.Keys + target.views.Keys
             case RoutineGroup => source.routines.Keys + target.routines.Keys)
  {
  }

  ghost function EntryOf(source: SchemaSnapshot, target: SchemaSnapshot, g: Group, n: string): seq<Entry> {
    match g
    case SequenceGroup => SequenceEntry(source, target, n)
    case TableGroup => TableEntry(source, target, n)
    case ViewGroup => ViewEntry(source, target, n)
    case RoutineGroup => RoutineEntry(source, target, n)
  }

  lemma EntryRight(source: SchemaSnapshot, target: SchemaSnapshot, g: Group, n: string, e: Entry)
    requires e in EntryOf(source, target, g, n)
    requires forall t <- target.tables :: DistinctColumns(target.tables[t].columns)
    ensures Right(source, target, g, n, e)
  {
    hide SequenceEntry, TableEntry, ViewEntry, RoutineEntry, Right;
    match g
    case SequenceGroup => SequenceRight(source, target, n, e);
    case TableGroup => TableRight(source, target, n, e);
    case ViewGroup => ViewRight(source, target, n, e);
    case RoutineGroup => RoutineRight(source, target, n, e);
  }

  lemma Reported(source: SchemaSnapshot, target: SchemaSnapshot, o: ObjectDiff) returns (e: Entry)
    requires o in Report(source, target).objects
    ensures e in Entries(source, target) && e.report == o
  {
    hide Entries, ScriptOf;
    GatherMember(Entries(source, target), ObjectPart(), o);
    e :| e in Entries(source, target) && o in ObjectPart()(e);
  }

  // Every reported object has the status, the kind and the notes the two snapshots give it.
  lemma ObjectsRight(source: SchemaSnapshot, target: SchemaSnapshot, o: ObjectDiff)
    requires o in Report(source, target).objects
    requires forall t <- target.tables :: DistinctColumns(target.tables[t].columns)
    ensures StatusRight(source, target, o) && KindRight(source, target, o) && NotesRight(source, target, o)
  {
    hide Report, Entries, EntryOf, NotesRight, StatusRight, KindRight, DistinctColumns;
    var e := Reported(source, target, o);
    var g, n := EntryNamed(source, target, e);
    EntryRight(source, target, g, n, e);
  }

  /* ---- What is reported, and in which order ---- */

  // The two sides hold different things under the name.
  ghost predicate Differs(source: SchemaSnapshot, target: SchemaSnapshot, g: Group, n: string) {
    (n in NamesIn(source, g) || n in NamesIn(target, g)) &&
    (n in NamesIn(source, g) && n in NamesIn(target, g) ==>
       match g
       case SequenceGroup => source.sequences[n] != target.sequences[n]
       case TableGroup => TableDiffers(source.tables[n], target.tables[n])
       case ViewGroup =>
         source.views[n].materialized != target.views[n].materialized ||
         !SameBody(source.views[n].definition, target.views[n].definition)
       case RoutineGroup => !SameBody(source.routines[n].definition, target.routines[n].definition))
  }

  // The order of the columns does not count.
  ghost predicate TableDiffers(f: TableSnapshot, t: TableSnapshot) {
    f.partitionKey != t.partitionKey || f.constraints != t.constraints || f.indexes != t.indexes ||
    f.triggers != t.triggers || !(forall c :: c in f.columns <==> c in t.columns)
  }

  // `n` is the definition without the whitespace around it, the semicolons at its end and the whitespace before them.
  ghost predicate Normalizes(definition: string, n: string) {
    StartsTight(n) && EndsTight(n) &&
    exists a, w, semicolons, b :: Pieces(definition, a, n, w, semicolons, b)
  }

  ghost predicate Pieces(definition: string, a: string, n: string, w: string, semicolons: string, b: string) {
    Around(definition, a, n + w + semicolons, b) && Spaces(a) && Spaces(w) && Spaces(b) && Only(semicolons, ';') &&
    (w == "" && n != "" ==> n[|n| - 1] != ';') && (semicolons == "" ==> w == "")
  }

  ghost predicate SameBody(a: string, b: string) { exists n :: Normalizes(a, n) && Normalizes(b, n) }

  lemma NormalizedExactly(definition: string)
    ensures Normalizes(definition, NormalizeBody(definition))
  {
    var t := Trim(definition);
    TrimExactly(definition);
    var a, b :| Around(definition, a, t, b) && Spaces(a) && Spaces(b);
    var k := TrimEndCharExactly(t, ';');
    var w := TrimEndExactly(t[..k]);
    TrimmedPieces(t, k, w);
    assert t == NormalizeBody(definition) + w + t[k..];
    assert Pieces(definition, a, NormalizeBody(definition), w, t[k..], b);
  }

  lemma TrimmedPieces(t: string, k: nat, w: string)
    requires StartsTight(t) && EndsTight(t) && k <= |t| && Spaces(w) && t[..k] == TrimEnd(t[..k]) + w
    requires EndsTight(TrimEnd(t[..k])) && (k > 0 ==> t[k - 1] != ';')
    ensures var n := TrimEnd(t[..k]);
      t == n + w + t[k..] && StartsTight(n) && (w == "" && n != "" ==> n[|n| - 1] != ';') && (t[k..] == "" ==> w == "")
  {
    var n := TrimEnd(t[..k]);
    assert t == t[..k] + t[k..];
    assert n != "" ==> n[0] == t[0];
    assert w != "" ==> t[k - 1] == w[|w| - 1];
    assert w == "" ==> n == t[..k];
  }

  lemma NormalizedOne(definition: string, n: string)
    ensures Normalizes(definition, n) <==> n == NormalizeBody(definition)
  {
    NormalizedExactly(definition);
    if Normalizes(definition, n) {
      var a, w, semicolons, b :| Pieces(definition, a, n, w, semicolons, b);
      if n == "" {
        OnlySemicolons(definition, a, w, semicolons, b);
      } else {
        var t := n + w + semicolons;
        assert t[0] == n[0];
        assert t[|t| - 1] == if semicolons != "" then ';' else n[|n| - 1];
        TrimsOne(definition, t);
        TrimEndCharIs(n + w, semicolons, ';');
        TrimEndIs(n, w);
      }
    }
  }

  lemma OnlySemicolons(definition: string, a: string, w: string, semicolons: string, b: string)
    requires Pieces(definition, a, "", w, semicolons, b)
    ensures NormalizeBody(definition) == ""
  {
    assert Around(definition, a + w, semicolons, b);
    TrimsOne(definition, semicolons);
    assert "" + semicolons == semicolons;
    TrimEndCharIs("", semicolons, ';');
  }

  lemma SameBodyMeans(a: string, b: string)
    ensures SameBody(a, b) <==> NormalizeBody(a) == NormalizeBody(b)
  {
    NormalizedOne(a, NormalizeBody(a));
    NormalizedOne(b, NormalizeBody(a));
    NormalizedOne(a, NormalizeBody(b));
    if n :| Normalizes(a, n) && Normalizes(b, n) {
      NormalizedOne(a, n);
      NormalizedOne(b, n);
    }
  }

  lemma EntryEmpty(source: SchemaSnapshot, target: SchemaSnapshot, g: Group, n: string)
    requires ShapedTables(source) && ShapedTables(target)
    ensures EntryOf(source, target, g, n) == [] <==> !Differs(source, target, g, n)
  {
    hide NormalizeBody, SameBody, TableDiffers, ShapedTables, TableEntry;
    match g
    case SequenceGroup =>
    case TableGroup =>
      if n in source.tables || n in target.tables {
        TableEntryEmpty(source, target, n);
        if n in source.tables && n in target.tables {
          TableDiffersMeans(source, target, n);
        }
      } else {
        NoTableEntry(source, target, n);
      }
    case ViewGroup =>
      if n in source.views && n in target.views {
        SameBodyMeans(source.views[n].definition, target.views[n].definition);
      }
    case RoutineGroup =>
      if n in source.routines && n in target.routines {
        SameBodyMeans(source.routines[n].definition, target.routines[n].definition);
      }
  }

  lemma NoTableEntry(source: SchemaSnapshot, target: SchemaSnapshot, n: string)
    requires n !in source.tables && n !in target.tables
    ensures TableEntry(source, target, n) == []
  {
  }

  lemma TableDiffersMeans(source: SchemaSnapshot, target: SchemaSnapshot, n: string)
    requires ShapedTables(source) && ShapedTables(target) && n in source.tables && n in target.tables
    ensures TableDiffers(source.tables[n], target.tables[n]) <==>
            !(TableOf(source.tables[n]) == TableOf(target.tables[n]) &&
              source.tables[n].indexes == target.tables[n].indexes)
  {
    ColumnsAlike(source.tables[n].columns, target.tables[n].columns);
  }

  lemma ColumnsAlike(a: seq<Column>, b: seq<Column>)
    requires DistinctColumns(a) && DistinctColumns(b)
    ensures ColumnMap(a) == ColumnMap(b) <==> forall c :: c in a <==> c in b
  {
    hide DistinctColumns;
    forall c | c in a
      ensures c.name in ColumnMap(a) && ColumnMap(a)[c.name] == c
    {
      ColumnMapIs(a, c);
    }
    forall c | c in b
      ensures c.name in ColumnMap(b) && ColumnMap(b)[c.name] == c
    {
      ColumnMapIs(b, c);
    }
    if forall c :: c in a <==> c in b {
      assert ColumnMap(a).Keys == ColumnMap(b).Keys;
    }
  }

  lemma EntriesHold(source: SchemaSnapshot, target: SchemaSnapshot, g: Group, n: string, e: Entry)
    requires n in NamesIn(source, g) + NamesIn(target, g) && e in EntryOf(source, target, g, n)
    ensures e in Entries(source, target)
  {
    hide Gather, SequenceEntry, TableEntry, ViewEntry, RoutineEntry;
    match g
    case SequenceGroup =>
      GatherMember(Sorted(source.sequences.Keys + target.sequences.Keys), SequencePart(source, target), e);
      assert e in SequencePart(source, target)(n);
    case TableGroup =>
      GatherMember(Sorted(source.tables.Keys + target.tables.Keys), TablePart(source, target), e);
      assert e in TablePart(source, target)(n);
    case ViewGroup =>
      GatherMember(Sorted(source.views.Keys + target.views.Keys), ViewPart(source, target), e);
      assert e in ViewPart(source, target)(n);
    case RoutineGroup =>
      GatherMember(Sorted(source.routines.Keys + target.routines.Keys), RoutinePart(source, target), e);
      assert e in RoutinePart(source, target)(n);
  }

  lemma EntryReported(source: SchemaSnapshot, target: SchemaSnapshot, e: Entry)
    requires e in Entries(source, target)
    ensures e.report in Report(source, target).objects
  {
    hide Entries, ScriptOf;
    GatherMember(Entries(source, target), ObjectPart(), e.report);
    assert e.report in ObjectPart()(e);
  }

  // An object is reported exactly if the two sides differ in it.
  lemma ReportedExactly(source: SchemaSnapshot, target: SchemaSnapshot, g: Group, n: string)
    requires ShapedTables(source) && ShapedTables(target)
    requires forall t <- target.tables :: DistinctColumns(target.tables[t].columns)
    ensures (exists o <- Report(source, target).objects :: GroupOf(o.kind) == g && o.name == n) <==>
            Differs(source, target, g, n)
  {
    hide Report, Entries, EntryOf, Right, Differs, ShapedTables, DistinctColumns;
    EntryEmpty(source, target, g, n);
    if o :| o in Report(source, target).objects && GroupOf(o.kind) == g && o.name == n {
      var e := Reported(source, target, o);
      var h, m := EntryNamed(source, target, e);
      EntryRight(source, target, h, m, e);
      RightName(source, target, h, m, e);
    }
    if Differs(source, target, g, n) {
      var e := EntryOf(source, target, g, n)[0];
      DiffersNamed(source, target, g, n);
      EntryRight(source, target, g, n, e);
      RightName(source, target, g, n, e);
      EntriesHold(source, target, g, n, e);
      EntryReported(source, target, e);
    }
  }

  lemma RightName(source: SchemaSnapshot, target: SchemaSnapshot, g: Group, n: string, e: Entry)
    requires Right(source, target, g, n, e)
    ensures GroupOf(e.report.kind) == g && e.report.name == n && e.report.statements == Untagged(e.tagged)
  {
  }

  lemma DiffersNamed(source: SchemaSnapshot, target: SchemaSnapshot, g: Group, n: string)
    requires Differs(source, target, g, n)
    ensures n in NamesIn(source, g) + NamesIn(target, g)
  {
  }

  function GroupRank(g: Group): nat {
    match g
    case SequenceGroup => 0
    case TableGroup => 1
    case ViewGroup => 2
    case RoutineGroup => 3
  }

  // Sequences, tables, views and routines, each by name.
  predicate Precedes(a: ObjectDiff, b: ObjectDiff) {
    GroupRank(GroupOf(a.kind)) < GroupRank(GroupOf(b.kind)) ||
      (GroupOf(a.kind) == GroupOf(b.kind) && Less(a.name, b.name))
  }

  ghost predicate Placed(entries: seq<Entry>) {
    forall i, j :: 0 <= i < j < |entries| ==> Precedes(entries[i].report, entries[j].report)
  }

  ghost predicate InGroup(entries: seq<Entry>, g: Group) { forall e <- entries :: GroupOf(e.report.kind) == g }

  // At most one entry, of this group and name.
  ghost predicate OneOf(entries: seq<Entry>, g: Group, n: string) {
    |entries| <= 1 && forall e <- entries :: GroupOf(e.report.kind) == g && e.report.name == n
  }

  lemma {:induction false} GatherPlaced(names: seq<string>, part: string -> seq<Entry>, g: Group)
    requires Ascending(names) && forall n <- names :: OneOf(part(n), g, n)
    ensures Placed(Gather(names, part)) && InGroup(Gather(names, part), g)
    ensures forall e <- Gather(names, part) :: e.report.name in names
  {
    if names != [] {
      var n := |names| - 1;
      GatherPlaced(names[..n], part, g);
      assert names == names[..n] + [names[n]];
      var front := Gather(names[..n], part);
      assert OneOf(part(names[n]), g, names[n]);
      forall i | 0 <= i < |front| && part(names[n]) != []
        ensures Precedes(front[i].report, part(names[n])[0].report)
      {
        assert front[i] in front;
        var k :| 0 <= k < n && names[..n][k] == front[i].report.name;
        assert Less(names[k], names[n]);
      }
    }
  }

  lemma PlacedConcat(a: seq<Entry>, b: seq<Entry>, g: Group)
    requires Placed(a) && Placed(b) && InGroup(b, g)
    requires forall e <- a :: GroupRank(GroupOf(e.report.kind)) < GroupRank(g)
    ensures Placed(a + b)
  {
    forall i, j | 0 <= i < |a| && 0 <= j < |b|
      ensures Precedes(a[i].report, b[j].report)
    {
      assert a[i] in a && b[j] in b;
    }
  }

  lemma EntryOne(source: SchemaSnapshot, target: SchemaSnapshot, g: Group, n: string)
    ensures OneOf(EntryOf(source, target, g, n), g, n)
  {
    hide NormalizeBody, AlterTableStatements, CreateTableStatements, DropTableStatements, AlterTableNotes,
      AlterTableDestructive;
  }

  lemma EntriesPlaced(source: SchemaSnapshot, target: SchemaSnapshot)
    ensures Placed(Entries(source, target))
  {
    hide Gather, SequenceEntry, TableEntry, ViewEntry, RoutineEntry, Placed, OneOf;
    forall n: string
      ensures OneOf(SequencePart(source, target)(n), SequenceGroup, n)
      ensures OneOf(TablePart(source, target)(n), TableGroup, n)
      ensures OneOf(ViewPart(source, target)(n), ViewGroup, n)
      ensures OneOf(RoutinePart(source, target)(n), RoutineGroup, n)
    {
      EntryOne(source, target, SequenceGroup, n);
      EntryOne(source, target, TableGroup, n);
      EntryOne(source, target, ViewGroup, n);
      EntryOne(source, target, RoutineGroup, n);
    }
    var a := Sorted(source.sequences.Keys + target.sequences.Keys);
    var b := Sorted(source.tables.Keys + target.tables.Keys);
    var c := Sorted(source.views.Keys + target.views.Keys);
    var d := Sorted(source.routines.Keys + target.routines.Keys);
    GatherPlaced(a, SequencePart(source, target), SequenceGroup);
    GatherPlaced(b, TablePart(source, target), TableGroup);
    GatherPlaced(c, ViewPart(source, target), ViewGroup);
    GatherPlaced(d, RoutinePart(source, target), RoutineGroup);
    var w, x := Gather(a, SequencePart(source, target)), Gather(b, TablePart(source, target));
    var y, z := Gather(c, ViewPart(source, target)), Gather(d, RoutinePart(source, target));
    PlacedConcat(w, x, TableGroup);
    PlacedConcat(w + x, y, ViewGroup);
    PlacedConcat(w + x + y, z, RoutineGroup);
  }

  lemma {:induction false} ObjectsOf(entries: seq<Entry>)
    ensures |Gather(entries, ObjectPart())| == |entries|
    ensures forall i :: 0 <= i < |entries| ==> Gather(entries, ObjectPart())[i] == entries[i].report
  {
    if entries != [] {
      ObjectsOf(entries[..|entries| - 1]);
    }
  }

  // Objects are listed by kind, then by name, each once.
  lemma ObjectsInOrder(source: SchemaSnapshot, target: SchemaSnapshot, i: nat, j: nat)
    requires i < j < |Report(source, target).objects|
    ensures Precedes(Report(source, target).objects[i], Report(source, target).objects[j])
  {
    hide Entries, ScriptOf, Precedes;
    ObjectsOf(Entries(source, target));
    EntriesPlaced(source, target);
  }

  /* ---- Whose statements they are ---- */

  // The object a statement is about; a dropped index belongs to the table the target has it on.
  predicate Concerns(target: SchemaSnapshot, st: Statement, g: Group, n: string) {
    match g
    case SequenceGroup => (st.CreateSequence? || st.AlterSequence? || st.DropSequence?) && st.sequence == n
    case TableGroup =>
      if st.DropIndex? then n in target.tables && st.index in target.tables[n].indexes
      else
        (st.CreateTable? || st.AddColumn? || st.AlterColumn? || st.DropColumn? || st.AddConstraint? ||
         st.DropConstraint? || st.DropTable? || st.CreateIndex? || st.CreateTrigger? || st.DropTrigger?) &&
           st.table == n
    case ViewGroup => (st.CreateView? || st.DropView?) && st.view == n
    case RoutineGroup => (st.CreateRoutine? || st.DropRoutine?) && st.key == n
  }

  function OwnerIn(g: Group, n: string): Owner {
    match g
    case SequenceGroup => SequenceNamed(n)
    case TableGroup => TableNamed(n)
    case ViewGroup => ViewNamed(n)
    case RoutineGroup => RoutineKeyed(n)
  }

  lemma ConcernsOwner(target: SchemaSnapshot, st: Statement, g: Group, n: string)
    requires !st.DropIndex?
    ensures Concerns(target, st, g, n) <==> OwnerOf((i: string) => "", st) == OwnerIn(g, n)
  {
  }

  lemma ConcernsOnce(target: SchemaSnapshot, st: Statement, g: Group, n: string, h: Group, m: string)
    requires DistinctIndexes(target) && Concerns(target, st, g, n) && Concerns(target, st, h, m)
    ensures g == h && n == m
  {
  }

  lemma AlterKinds(schema: string, t: string, from: TableSnapshot, to: TableSnapshot, x: Tagged)
    requires x in AlterTableStatements(schema, t, from, to)
    ensures !x.statement.CreateTable? && (x.statement.DropIndex? ==> x.statement.index in to.indexes)
  {
    hide Gather, ColumnMap, ColumnStatements, DropColumnStatements, ConstraintStatements, IndexStatements,
      TriggerStatements;
    GatherMember(from.columns, ColumnPart(t, ColumnMap(to.columns)), x);
    GatherMember(to.columns, DropColumnPart(t, ColumnMap(from.columns)), x);
    GatherMember(Sorted(from.constraints.Keys + to.constraints.Keys),
                 ConstraintPart(t, from.constraints, to.constraints), x);
    GatherMember(Sorted(from.indexes.Keys + to.indexes.Keys),
                 IndexPart(IndexQualifier(schema, t), t, from.indexes, to.indexes), x);
    GatherMember(Sorted(from.triggers.Keys + to.triggers.Keys), TriggerPart(t, from.triggers, to.triggers), x);
    if c :| c in from.columns && x in ColumnPart(t, ColumnMap(to.columns))(c) {
      ColumnKinds(t, ColumnMap(to.columns), c, x);
    } else if c :| c in to.columns && x in DropColumnPart(t, ColumnMap(from.columns))(c) {
      OtherKinds(t, ColumnMap(from.columns), c, from, to, "", x);
    } else if n :| n in Sorted(from.indexes.Keys + to.indexes.Keys) &&
                   x in IndexPart(IndexQualifier(schema, t), t, from.indexes, to.indexes)(n) {
      IndexKinds(IndexQualifier(schema, t), t, from.indexes, to.indexes, n, x);
    } else if n :| n in Sorted(from.constraints.Keys + to.constraints.Keys) &&
                   x in ConstraintPart(t, from.constraints, to.constraints)(n) {
      OtherKinds(t, map[], Column("", "", false, None, None, None), from, to, n, x);
    } else {
      var n :| n in Sorted(from.triggers.Keys + to.triggers.Keys) && x in TriggerPart(t, from.triggers, to.triggers)(n);
      OtherKinds(t, map[], Column("", "", false, None, None, None), from, to, n, x);
    }
  }

  lemma IndexKinds(qualifier: string, t: string, f: map<string, string>, c: map<string, string>, n: string,
                       x: Tagged)
    requires x in IndexStatements(qualifier, t, f, c, n)
    ensures !x.statement.CreateTable? && (x.statement.DropIndex? ==> x.statement.index in c)
  {
  }

  lemma OtherKinds(t: string, named: map<string, Column>, c: Column, from: TableSnapshot, to: TableSnapshot,
                          n: string, x: Tagged)
    requires x in DropColumnStatements(t, named, c) ||
      x in ConstraintStatements(t, from.constraints, to.constraints, n) ||
      x in TriggerStatements(t, from.triggers, to.triggers, n)
    ensures !x.statement.CreateTable? && !x.statement.DropIndex?
  {
  }

  lemma ColumnKinds(t: string, to: map<string, Column>, c: Column, x: Tagged)
    requires x in ColumnStatements(t, to, c)
    ensures !x.statement.CreateTable? && !x.statement.DropIndex?
  {
    hide ColumnChanges;
    if c.name in to {
      ChangeKinds(t, c.name, ColumnChanges(to[c.name], c), x);
    }
  }

  lemma {:induction false} ChangeKinds(t: string, name: string, changes: seq<ColumnChange>, x: Tagged)
    requires x in AlterColumnStatements(t, name, changes)
    ensures !x.statement.CreateTable? && !x.statement.DropIndex?
  {
    if x in AlterColumnStatements(t, name, changes[..|changes| - 1]) {
      ChangeKinds(t, name, changes[..|changes| - 1], x);
    }
  }

  lemma CreateKinds(t: string, from: TableSnapshot, x: Tagged)
    requires x in CreateTableStatements(t, from)
    ensures !x.statement.DropIndex? && (x.statement.CreateTable? ==> x.statement == CreateTableStatement(t, from))
  {
    hide Gather;
    GatherMember(Sorted(from.constraints.Keys), ForeignKeyPart(t, from.constraints), x);
    GatherMember(Sorted(from.indexes.Keys), IndexPart("", t, from.indexes, map[]), x);
    GatherMember(Sorted(from.triggers.Keys), TriggerPart(t, from.triggers, map[]), x);
  }

  lemma DropKinds(t: string, to: TableSnapshot, x: Tagged)
    requires x in DropTableStatements(t, to)
    ensures !x.statement.CreateTable? && !x.statement.DropIndex?
  {
    hide Gather;
    GatherMember(Sorted(to.constraints.Keys), DropForeignKeyPart(t, to.constraints), x);
  }

  lemma TableConcerns(source: SchemaSnapshot, target: SchemaSnapshot, n: string, e: Entry, x: Tagged)
    requires e in TableEntry(source, target, n) && x in e.tagged
    ensures Concerns(target, x.statement, TableGroup, n)
  {
    hide AllOwned, AlterTableStatements, CreateTableStatements, DropTableStatements, AlterTableNotes,
      AlterTableDestructive, OwnerOf, Concerns;
    var home := (i: string) => n;
    if n in source.tables && n in target.tables {
      AlterOwned(home, target.schema, n, source.tables[n], target.tables[n]);
      AlterKinds(target.schema, n, source.tables[n], target.tables[n], x);
    } else if n in source.tables {
      CreateOwned(home, n, source.tables[n]);
      CreateKinds(n, source.tables[n], x);
    } else {
      DropOwned(home, n, target.tables[n]);
      DropKinds(n, target.tables[n], x);
    }
    OwnedConcerns(target, n, e.tagged, x);
  }

  lemma OwnedConcerns(target: SchemaSnapshot, n: string, tagged: seq<Tagged>, x: Tagged)
    requires AllOwned((i: string) => n, TableNamed(n), tagged) && x in tagged
    requires x.statement.DropIndex? ==> n in target.tables && x.statement.index in target.tables[n].indexes
    ensures Concerns(target, x.statement, TableGroup, n)
  {
    assert ObjectOrder.OwnedBy((i: string) => n, TableNamed(n))(x);
  }

  lemma OtherConcerns(source: SchemaSnapshot, target: SchemaSnapshot, g: Group, n: string, e: Entry, x: Tagged)
    requires g != TableGroup && e in EntryOf(source, target, g, n) && x in e.tagged
    requires n in source.routines ==> RoutineKey(source.routines[n]) == n
    requires n in target.routines ==> RoutineKey(target.routines[n]) == n
    ensures Concerns(target, x.statement, g, n)
  {
    hide NormalizeBody, RoutineKey;
  }

  lemma EntryConcerns(source: SchemaSnapshot, target: SchemaSnapshot, g: Group, n: string, e: Entry, x: Tagged)
    requires e in EntryOf(source, target, g, n) && x in e.tagged && Keyed(source) && Keyed(target)
    ensures Concerns(target, x.statement, g, n)
  {
    hide Concerns, SequenceEntry, TableEntry, ViewEntry, RoutineEntry;
    if g == TableGroup {
      TableConcerns(source, target, n, e, x);
    } else {
      OtherConcerns(source, target, g, n, e, x);
    }
  }

  lemma UntaggedMember(tagged: seq<Tagged>, st: Statement)
    ensures st in Untagged(tagged) <==> exists x <- tagged :: x.statement == st
  {
    if x :| x in tagged && x.statement == st {
      var i :| 0 <= i < |tagged| && tagged[i] == x;
      assert Untagged(tagged)[i] == st;
    }
  }

  // An object's statements are exactly those of the script that are about it.
  lemma StatementsRight(source: SchemaSnapshot, target: SchemaSnapshot, o: ObjectDiff, st: Statement)
    requires o in Report(source, target).objects && Keyed(source) && Keyed(target) && DistinctIndexes(target)
    requires forall t <- target.tables :: DistinctColumns(target.tables[t].columns)
    ensures st in o.statements <==>
            st in Report(source, target).script && Concerns(target, st, GroupOf(o.kind), o.name)
  {
    hide Report, Entries, EntryOf, Right, Concerns, DistinctColumns, DistinctIndexes, ScriptOf, Keyed;
    var e := Reported(source, target, o);
    var g, n := EntryNamed(source, target, e);
    EntryRight(source, target, g, n, e);
    RightName(source, target, g, n, e);
    UntaggedMember(e.tagged, st);
    ScriptMember(Entries(source, target), st);
    ScriptReported(source, target);
    if x :| x in e.tagged && x.statement == st {
      EntryConcerns(source, target, g, n, e, x);
    }
    if f, x :| f in Entries(source, target) && x in f.tagged && x.statement == st {
      if Concerns(target, st, g, n) {
        var h, m := EntryNamed(source, target, f);
        EntryConcerns(source, target, h, m, f, x);
        ConcernsOnce(target, st, g, n, h, m);
        EntryAlone(source, target, g, n, e, f);
      }
    }
  }

  lemma ScriptReported(source: SchemaSnapshot, target: SchemaSnapshot)
    ensures Report(source, target).script == ScriptOf(Entries(source, target))
  {
    hide Entries, ScriptOf;
  }

  lemma EntryAlone(source: SchemaSnapshot, target: SchemaSnapshot, g: Group, n: string, e: Entry, f: Entry)
    requires e in EntryOf(source, target, g, n) && f in EntryOf(source, target, g, n)
    ensures e == f
  {
    hide EntryOf;
    EntryOne(source, target, g, n);
  }

  /* ---- Every statement is some object's, as often as it is there ---- */

  function StatementPart(): ObjectDiff -> seq<Statement> { (o: ObjectDiff) => o.statements }

  function StatementsIn(ordered: seq<Ordered>): seq<Statement> {
    seq(|ordered|, i requires 0 <= i < |ordered| => ordered[i].statement)
  }

  lemma {:induction false} OrderedStatements(entries: seq<Entry>)
    requires forall e <- entries :: e.report.statements == Untagged(e.tagged)
    ensures StatementsIn(OrderedEntries(entries)) == Gather(Gather(entries, ObjectPart()), StatementPart())
  {
    if entries != [] {
      var n := |entries| - 1;
      OrderedStatements(entries[..n]);
      GatherLast(Gather(entries[..n], ObjectPart()), entries[n].report, StatementPart());
      assert entries[n] in entries;
      assert StatementsIn(OrderedEntries(entries)) ==
        StatementsIn(OrderedEntries(entries[..n])) + StatementsIn(OrderedEntry(n, entries[n].tagged));
      assert StatementsIn(OrderedEntry(n, entries[n].tagged)) == Untagged(entries[n].tagged);
    }
  }

  lemma OneOut(b: seq<Ordered>, i: nat) returns (rest: seq<Ordered>)
    requires i < |b|
    ensures |rest| == |b| - 1 && multiset(b) == multiset(rest) + multiset{b[i]}
    ensures multiset(StatementsIn(b)) == multiset(StatementsIn(rest)) + multiset{b[i].statement}
  {
    var front, back := b[..i], b[i + 1..];
    rest := front + back;
    assert b == front + [b[i]] + back;
    assert StatementsIn(b) == StatementsIn(front) + [b[i].statement] + StatementsIn(back);
    assert StatementsIn(front + back) == StatementsIn(front) + StatementsIn(back);
  }

  // The same elements without one.
  lemma OneLess<T>(a: multiset<T>, b: multiset<T>, c: multiset<T>, x: T)
    requires a == c + multiset{x} && b == a
    ensures c == b - multiset{x}
  {
  }

  lemma {:induction false} SameStatements(a: seq<Ordered>, b: seq<Ordered>)
    requires multiset(a) == multiset(b)
    ensures multiset(StatementsIn(a)) == multiset(StatementsIn(b))
    decreases |a|
  {
    hide StatementsIn;
    if a == [] {
      assert |multiset(b)| == |b|;
    } else {
      assert a[0] in multiset(b);
      var i := Place(b, a[0]);
      var c := OneOut(a, 0);
      var d := OneOut(b, i);
      OneLess(multiset(a), multiset(a), multiset(c), a[0]);
      OneLess(multiset(b), multiset(a), multiset(d), a[0]);
      SameStatements(c, d);
    }
  }

  lemma Place(b: seq<Ordered>, x: Ordered) returns (i: nat)
    requires x in multiset(b)
    ensures i < |b| && b[i] == x
  {
    i :| 0 <= i < |b| && b[i] == x;
  }

  // The script is the statements of all objects in another order.
  lemma ScriptOfObjects(source: SchemaSnapshot, target: SchemaSnapshot)
    requires forall t <- target.tables :: DistinctColumns(target.tables[t].columns)
    ensures var report := Report(source, target);
      multiset(report.script) == multiset(Gather(report.objects, StatementPart()))
  {
    hide Entries, StableSort, OrderedEntries, Gather, InOrder, Stable, EntryOf, Right, DistinctColumns;
    var entries := Entries(source, target);
    forall e | e in entries
      ensures e.report.statements == Untagged(e.tagged)
    {
      var g, n := EntryNamed(source, target, e);
      EntryRight(source, target, g, n, e);
      RightName(source, target, g, n, e);
    }
    OrderedStatements(entries);
    StableSortSorts(OrderedEntries(entries));
    SameStatements(StableSort(OrderedEntries(entries)), OrderedEntries(entries));
  }

  // An object is called destructive exactly if one of its statements is.
  lemma ObjectDestructive(source: SchemaSnapshot, target: SchemaSnapshot, o: ObjectDiff)
    requires o in Report(source, target).objects
    requires forall t <- target.tables :: DistinctColumns(target.tables[t].columns)
    ensures o.destructive <==> exists st <- o.statements :: Destroys(st)
  {
    hide Report, Entries, EntryOf, Right, DistinctColumns, Destroys;
    var e := Reported(source, target, o);
    var g, n := EntryNamed(source, target, e);
    EntryRight(source, target, g, n, e);
    RightName(source, target, g, n, e);
    EntryDestroys(source, target, e);
    forall st
      ensures st in o.statements <==> exists x <- e.tagged :: x.statement == st
    {
      UntaggedMember(e.tagged, st);
    }
  }

  // The report's notes are those of its objects, each with the object's name.
  lemma NotesListed(source: SchemaSnapshot, target: SchemaSnapshot, n: string, note: Note)
    ensures (n, note) in Report(source, target).notes <==>
            exists o <- Report(source, target).objects :: o.name == n && note in o.notes
  {
    hide Entries, ScriptOf;
    var entries := Entries(source, target);
    GatherMember(entries, NotesPart(), (n, note));
    forall e: Entry
      ensures (n, note) in NotesPart()(e) <==> e.report.name == n && note in e.report.notes
    {
      NotesOfObject(e.report, n, note);
    }
    if e :| e in entries && (n, note) in NotesPart()(e) {
      EntryReported(source, target, e);
    }
    if o :| o in Report(source, target).objects && o.name == n && note in o.notes {
      var e := Reported(source, target, o);
    }
  }

  lemma NotesOfObject(o: ObjectDiff, n: string, note: Note)
    ensures (n, note) in NotesOf(o) <==> o.name == n && note in o.notes
  {
    if o.name == n && note in o.notes {
      var i :| 0 <= i < |o.notes| && o.notes[i] == note;
      assert NotesOf(o)[i] == (n, note);
    }
  }

  /* ---- How a table is written down ---- */

  lemma DefinitionDeclares(c: Column)
    requires ColumnShape(c)
    ensures DeclaredColumn(DefinitionOf(c)) == c && DefinitionOf(c).name == c.name
  {
  }

  lemma {:induction false} DefinitionsOf(columns: seq<Column>)
    ensures |Gather(columns, DefinitionPart())| == |columns|
    ensures forall i :: 0 <= i < |columns| ==> Gather(columns, DefinitionPart())[i] == DefinitionOf(columns[i])
  {
    if columns != [] {
      DefinitionsOf(columns[..|columns| - 1]);
    }
  }

  lemma {:induction false} InlineAscending(names: seq<string>, constraints: map<string, Constraint>)
    requires Ascending(names)
    ensures forall p <- Gather(names, InlineConstraintPart(constraints)) :: p.0 in names
    ensures forall i, j :: 0 <= i < j < |Gather(names, InlineConstraintPart(constraints))| ==>
      Less(Gather(names, InlineConstraintPart(constraints))[i].0, Gather(names, InlineConstraintPart(constraints))[j].0)
  {
    if names != [] {
      var n := |names| - 1;
      InlineAscending(names[..n], constraints);
      assert names == names[..n] + [names[n]];
      var front := Gather(names[..n], InlineConstraintPart(constraints));
      forall i | 0 <= i < |front|
        ensures Less(front[i].0, names[n])
      {
        assert front[i] in front;
        var k :| 0 <= k < n && names[..n][k] == front[i].0;
        assert Less(names[k], names[n]);
      }
    }
  }

  // A new table is declared with the source's columns in their order, and with its constraints but the foreign keys, by
  // name.
  lemma TableWritten(source: SchemaSnapshot, target: SchemaSnapshot, o: ObjectDiff, st: Statement)
    requires o in Report(source, target).objects && o.kind.TableObject? && st in o.statements && st.CreateTable?
    requires forall t <- target.tables :: DistinctColumns(target.tables[t].columns)
    requires ShapedTables(source)
    ensures o.status == Added && o.name in source.tables && st.table == o.name
    ensures var from := source.tables[o.name];
      st.partitionKey == from.partitionKey && |st.columns| == |from.columns| &&
      (forall i :: 0 <= i < |st.columns| ==> DeclaredColumn(st.columns[i]) == from.columns[i]) &&
      (forall k, c ::
        (k, c) in st.constraints <==> k in from.constraints && from.constraints[k] == c && !IsForeign(c)) &&
      forall i, j :: 0 <= i < j < |st.constraints| ==> Less(st.constraints[i].0, st.constraints[j].0)
  {
    hide Report, Entries, EntryOf, Right, DistinctColumns, ShapedTables, Gather;
    var e := Reported(source, target, o);
    var g, n := EntryNamed(source, target, e);
    EntryRight(source, target, g, n, e);
    RightName(source, target, g, n, e);
    UntaggedMember(e.tagged, st);
    var x :| x in e.tagged && x.statement == st;
    TableCreated(source, target, n, e, x);
    var from := source.tables[n];
    DefinitionsOf(from.columns);
    forall i | 0 <= i < |from.columns|
      ensures DeclaredColumn(DefinitionOf(from.columns[i])) == from.columns[i]
    {
      ColumnShaped(source, n, i);
      DefinitionDeclares(from.columns[i]);
    }
    InlineAscending(Sorted(from.constraints.Keys), from.constraints);
    forall k, c
      ensures (k, c) in Gather(Sorted(from.constraints.Keys), InlineConstraintPart(from.constraints)) <==>
              k in from.constraints && from.constraints[k] == c && !IsForeign(c)
    {
      InlineMember(from.constraints, k, c);
    }
  }

  lemma ColumnShaped(s: SchemaSnapshot, n: string, i: nat)
    requires ShapedTables(s) && n in s.tables && i < |s.tables[n].columns|
    ensures ColumnShape(s.tables[n].columns[i])
  {
  }

  lemma InlineMember(constraints: map<string, Constraint>, k: string, c: Constraint)
    ensures (k, c) in Gather(Sorted(constraints.Keys), InlineConstraintPart(constraints)) <==>
            k in constraints && constraints[k] == c && !IsForeign(c)
  {
    hide Gather;
    GatherMember(Sorted(constraints.Keys), InlineConstraintPart(constraints), (k, c));
    if k in constraints && constraints[k] == c && !IsForeign(c) {
      assert (k, c) in InlineConstraintPart(constraints)(k);
    }
  }

  lemma TableCreated(source: SchemaSnapshot, target: SchemaSnapshot, n: string, e: Entry, x: Tagged)
    requires e in EntryOf(source, target, TableGroup, n) && x in e.tagged && x.statement.CreateTable?
    ensures n in source.tables && e.report.status == Added && x.statement == CreateTableStatement(n, source.tables[n])
  {
    hide CreateTableStatement, CreateTableStatements, AlterTableStatements, DropTableStatements, AlterTableNotes,
      AlterTableDestructive;
    if n in source.tables && n in target.tables {
      AlterKinds(target.schema, n, source.tables[n], target.tables[n], x);
    } else if n in source.tables {
      CreateKinds(n, source.tables[n], x);
    } else {
      DropKinds(n, target.tables[n], x);
    }
  }

  /* ---- Which columns are added, and where ---- */

  function AddedPart(): Statement -> seq<Column> {
    (st: Statement) => if st.AddColumn? then [DeclaredColumn(st.definition)] else []
  }

  function TaggedAddedPart(): Tagged -> seq<Column> {
    (x: Tagged) => if x.statement.AddColumn? then [DeclaredColumn(x.statement.definition)] else []
  }

  function NewPart(to: seq<Column>): Column -> seq<Column> {
    (c: Column) => if exists d <- to :: d.name == c.name then [] else [c]
  }

  lemma {:induction false} UntaggedAdded(tagged: seq<Tagged>)
    ensures Gather(Untagged(tagged), AddedPart()) == Gather(tagged, TaggedAddedPart())
  {
    if tagged != [] {
      var n := |tagged| - 1;
      UntaggedAdded(tagged[..n]);
      assert Untagged(tagged)[..n] == Untagged(tagged[..n]);
    }
  }

  lemma NoneAdded(tagged: seq<Tagged>)
    requires forall x <- tagged :: !x.statement.AddColumn?
    ensures Gather(tagged, TaggedAddedPart()) == []
  {
    GatherEmpty(tagged, TaggedAddedPart());
    assert forall x <- tagged :: TaggedAddedPart()(x) == [];
  }

  lemma {:induction false} ChangesAdd(t: string, name: string, changes: seq<ColumnChange>)
    ensures forall x <- AlterColumnStatements(t, name, changes) :: !x.statement.AddColumn?
  {
    if changes != [] {
      ChangesAdd(t, name, changes[..|changes| - 1]);
    }
  }

  lemma ColumnAdds(t: string, to: seq<Column>, c: Column)
    requires ColumnShape(c)
    ensures Gather(ColumnPart(t, ColumnMap(to))(c), TaggedAddedPart()) == NewPart(to)(c)
  {
    hide ColumnChanges;
    var named := ColumnMap(to);
    if c.name in named {
      assert named[c.name] in to;
      ChangesAdd(t, c.name, ColumnChanges(named[c.name], c));
      NoneAdded(ColumnStatements(t, named, c));
    } else {
      DefinitionDeclares(c);
      var x := Tagged(Tables, AddColumn(t, DefinitionOf(c)));
      assert NewPart(to)(c) == [c] by {
        assert forall d <- to :: d.name in named;
      }
      GatherFirst([x], TaggedAddedPart());
      assert [x][1..] == [] && Gather([x][1..], TaggedAddedPart()) == [];
    }
  }

  lemma RestAdds<T>(items: seq<T>, part: T -> seq<Tagged>)
    requires forall item <- items, x <- part(item) :: !x.statement.AddColumn?
    ensures Gather(Gather(items, part), TaggedAddedPart()) == []
  {
    forall x | x in Gather(items, part)
      ensures !x.statement.AddColumn?
    {
      GatherMember(items, part, x);
    }
    NoneAdded(Gather(items, part));
  }

  lemma WantedAdds(t: string, from: seq<Column>, to: seq<Column>)
    requires forall c <- from :: ColumnShape(c)
    ensures Gather(Gather(from, ColumnPart(t, ColumnMap(to))), TaggedAddedPart()) == Gather(from, NewPart(to))
  {
    hide Gather, ColumnMap, ColumnPart, NewPart, ColumnShape;
    forall column | column in from
      ensures NewPart(to)(column) == Gather(ColumnPart(t, ColumnMap(to))(column), TaggedAddedPart())
    {
      ColumnAdds(t, to, column);
    }
    GatherNested(from, ColumnPart(t, ColumnMap(to)), TaggedAddedPart(), NewPart(to));
  }

  lemma NamedAdd(qualifier: string, t: string, from: TableSnapshot, to: TableSnapshot)
    ensures Gather(Gather(Sorted(from.constraints.Keys + to.constraints.Keys),
                          ConstraintPart(t, from.constraints, to.constraints)), TaggedAddedPart()) == []
    ensures Gather(Gather(Sorted(from.indexes.Keys + to.indexes.Keys),
                          IndexPart(qualifier, t, from.indexes, to.indexes)), TaggedAddedPart()) == []
    ensures Gather(Gather(Sorted(from.triggers.Keys + to.triggers.Keys),
                          TriggerPart(t, from.triggers, to.triggers)), TaggedAddedPart()) == []
  {
    hide Gather;
    RestAdds(Sorted(from.constraints.Keys + to.constraints.Keys), ConstraintPart(t, from.constraints, to.constraints));
    RestAdds(Sorted(from.indexes.Keys + to.indexes.Keys), IndexPart(qualifier, t, from.indexes, to.indexes));
    RestAdds(Sorted(from.triggers.Keys + to.triggers.Keys), TriggerPart(t, from.triggers, to.triggers));
  }

  lemma AlterAdds(schema: string, t: string, from: TableSnapshot, to: TableSnapshot)
    requires forall c <- from.columns :: ColumnShape(c)
    ensures Gather(AlterTableStatements(schema, t, from, to), TaggedAddedPart()) ==
            Gather(from.columns, NewPart(to.columns))
  {
    hide Gather, ColumnMap, ColumnPart, DropColumnPart, ConstraintPart, IndexPart, TriggerPart, NewPart, ColumnShape,
      TaggedAddedPart, IndexQualifier;
    var part, qualifier := TaggedAddedPart(), IndexQualifier(schema, t);
    var a := Gather(from.columns, ColumnPart(t, ColumnMap(to.columns)));
    var b := Gather(to.columns, DropColumnPart(t, ColumnMap(from.columns)));
    var c :=
      Gather(Sorted(from.constraints.Keys + to.constraints.Keys), ConstraintPart(t, from.constraints, to.constraints));
    var i := Gather(Sorted(from.indexes.Keys + to.indexes.Keys), IndexPart(qualifier, t, from.indexes, to.indexes));
    var g := Gather(Sorted(from.triggers.Keys + to.triggers.Keys), TriggerPart(t, from.triggers, to.triggers));
    WantedAdds(t, from.columns, to.columns);
    DropsAdd(t, from.columns, to.columns);
    NamedAdd(qualifier, t, from, to);
    GatherConcat(a, b, part);
    GatherConcat(a + b, c, part);
    GatherConcat(a + b + c, i, part);
    GatherConcat(a + b + c + i, g, part);
    assert AlterTableStatements(schema, t, from, to) == a + b + c + i + g;
  }

  lemma DropsAdd(t: string, from: seq<Column>, to: seq<Column>)
    ensures Gather(Gather(to, DropColumnPart(t, ColumnMap(from))), TaggedAddedPart()) == []
  {
    hide Gather, ColumnMap;
    RestAdds(to, DropColumnPart(t, ColumnMap(from)));
  }

  // A changed table gets the columns it lacks, in the order the source has them.
  lemma ColumnsAdded(source: SchemaSnapshot, target: SchemaSnapshot, o: ObjectDiff)
    requires o in Report(source, target).objects && o.kind.TableObject? && o.status == Changed
    requires forall t <- target.tables :: DistinctColumns(target.tables[t].columns)
    requires ShapedTables(source)
    ensures o.name in source.tables && o.name in target.tables
    ensures Gather(o.statements, AddedPart()) ==
            Gather(source.tables[o.name].columns, NewPart(target.tables[o.name].columns))
  {
    hide Report, Entries, Right, DistinctColumns, ShapedTables, Gather, AlterTableStatements, CreateTableStatements,
      DropTableStatements, AlterTableNotes, AlterTableDestructive;
    var e := Reported(source, target, o);
    var g, n := EntryNamed(source, target, e);
    EntryRight(source, target, g, n, e);
    RightName(source, target, g, n, e);
    var from := source.tables[n];
    forall c | c in from.columns
      ensures ColumnShape(c)
    {
      var i: nat :| i < |from.columns| && from.columns[i] == c;
      ColumnShaped(source, n, i);
    }
    UntaggedAdded(e.tagged);
    AlterAdds(target.schema, n, from, target.tables[n]);
  }

  /* ---- The order of an object's statements ---- */

  // The statements about the object that stand in one phase.
  function AboutPart(target: SchemaSnapshot, phase: Phase, g: Group, n: string): Statement -> seq<Statement> {
    (st: Statement) => if PhaseFor(target, st) == phase && Concerns(target, st, g, n) then [st] else []
  }

  lemma {:induction false} NonePicked<T, R>(items: seq<T>, part: T -> seq<R>)
    requires forall item <- items :: part(item) == []
    ensures Gather(items, part) == []
  {
    GatherEmpty(items, part);
  }

  // An entry that fits its object: its statements concern it, with the phase they are tagged with.
  ghost predicate Placing(target: SchemaSnapshot, e: Entry, g: Group, n: string) {
    forall x <- e.tagged :: x.phase == PhaseFor(target, x.statement) && Concerns(target, x.statement, g, n)
  }

  lemma {:induction false} PickedOwn(target: SchemaSnapshot, phase: Phase, g: Group, n: string, tagged: seq<Tagged>)
    requires forall x <- tagged :: x.phase == PhaseFor(target, x.statement) && Concerns(target, x.statement, g, n)
    ensures Gather(Untagged(tagged), AboutPart(target, phase, g, n)) == OfPhase(phase, tagged)
    ensures Gather(OfPhase(phase, tagged), AboutPart(target, phase, g, n)) == OfPhase(phase, tagged)
  {
    hide PhaseFor, Concerns, Gather, AboutPart, OfPhase, Untagged;
    var part := AboutPart(target, phase, g, n);
    if tagged == [] {
      NothingPicked(phase, part);
    } else {
      var front, last := tagged[..|tagged| - 1], tagged[|tagged| - 1];
      PickedOwn(target, phase, g, n, front);
      assert last in tagged;
      LastPicked(target, phase, g, n, front, last);
      assert tagged == front + [last];
    }
  }

  lemma NothingPicked(phase: Phase, part: Statement -> seq<Statement>)
    ensures OfPhase(phase, []) == [] && Untagged([]) == [] && Gather([], part) == []
  {
  }

  lemma LastPicked(target: SchemaSnapshot, phase: Phase, g: Group, n: string, front: seq<Tagged>, last: Tagged)
    requires last.phase == PhaseFor(target, last.statement) && Concerns(target, last.statement, g, n)
    ensures var part, more := AboutPart(target, phase, g, n), if last.phase == phase then [last.statement] else [];
      OfPhase(phase, front + [last]) == OfPhase(phase, front) + more &&
      Gather(Untagged(front + [last]), part) == Gather(Untagged(front), part) + more &&
      Gather(OfPhase(phase, front) + more, part) == Gather(OfPhase(phase, front), part) + more
  {
    hide PhaseFor, Concerns, Gather;
    var part := AboutPart(target, phase, g, n);
    assert Untagged(front + [last]) == Untagged(front) + [last.statement];
    GatherLast(Untagged(front), last.statement, part);
    GatherLast(front, last, PhaseStatements(phase));
    if last.phase == phase {
      GatherLast(OfPhase(phase, front), last.statement, part);
    } else {
      assert OfPhase(phase, front) + [] == OfPhase(phase, front);
    }
  }

  lemma PickedOther(target: SchemaSnapshot, phase: Phase, g: Group, n: string, other: Phase, e: Entry, h: Group,
                    m: string)
    requires Placing(target, e, h, m) && DistinctIndexes(target) && (other != phase || h != g || m != n)
    ensures Gather(OfPhase(other, e.tagged), AboutPart(target, phase, g, n)) == []
  {
    hide PhaseFor, Concerns, DistinctIndexes;
    forall st | st in OfPhase(other, e.tagged)
      ensures AboutPart(target, phase, g, n)(st) == []
    {
      GatherMember(e.tagged, PhaseStatements(other), st);
      var x :| x in e.tagged && st in PhaseStatements(other)(x);
      if Concerns(target, st, g, n) {
        ConcernsOnce(target, st, g, n, h, m);
      }
    }
    NonePicked(OfPhase(other, e.tagged), AboutPart(target, phase, g, n));
  }

  // Gathering over a list in which only one item gives anything.
  lemma {:induction false} OnlyOneGives<T, R>(items: seq<T>, part: T -> seq<R>, e: T)
    requires e in items && (forall item <- items :: item != e ==> part(item) == [])
    requires forall i, j :: 0 <= i < j < |items| ==> items[i] != items[j]
    ensures Gather(items, part) == part(e)
  {
    var k := |items| - 1;
    if items[k] == e {
      forall item | item in items[..k]
        ensures part(item) == []
      {
        var i :| 0 <= i < k && items[i] == item;
      }
      NonePicked(items[..k], part);
    } else {
      assert e in items[..k] by {
        var i :| 0 <= i < |items| && items[i] == e;
        assert items[..k][i] == e;
      }
      OnlyOneGives(items[..k], part, e);
      assert part(items[k]) == [] by {
        assert items[k] in items;
      }
    }
  }

  ghost predicate AllPlacing(source: SchemaSnapshot, target: SchemaSnapshot, entries: seq<Entry>) {
    forall e <- entries :: exists g, n :: e in EntryOf(source, target, g, n) && Placing(target, e, g, n)
  }

  lemma EntriesPlacing(source: SchemaSnapshot, target: SchemaSnapshot)
    requires Keyed(source) && Keyed(target)
    ensures AllPlacing(source, target, Entries(source, target))
  {
    hide Entries, EntryOf, PhaseFor, Concerns, Keyed;
    forall e | e in Entries(source, target)
      ensures exists g, n :: e in EntryOf(source, target, g, n) && Placing(target, e, g, n)
    {
      var g, n := EntryNamed(source, target, e);
      EntryPlacing(source, target, g, n, e);
    }
  }

  lemma EntryPlacing(source: SchemaSnapshot, target: SchemaSnapshot, g: Group, n: string, e: Entry)
    requires e in Entries(source, target) && e in EntryOf(source, target, g, n) && Keyed(source) && Keyed(target)
    ensures Placing(target, e, g, n)
  {
    hide Entries, EntryOf, PhaseFor, Concerns, Keyed;
    EntriesFit(source, target, e);
    forall x | x in e.tagged
      ensures x.phase == PhaseFor(target, x.statement) && Concerns(target, x.statement, g, n)
    {
      assert Fits(target)(x);
      EntryConcerns(source, target, g, n, e, x);
    }
  }

  lemma EntriesDistinct(source: SchemaSnapshot, target: SchemaSnapshot)
    ensures forall i, j ::
      0 <= i < j < |Entries(source, target)| ==> Entries(source, target)[i] != Entries(source, target)[j]
  {
    hide Entries, Less;
    EntriesPlaced(source, target);
    var entries := Entries(source, target);
    forall i, j | 0 <= i < j < |entries|
      ensures entries[i] != entries[j]
    {
      LessTotal(entries[i].report.name, entries[j].report.name);
    }
  }

  // What one phase holds of the object.
  lemma PhaseHolds(source: SchemaSnapshot, target: SchemaSnapshot, phase: Phase, other: Phase, g: Group, n: string,
                   e: Entry)
    requires Keyed(source) && Keyed(target) && DistinctIndexes(target)
    requires e in Entries(source, target) && e in EntryOf(source, target, g, n)
    ensures Gather(EntriesOfPhase(other, Entries(source, target)), AboutPart(target, phase, g, n)) ==
            if other == phase then OfPhase(phase, e.tagged) else []
  {
    hide Entries, EntryOf, PhaseFor, Concerns, Keyed, DistinctIndexes, Gather;
    var entries, part := Entries(source, target), AboutPart(target, phase, g, n);
    var picked := (f: Entry) => Gather(OfPhase(other, f.tagged), part);
    EntriesPlacing(source, target);
    EntryPlacing(source, target, g, n, e);
    EntriesDistinct(source, target);
    forall f | f in entries
      ensures picked(f) == Gather(PhaseOf(other, TaggedPart())(f), part)
    {
    }
    GatherNested(entries, PhaseOf(other, TaggedPart()), part, picked);
    forall f | f in entries && (f != e || other != phase)
      ensures picked(f) == []
    {
      var h, m :| f in EntryOf(source, target, h, m) && Placing(target, f, h, m);
      if h == g && m == n {
        EntryAlone(source, target, g, n, e, f);
      }
      PickedOther(target, phase, g, n, other, f, h, m);
    }
    if other == phase {
      PickedOwn(target, phase, g, n, e.tagged);
      OnlyOneGives(entries, picked, e);
    } else {
      NonePicked(entries, picked);
    }
  }

  lemma {:induction false} PhasesHold(source: SchemaSnapshot, target: SchemaSnapshot, phase: Phase, count: nat,
                                      g: Group, n: string, e: Entry)
    requires Keyed(source) && Keyed(target) && DistinctIndexes(target) && count <= PHASE_COUNT
    requires e in Entries(source, target) && e in EntryOf(source, target, g, n)
    ensures Gather(FirstPhases(count, Entries(source, target)), AboutPart(target, phase, g, n)) ==
            if Rank(phase) < count then OfPhase(phase, e.tagged) else []
  {
    hide Entries, EntryOf, PhaseFor, Concerns, Keyed, DistinctIndexes, Gather, PhaseAt, EntriesOfPhase;
    var part := AboutPart(target, phase, g, n);
    if count == 0 {
      NonePicked<Statement, Statement>([], part);
    } else {
      PhasesHold(source, target, phase, count - 1, g, n, e);
      GatherConcat(FirstPhases(count - 1, Entries(source, target)),
                   EntriesOfPhase(PhaseAt(count - 1), Entries(source, target)), part);
      PhaseHolds(source, target, phase, PhaseAt(count - 1), g, n, e);
    }
  }

  // In each phase an object's statements stand in the script in the order the object lists them.
  lemma StatementsInOrder(source: SchemaSnapshot, target: SchemaSnapshot, o: ObjectDiff, phase: Phase)
    requires o in Report(source, target).objects && Keyed(source) && Keyed(target) && DistinctIndexes(target)
    requires forall t <- target.tables :: DistinctColumns(target.tables[t].columns)
    ensures Gather(o.statements, AboutPart(target, phase, GroupOf(o.kind), o.name)) ==
            Gather(Report(source, target).script, AboutPart(target, phase, GroupOf(o.kind), o.name))
  {
    hide Report, Entries, EntryOf, Right, PhaseFor, Concerns, Keyed, DistinctIndexes, DistinctColumns, Gather, ScriptOf,
      FirstPhases;
    var e := Reported(source, target, o);
    var g, n := EntryNamed(source, target, e);
    EntryRight(source, target, g, n, e);
    RightName(source, target, g, n, e);
    EntryPlacing(source, target, g, n, e);
    PickedOwn(target, phase, g, n, e.tagged);
    ScriptReported(source, target);
    ScriptByPhases(Entries(source, target));
    PhasesHold(source, target, phase, 14, g, n, e);
  }
}

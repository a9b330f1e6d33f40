/** The script against the same statements run one object at a time. */
module ObjectOrder {
  import opened Options
  import opened Gathering
  import opened Names
  import opened Snapshots
  import opened Statements
  import opened Diff
  import opened ScriptOrder
  import opened PhaseLists
  import opened Database
  import opened Applies
  import opened Keeping
  import opened OwnedSequences
  import opened ObjectLists
  import opened DependencyOrder
  import opened SequencePhases
  import opened RoutinePhases
  import opened TablePhases
  import opened ReshapePhase
  import opened Inexpressible
  import opened Reordering

  // One object's statements in phase order.
  function ObjectPhases(): Entry -> seq<Statement> { (e: Entry) => FirstPhases(PHASE_COUNT, [e]) }

  // All objects, one after the other.
  function ObjectByObject(entries: seq<Entry>): seq<Statement> { Gather(entries, ObjectPhases()) }

  function EntryOwner(e: Entry): Owner {
    match e.report.kind
    case SequenceObject => SequenceNamed(e.report.name)
    case TableObject => TableNamed(e.report.name)
    case ViewObject => ViewNamed(e.report.name)
    case MaterializedViewObject => ViewNamed(e.report.name)
    case FunctionObject => RoutineKeyed(e.report.name)
    case ProcedureObject => RoutineKeyed(e.report.name)
  }

  function OwnedBy(home: string -> string, o: Owner): Tagged -> bool {
    (x: Tagged) => OwnerOf(home, x.statement) == o && AtHome(home, x.statement)
  }

  ghost predicate AllOwned(home: string -> string, o: Owner, tagged: seq<Tagged>) {
    forall x <- tagged :: OwnedBy(home, o)(x)
  }

  // No index name belongs to different tables on the two sides.
  ghost predicate HomeFits(home: string -> string, s: SchemaSnapshot) {
    forall t <- s.tables :: IndexesAtHome(home, t, s.tables[t].indexes)
  }

  ghost predicate IndexesAtHome(home: string -> string, t: string, indexes: map<string, string>) {
    forall i <- indexes :: home(i) == t
  }

  /* ---- Every statement of an entry is about the entry's object ---- */

  lemma GatherOwned<T>(home: string -> string, o: Owner, items: seq<T>, part: T -> seq<Tagged>)
    requires forall item <- items :: AllOwned(home, o, part(item))
    ensures AllOwned(home, o, Gather(items, part))
  {
    hide OwnedBy;
    forall item, x | item in items && x in part(item)
      ensures OwnedBy(home, o)(x)
    {
      assert AllOwned(home, o, part(item));
    }
    GatherAll(items, part, OwnedBy(home, o));
  }

  lemma ConcatOwned(home: string -> string, o: Owner, a: seq<Tagged>, b: seq<Tagged>)
    requires AllOwned(home, o, a) && AllOwned(home, o, b)
    ensures AllOwned(home, o, a + b)
  {
    hide OwnedBy;
  }

  lemma {:induction false} ChangesOwned(home: string -> string, t: string, name: string, changes: seq<ColumnChange>)
    ensures AllOwned(home, TableNamed(t), AlterColumnStatements(t, name, changes))
  {
    if changes != [] {
      ChangesOwned(home, t, name, changes[..|changes| - 1]);
    }
  }

  lemma ColumnOwned(home: string -> string, t: string, to: map<string, Column>, column: Column)
    ensures AllOwned(home, TableNamed(t), ColumnStatements(t, to, column))
  {
    hide ColumnChanges;
    if column.name in to {
      ChangesOwned(home, t, column.name, ColumnChanges(to[column.name], column));
    }
  }

  lemma ConstraintOwned(home: string -> string, t: string, f: map<string, Constraint>, c: map<string, Constraint>,
                        n: string)
    ensures AllOwned(home, TableNamed(t), ConstraintStatements(t, f, c, n))
    ensures AllOwned(home, TableNamed(t), ForeignKeyPart(t, f)(n)) &&
      AllOwned(home, TableNamed(t), DropForeignKeyPart(t, f)(n))
  {
  }

  lemma IndexOwned(home: string -> string, qualifier: string, t: string, f: map<string, string>, c: map<string, string>,
                   n: string)
    requires IndexesAtHome(home, t, f) && IndexesAtHome(home, t, c)
    ensures AllOwned(home, TableNamed(t), IndexStatements(qualifier, t, f, c, n))
  {
  }

  lemma TriggerOwned(home: string -> string, t: string, f: map<string, string>, c: map<string, string>, n: string)
    ensures AllOwned(home, TableNamed(t), TriggerStatements(t, f, c, n))
  {
  }

  lemma AlterOwned(home: string -> string, schema: string, t: string, from: TableSnapshot, to: TableSnapshot)
    requires IndexesAtHome(home, t, from.indexes) && IndexesAtHome(home, t, to.indexes)
    ensures AllOwned(home, TableNamed(t), AlterTableStatements(schema, t, from, to))
  {
    hide AllOwned, ColumnStatements, DropColumnStatements, ConstraintStatements, IndexStatements, TriggerStatements,
      Gather, ColumnMap;
    var o, f, c := TableNamed(t), ColumnMap(from.columns), ColumnMap(to.columns);
    var a := Gather(from.columns, ColumnPart(t, c));
    var b := Gather(to.columns, DropColumnPart(t, f));
    var k :=
      Gather(Sorted(from.constraints.Keys + to.constraints.Keys), ConstraintPart(t, from.constraints, to.constraints));
    var i :=
      Gather(Sorted(from.indexes.Keys + to.indexes.Keys),
             IndexPart(IndexQualifier(schema, t), t, from.indexes, to.indexes));
    var g := Gather(Sorted(from.triggers.Keys + to.triggers.Keys), TriggerPart(t, from.triggers, to.triggers));
    forall column: Column
      ensures AllOwned(home, o, ColumnPart(t, c)(column)) && AllOwned(home, o, DropColumnPart(t, f)(column))
    {
      ColumnOwned(home, t, c, column);
      DropColumnOwned(home, t, f, column);
    }
    forall n: string
      ensures AllOwned(home, o, ConstraintPart(t, from.constraints, to.constraints)(n))
      ensures AllOwned(home, o, IndexPart(IndexQualifier(schema, t), t, from.indexes, to.indexes)(n))
      ensures AllOwned(home, o, TriggerPart(t, from.triggers, to.triggers)(n))
    {
      ConstraintOwned(home, t, from.constraints, to.constraints, n);
      IndexOwned(home, IndexQualifier(schema, t), t, from.indexes, to.indexes, n);
      TriggerOwned(home, t, from.triggers, to.triggers, n);
    }
    GatherOwned(home, o, from.columns, ColumnPart(t, c));
    GatherOwned(home, o, to.columns, DropColumnPart(t, f));
    GatherOwned(home, o, Sorted(from.constraints.Keys + to.constraints.Keys),
                ConstraintPart(t, from.constraints, to.constraints));
    GatherOwned(home, o, Sorted(from.indexes.Keys + to.indexes.Keys),
                IndexPart(IndexQualifier(schema, t), t, from.indexes, to.indexes));
    GatherOwned(home, o, Sorted(from.triggers.Keys + to.triggers.Keys), TriggerPart(t, from.triggers, to.triggers));
    ConcatOwned(home, o, a, b);
    ConcatOwned(home, o, a + b, k);
    ConcatOwned(home, o, a + b + k, i);
    ConcatOwned(home, o, a + b + k + i, g);
  }

  lemma DropColumnOwned(home: string -> string, t: string, f: map<string, Column>, column: Column)
    ensures AllOwned(home, TableNamed(t), DropColumnStatements(t, f, column))
  {
  }

  lemma CreateOwned(home: string -> string, t: string, from: TableSnapshot)
    requires IndexesAtHome(home, t, from.indexes)
    ensures AllOwned(home, TableNamed(t), CreateTableStatements(t, from))
  {
    hide AllOwned, ForeignKeyPart, IndexStatements, TriggerStatements, Gather;
    var o := TableNamed(t);
    var create := [Tagged(Tables, CreateTableStatement(t, from))];
    var k := Gather(Sorted(from.constraints.Keys), ForeignKeyPart(t, from.constraints));
    var i := Gather(Sorted(from.indexes.Keys), IndexPart("", t, from.indexes, map[]));
    var g := Gather(Sorted(from.triggers.Keys), TriggerPart(t, from.triggers, map[]));
    forall n: string
      ensures AllOwned(home, o, ForeignKeyPart(t, from.constraints)(n))
      ensures AllOwned(home, o, IndexPart("", t, from.indexes, map[])(n)) &&
        AllOwned(home, o, TriggerPart(t, from.triggers, map[])(n))
    {
      ConstraintOwned(home, t, from.constraints, map[], n);
      IndexOwned(home, "", t, from.indexes, map[], n);
      TriggerOwned(home, t, from.triggers, map[], n);
    }
    GatherOwned(home, o, Sorted(from.constraints.Keys), ForeignKeyPart(t, from.constraints));
    GatherOwned(home, o, Sorted(from.indexes.Keys), IndexPart("", t, from.indexes, map[]));
    GatherOwned(home, o, Sorted(from.triggers.Keys), TriggerPart(t, from.triggers, map[]));
    OneOwned(home, o, create[0]);
    ConcatOwned(home, o, create, k);
    ConcatOwned(home, o, create + k, i);
    ConcatOwned(home, o, create + k + i, g);
  }

  lemma OneOwned(home: string -> string, o: Owner, x: Tagged)
    requires OwnedBy(home, o)(x)
    ensures AllOwned(home, o, [x])
  {
  }

  lemma DropOwned(home: string -> string, t: string, to: TableSnapshot)
    ensures AllOwned(home, TableNamed(t), DropTableStatements(t, to))
  {
    hide AllOwned, DropForeignKeyPart, Gather;
    forall n: string
      ensures AllOwned(home, TableNamed(t), DropForeignKeyPart(t, to.constraints)(n))
    {
      ConstraintOwned(home, t, to.constraints, map[], n);
    }
    GatherOwned(home, TableNamed(t), Sorted(to.constraints.Keys), DropForeignKeyPart(t, to.constraints));
    OneOwned(home, TableNamed(t), Tagged(DropTables, DropTable(t)));
    ConcatOwned(home, TableNamed(t), Gather(Sorted(to.constraints.Keys), DropForeignKeyPart(t, to.constraints)),
                [Tagged(DropTables, DropTable(t))]);
  }

  // At most one entry, about the object itself.
  ghost predicate About(home: string -> string, o: Owner, entries: seq<Entry>) {
    |entries| <= 1 && forall e <- entries :: EntryOwner(e) == o && AllOwned(home, o, e.tagged)
  }

  lemma TableAbout(home: string -> string, source: SchemaSnapshot, target: SchemaSnapshot, n: string)
    requires HomeFits(home, source) && HomeFits(home, target)
    ensures About(home, TableNamed(n), TableEntry(source, target, n))
  {
    hide AllOwned, AlterTableStatements, CreateTableStatements, DropTableStatements, AlterTableNotes,
      AlterTableDestructive, IndexesAtHome;
    if n in source.tables && n in target.tables {
      AlterOwned(home, target.schema, n, source.tables[n], target.tables[n]);
    } else if n in source.tables {
      CreateOwned(home, n, source.tables[n]);
    } else if n in target.tables {
      DropOwned(home, n, target.tables[n]);
    }
  }

  lemma SequenceAbout(home: string -> string, source: SchemaSnapshot, target: SchemaSnapshot, n: string)
    ensures About(home, SequenceNamed(n), SequenceEntry(source, target, n))
  {
  }

  lemma ViewAbout(home: string -> string, source: SchemaSnapshot, target: SchemaSnapshot, n: string)
    ensures About(home, ViewNamed(n), ViewEntry(source, target, n))
  {
    hide NormalizeBody;
  }

  lemma RoutineAbout(home: string -> string, source: SchemaSnapshot, target: SchemaSnapshot, k: string)
    requires k in source.routines ==> RoutineKey(source.routines[k]) == k
    requires k in target.routines ==> RoutineKey(target.routines[k]) == k
    ensures About(home, RoutineKeyed(k), RoutineEntry(source, target, k))
  {
    hide NormalizeBody, RoutineKey;
  }

  /* ---- The entries of one object ---- */

  function MinePart(o: Owner): Entry -> seq<Entry> { (e: Entry) => if EntryOwner(e) == o then [e] else [] }

  function Mine(o: Owner, entries: seq<Entry>): seq<Entry> { Gather(entries, MinePart(o)) }

  ghost predicate EntriesOwned(home: string -> string, entries: seq<Entry>) {
    forall e <- entries :: AllOwned(home, EntryOwner(e), e.tagged)
  }

  lemma AboutMine(home: string -> string, o: Owner, own: Owner, entries: seq<Entry>)
    requires About(home, own, entries)
    ensures Mine(o, entries) == if o == own then entries else []
  {
    if entries != [] {
      assert entries == [entries[0]];
      GatherOne(entries[0], MinePart(o));
    }
  }

  // A list gathered by distinct names holds at most one entry of an object.
  lemma {:induction false} MineOfNames(home: string -> string, o: Owner, names: seq<string>, part: string -> seq<Entry>,
                                       own: string -> Owner)
    requires Ascending(names) && (forall n <- names :: About(home, own(n), part(n)))
    requires forall a, b :: own(a) == own(b) ==> a == b
    ensures |Mine(o, Gather(names, part))| <= 1 && EntriesOwned(home, Gather(names, part))
    ensures (forall n <- names :: own(n) != o) ==> Mine(o, Gather(names, part)) == []
  {
    hide About, AllOwned;
    if names != [] {
      var n := |names| - 1;
      MineOfNames(home, o, names[..n], part, own);
      GatherConcat(Gather(names[..n], part), part(names[n]), MinePart(o));
      AboutMine(home, o, own(names[n]), part(names[n]));
      AboutOwned(home, own(names[n]), part(names[n]));
      AboutShort(home, own(names[n]), part(names[n]));
      NewName(names, n);
    }
  }

  lemma AboutOwned(home: string -> string, o: Owner, entries: seq<Entry>)
    requires About(home, o, entries)
    ensures EntriesOwned(home, entries)
  {
    hide AllOwned;
  }

  lemma AboutShort(home: string -> string, o: Owner, entries: seq<Entry>)
    requires About(home, o, entries)
    ensures |entries| <= 1
  {
  }

  lemma TablesMine(home: string -> string, o: Owner, source: SchemaSnapshot, target: SchemaSnapshot)
    requires HomeFits(home, source) && HomeFits(home, target)
    ensures var entries := Gather(Sorted(source.tables.Keys + target.tables.Keys), TablePart(source, target));
      |Mine(o, entries)| <= 1 && EntriesOwned(home, entries) && (!o.TableNamed? ==> Mine(o, entries) == [])
  {
    hide About, AllOwned, Mine, Gather, TableEntry, HomeFits;
    var names := Sorted(source.tables.Keys + target.tables.Keys);
    forall n | n in names
      ensures About(home, TableNamed(n), TablePart(source, target)(n))
    {
      TableAbout(home, source, target, n);
    }
    MineOfNames(home, o, names, TablePart(source, target), (n: string) => TableNamed(n));
  }

  lemma SequencesMine(home: string -> string, o: Owner, source: SchemaSnapshot, target: SchemaSnapshot)
    ensures var entries := Gather(Sorted(source.sequences.Keys + target.sequences.Keys), SequencePart(source, target));
      |Mine(o, entries)| <= 1 && EntriesOwned(home, entries) && (!o.SequenceNamed? ==> Mine(o, entries) == [])
  {
    hide About, AllOwned, Mine, Gather, SequenceEntry;
    var names := Sorted(source.sequences.Keys + target.sequences.Keys);
    forall n | n in names
      ensures About(home, SequenceNamed(n), SequencePart(source, target)(n))
    {
      SequenceAbout(home, source, target, n);
    }
    MineOfNames(home, o, names, SequencePart(source, target), (n: string) => SequenceNamed(n));
  }

  lemma ViewsMine(home: string -> string, o: Owner, source: SchemaSnapshot, target: SchemaSnapshot)
    ensures var entries := Gather(Sorted(source.views.Keys + target.views.Keys), ViewPart(source, target));
      |Mine(o, entries)| <= 1 && EntriesOwned(home, entries) && (!o.ViewNamed? ==> Mine(o, entries) == [])
  {
    hide About, AllOwned, Mine, Gather, ViewEntry;
    var names := Sorted(source.views.Keys + target.views.Keys);
    forall n | n in names
      ensures About(home, ViewNamed(n), ViewPart(source, target)(n))
    {
      ViewAbout(home, source, target, n);
    }
    MineOfNames(home, o, names, ViewPart(source, target), (n: string) => ViewNamed(n));
  }

  lemma RoutinesMine(home: string -> string, o: Owner, source: SchemaSnapshot, target: SchemaSnapshot)
    requires Keyed(source) && Keyed(target)
    ensures var entries := Gather(Sorted(source.routines.Keys + target.routines.Keys), RoutinePart(source, target));
      |Mine(o, entries)| <= 1 && EntriesOwned(home, entries) && (!o.RoutineKeyed? ==> Mine(o, entries) == [])
  {
    hide About, AllOwned, Mine, Gather, RoutineEntry;
    var keys := Sorted(source.routines.Keys + target.routines.Keys);
    forall k | k in keys
      ensures About(home, RoutineKeyed(k), RoutinePart(source, target)(k))
    {
      RoutineAbout(home, source, target, k);
    }
    MineOfNames(home, o, keys, RoutinePart(source, target), (k: string) => RoutineKeyed(k));
  }

  lemma MineConcat(home: string -> string, o: Owner, a: seq<Entry>, b: seq<Entry>)
    ensures Mine(o, a + b) == Mine(o, a) + Mine(o, b)
    ensures EntriesOwned(home, a) && EntriesOwned(home, b) ==> EntriesOwned(home, a + b)
  {
    hide AllOwned;
    GatherConcat(a, b, MinePart(o));
  }

  // Every object has at most one entry, and the entry's statements are about it.
  lemma EntriesApart(home: string -> string, o: Owner, source: SchemaSnapshot, target: SchemaSnapshot)
    requires HomeFits(home, source) && HomeFits(home, target) && Keyed(source) && Keyed(target)
    ensures |Mine(o, Entries(source, target))| <= 1 && EntriesOwned(home, Entries(source, target))
  {
    hide Mine, EntriesOwned, Gather, HomeFits, Keyed;
    var a := Gather(Sorted(source.sequences.Keys + target.sequences.Keys), SequencePart(source, target));
    var b := Gather(Sorted(source.tables.Keys + target.tables.Keys), TablePart(source, target));
    var c := Gather(Sorted(source.views.Keys + target.views.Keys), ViewPart(source, target));
    var d := Gather(Sorted(source.routines.Keys + target.routines.Keys), RoutinePart(source, target));
    SequencesMine(home, o, source, target);
    TablesMine(home, o, source, target);
    ViewsMine(home, o, source, target);
    RoutinesMine(home, o, source, target);
    MineConcat(home, o, a, b);
    MineConcat(home, o, a + b, c);
    MineConcat(home, o, a + b + c, d);
  }

  /* ---- Each object's own statements ---- */

  lemma {:induction false} AllOwn(home: string -> string, o: Owner, script: seq<Statement>)
    requires forall st <- script :: OwnerOf(home, st) == o
    ensures Own(home, o, script) == script
  {
    hide OwnerOf;
    if script != [] {
      var n := |script| - 1;
      assert script == script[..n] + [script[n]];
      AllOwn(home, o, script[..n]);
      GatherLast(script[..n], script[n], OwnPart(home, o));
      assert script[n] in script;
    }
  }

  lemma NoneOwn(home: string -> string, o: Owner, script: seq<Statement>)
    requires forall st <- script :: OwnerOf(home, st) != o
    ensures Own(home, o, script) == []
  {
    GatherEmpty(script, OwnPart(home, o));
  }

  // `part` makes statements about the entry's object out of each entry.
  ghost predicate Faithful(home: string -> string, entries: seq<Entry>, part: Entry -> seq<Statement>) {
    forall e <- entries, st <- part(e) :: OwnerOf(home, st) == EntryOwner(e) && AtHome(home, st)
  }

  lemma OwnOfOne(home: string -> string, o: Owner, entries: seq<Entry>, part: Entry -> seq<Statement>, e: Entry)
    requires Faithful(home, entries, part) && e in entries
    ensures Own(home, o, part(e)) == if EntryOwner(e) == o then part(e) else []
  {
    hide OwnerOf, EntryOwner, AtHome, Own;
    assert forall st <- part(e) :: OwnerOf(home, st) == EntryOwner(e);
    if EntryOwner(e) == o {
      AllOwn(home, o, part(e));
    } else {
      NoneOwn(home, o, part(e));
    }
  }

  lemma FaithfulFront(home: string -> string, entries: seq<Entry>, part: Entry -> seq<Statement>, n: nat)
    requires Faithful(home, entries, part) && n <= |entries|
    ensures Faithful(home, entries[..n], part)
  {
    hide OwnerOf, EntryOwner, AtHome;
  }

  lemma NothingOwn(home: string -> string, o: Owner, part: Entry -> seq<Statement>)
    ensures Own(home, o, Gather([], part)) == Gather(Mine(o, []), part)
  {
  }

  lemma MineLast(o: Owner, entries: seq<Entry>, part: Entry -> seq<Statement>)
    requires entries != []
    ensures var e, front := entries[|entries| - 1], entries[..|entries| - 1];
      Gather(Mine(o, entries), part) == Gather(Mine(o, front), part) + if EntryOwner(e) == o then part(e) else []
  {
    hide EntryOwner;
    var e, front := entries[|entries| - 1], entries[..|entries| - 1];
    var found := if EntryOwner(e) == o then part(e) else [];
    assert Mine(o, entries) == Mine(o, front) + MinePart(o)(e);
    if EntryOwner(e) == o {
      GatherLast(Mine(o, front), e, part);
    } else {
      assert Mine(o, front) + [] == Mine(o, front);
      assert Gather(Mine(o, front), part) + found == Gather(Mine(o, front), part);
    }
  }

  lemma {:induction false} OwnGather(home: string -> string, o: Owner, entries: seq<Entry>,
                                     part: Entry -> seq<Statement>)
    requires Faithful(home, entries, part)
    ensures Own(home, o, Gather(entries, part)) == Gather(Mine(o, entries), part)
  {
    hide Faithful, Mine, EntryOwner, OwnerOf;
    if entries == [] {
      NothingOwn(home, o, part);
    } else {
      var n := |entries| - 1;
      FaithfulFront(home, entries, part, n);
      OwnGather(home, o, entries[..n], part);
      GatherConcat(Gather(entries[..n], part), part(entries[n]), OwnPart(home, o));
      OwnOfOne(home, o, entries, part, entries[n]);
      MineLast(o, entries, part);
    }
  }

  lemma PhaseFaithful(home: string -> string, entries: seq<Entry>, phase: Phase)
    requires EntriesOwned(home, entries)
    ensures Faithful(home, entries, PhaseOf(phase, TaggedPart()))
  {
    forall e, st | e in entries && st in PhaseOf(phase, TaggedPart())(e)
      ensures OwnerOf(home, st) == EntryOwner(e) && AtHome(home, st)
    {
      GatherMember(e.tagged, PhaseStatements(phase), st);
      var x :| x in e.tagged && st in PhaseStatements(phase)(x);
      assert AllOwned(home, EntryOwner(e), e.tagged);
      assert OwnedBy(home, EntryOwner(e))(x);
    }
  }

  // Of the first phases of all entries, an object's own statements are the first phases of its own entries.
  lemma GatherNothing(home: string -> string, o: Owner)
    ensures Own(home, o, []) == []
  {
  }

  lemma {:induction false} OwnPhases(home: string -> string, o: Owner, entries: seq<Entry>, count: nat)
    requires EntriesOwned(home, entries) && count <= PHASE_COUNT
    ensures Own(home, o, FirstPhases(count, entries)) == FirstPhases(count, Mine(o, entries))
    ensures forall st <- FirstPhases(count, entries) :: AtHome(home, st)
  {
    hide EntriesOwned, Mine, PhaseAt, AtHome, OwnerOf, Gather, PhaseOf, TaggedPart, Faithful;
    if count == 0 {
      GatherNothing(home, o);
    } else {
      var phase := PhaseAt(count - 1);
      OwnPhases(home, o, entries, count - 1);
      PhaseFaithful(home, entries, phase);
      OwnGather(home, o, entries, PhaseOf(phase, TaggedPart()));
      GatherConcat(FirstPhases(count - 1, entries), EntriesOfPhase(phase, entries), OwnPart(home, o));
      FaithfulHome(home, entries, PhaseOf(phase, TaggedPart()));
    }
  }

  lemma FaithfulHome(home: string -> string, entries: seq<Entry>, part: Entry -> seq<Statement>)
    requires Faithful(home, entries, part)
    ensures forall st <- Gather(entries, part) :: AtHome(home, st)
  {
    forall st | st in Gather(entries, part)
      ensures AtHome(home, st)
    {
      GatherMember(entries, part, st);
    }
  }

  lemma OneEntryOwned(home: string -> string, entries: seq<Entry>, e: Entry)
    requires EntriesOwned(home, entries) && e in entries
    ensures EntriesOwned(home, [e]) && Mine(EntryOwner(e), [e]) == [e]
  {
    GatherOne(e, MinePart(EntryOwner(e)));
  }

  lemma ObjectFaithful(home: string -> string, entries: seq<Entry>)
    requires EntriesOwned(home, entries)
    ensures Faithful(home, entries, ObjectPhases())
  {
    hide AtHome, OwnerOf, FirstPhases, EntriesOwned, Mine;
    forall e, st | e in entries && st in ObjectPhases()(e)
      ensures OwnerOf(home, st) == EntryOwner(e) && AtHome(home, st)
    {
      OneEntryOwned(home, entries, e);
      OwnPhases(home, EntryOwner(e), [e], PHASE_COUNT);
      OwnMember(home, EntryOwner(e), FirstPhases(PHASE_COUNT, [e]), st);
    }
  }

  lemma OwnMember(home: string -> string, o: Owner, script: seq<Statement>, st: Statement)
    requires st in Own(home, o, script)
    ensures OwnerOf(home, st) == o
  {
    GatherMember(script, OwnPart(home, o), st);
  }

  // The script and the object-by-object run order each object's statements alike.
  lemma OwnOrderAlike(home: string -> string, entries: seq<Entry>, o: Owner)
    requires EntriesOwned(home, entries) && |Mine(o, entries)| <= 1
    ensures Own(home, o, ScriptOf(entries)) == Own(home, o, ObjectByObject(entries))
    ensures ScriptAtHome(home, ScriptOf(entries)) && ScriptAtHome(home, ObjectByObject(entries))
  {
    hide EntriesOwned, Mine, AtHome, ScriptOf, FirstPhases, Own;
    ScriptByPhases(entries);
    OwnPhases(home, o, entries, PHASE_COUNT);
    ObjectFaithful(home, entries);
    OwnGather(home, o, entries, ObjectPhases());
    FaithfulHome(home, entries, ObjectPhases());
    var mine := Mine(o, entries);
    if mine == [] {
      NoPhases(PHASE_COUNT);
      assert Gather(mine, ObjectPhases()) == [];
    } else {
      assert mine == [mine[0]];
      GatherOne(mine[0], ObjectPhases());
    }
  }

  lemma {:induction false} NoPhases(count: nat)
    requires count <= PHASE_COUNT
    ensures FirstPhases(count, []) == []
  {
    hide PhaseAt;
    if count > 0 {
      NoPhases(count - 1);
    }
  }

  lemma TargetAtHome(home: string -> string, target: SchemaSnapshot)
    requires HomeFits(home, target) && DistinctIndexes(target)
    ensures AllAtHome(home, DbOf(target))
  {
    var db := DbOf(target);
    forall i | i in db.indexes
      ensures db.indexes[i].table == home(i)
    {
      var t :| t in target.tables && i in target.tables[t].indexes && db.indexes[i] == IndexAt(target, t, i);
      assert IndexesAtHome(home, t, target.tables[t].indexes);
    }
  }

  // Routine statements are about keys of the side they come from.
  lemma RoutineKeys(source: SchemaSnapshot, target: SchemaSnapshot, st: Statement)
    requires Keyed(source) && Keyed(target) && st in ScriptOf(Entries(source, target))
    ensures st.CreateRoutine? ==> st.key in source.routines
    ensures st.DropRoutine? ==> st.key in target.routines
  {
    hide Entries, ScriptOf, NormalizeBody, RoutineKey;
    if st.CreateRoutine? || st.DropRoutine? {
      var k := RoutineStatement(source, target, st);
    }
  }

  lemma NotMistaken(pg: Reader, s: Db, d: Db, a: string, b: string)
    requires Distinguished(pg, s, d) && (a in s.routines || a in d.routines) && (b in s.routines || b in d.routines)
    ensures pg.signature(a) == pg.signature(b) ==> a == b
  {
  }

  lemma ScriptClear(pg: Reader, source: SchemaSnapshot, target: SchemaSnapshot, s: Db, d: Db)
    requires Describes(pg, target) && Distinguished(pg, s, d) && Keyed(source) && Keyed(target)
    requires s.routines.Keys == source.routines.Keys && d.routines.Keys == target.routines.Keys
    ensures Clear(pg, d, ScriptOf(Entries(source, target)))
  {
    hide ScriptOf, Entries, Spares, Creates, Distinguished, Keyed;
    var script := ScriptOf(Entries(source, target));
    forall q, st, other | st in script && other in script && TakesAlong(pg, st, q)
      ensures !Creates(other, q)
    {
      NotCreated(source, target, other, q);
    }
    forall k, st, other | st in script && other in script && Shadows(pg, st, k)
      ensures k !in d.routines && !(other.CreateRoutine? && other.key == k)
    {
      RoutineKeys(source, target, st);
      RoutineKeys(source, target, other);
      if k in s.routines || k in d.routines {
        NotMistaken(pg, s, d, k, st.key);
      }
    }
  }

  lemma DistinctSides(pg: Reader, source: SchemaSnapshot, target: SchemaSnapshot)
    requires Valid(pg, source) && Valid(pg, target) && SignaturesStay(pg, DbOf(source), DbOf(target))
    ensures Distinguished(pg, DbOf(source), DbOf(target))
    ensures DbOf(source).routines.Keys == source.routines.Keys && DbOf(target).routines.Keys == target.routines.Keys
  {
    hide TableSound, IndexSound, ViewSound, NamesDisjoint, FieldsAgree, Keyed;
  }

  // Sorting the statements of all objects by phase does not change what they do: if the script and the run one object
  // at a time both succeed, they leave the same schema. Two keys that PostgreSQL takes for one routine are the
  // exception.
  lemma PhaseOrderPreserves(pg: Reader, home: string -> string, source: SchemaSnapshot, target: SchemaSnapshot)
    requires Valid(pg, source) && Valid(pg, target) && Describes(pg, target) && HomeFits(home, source) &&
      HomeFits(home, target)
    requires SignaturesStay(pg, DbOf(source), DbOf(target))
    requires Run(pg, DbOf(target), ScriptOf(Entries(source, target))).Some?
    requires Run(pg, DbOf(target), ObjectByObject(Entries(source, target))).Some?
    ensures Run(pg, DbOf(target), ScriptOf(Entries(source, target))) ==
            Run(pg, DbOf(target), ObjectByObject(Entries(source, target)))
  {
    hide Run, ScriptOf, ObjectByObject, Entries, Consistent, DbOf, HomeFits, DistinctColumns, DistinctIndexes, Own,
      AllAtHome, ScriptAtHome, Describes, FieldsAgree, Clear, SignaturesStay, Distinguished;
    var entries := Entries(source, target);
    DistinctSides(pg, source, target);
    ScriptClear(pg, source, target, DbOf(source), DbOf(target));
    TargetAtHome(home, target);
    forall o
      ensures Own(home, o, ScriptOf(entries)) == Own(home, o, ObjectByObject(entries))
      ensures ScriptAtHome(home, ScriptOf(entries)) && ScriptAtHome(home, ObjectByObject(entries))
    {
      EntriesApart(home, o, source, target);
      OwnOrderAlike(home, entries, o);
    }
    assert Own(home, SequenceNamed(""), ScriptOf(entries)) == Own(home, SequenceNamed(""), ObjectByObject(entries));
    SameOwnOrder(pg, home, DbOf(target), ScriptOf(entries), ObjectByObject(entries));
  }

  // So where the script applies, running one object at a time can fail but cannot end anywhere else.
  lemma ObjectOrderReaches(pg: Reader, home: string -> string, source: SchemaSnapshot, target: SchemaSnapshot)
    requires Valid(pg, source) && Valid(pg, target) && Describes(pg, target) && HomeFits(home, source) &&
      HomeFits(home, target)
    requires ScriptApplies(pg, source, target)
    requires Run(pg, DbOf(target), ObjectByObject(Entries(source, target))).Some?
    ensures Run(pg, DbOf(target), ObjectByObject(Entries(source, target))) == Some(DbOf(source))
  {
    hide Run, ScriptOf, ObjectByObject, Entries, Consistent, DbOf, HomeFits, DistinctColumns, DistinctIndexes,
      ScriptApplies, Describes, FieldsAgree, Keyed, SignaturesStay, AllExpressible, OwnersStay;
    Converges(pg, source, target);
    AppliesExpressible(pg, source, target);
    PhaseOrderPreserves(pg, home, source, target);
  }

  /* ---- One object at a time is not enough ---- */

  // A foreign key cannot be added while the statements that ran are all about other objects than the table it points
  // at.
  lemma {:induction false} ForeignKeyNeedsTable(pg: Reader, home: string -> string, db: Db, script: seq<Statement>,
                                                st: Statement,
                                                table: string)
    requires AllAtHome(home, db) && ScriptAtHome(home, script) && table !in db.tables
    requires forall other <- script :: OwnerOf(home, other) != TableNamed(table)
    requires st in script && st.AddConstraint? && IsForeign(st.constraint) &&
      pg.references(st.constraint.definition) == Some(table)
    ensures Run(pg, db, script).None?
  {
    hide Exec, AllAtHome, OwnerOf, AtHome;
    var n := |script| - 1;
    if st in script[..n] {
      ForeignKeyNeedsTable(pg, home, db, script[..n], st, table);
    } else {
      assert script == script[..n] + [script[n]];
      assert script[n] == st;
      if Run(pg, db, script[..n]).Some? {
        var before := Run(pg, db, script[..n]).value;
        RunByOwner(pg, home, db, script[..n], TableNamed(table));
        NoneOwn(home, TableNamed(table), script[..n]);
        NoEffects(pg, home, ShareOf(db, TableNamed(table)));
        assert Held(before.tables, table) == Held(db.tables, table);
        TableMissing(pg, before, st, table);
      }
    }
  }

  lemma NoEffects(pg: Reader, home: string -> string, share: Share)
    ensures Effects(pg, home, share, []) == share
  {
  }

  lemma TableMissing(pg: Reader, db: Db, st: Statement, table: string)
    requires table !in db.tables && st.AddConstraint? && IsForeign(st.constraint)
    requires pg.references(st.constraint.definition) == Some(table)
    ensures Exec(pg, db, st).None?
  {
  }

  // The entries before and up to a table's.
  ghost function UpToTable(source: SchemaSnapshot, target: SchemaSnapshot, i: nat): seq<Entry>
    requires i <= |Sorted(source.tables.Keys + target.tables.Keys)|
  {
    Gather(Sorted(source.sequences.Keys + target.sequences.Keys), SequencePart(source, target)) +
    Gather(Sorted(source.tables.Keys + target.tables.Keys)[..i], TablePart(source, target))
  }

  lemma UpToTableFirst(source: SchemaSnapshot, target: SchemaSnapshot, i: nat)
    requires i <= |Sorted(source.tables.Keys + target.tables.Keys)|
    ensures exists rest :: Entries(source, target) == UpToTable(source, target, i) + rest
  {
    hide Gather;
    var names := Sorted(source.tables.Keys + target.tables.Keys);
    var part := TablePart(source, target);
    var a := Gather(Sorted(source.sequences.Keys + target.sequences.Keys), SequencePart(source, target));
    var b, c := Gather(names[..i], part), Gather(names[i..], part);
    var d := Gather(Sorted(source.views.Keys + target.views.Keys), ViewPart(source, target));
    var e := Gather(Sorted(source.routines.Keys + target.routines.Keys), RoutinePart(source, target));
    GatherConcat(names[..i], names[i..], part);
    assert names[..i] + names[i..] == names;
    Regrouped(a, b, c, d, e);
    assert Entries(source, target) == UpToTable(source, target, i) + (c + d + e);
  }

  lemma Regrouped<T>(a: seq<T>, b: seq<T>, c: seq<T>, d: seq<T>, e: seq<T>)
    ensures a + (b + c) + d + e == a + b + (c + d + e)
  {
  }

  lemma UpToTableOwners(home: string -> string, source: SchemaSnapshot, target: SchemaSnapshot, i: nat, table: string)
    requires i <= |Sorted(source.tables.Keys + target.tables.Keys)| && HomeFits(home, source) && HomeFits(home, target)
    requires table !in Sorted(source.tables.Keys + target.tables.Keys)[..i]
    ensures forall e <- UpToTable(source, target, i) :: EntryOwner(e) != TableNamed(table)
  {
    hide About, AllOwned, Gather, HomeFits, TableEntry, SequenceEntry;
    var sequences, tables :=
      Sorted(source.sequences.Keys + target.sequences.Keys), Sorted(source.tables.Keys + target.tables.Keys)[..i];
    forall e | e in UpToTable(source, target, i)
      ensures EntryOwner(e) != TableNamed(table)
    {
      if e in Gather(sequences, SequencePart(source, target)) {
        GatherMember(sequences, SequencePart(source, target), e);
        var n :| n in sequences && e in SequencePart(source, target)(n);
        SequenceAbout(home, source, target, n);
        AboutIs(home, SequenceNamed(n), SequenceEntry(source, target, n), e);
      } else {
        GatherMember(tables, TablePart(source, target), e);
        var n :| n in tables && e in TablePart(source, target)(n);
        TableAbout(home, source, target, n);
        AboutIs(home, TableNamed(n), TableEntry(source, target, n), e);
      }
    }
  }

  lemma AboutIs(home: string -> string, o: Owner, entries: seq<Entry>, e: Entry)
    requires About(home, o, entries) && e in entries
    ensures EntryOwner(e) == o
  {
  }

  lemma FaithfulOwners(home: string -> string, entries: seq<Entry>, part: Entry -> seq<Statement>, o: Owner)
    requires Faithful(home, entries, part) && forall e <- entries :: EntryOwner(e) != o
    ensures forall st <- Gather(entries, part) :: OwnerOf(home, st) != o
  {
    forall st | st in Gather(entries, part)
      ensures OwnerOf(home, st) != o
    {
      GatherMember(entries, part, st);
    }
  }

  // The foreign key of a created table is among its statements.
  lemma ForeignKeyStated(source: SchemaSnapshot, target: SchemaSnapshot, t: string, k: string)
    requires t in source.tables && t !in target.tables && k in source.tables[t].constraints &&
      IsForeign(source.tables[t].constraints[k])
    ensures AddConstraint(t, k, source.tables[t].constraints[k]) in Gather(TableEntry(source, target, t),
      ObjectPhases())
  {
    var from := source.tables[t];
    var e, x := TableEntry(source, target, t)[0], Tagged(ForeignKeys, AddConstraint(t, k, from.constraints[k]));
    GatherMember(Sorted(from.constraints.Keys), ForeignKeyPart(t, from.constraints), x);
    assert x in e.tagged;
    GatherOne(e, ObjectPhases());
    assert TableEntry(source, target, t) == [e];
    TaggedStated(e, x);
  }

  lemma TaggedStated(e: Entry, x: Tagged)
    requires x in e.tagged
    ensures x.statement in FirstPhases(PHASE_COUNT, [e])
  {
    hide FirstPhases;
    ScriptByPhases([e]);
    OneOrdered(e, x);
  }

  lemma OneOrdered(e: Entry, x: Tagged)
    requires x in e.tagged
    ensures x.statement in ScriptOf([e])
  {
    hide StableSort;
    var i: nat :| i < |e.tagged| && e.tagged[i] == x;
    var ordered := OrderedEntries([e]);
    assert [e][..0] == [] && OrderedEntries([e][..0]) == [];
    assert ordered == OrderedEntries([e][..0]) + OrderedEntry(0, e.tagged);
    assert ordered[i].statement == x.statement;
    var sorted := StableSort(ordered);
    SortedHas(ordered, ordered[i]);
    var j: nat :| j < |sorted| && sorted[j] == ordered[i];
    assert ScriptOf([e])[j] == x.statement;
  }

  lemma SortedHas(ordered: seq<Ordered>, x: Ordered)
    requires x in ordered
    ensures x in StableSort(ordered)
  {
    hide StableSort, InOrder, Stable;
    StableSortSorts(ordered);
    assert x in multiset(ordered);
  }

  // The statements up to a table: all at home, and none about a table that comes later.
  lemma UpToTableScript(home: string -> string, source: SchemaSnapshot, target: SchemaSnapshot, i: nat, table: string,
                        rest: seq<Entry>)
    requires HomeFits(home, source) && HomeFits(home, target) && Keyed(source) && Keyed(target)
    requires i <= |Sorted(source.tables.Keys + target.tables.Keys)|
    requires table !in Sorted(source.tables.Keys + target.tables.Keys)[..i]
    requires Entries(source, target) == UpToTable(source, target, i) + rest
    ensures var script := Gather(UpToTable(source, target, i), ObjectPhases());
      ScriptAtHome(home, script) && forall st <- script :: OwnerOf(home, st) != TableNamed(table)
  {
    hide Entries, UpToTable, HomeFits, EntriesOwned, Faithful, FirstPhases, OwnerOf, AtHome, Mine, Keyed;
    var first := UpToTable(source, target, i);
    UpToTableOwners(home, source, target, i, table);
    EntriesApart(home, TableNamed(table), source, target);
    OwnedFront(home, first, rest);
    ObjectFaithful(home, first);
    FaithfulOwners(home, first, ObjectPhases(), TableNamed(table));
    FaithfulHome(home, first, ObjectPhases());
  }

  lemma ValidKeyed(pg: Reader, s: SchemaSnapshot)
    requires Valid(pg, s)
    ensures Keyed(s) && DistinctIndexes(s)
  {
    hide Consistent, DistinctColumns;
  }

  lemma FailsAtFirst(pg: Reader, db: Db, a: seq<Statement>, b: seq<Statement>)
    requires Run(pg, db, a).None?
    ensures Run(pg, db, a + b).None?
  {
    RunConcat(pg, db, a, b);
  }

  // A new table with a foreign key to a new table of a later name cannot be finished before that table exists, so the
  // run one object at a time fails; the phases of the script are what makes such schemas reachable.
  lemma ForwardReferenceFails(pg: Reader, home: string -> string, source: SchemaSnapshot, target: SchemaSnapshot,
                              t: string,
                              table: string, k: string)
    requires Valid(pg, source) && Valid(pg, target) && HomeFits(home, source) && HomeFits(home, target)
    requires t in source.tables && t !in target.tables && table !in target.tables && Less(t, table)
    requires k in source.tables[t].constraints && IsForeign(source.tables[t].constraints[k])
    requires pg.references(source.tables[t].constraints[k].definition) == Some(table)
    ensures Run(pg, DbOf(target), ObjectByObject(Entries(source, target))).None?
  {
    hide Run, Entries, UpToTable, Valid, HomeFits, AllAtHome, ScriptAtHome, OwnerOf, FirstPhases, TableEntry, Keyed,
      DbOf, Gather;
    ValidKeyed(pg, source);
    ValidKeyed(pg, target);
    var names := Sorted(source.tables.Keys + target.tables.Keys);
    assert t in names;
    var i: nat :| i < |names| && names[i] == t;
    UpToTableFirst(source, target, i + 1);
    var first := UpToTable(source, target, i + 1);
    var rest :| Entries(source, target) == first + rest;
    NotYetNamed(names, i, table);
    UpToTableScript(home, source, target, i + 1, table, rest);
    TargetAtHome(home, target);
    TargetLacks(target, table);
    ForeignKeyStated(source, target, t, k);
    var st := AddConstraint(t, k, source.tables[t].constraints[k]);
    LastTableStated(source, target, i, st);
    ForeignKeyNeedsTable(pg, home, DbOf(target), Gather(first, ObjectPhases()), st, table);
    GatherConcat(first, rest, ObjectPhases());
    FailsAtFirst(pg, DbOf(target), Gather(first, ObjectPhases()), Gather(rest, ObjectPhases()));
  }

  lemma TargetLacks(target: SchemaSnapshot, table: string)
    requires DistinctIndexes(target) && table !in target.tables
    ensures table !in DbOf(target).tables
  {
  }

  lemma OwnedFront(home: string -> string, first: seq<Entry>, rest: seq<Entry>)
    requires EntriesOwned(home, first + rest)
    ensures EntriesOwned(home, first)
  {
    hide AllOwned;
    assert forall e <- first :: e in first + rest;
  }

  lemma NotYetNamed(names: seq<string>, i: nat, later: string)
    requires Ascending(names) && i < |names| && Less(names[i], later)
    ensures later !in names[..i + 1]
  {
    forall j | 0 <= j <= i
      ensures names[j] != later
    {
      LessTotal(names[i], later);
      assert j < i ==> Less(names[j], names[i]);
    }
  }

  lemma LastTableStated(source: SchemaSnapshot, target: SchemaSnapshot, i: nat, st: Statement)
    requires i < |Sorted(source.tables.Keys + target.tables.Keys)|
    requires st in Gather(TableEntry(source, target, Sorted(source.tables.Keys + target.tables.Keys)[i]),
                          ObjectPhases())
    ensures st in Gather(UpToTable(source, target, i + 1), ObjectPhases())
  {
    hide TableEntry, FirstPhases;
    var names := Sorted(source.tables.Keys + target.tables.Keys);
    GatherStep(names, i, TablePart(source, target));
    var before := Gather(Sorted(source.sequences.Keys + target.sequences.Keys), SequencePart(source, target)) +
      Gather(names[..i], TablePart(source, target));
    assert UpToTable(source, target, i + 1) == before + TableEntry(source, target, names[i]);
    GatherConcat(before, TableEntry(source, target, names[i]), ObjectPhases());
  }
}

/** `diff_schemas`: the whole comparison. */
module Comparison {
  import opened Options
  import opened Gathering
  import opened Names
  import opened Snapshots
  import opened Statements
  import opened Diff
  import opened ScriptOrder
  import opened Builders
  import opened Requalification

  datatype SchemaDiff = SchemaDiff(
    objects: seq<ObjectDiff>, notes: seq<(string, Note)>, script: seq<Statement>, destructive: bool)

  function NotesOf(report: ObjectDiff): seq<(string, Note)> {
    seq(|report.notes|, i requires 0 <= i < |report.notes| => (report.name, report.notes[i]))
  }

  function NotesPart(): Entry -> seq<(string, Note)> { (entry: Entry) => NotesOf(entry.report) }

  ghost function Report(source: SchemaSnapshot, target: SchemaSnapshot): SchemaDiff {
    var entries := Entries(source, target);
    SchemaDiff(Gather(entries, ObjectPart()), Gather(entries, NotesPart()), ScriptOf(entries),
               exists e <- entries :: e.report.destructive)
  }

  // What one object's builder holds, as an entry.
  method Finish(builder: Builder, kind: ObjectKind, name: string, status: Status) returns (entry: Entry)
    ensures entry == MakeEntry(kind, name, status, builder.statements, builder.destructive, builder.notes)
  {
    entry := MakeEntry(kind, name, status, builder.statements, builder.destructive, builder.notes);
  }

  method CompareSequence(source: SchemaSnapshot, target: SchemaSnapshot, name: string) returns (found: seq<Entry>)
    ensures found == SequenceEntry(source, target, name)
  {
    var from, to := Lookup(source.sequences, name), Lookup(target.sequences, name);
    var builder := new Builder();
    var status: Status;
    match (from, to) {
    case (Some(wanted), None) =>
      builder.Push(Sequences, CreateSequence(name, wanted));
      assert builder.statements == [Tagged(Sequences, CreateSequence(name, wanted))];
      status := Added;
    case (None, Some(_)) =>
      builder.Push(DropSequences, DropSequence(name));
      assert builder.statements == [Tagged(DropSequences, DropSequence(name))];
      builder.destructive := true;
      status := Removed;
    case (Some(wanted), Some(existing)) =>
      if wanted == existing {
        return [];
      }
      builder.Push(Sequences, AlterSequence(name, wanted));
      assert builder.statements == [Tagged(Sequences, AlterSequence(name, wanted))];
      status := Changed;
    case (None, None) =>
      return [];
    }
    var entry := Finish(builder, SequenceObject, name, status);
    return [entry];
  }

  method CompareTable(source: SchemaSnapshot, target: SchemaSnapshot, name: string) returns (found: seq<Entry>)
    ensures found == TableEntry(source, target, name)
  {
    hide AlterTableStatements, AlterTableNotes, AlterTableDestructive, CreateTableStatements, DropTableStatements;
    var from, to := Lookup(source.tables, name), Lookup(target.tables, name);
    var builder := new Builder();
    var status: Status;
    match (from, to) {
    case (Some(wanted), None) =>
      builder.CreateTable(name, wanted);
      assert builder.statements == CreateTableStatements(name, wanted);
      status := Added;
    case (None, Some(existing)) =>
      builder.DropTable(name, existing);
      assert builder.statements == DropTableStatements(name, existing);
      status := Removed;
    case (Some(wanted), Some(existing)) =>
      builder.AlterTable(target.schema, name, wanted, existing);
      assert builder.statements == AlterTableStatements(target.schema, name, wanted, existing);
      assert builder.notes == AlterTableNotes(wanted, existing);
      if builder.statements == [] && builder.notes == [] {
        return [];
      }
      status := Changed;
    case (None, None) =>
      return [];
    }
    var entry := Finish(builder, TableObject, name, status);
    return [entry];
  }

  method CompareView(source: SchemaSnapshot, target: SchemaSnapshot, name: string) returns (found: seq<Entry>)
    ensures found == ViewEntry(source, target, name)
  {
    hide NormalizeBody;
    var from, to := Lookup(source.views, name), Lookup(target.views, name);
    var materialized := if from.Some? then from.value.materialized else to.Some? && to.value.materialized;
    var builder := new Builder();
    var status: Status;
    match (from, to) {
    case (Some(wanted), None) =>
      builder.Push(Views, CreateView(name, wanted.materialized, false, NormalizeBody(wanted.definition)));
      assert builder.statements ==
        [Tagged(Views, CreateView(name, wanted.materialized, false, NormalizeBody(wanted.definition)))];
      status := Added;
    case (None, Some(existing)) =>
      builder.Push(DropViews, DropView(name, existing.materialized));
      assert builder.statements == [Tagged(DropViews, DropView(name, existing.materialized))];
      status := Removed;
    case (Some(wanted), Some(existing)) =>
      if !ViewChanged(wanted, existing) {
        return [];
      }
      if wanted.materialized || existing.materialized {
        builder.Push(DropViews, DropView(name, existing.materialized));
        builder.Push(Views, CreateView(name, wanted.materialized, false, NormalizeBody(wanted.definition)));
        assert builder.statements ==
               [Tagged(DropViews, DropView(name, existing.materialized)),
                Tagged(Views, CreateView(name, wanted.materialized, false, NormalizeBody(wanted.definition)))];
      } else {
        builder.Push(Views, CreateView(name, false, true, NormalizeBody(wanted.definition)));
        assert builder.statements == [Tagged(Views, CreateView(name, false, true, NormalizeBody(wanted.definition)))];
        builder.notes := [ReplaceViewMayFail];
      }
      status := Changed;
    case (None, None) =>
      return [];
    }
    var entry := Finish(builder, if materialized then MaterializedViewObject else ViewObject, name, status);
    return [entry];
  }

  method CompareRoutine(source: SchemaSnapshot, target: SchemaSnapshot, key: string) returns (found: seq<Entry>)
    ensures found == RoutineEntry(source, target, key)
  {
    hide NormalizeBody;
    var from, to := Lookup(source.routines, key), Lookup(target.routines, key);
    var procedure := if from.Some? then from.value.procedure else to.Some? && to.value.procedure;
    var builder := new Builder();
    var status: Status;
    match (from, to) {
    case (Some(wanted), None) =>
      builder.Push(Routines, CreateRoutineStatement(wanted));
      assert builder.statements == [Tagged(Routines, CreateRoutineStatement(wanted))];
      status := Added;
    case (None, Some(existing)) =>
      builder.Push(DropRoutines, DropRoutine(RoutineKey(existing), existing.procedure));
      assert builder.statements == [Tagged(DropRoutines, DropRoutine(RoutineKey(existing), existing.procedure))];
      status := Removed;
    case (Some(wanted), Some(existing)) =>
      if NormalizeBody(wanted.definition) == NormalizeBody(existing.definition) {
        return [];
      }
      builder.Push(Routines, CreateRoutineStatement(wanted));
      assert builder.statements == [Tagged(Routines, CreateRoutineStatement(wanted))];
      builder.notes := [ReplaceRoutineMayFail];
      status := Changed;
    case (None, None) =>
      return [];
    }
    var entry := Finish(builder, if procedure then ProcedureObject else FunctionObject, key, status);
    return [entry];
  }

  method CompareSequences(source: SchemaSnapshot, target: SchemaSnapshot,
                          before: seq<Entry>) returns (entries: seq<Entry>)
    ensures entries ==
      before + Gather(Sorted(source.sequences.Keys + target.sequences.Keys), SequencePart(source, target))
  {
    hide SequenceEntry;
    var names := Keys(source.sequences.Keys + target.sequences.Keys);
    entries := before;
    for i := 0 to |names|
      invariant entries == before + Gather(names[..i], SequencePart(source, target))
    {
      GatherStep(names, i, SequencePart(source, target));
      var found := CompareSequence(source, target, names[i]);
      entries := entries + found;
    }
    assert names[..|names|] == names;
  }

  method CompareTables(source: SchemaSnapshot, target: SchemaSnapshot, before: seq<Entry>) returns (entries: seq<Entry>)
    ensures entries == before + Gather(Sorted(source.tables.Keys + target.tables.Keys), TablePart(source, target))
  {
    hide TableEntry;
    var names := Keys(source.tables.Keys + target.tables.Keys);
    entries := before;
    for i := 0 to |names|
      invariant entries == before + Gather(names[..i], TablePart(source, target))
    {
      GatherStep(names, i, TablePart(source, target));
      var found := CompareTable(source, target, names[i]);
      entries := entries + found;
    }
    assert names[..|names|] == names;
  }

  method CompareViews(source: SchemaSnapshot, target: SchemaSnapshot, before: seq<Entry>) returns (entries: seq<Entry>)
    ensures entries == before + Gather(Sorted(source.views.Keys + target.views.Keys), ViewPart(source, target))
  {
    hide ViewEntry;
    var names := Keys(source.views.Keys + target.views.Keys);
    entries := before;
    for i := 0 to |names|
      invariant entries == before + Gather(names[..i], ViewPart(source, target))
    {
      GatherStep(names, i, ViewPart(source, target));
      var found := CompareView(source, target, names[i]);
      entries := entries + found;
    }
    assert names[..|names|] == names;
  }

  method CompareRoutines(source: SchemaSnapshot, target: SchemaSnapshot,
                         before: seq<Entry>) returns (entries: seq<Entry>)
    ensures entries == before + Gather(Sorted(source.routines.Keys + target.routines.Keys), RoutinePart(source, target))
  {
    hide RoutineEntry;
    var keys := Keys(source.routines.Keys + target.routines.Keys);
    entries := before;
    for i := 0 to |keys|
      invariant entries == before + Gather(keys[..i], RoutinePart(source, target))
    {
      GatherStep(keys, i, RoutinePart(source, target));
      var found := CompareRoutine(source, target, keys[i]);
      entries := entries + found;
    }
    assert keys[..|keys|] == keys;
  }

  // The statements with their phase and the position of their object.
  method Numbered(entries: seq<Entry>) returns (ordered: seq<Ordered>)
    ensures ordered == OrderedEntries(entries)
  {
    ordered := [];
    for i := 0 to |entries|
      invariant ordered == OrderedEntries(entries[..i])
    {
      assert entries[..i + 1][..i] == entries[..i];
      ordered := ordered + OrderedEntry(i, entries[i].tagged);
    }
    assert entries[..|entries|] == entries;
  }

  method Script(entries: seq<Entry>) returns (script: seq<Statement>)
    ensures script == ScriptOf(entries)
  {
    var ordered := Numbered(entries);
    var sorted := StableSort(ordered);
    script := [];
    for i := 0 to |sorted|
      invariant script == ScriptOf(entries)[..i]
    {
      script := script + [sorted[i].statement];
    }
  }

  method Summary(entries: seq<Entry>) returns (objects: seq<ObjectDiff>, notes: seq<(string, Note)>, destructive: bool)
    ensures objects == Gather(entries, ObjectPart()) && notes == Gather(entries, NotesPart())
    ensures destructive <==> exists e <- entries :: e.report.destructive
  {
    objects, notes, destructive := [], [], false;
    for i := 0 to |entries|
      invariant objects == Gather(entries[..i], ObjectPart()) && notes == Gather(entries[..i], NotesPart())
      invariant destructive <==> exists e <- entries[..i] :: e.report.destructive
    {
      GatherStep(entries, i, ObjectPart());
      GatherStep(entries, i, NotesPart());
      assert entries[..i + 1] == entries[..i] + [entries[i]];
      objects := objects + [entries[i].report];
      notes := notes + NotesOf(entries[i].report);
      destructive := destructive || entries[i].report.destructive;
    }
    assert entries[..|entries|] == entries;
  }

  // `source` is the desired state; the script is written for the target's schema.
  method DiffSchemas(alphanumeric: char -> bool, source: SchemaSnapshot,
                     target: SchemaSnapshot) returns (diff: SchemaDiff)
    ensures diff == Report(RequalifySnapshot(alphanumeric, source, target.schema), target)
  {
    hide *;
    var wanted := RequalifySnapshot(alphanumeric, source, target.schema);
    var entries := CompareSequences(wanted, target, []);
    entries := CompareTables(wanted, target, entries);
    entries := CompareViews(wanted, target, entries);
    entries := CompareRoutines(wanted, target, entries);
    AllEntries(wanted, target, entries);
    var script := Script(entries);
    var objects, notes, destructive := Summary(entries);
    diff := SchemaDiff(objects, notes, script, destructive);
    ReportIs(wanted, target, diff);
  }

  lemma AllEntries(source: SchemaSnapshot, target: SchemaSnapshot, entries: seq<Entry>)
    requires entries ==
      [] + Gather(Sorted(source.sequences.Keys + target.sequences.Keys), SequencePart(source, target)) +
      Gather(Sorted(source.tables.Keys + target.tables.Keys), TablePart(source, target)) +
      Gather(Sorted(source.views.Keys + target.views.Keys), ViewPart(source, target)) +
      Gather(Sorted(source.routines.Keys + target.routines.Keys), RoutinePart(source, target))
    ensures entries == Entries(source, target)
  {
    hide Gather;
  }

  lemma ReportIs(source: SchemaSnapshot, target: SchemaSnapshot, diff: SchemaDiff)
    requires var entries := Entries(source, target);
      diff.objects == Gather(entries, ObjectPart()) && diff.notes == Gather(entries, NotesPart()) &&
      diff.script == ScriptOf(entries) && (diff.destructive <==> exists e <- entries :: e.report.destructive)
    ensures diff == Report(source, target)
  {
    hide Gather, Entries, ScriptOf;
  }
}

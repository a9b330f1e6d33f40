/** What the comparison of two snapshots reports, as functions of the snapshots. */
module Diff {
  import opened Options
  import opened Gathering
  import opened Names
  import opened Text
  import opened Splitting
  import opened Identifiers
  import opened Snapshots
  import opened Statements

  datatype ObjectKind =
    | SequenceObject | TableObject | ViewObject | MaterializedViewObject | FunctionObject | ProcedureObject

  datatype Status = Added | Removed | Changed

  datatype Note = PartitioningDiffers | GenerationDiffers(column: string) | ReplaceViewMayFail | ReplaceRoutineMayFail

  datatype ObjectDiff = ObjectDiff(
    kind: ObjectKind, name: string, status: Status, statements: seq<Statement>, destructive: bool, notes: seq<Note>)

  // One differing object with its statements still tagged by phase.
  datatype Entry = Entry(report: ObjectDiff, tagged: seq<Tagged>)

  function Untagged(tagged: seq<Tagged>): seq<Statement> {
    seq(|tagged|, i requires 0 <= i < |tagged| => tagged[i].statement)
  }

  function MakeEntry(kind: ObjectKind, name: string, status: Status, tagged: seq<Tagged>, destructive: bool,
                     notes: seq<Note>): Entry {
    Entry(ObjectDiff(kind, name, status, Untagged(tagged), destructive, notes), tagged)
  }

  function Lookup<V>(m: map<string, V>, name: string): Option<V> {
    if name in m then Some(m[name]) else None
  }

  // What two definitions are compared by: the whitespace around them and a final run of semicolons do not count.
  function NormalizeBody(definition: string): string {
    TrimEnd(TrimEndChar(Trim(definition), ';'))
  }

  // The text a routine is created with compares like its definition.
  lemma NormalizeTrimmed(definition: string)
    ensures NormalizeBody(TrimEnd(definition)) == NormalizeBody(definition)
  {
    TrimEndTwice(definition);
  }

  /* ---- Tables ---- */

  function DefinitionOf(column: Column): ColumnDefinition {
    var rule :=
      if column.generated.Some? then GeneratedAs(column.generated.value)
      else if column.identity.Some? then IdentityColumn(column.identity.value == 'a')
      else if column.default.Some? then DefaultTo(column.default.value)
      else NoRule;
    ColumnDefinition(column.name, column.dataType, rule, column.notNull && column.identity.None?)
  }

  function DefaultChanges(existing: Column, column: Column): seq<ColumnChange> {
    if existing.default != column.default && column.generated.None? then
      [if column.default.Some? then SetDefault(column.default.value) else DropDefault]
    else []
  }

  function IdentityChanges(existing: Column, column: Column): seq<ColumnChange> {
    if column.identity.None? then []
    else if existing.identity.None? then
      (if existing.notNull then [] else [SetNotNull]) + [AddIdentity(column.identity.value == 'a')]
    else if existing.identity.value != column.identity.value then [SetIdentity(column.identity.value == 'a')]
    else []
  }

  function NullabilityChanges(existing: Column, column: Column): seq<ColumnChange> {
    if existing.notNull != column.notNull && column.identity.None? then
      [if column.notNull then SetNotNull else DropNotNull]
    else []
  }

  function TypeChanges(existing: Column, column: Column): seq<ColumnChange> {
    if existing.dataType != column.dataType then [SetType(column.dataType)] else []
  }

  function OldIdentityChanges(existing: Column, column: Column): seq<ColumnChange> {
    if existing.identity.Some? && column.identity.None? then [DropIdentity] else []
  }

  // The changes to a column both sides have, in the order the script makes them.
  function ColumnChanges(existing: Column, column: Column): seq<ColumnChange> {
    TypeChanges(existing, column) + OldIdentityChanges(existing, column) +
    DefaultChanges(existing, column) + IdentityChanges(existing, column) + NullabilityChanges(existing, column)
  }

  function AlterColumnStatements(table: string, column: string, changes: seq<ColumnChange>): seq<Tagged> {
    if changes == [] then []
    else AlterColumnStatements(table, column, changes[..|changes| - 1]) +
         [Tagged(Tables, AlterColumn(table, column, changes[|changes| - 1]))]
  }

  function ColumnStatements(table: string, to: map<string, Column>, column: Column): seq<Tagged> {
    if column.name !in to then [Tagged(Tables, AddColumn(table, DefinitionOf(column)))]
    else if to[column.name].generated != column.generated then []
    else AlterColumnStatements(table, column.name, ColumnChanges(to[column.name], column))
  }

  function ColumnNotes(to: map<string, Column>, column: Column): seq<Note> {
    if column.name in to && to[column.name].generated != column.generated then [GenerationDiffers(column.name)] else []
  }

  predicate ColumnDestructive(to: map<string, Column>, column: Column) {
    column.name in to && to[column.name].generated == column.generated && to[column.name].dataType != column.dataType
  }

  function DropColumnStatements(table: string, from: map<string, Column>, column: Column): seq<Tagged> {
    if column.name in from then [] else [Tagged(Tables, DropColumn(table, column.name))]
  }

  function Maybe(when: bool, phase: Phase, statement: Statement): seq<Tagged> {
    if when then [Tagged(phase, statement)] else []
  }

  function ConstraintStatements(table: string, from: map<string, Constraint>, to: map<string, Constraint>,
                                name: string): seq<Tagged> {
    var wanted, existing := Lookup(from, name), Lookup(to, name);
    Maybe(wanted != existing && existing.Some?,
          if existing.Some? && existing.value.kind == FOREIGN_KEY then DropForeignKeys else Tables,
          DropConstraint(table, name)) +
    (if wanted.None? then []
     else Maybe(wanted != existing, if wanted.value.kind == FOREIGN_KEY then ForeignKeys else Tables,
                AddConstraint(table, name, wanted.value)))
  }

  // The schema of a table's indexes, read off the end of the table's qualified name: everything before its last dot.
  function IndexQualifier(schema: string, table: string): string {
    var parts := SplitLast(QuoteIdent(schema) + ['.'] + QuoteIdent(table), '.');
    if parts.None? then "" else parts.value.0
  }

  function IndexStatements(qualifier: string, table: string, from: map<string, string>, to: map<string, string>,
                           name: string): seq<Tagged> {
    var wanted, existing := Lookup(from, name), Lookup(to, name);
    Maybe(wanted != existing && existing.Some?, DropIndexes, DropIndex(qualifier, name)) +
    (if wanted.None? then [] else Maybe(wanted != existing, Indexes, CreateIndex(name, table, wanted.value)))
  }

  function TriggerStatements(table: string, from: map<string, string>, to: map<string, string>,
                             name: string): seq<Tagged> {
    var wanted, existing := Lookup(from, name), Lookup(to, name);
    Maybe(wanted != existing && existing.Some?, DropTriggers, DropTrigger(name, table)) +
    (if wanted.None? then [] else Maybe(wanted != existing, Triggers, CreateTrigger(name, table, wanted.value)))
  }

  function ColumnPart(table: string, to: map<string, Column>): Column -> seq<Tagged> {
    column => ColumnStatements(table, to, column)
  }

  function ColumnNotePart(to: map<string, Column>): Column -> seq<Note> {
    column => ColumnNotes(to, column)
  }

  function DropColumnPart(table: string, from: map<string, Column>): Column -> seq<Tagged> {
    column => DropColumnStatements(table, from, column)
  }

  function ConstraintPart(table: string, from: map<string, Constraint>,
                          to: map<string, Constraint>): string -> seq<Tagged> {
    name => ConstraintStatements(table, from, to, name)
  }

  function IndexPart(qualifier: string, table: string, from: map<string, string>,
                     to: map<string, string>): string -> seq<Tagged> {
    name => IndexStatements(qualifier, table, from, to, name)
  }

  function TriggerPart(table: string, from: map<string, string>, to: map<string, string>): string -> seq<Tagged> {
    name => TriggerStatements(table, from, to, name)
  }

  // Both sides have the table.
  ghost function AlterTableStatements(schema: string, table: string, from: TableSnapshot,
                                      to: TableSnapshot): seq<Tagged> {
    Gather(from.columns, ColumnPart(table, ColumnMap(to.columns))) +
    Gather(to.columns, DropColumnPart(table, ColumnMap(from.columns))) +
    Gather(Sorted(from.constraints.Keys + to.constraints.Keys),
           ConstraintPart(table, from.constraints, to.constraints)) +
    Gather(Sorted(from.indexes.Keys + to.indexes.Keys),
           IndexPart(IndexQualifier(schema, table), table, from.indexes, to.indexes)) +
    Gather(Sorted(from.triggers.Keys + to.triggers.Keys), TriggerPart(table, from.triggers, to.triggers))
  }

  function AlterTableNotes(from: TableSnapshot, to: TableSnapshot): seq<Note> {
    (if from.partitionKey != to.partitionKey then [PartitioningDiffers] else []) +
    Gather(from.columns, ColumnNotePart(ColumnMap(to.columns)))
  }

  predicate AlterTableDestructive(from: TableSnapshot, to: TableSnapshot) {
    (exists column <- from.columns :: ColumnDestructive(ColumnMap(to.columns), column)) ||
    (exists column <- to.columns :: column.name !in ColumnMap(from.columns))
  }

  function DefinitionPart(): Column -> seq<ColumnDefinition> {
    column => [DefinitionOf(column)]
  }

  function InlineConstraintPart(constraints: map<string, Constraint>): string -> seq<(string, Constraint)> {
    name => if name in constraints && constraints[name].kind != FOREIGN_KEY then [(name, constraints[name])] else []
  }

  ghost function CreateTableStatement(table: string, from: TableSnapshot): Statement {
    CreateTable(table, Gather(from.columns, DefinitionPart()),
                Gather(Sorted(from.constraints.Keys), InlineConstraintPart(from.constraints)), from.partitionKey)
  }

  function ForeignKeyPart(table: string, constraints: map<string, Constraint>): string -> seq<Tagged> {
    name =>
      if name in constraints && constraints[name].kind == FOREIGN_KEY then
        [Tagged(ForeignKeys, AddConstraint(table, name, constraints[name]))]
      else []
  }

  // Only the source has the table.
  ghost function CreateTableStatements(table: string, from: TableSnapshot): seq<Tagged> {
    [Tagged(Tables, CreateTableStatement(table, from))] +
    Gather(Sorted(from.constraints.Keys), ForeignKeyPart(table, from.constraints)) +
    Gather(Sorted(from.indexes.Keys), IndexPart("", table, from.indexes, map[])) +
    Gather(Sorted(from.triggers.Keys), TriggerPart(table, from.triggers, map[]))
  }

  function DropForeignKeyPart(table: string, constraints: map<string, Constraint>): string -> seq<Tagged> {
    name =>
      if name in constraints && constraints[name].kind == FOREIGN_KEY then
        [Tagged(DropForeignKeys, DropConstraint(table, name))]
      else []
  }

  // Only the target has the table.
  ghost function DropTableStatements(table: string, to: TableSnapshot): seq<Tagged> {
    Gather(Sorted(to.constraints.Keys), DropForeignKeyPart(table, to.constraints)) +
    [Tagged(DropTables, DropTable(table))]
  }

  ghost function TableEntry(source: SchemaSnapshot, target: SchemaSnapshot, name: string): seq<Entry> {
    if name in source.tables && name !in target.tables then
      [MakeEntry(TableObject, name, Added, CreateTableStatements(name, source.tables[name]), false, [])]
    else if name !in source.tables && name in target.tables then
      [MakeEntry(TableObject, name, Removed, DropTableStatements(name, target.tables[name]), true, [])]
    else if name in source.tables && name in target.tables then
      var from, to := source.tables[name], target.tables[name];
      var tagged, notes := AlterTableStatements(target.schema, name, from, to), AlterTableNotes(from, to);
      if tagged == [] && notes == [] then []
      else [MakeEntry(TableObject, name, Changed, tagged, AlterTableDestructive(from, to), notes)]
    else []
  }

  /* ---- Sequences, views and routines ---- */

  function SequenceEntry(source: SchemaSnapshot, target: SchemaSnapshot, name: string): seq<Entry> {
    var from, to := Lookup(source.sequences, name), Lookup(target.sequences, name);
    if from.Some? && to.None? then
      [MakeEntry(SequenceObject, name, Added, [Tagged(Sequences, CreateSequence(name, from.value))], false, [])]
    else if from.None? && to.Some? then
      [MakeEntry(SequenceObject, name, Removed, [Tagged(DropSequences, DropSequence(name))], true, [])]
    else if from != to then
      [MakeEntry(SequenceObject, name, Changed, [Tagged(Sequences, AlterSequence(name, from.value))], false, [])]
    else []
  }

  predicate ViewChanged(from: ViewSnapshot, to: ViewSnapshot) {
    NormalizeBody(from.definition) != NormalizeBody(to.definition) || from.materialized != to.materialized
  }

  function ViewEntry(source: SchemaSnapshot, target: SchemaSnapshot, name: string): seq<Entry> {
    var from, to := Lookup(source.views, name), Lookup(target.views, name);
    var materialized := if from.Some? then from.value.materialized else to.Some? && to.value.materialized;
    var kind := if materialized then MaterializedViewObject else ViewObject;
    if from.Some? && to.None? then
      [MakeEntry(kind, name, Added,
                 [Tagged(Views,
                         CreateView(name, from.value.materialized, false, NormalizeBody(from.value.definition)))],
                 false, [])]
    else if from.None? && to.Some? then
      [MakeEntry(kind, name, Removed, [Tagged(DropViews, DropView(name, to.value.materialized))], false, [])]
    else if from.Some? && to.Some? && ViewChanged(from.value, to.value) then
      if from.value.materialized || to.value.materialized then
        [MakeEntry(kind, name, Changed,
                   [Tagged(DropViews, DropView(name, to.value.materialized)),
                    Tagged(Views,
                           CreateView(name, from.value.materialized, false, NormalizeBody(from.value.definition)))],
                   false, [])]
      else
        [MakeEntry(kind, name, Changed,
                   [Tagged(Views, CreateView(name, false, true, NormalizeBody(from.value.definition)))],
                   false, [ReplaceViewMayFail])]
    else []
  }

  function RoutineEntry(source: SchemaSnapshot, target: SchemaSnapshot, key: string): seq<Entry> {
    var from, to := Lookup(source.routines, key), Lookup(target.routines, key);
    var procedure := if from.Some? then from.value.procedure else to.Some? && to.value.procedure;
    var kind := if procedure then ProcedureObject else FunctionObject;
    if from.Some? && to.None? then
      [MakeEntry(kind, key, Added, [Tagged(Routines, CreateRoutineStatement(from.value))], false, [])]
    else if from.None? && to.Some? then
      [MakeEntry(kind, key, Removed, [Tagged(DropRoutines, DropRoutine(RoutineKey(to.value), to.value.procedure))],
                 false, [])]
    else if from.Some? && to.Some? && NormalizeBody(from.value.definition) != NormalizeBody(to.value.definition) then
      [MakeEntry(kind, key, Changed, [Tagged(Routines, CreateRoutineStatement(from.value))], false,
                 [ReplaceRoutineMayFail])]
    else []
  }

  // The routine's own definition text, which PostgreSQL reads its name and arguments from.
  function CreateRoutineStatement(routine: RoutineSnapshot): Statement {
    CreateRoutine(RoutineKey(routine), routine.procedure, TrimEnd(routine.definition))
  }

  /* ---- The whole comparison ---- */

  function SequencePart(source: SchemaSnapshot, target: SchemaSnapshot): string -> seq<Entry> {
    name => SequenceEntry(source, target, name)
  }

  ghost function TablePart(source: SchemaSnapshot, target: SchemaSnapshot): string -> seq<Entry> {
    name => TableEntry(source, target, name)
  }

  function ViewPart(source: SchemaSnapshot, target: SchemaSnapshot): string -> seq<Entry> {
    name => ViewEntry(source, target, name)
  }

  function RoutinePart(source: SchemaSnapshot, target: SchemaSnapshot): string -> seq<Entry> {
    key => RoutineEntry(source, target, key)
  }

  // `source` is already written for the target schema.
  ghost function Entries(source: SchemaSnapshot, target: SchemaSnapshot): seq<Entry> {
    Gather(Sorted(source.sequences.Keys + target.sequences.Keys), SequencePart(source, target)) +
    Gather(Sorted(source.tables.Keys + target.tables.Keys), TablePart(source, target)) +
    Gather(Sorted(source.views.Keys + target.views.Keys), ViewPart(source, target)) +
    Gather(Sorted(source.routines.Keys + target.routines.Keys), RoutinePart(source, target))
  }

  function ObjectPart(): Entry -> seq<ObjectDiff> {
    (entry: Entry) => [entry.report]
  }

  function TaggedPart(): Entry -> seq<Tagged> {
    (entry: Entry) => entry.tagged
  }
}

/** The order of the script: a stable sort by phase, then by object. */
module ScriptOrder {
  import opened Gathering
  import opened Snapshots
  import opened Statements
  import opened Diff

  datatype Ordered = Ordered(phase: Phase, index: nat, statement: Statement)

  function OrderedEntry(index: nat, tagged: seq<Tagged>): seq<Ordered> {
    seq(|tagged|, k requires 0 <= k < |tagged| => Ordered(tagged[k].phase, index, tagged[k].statement))
  }

  function OrderedEntries(entries: seq<Entry>): seq<Ordered> {
    if entries == [] then []
    else
      var n := |entries| - 1;
      OrderedEntries(entries[..n]) + OrderedEntry(n, entries[n].tagged)
  }

  predicate KeyLess(a: Ordered, b: Ordered) {
    Rank(a.phase) < Rank(b.phase) || (a.phase == b.phase && a.index < b.index)
  }

  // The place of a later element in a stable sort: after everything its key does not precede.
  function InsertStable(sorted: seq<Ordered>, x: Ordered): seq<Ordered> {
    if sorted != [] && KeyLess(x, sorted[|sorted| - 1]) then
      InsertStable(sorted[..|sorted| - 1], x) + [sorted[|sorted| - 1]]
    else sorted + [x]
  }

  // `sort_by_key(|(phase, index, _)| (*phase, *index))`
  function StableSort(ordered: seq<Ordered>): seq<Ordered> {
    if ordered == [] then []
    else InsertStable(StableSort(ordered[..|ordered| - 1]), ordered[|ordered| - 1])
  }

  function ScriptOf(entries: seq<Entry>): seq<Statement> {
    var sorted := StableSort(OrderedEntries(entries));
    seq(|sorted|, i requires 0 <= i < |sorted| => sorted[i].statement)
  }

  function PhaseStatements(phase: Phase): Tagged -> seq<Statement> {
    (tagged: Tagged) => if tagged.phase == phase then [tagged.statement] else []
  }

  // The statements of one phase, in the order they were pushed.
  function OfPhase(phase: Phase, tagged: seq<Tagged>): seq<Statement> {
    Gather(tagged, PhaseStatements(phase))
  }

  const PHASE_COUNT := 14

  function PhaseAt(rank: nat): (phase: Phase)
    requires rank < PHASE_COUNT
    ensures Rank(phase) == rank
  {
    if rank == 0 then DropTriggers else if rank == 1 then DropForeignKeys else if rank == 2 then DropViews
    else if rank == 3 then DropIndexes else if rank == 4 then Sequences else if rank == 5 then Tables
    else if rank == 6 then Routines else if rank == 7 then Views else if rank == 8 then Indexes
    else if rank == 9 then ForeignKeys else if rank == 10 then Triggers else if rank == 11 then DropRoutines
    else if rank == 12 then DropTables else DropSequences
  }

  function KeyPart(rank: nat, index: nat): Ordered -> seq<Ordered> {
    (x: Ordered) => if Rank(x.phase) == rank && x.index == index then [x] else []
  }

  predicate InOrder(s: seq<Ordered>) {
    forall i, j :: 0 <= i < j < |s| ==> !KeyLess(s[j], s[i])
  }

  // The key compares like a strict weak order.
  lemma KeyOrder(a: Ordered, b: Ordered, c: Ordered)
    ensures KeyLess(a, b) ==> !KeyLess(b, a)
    ensures !KeyLess(b, a) && !KeyLess(c, b) ==> !KeyLess(c, a)
    ensures KeyLess(a, b) ==> Rank(a.phase) != Rank(b.phase) || a.index != b.index
  {
  }

  lemma {:induction false} InsertKeeps(sorted: seq<Ordered>, x: Ordered)
    requires InOrder(sorted)
    ensures InOrder(InsertStable(sorted, x))
    ensures multiset(InsertStable(sorted, x)) == multiset(sorted) + multiset{x}
  {
    hide KeyLess;
    var n := |sorted| - 1;
    if sorted != [] && KeyLess(x, sorted[n]) {
      KeyOrder(x, sorted[n], x);
      InsertKeeps(sorted[..n], x);
      assert sorted == sorted[..n] + [sorted[n]];
      var front := InsertStable(sorted[..n], x);
      forall i | 0 <= i < |front|
        ensures !KeyLess(sorted[n], front[i])
      {
        assert front[i] in multiset(front);
        assert front[i] in multiset(sorted[..n]) || front[i] == x;
      }
    } else {
      forall i | 0 <= i < |sorted|
        ensures !KeyLess(x, sorted[i])
      {
        KeyOrder(sorted[i], sorted[n], x);
      }
    }
  }

  lemma KeyParts(a: Ordered, b: Ordered, rank: nat, index: nat)
    requires KeyLess(a, b)
    ensures KeyPart(rank, index)(a) == [] || KeyPart(rank, index)(b) == []
  {
  }

  lemma {:induction false} InsertStays(sorted: seq<Ordered>, x: Ordered, rank: nat, index: nat)
    ensures Gather(InsertStable(sorted, x), KeyPart(rank, index)) ==
            Gather(sorted, KeyPart(rank, index)) + KeyPart(rank, index)(x)
  {
    hide KeyLess, KeyPart;
    var part := KeyPart(rank, index);
    var n := |sorted| - 1;
    if sorted != [] && KeyLess(x, sorted[n]) {
      KeyParts(x, sorted[n], rank, index);
      InsertStays(sorted[..n], x, rank, index);
      GatherLast(InsertStable(sorted[..n], x), sorted[n], part);
    } else {
      GatherLast(sorted, x, part);
    }
  }

  ghost predicate Stable(ordered: seq<Ordered>, sorted: seq<Ordered>) {
    forall rank, index {:trigger KeyPart(rank, index)} ::
      Gather(sorted, KeyPart(rank, index)) == Gather(ordered, KeyPart(rank, index))
  }

  lemma StableStep(front: seq<Ordered>, sorted: seq<Ordered>, x: Ordered)
    requires InOrder(sorted) && Stable(front, sorted)
    ensures Stable(front + [x], InsertStable(sorted, x))
  {
    forall rank: nat, index: nat
      ensures Gather(InsertStable(sorted, x), KeyPart(rank, index)) == Gather(front + [x], KeyPart(rank, index))
    {
      InsertStays(sorted, x, rank, index);
    }
  }

  lemma NothingToSort()
    ensures InOrder([]) && Stable([], [])
  {
  }

  // The library sort as the code relies on it: ordered by key, a permutation, and stable, that is,
  // the elements of any one key keep the order they were pushed in.
  lemma {:induction false} StableSortSorts(ordered: seq<Ordered>)
    ensures InOrder(StableSort(ordered))
    ensures multiset(StableSort(ordered)) == multiset(ordered)
    ensures Stable(ordered, StableSort(ordered))
  {
    hide InOrder, Stable, KeyPart, InsertStable;
    if ordered == [] {
      NothingToSort();
    } else {
      var n := |ordered| - 1;
      StableSortSorts(ordered[..n]);
      InsertKeeps(StableSort(ordered[..n]), ordered[n]);
      StableStep(ordered[..n], StableSort(ordered[..n]), ordered[n]);
      assert ordered == ordered[..n] + [ordered[n]];
    }
  }
}

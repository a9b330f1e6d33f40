/**
 What the script leaves alone. A partition key or a generation expression that differs is only noted, and no
 statement of the script changes it.
 */
module Inexpressible {
  import opened Options
  import opened Gathering
  import opened Names
  import opened Snapshots
  import opened Statements
  import opened Diff
  import opened Database
  import opened Applies
  import opened ScriptOrder
  import opened PhaseLists
  import opened KeptTables
  import opened SequencePhases
  import opened TablePhases
  import opened ReshapePhase
  import opened Convergence
  import opened Keeping
  import opened OwnedSequences
  import opened RenamedArguments

  function SparesPart(table: string, column: Option<string>): Statement -> bool {
    st => Spares(table, column, st)
  }

  function SparesTagged(table: string, column: Option<string>): Tagged -> bool {
    (x: Tagged) => Spares(table, column, x.statement)
  }

  ghost predicate AllSpare(table: string, column: Option<string>, tagged: seq<Tagged>) {
    forall x <- tagged :: SparesTagged(table, column)(x)
  }

  /* ---- The statements of the script ---- */

  lemma {:induction false} AlterColumnsSpare(t: string, name: string, changes: seq<ColumnChange>, n: string,
                                             c: Option<string>)
    ensures AllSpare(n, c, AlterColumnStatements(t, name, changes))
  {
    if changes != [] {
      AlterColumnsSpare(t, name, changes[..|changes| - 1], n, c);
    }
  }

  lemma ColumnsSpare(t: string, columns: seq<Column>, to: map<string, Column>, n: string, c: Option<string>)
    ensures AllSpare(n, c, Gather(columns, ColumnPart(t, to)))
  {
    forall column, x | column in columns && x in ColumnPart(t, to)(column)
      ensures SparesTagged(n, c)(x)
    {
      if column.name in to {
        AlterColumnsSpare(t, column.name, ColumnChanges(to[column.name], column), n, c);
      }
    }
    GatherAll(columns, ColumnPart(t, to), SparesTagged(n, c));
  }

  lemma DropColumnsSpare(t: string, columns: seq<Column>, from: map<string, Column>, n: string, c: Option<string>)
    requires t == n && c.Some? ==> c.value in from
    ensures AllSpare(n, c, Gather(columns, DropColumnPart(t, from)))
  {
    GatherAll(columns, DropColumnPart(t, from), SparesTagged(n, c));
  }

  lemma ConstraintsSpare(t: string, names: seq<string>, f: map<string, Constraint>, o: map<string, Constraint>,
                         n: string, c: Option<string>)
    ensures AllSpare(n, c, Gather(names, ConstraintPart(t, f, o)))
  {
    GatherAll(names, ConstraintPart(t, f, o), SparesTagged(n, c));
  }

  lemma IndexesSpare(qualifier: string, t: string, names: seq<string>, f: map<string, string>, o: map<string, string>,
                     n: string, c: Option<string>)
    ensures AllSpare(n, c, Gather(names, IndexPart(qualifier, t, f, o)))
  {
    GatherAll(names, IndexPart(qualifier, t, f, o), SparesTagged(n, c));
  }

  lemma TriggersSpare(t: string, names: seq<string>, f: map<string, string>, o: map<string, string>, n: string,
                      c: Option<string>)
    ensures AllSpare(n, c, Gather(names, TriggerPart(t, f, o)))
  {
    GatherAll(names, TriggerPart(t, f, o), SparesTagged(n, c));
  }

  // The table stays, and so does each of its columns that the source has.
  lemma AlterTableSpares(schema: string, t: string, from: TableSnapshot, to: TableSnapshot, n: string,
                         c: Option<string>)
    requires t == n && c.Some? ==> c.value in ColumnMap(from.columns)
    ensures AllSpare(n, c, AlterTableStatements(schema, t, from, to))
  {
    ColumnsSpare(t, from.columns, ColumnMap(to.columns), n, c);
    DropColumnsSpare(t, to.columns, ColumnMap(from.columns), n, c);
    ConstraintsSpare(t, Sorted(from.constraints.Keys + to.constraints.Keys), from.constraints, to.constraints, n, c);
    IndexesSpare(IndexQualifier(schema, t), t, Sorted(from.indexes.Keys + to.indexes.Keys), from.indexes, to.indexes, n,
                 c);
    TriggersSpare(t, Sorted(from.triggers.Keys + to.triggers.Keys), from.triggers, to.triggers, n, c);
  }

  lemma CreateTableSpares(t: string, from: TableSnapshot, n: string, c: Option<string>)
    ensures AllSpare(n, c, CreateTableStatements(t, from))
  {
    GatherAll(Sorted(from.constraints.Keys), ForeignKeyPart(t, from.constraints), SparesTagged(n, c));
    IndexesSpare("", t, Sorted(from.indexes.Keys), from.indexes, map[], n, c);
    TriggersSpare(t, Sorted(from.triggers.Keys), from.triggers, map[], n, c);
  }

  lemma DropTableSpares(t: string, to: TableSnapshot, n: string, c: Option<string>)
    requires t != n
    ensures AllSpare(n, c, DropTableStatements(t, to))
  {
    GatherAll(Sorted(to.constraints.Keys), DropForeignKeyPart(t, to.constraints), SparesTagged(n, c));
  }

  lemma TableEntrySpares(source: SchemaSnapshot, target: SchemaSnapshot, t: string, n: string, c: Option<string>)
    requires n in source.tables && (c.Some? ==> c.value in ColumnMap(source.tables[n].columns))
    ensures forall e <- TableEntry(source, target, t) :: AllSpare(n, c, e.tagged)
  {
    hide AllSpare, AlterTableStatements, CreateTableStatements, DropTableStatements, AlterTableNotes,
      AlterTableDestructive;
    if t in source.tables && t in target.tables {
      AlterTableSpares(target.schema, t, source.tables[t], target.tables[t], n, c);
    } else if t in source.tables {
      CreateTableSpares(t, source.tables[t], n, c);
    } else if t in target.tables {
      DropTableSpares(t, target.tables[t], n, c);
    }
  }

  function EntrySpares(n: string, c: Option<string>): Entry -> bool {
    (e: Entry) => forall x <- e.tagged :: Spares(n, c, x.statement)
  }

  lemma TableEntriesSpare(source: SchemaSnapshot, target: SchemaSnapshot, n: string, c: Option<string>)
    requires n in source.tables && (c.Some? ==> c.value in ColumnMap(source.tables[n].columns))
    ensures forall e <- Gather(Sorted(source.tables.Keys + target.tables.Keys), TablePart(source, target)) ::
      EntrySpares(n, c)(e)
  {
    var names := Sorted(source.tables.Keys + target.tables.Keys);
    forall t, e | t in names && e in TablePart(source, target)(t)
      ensures EntrySpares(n, c)(e)
    {
      TableEntrySpares(source, target, t, n, c);
      assert AllSpare(n, c, e.tagged);
    }
    GatherAll(names, TablePart(source, target), EntrySpares(n, c));
  }

  lemma SequenceEntriesSpare(source: SchemaSnapshot, target: SchemaSnapshot, names: seq<string>, n: string,
                             c: Option<string>)
    ensures forall e <- Gather(names, SequencePart(source, target)) :: EntrySpares(n, c)(e)
  {
    GatherAll(names, SequencePart(source, target), EntrySpares(n, c));
  }

  lemma ViewEntriesSpare(source: SchemaSnapshot, target: SchemaSnapshot, names: seq<string>, n: string,
                         c: Option<string>)
    ensures forall e <- Gather(names, ViewPart(source, target)) :: EntrySpares(n, c)(e)
  {
    GatherAll(names, ViewPart(source, target), EntrySpares(n, c));
  }

  lemma RoutineEntriesSpare(source: SchemaSnapshot, target: SchemaSnapshot, names: seq<string>, n: string,
                            c: Option<string>)
    ensures forall e <- Gather(names, RoutinePart(source, target)) :: EntrySpares(n, c)(e)
  {
    GatherAll(names, RoutinePart(source, target), EntrySpares(n, c));
  }

  lemma EntriesSpare(source: SchemaSnapshot, target: SchemaSnapshot, n: string, c: Option<string>)
    requires n in source.tables && (c.Some? ==> c.value in ColumnMap(source.tables[n].columns))
    ensures forall e <- Entries(source, target) :: EntrySpares(n, c)(e)
  {
    SequenceEntriesSpare(source, target, Sorted(source.sequences.Keys + target.sequences.Keys), n, c);
    TableEntriesSpare(source, target, n, c);
    ViewEntriesSpare(source, target, Sorted(source.views.Keys + target.views.Keys), n, c);
    RoutineEntriesSpare(source, target, Sorted(source.routines.Keys + target.routines.Keys), n, c);
  }

  lemma {:induction false} PhasesSpare(count: nat, entries: seq<Entry>, n: string, c: Option<string>)
    requires count <= PHASE_COUNT && forall e <- entries :: EntrySpares(n, c)(e)
    ensures forall st <- FirstPhases(count, entries) :: SparesPart(n, c)(st)
  {
    if count > 0 {
      PhasesSpare(count - 1, entries, n, c);
      var phase := PhaseAt(count - 1);
      forall e, st | e in entries && st in PhaseOf(phase, TaggedPart())(e)
        ensures SparesPart(n, c)(st)
      {
        assert EntrySpares(n, c)(e);
        GatherMember(e.tagged, PhaseStatements(phase), st);
      }
      GatherAll(entries, PhaseOf(phase, TaggedPart()), SparesPart(n, c));
    }
  }

  lemma ScriptSpares(source: SchemaSnapshot, target: SchemaSnapshot, n: string, c: Option<string>)
    requires n in source.tables && (c.Some? ==> c.value in ColumnMap(source.tables[n].columns))
    ensures forall st <- ScriptOf(Entries(source, target)) :: Spares(n, c, st)
  {
    EntriesSpare(source, target, n, c);
    PhasesSpare(PHASE_COUNT, Entries(source, target), n, c);
    ScriptByPhases(Entries(source, target));
    forall st | st in ScriptOf(Entries(source, target))
      ensures Spares(n, c, st)
    {
      assert SparesPart(n, c)(st);
    }
  }

  // A partition key or a generation expression that differs still differs after the script.
  lemma StillDiffers(pg: Reader, source: SchemaSnapshot, target: SchemaSnapshot, s: Db, d: Db)
    requires Compared(pg, source, target, s, d) && !AllExpressible(s, d)
    ensures Run(pg, d, ScriptOf(Entries(source, target))) != Some(s)
  {
    hide Run, Entries, ScriptOf, Describes, DistinctColumns, FieldsAgree, Keyed, TableSound, IndexSound, ViewSound,
      NamesDisjoint;
    var script := ScriptOf(Entries(source, target));
    var n :| n in s.tables && n in d.tables && !Expressible(s.tables[n], d.tables[n]);
    var c: Option<string> := None;
    if s.tables[n].partitionKey == d.tables[n].partitionKey {
      var column :| column in s.tables[n].columns && column in d.tables[n].columns &&
                    s.tables[n].columns[column].generated != d.tables[n].columns[column].generated;
      c := Some(column);
    }
    ScriptSpares(source, target, n, c);
    if Run(pg, d, script).Some? {
      RunKeeps(pg, d, script, n, c);
    }
  }

  lemma AppliesExpressible(pg: Reader, source: SchemaSnapshot, target: SchemaSnapshot)
    requires DistinctIndexes(source) && DistinctIndexes(target) && ScriptApplies(pg, source, target)
    ensures AllExpressible(DbOf(source), DbOf(target)) && OwnersStay(pg, DbOf(source), DbOf(target))
    ensures SignaturesStay(pg, DbOf(source), DbOf(target))
  {
    hide OwnersStay, SignaturesStay, IndexDropsApply, NewSequencesFree, RoutinesApply, ViewDropsApply, ViewNamesApply,
      ViewCreatesApply, NewIndexesApply, RoutineDropsApply, KeptTableApplies, NewTableApplies, Expressible;
  }

  lemma SucceedsExactly(cond: bool, db: Db)
    ensures Outcome(cond, db) == Some(db) <==> cond
  {
  }

  lemma ComparedConverges(pg: Reader, source: SchemaSnapshot, target: SchemaSnapshot, s: Db, d: Db)
    requires Compared(pg, source, target, s, d)
    ensures DistinctIndexes(source) && DistinctIndexes(target)
    ensures Run(pg, d, ScriptOf(Entries(source, target))) == Some(s) <==> ScriptApplies(pg, source, target)
  {
    hide Run, ScriptOf, Entries, ScriptApplies, Consistent, DistinctColumns, DistinctIndexes, DbOf, AllExpressible,
      OwnersStay, SignaturesStay, Describes, Keyed, FieldsAgree;
    SucceedsExactly(ScriptApplies(pg, source, target), s);
    if ScriptApplies(pg, source, target) {
      AppliesExpressible(pg, source, target);
    }
    if !AllExpressible(s, d) {
      StillDiffers(pg, source, target, s, d);
    } else if !OwnersStay(pg, s, d) {
      SequenceLost(pg, source, target, s, d);
    } else if !SignaturesStay(pg, s, d) {
      RoutineLost(pg, source, target, s, d);
    } else {
      ExpressibleOutcome(pg, source, target, s, d);
    }
  }

  // The comparison's script, run on the target, leaves exactly the source, or else the snapshots fail a condition that
  // can be read off them beforehand.
  lemma Converges(pg: Reader, source: SchemaSnapshot, target: SchemaSnapshot)
    requires Valid(pg, source) && Valid(pg, target) && Describes(pg, target)
    ensures Run(pg, DbOf(target), ScriptOf(Entries(source, target))) == Some(DbOf(source)) <==>
            ScriptApplies(pg, source, target)
  {
    hide Run, ScriptOf, Entries, ScriptApplies, Consistent, DistinctColumns, DistinctIndexes, DbOf, Describes, Keyed,
      FieldsAgree;
    ComparedConverges(pg, source, target, DbOf(source), DbOf(target));
  }
}

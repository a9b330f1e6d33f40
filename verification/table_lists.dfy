/** What each phase does to one table: the table's statements, phase by phase. */
module TableLists {
  import opened Options
  import opened Gathering
  import opened Names
  import opened Snapshots
  import opened Statements
  import opened Diff
  import opened ScriptOrder
  import opened PhaseLists

  ghost function ConstraintNames(from: TableSnapshot, to: TableSnapshot): seq<string> {
    Sorted(from.constraints.Keys + to.constraints.Keys)
  }

  // The statements of `part` if they can belong to this phase.
  ghost function Only<T>(when: bool, phase: Phase, items: seq<T>, part: T -> seq<Tagged>): seq<Statement> {
    if when then Gather(items, PhaseOf(phase, part)) else []
  }

  predicate IndexPhase(phase: Phase) { phase == DropIndexes || phase == Indexes }

  predicate TriggerPhase(phase: Phase) { phase == DropTriggers || phase == Triggers }

  lemma OtherPhase<T>(phase: Phase, items: seq<T>, part: T -> seq<Tagged>)
    requires forall x <- items :: OfPhase(phase, part(x)) == []
    ensures OfPhase(phase, Gather(items, part)) == []
  {
    OfPhaseGather(phase, items, part);
    GatherEmpty(items, PhaseOf(phase, part));
  }

  lemma FourPhases(phase: Phase, a: seq<Tagged>, b: seq<Tagged>, c: seq<Tagged>, d: seq<Tagged>)
    ensures OfPhase(phase, a + b + c + d) ==
      OfPhase(phase, a) + OfPhase(phase, b) + OfPhase(phase, c) + OfPhase(phase, d)
  {
    OfPhaseConcat(phase, a, b);
    OfPhaseConcat(phase, a + b, c);
    OfPhaseConcat(phase, a + b + c, d);
  }

  lemma MaybePhase(phase: Phase, when: bool, tag: Phase, statement: Statement)
    ensures OfPhase(phase, Maybe(when, tag, statement)) == if when && tag == phase then [statement] else []
  {
    OfPhaseShort(phase, Maybe(when, tag, statement));
  }

  // The statements of one phase for one constraint, index or trigger.
  ghost function ConstraintPhaseStatements(phase: Phase, table: string, from: map<string, Constraint>,
                                           to: map<string, Constraint>, name: string): seq<Statement> {
    var wanted, existing := Lookup(from, name), Lookup(to, name);
    (if existing.Some? && wanted != existing &&
        phase == (if existing.value.kind == FOREIGN_KEY then DropForeignKeys else Tables)
     then [DropConstraint(table, name)] else []) +
    (if wanted.Some? && wanted != existing &&
        phase == (if wanted.value.kind == FOREIGN_KEY then ForeignKeys else Tables)
     then [AddConstraint(table, name, wanted.value)] else [])
  }

  lemma ConstraintByPhase(phase: Phase, table: string, from: map<string, Constraint>, to: map<string, Constraint>,
                          name: string)
    ensures OfPhase(phase, ConstraintStatements(table, from, to, name)) ==
      ConstraintPhaseStatements(phase, table, from, to, name)
  {
    hide OfPhase, Maybe;
    var wanted, existing := Lookup(from, name), Lookup(to, name);
    var dropTag := if existing.Some? && existing.value.kind == FOREIGN_KEY then DropForeignKeys else Tables;
    var drop := Maybe(wanted != existing && existing.Some?, dropTag, DropConstraint(table, name));
    MaybePhase(phase, wanted != existing && existing.Some?, dropTag, DropConstraint(table, name));
    if wanted.None? {
      OfPhaseNone(phase);
      OfPhaseConcat(phase, drop, []);
    } else {
      var addTag := if wanted.value.kind == FOREIGN_KEY then ForeignKeys else Tables;
      OfPhaseConcat(phase, drop, Maybe(wanted != existing, addTag, AddConstraint(table, name, wanted.value)));
      MaybePhase(phase, wanted != existing, addTag, AddConstraint(table, name, wanted.value));
    }
  }

  lemma ColumnPhase(phase: Phase, table: string, to: map<string, Column>, c: Column)
    ensures phase != Tables ==> OfPhase(phase, ColumnStatements(table, to, c)) == []
  {
    if phase != Tables {
      GatherEmpty(ColumnStatements(table, to, c), PhaseStatements(phase));
      if c.name in to {
        AlterAllTables(table, c.name, ColumnChanges(to[c.name], c));
      }
    }
  }

  lemma {:induction false} AlterAllTables(table: string, column: string, changes: seq<ColumnChange>)
    ensures forall x <- AlterColumnStatements(table, column, changes) :: x.phase == Tables
  {
    if changes != [] {
      AlterAllTables(table, column, changes[..|changes| - 1]);
    }
  }

  lemma ColumnsPhase(phase: Phase, table: string, columns: seq<Column>, to: map<string, Column>)
    ensures OfPhase(phase, Gather(columns, ColumnPart(table, to))) ==
            Only(phase == Tables, phase, columns, ColumnPart(table, to))
  {
    if phase == Tables {
      OfPhaseGather(phase, columns, ColumnPart(table, to));
    } else {
      forall c | c in columns
        ensures OfPhase(phase, ColumnPart(table, to)(c)) == []
      {
        ColumnPhase(phase, table, to, c);
      }
      OtherPhase(phase, columns, ColumnPart(table, to));
    }
  }

  lemma DropColumnsPhase(phase: Phase, table: string, columns: seq<Column>, from: map<string, Column>)
    ensures OfPhase(phase, Gather(columns, DropColumnPart(table, from))) ==
            Only(phase == Tables, phase, columns, DropColumnPart(table, from))
  {
    if phase == Tables {
      OfPhaseGather(phase, columns, DropColumnPart(table, from));
    } else {
      forall c | c in columns
        ensures OfPhase(phase, DropColumnPart(table, from)(c)) == []
      {
        OfPhaseShort(phase, DropColumnStatements(table, from, c));
      }
      OtherPhase(phase, columns, DropColumnPart(table, from));
    }
  }

  ghost function IndexPhaseStatements(phase: Phase, qualifier: string, table: string, from: map<string, string>,
                                      to: map<string, string>,
                                      name: string): seq<Statement> {
    var wanted, existing := Lookup(from, name), Lookup(to, name);
    (if existing.Some? && wanted != existing && phase == DropIndexes then [DropIndex(qualifier, name)] else []) +
    (if wanted.Some? && wanted != existing && phase == Indexes then [CreateIndex(name, table, wanted.value)] else [])
  }

  lemma IndexByPhase(phase: Phase, qualifier: string, table: string, from: map<string, string>, to: map<string, string>,
                     name: string)
    ensures OfPhase(phase, IndexStatements(qualifier, table, from, to, name)) ==
      IndexPhaseStatements(phase, qualifier, table, from, to, name)
  {
    hide OfPhase, Maybe;
    var wanted, existing := Lookup(from, name), Lookup(to, name);
    var dropTag := DropIndexes;
    var drop := Maybe(wanted != existing && existing.Some?, dropTag, DropIndex(qualifier, name));
    MaybePhase(phase, wanted != existing && existing.Some?, dropTag, DropIndex(qualifier, name));
    if wanted.None? {
      OfPhaseNone(phase);
      OfPhaseConcat(phase, drop, []);
    } else {
      var addTag := Indexes;
      OfPhaseConcat(phase, drop, Maybe(wanted != existing, addTag, CreateIndex(name, table, wanted.value)));
      MaybePhase(phase, wanted != existing, addTag, CreateIndex(name, table, wanted.value));
    }
  }

  lemma IndexOtherPhase(phase: Phase, qualifier: string, table: string, from: map<string, string>,
                        to: map<string, string>, name: string)
    requires !IndexPhase(phase)
    ensures OfPhase(phase, IndexStatements(qualifier, table, from, to, name)) == []
  {
    IndexByPhase(phase, qualifier, table, from, to, name);
  }

  ghost function TriggerPhaseStatements(phase: Phase, table: string, from: map<string, string>, to: map<string, string>,
                                      name: string): seq<Statement> {
    var wanted, existing := Lookup(from, name), Lookup(to, name);
    (if existing.Some? && wanted != existing && phase == DropTriggers then [DropTrigger(name, table)] else []) +
    (if wanted.Some? && wanted != existing && phase == Triggers then [CreateTrigger(name, table, wanted.value)] else [])
  }

  lemma TriggerByPhase(phase: Phase, table: string, from: map<string, string>, to: map<string, string>, name: string)
    ensures OfPhase(phase, TriggerStatements(table, from, to, name)) ==
      TriggerPhaseStatements(phase, table, from, to, name)
  {
    hide OfPhase, Maybe;
    var wanted, existing := Lookup(from, name), Lookup(to, name);
    var dropTag := DropTriggers;
    var drop := Maybe(wanted != existing && existing.Some?, dropTag, DropTrigger(name, table));
    MaybePhase(phase, wanted != existing && existing.Some?, dropTag, DropTrigger(name, table));
    if wanted.None? {
      OfPhaseNone(phase);
      OfPhaseConcat(phase, drop, []);
    } else {
      var addTag := Triggers;
      OfPhaseConcat(phase, drop, Maybe(wanted != existing, addTag, CreateTrigger(name, table, wanted.value)));
      MaybePhase(phase, wanted != existing, addTag, CreateTrigger(name, table, wanted.value));
    }
  }

  lemma TriggerOtherPhase(phase: Phase, table: string, from: map<string, string>, to: map<string, string>, name: string)
    requires !TriggerPhase(phase)
    ensures OfPhase(phase, TriggerStatements(table, from, to, name)) == []
  {
    TriggerByPhase(phase, table, from, to, name);
  }

  predicate ConstraintPhase(phase: Phase) { phase == Tables || phase == DropForeignKeys || phase == ForeignKeys }

  lemma ConstraintOtherPhase(phase: Phase, table: string, from: map<string, Constraint>, to: map<string, Constraint>,
                             name: string)
    requires !ConstraintPhase(phase)
    ensures OfPhase(phase, ConstraintStatements(table, from, to, name)) == []
  {
    ConstraintByPhase(phase, table, from, to, name);
  }

  lemma ConstraintsPhase(phase: Phase, table: string, names: seq<string>, from: map<string, Constraint>,
                         to: map<string, Constraint>)
    ensures OfPhase(phase, Gather(names, ConstraintPart(table, from, to))) ==
            Only(ConstraintPhase(phase), phase, names, ConstraintPart(table, from, to))
  {
    if ConstraintPhase(phase) {
      OfPhaseGather(phase, names, ConstraintPart(table, from, to));
    } else {
      forall n | n in names
        ensures OfPhase(phase, ConstraintPart(table, from, to)(n)) == []
      {
        ConstraintOtherPhase(phase, table, from, to, n);
      }
      OtherPhase(phase, names, ConstraintPart(table, from, to));
    }
  }

  lemma IndexesPhase(phase: Phase, qualifier: string, table: string, names: seq<string>, from: map<string, string>,
                     to: map<string, string>)
    ensures OfPhase(phase, Gather(names, IndexPart(qualifier, table, from, to))) ==
            Only(IndexPhase(phase), phase, names, IndexPart(qualifier, table, from, to))
  {
    if IndexPhase(phase) {
      OfPhaseGather(phase, names, IndexPart(qualifier, table, from, to));
    } else {
      forall n | n in names
        ensures OfPhase(phase, IndexPart(qualifier, table, from, to)(n)) == []
      {
        IndexOtherPhase(phase, qualifier, table, from, to, n);
      }
      OtherPhase(phase, names, IndexPart(qualifier, table, from, to));
    }
  }

  lemma TriggersPhase(phase: Phase, table: string, names: seq<string>, from: map<string, string>,
                      to: map<string, string>)
    ensures OfPhase(phase, Gather(names, TriggerPart(table, from, to))) ==
            Only(TriggerPhase(phase), phase, names, TriggerPart(table, from, to))
  {
    if TriggerPhase(phase) {
      OfPhaseGather(phase, names, TriggerPart(table, from, to));
    } else {
      forall n | n in names
        ensures OfPhase(phase, TriggerPart(table, from, to)(n)) == []
      {
        TriggerOtherPhase(phase, table, from, to, n);
      }
      OtherPhase(phase, names, TriggerPart(table, from, to));
    }
  }

  ghost function AlterPhase(phase: Phase, schema: string, table: string, from: TableSnapshot,
                            to: TableSnapshot): seq<Statement> {
    Only(phase == Tables, phase, from.columns, ColumnPart(table, ColumnMap(to.columns))) +
    Only(phase == Tables, phase, to.columns, DropColumnPart(table, ColumnMap(from.columns))) +
    Only(ConstraintPhase(phase), phase, ConstraintNames(from, to),
         ConstraintPart(table, from.constraints, to.constraints)) +
    Only(IndexPhase(phase), phase, Sorted(from.indexes.Keys + to.indexes.Keys),
         IndexPart(IndexQualifier(schema, table), table, from.indexes, to.indexes)) +
    Only(TriggerPhase(phase), phase, Sorted(from.triggers.Keys + to.triggers.Keys),
         TriggerPart(table, from.triggers, to.triggers))
  }

  lemma AlterByPhase(phase: Phase, schema: string, table: string, from: TableSnapshot, to: TableSnapshot)
    ensures OfPhase(phase, AlterTableStatements(schema, table, from, to)) == AlterPhase(phase, schema, table, from, to)
  {
    var a := Gather(from.columns, ColumnPart(table, ColumnMap(to.columns)));
    var b := Gather(to.columns, DropColumnPart(table, ColumnMap(from.columns)));
    var c := Gather(ConstraintNames(from, to), ConstraintPart(table, from.constraints, to.constraints));
    var i :=
      Gather(Sorted(from.indexes.Keys + to.indexes.Keys),
             IndexPart(IndexQualifier(schema, table), table, from.indexes, to.indexes));
    var g := Gather(Sorted(from.triggers.Keys + to.triggers.Keys), TriggerPart(table, from.triggers, to.triggers));
    FourPhases(phase, a, b, c, i);
    OfPhaseConcat(phase, a + b + c + i, g);
    ColumnsPhase(phase, table, from.columns, ColumnMap(to.columns));
    DropColumnsPhase(phase, table, to.columns, ColumnMap(from.columns));
    ConstraintsPhase(phase, table, ConstraintNames(from, to), from.constraints, to.constraints);
    IndexesPhase(phase, IndexQualifier(schema, table), table, Sorted(from.indexes.Keys + to.indexes.Keys), from.indexes,
                 to.indexes);
    TriggersPhase(phase, table, Sorted(from.triggers.Keys + to.triggers.Keys), from.triggers, to.triggers);
  }

  lemma ForeignKeysPhase(phase: Phase, table: string, names: seq<string>, constraints: map<string, Constraint>)
    ensures OfPhase(phase, Gather(names, ForeignKeyPart(table, constraints))) ==
            Only(phase == ForeignKeys, phase, names, ForeignKeyPart(table, constraints))
  {
    if phase == ForeignKeys {
      OfPhaseGather(phase, names, ForeignKeyPart(table, constraints));
    } else {
      forall n | n in names
        ensures OfPhase(phase, ForeignKeyPart(table, constraints)(n)) == []
      {
        OfPhaseShort(phase, ForeignKeyPart(table, constraints)(n));
      }
      OtherPhase(phase, names, ForeignKeyPart(table, constraints));
    }
  }

  ghost function CreatePhase(phase: Phase, table: string, from: TableSnapshot): seq<Statement> {
    (if phase == Tables then [CreateTableStatement(table, from)] else []) +
    Only(phase == ForeignKeys, phase, Sorted(from.constraints.Keys), ForeignKeyPart(table, from.constraints)) +
    Only(IndexPhase(phase), phase, Sorted(from.indexes.Keys), IndexPart("", table, from.indexes, map[])) +
    Only(TriggerPhase(phase), phase, Sorted(from.triggers.Keys), TriggerPart(table, from.triggers, map[]))
  }

  lemma CreateByPhase(phase: Phase, table: string, from: TableSnapshot)
    ensures OfPhase(phase, CreateTableStatements(table, from)) == CreatePhase(phase, table, from)
  {
    var a := [Tagged(Tables, CreateTableStatement(table, from))];
    var c := Gather(Sorted(from.constraints.Keys), ForeignKeyPart(table, from.constraints));
    var i := Gather(Sorted(from.indexes.Keys), IndexPart("", table, from.indexes, map[]));
    var g := Gather(Sorted(from.triggers.Keys), TriggerPart(table, from.triggers, map[]));
    FourPhases(phase, a, c, i, g);
    OfPhaseShort(phase, a);
    ForeignKeysPhase(phase, table, Sorted(from.constraints.Keys), from.constraints);
    IndexesPhase(phase, "", table, Sorted(from.indexes.Keys), from.indexes, map[]);
    TriggersPhase(phase, table, Sorted(from.triggers.Keys), from.triggers, map[]);
  }

  ghost function DropPhase(phase: Phase, table: string, to: TableSnapshot): seq<Statement> {
    if phase == DropForeignKeys then
      Gather(Sorted(to.constraints.Keys), PhaseOf(phase, DropForeignKeyPart(table, to.constraints)))
    else if phase == DropTables then [DropTable(table)]
    else []
  }

  lemma DropByPhase(phase: Phase, table: string, to: TableSnapshot)
    ensures OfPhase(phase, DropTableStatements(table, to)) == DropPhase(phase, table, to)
  {
    var a := Gather(Sorted(to.constraints.Keys), DropForeignKeyPart(table, to.constraints));
    OfPhaseConcat(phase, a, [Tagged(DropTables, DropTable(table))]);
    OfPhaseShort(phase, [Tagged(DropTables, DropTable(table))]);
    OfPhaseGather(phase, Sorted(to.constraints.Keys), DropForeignKeyPart(table, to.constraints));
    if phase != DropForeignKeys {
      forall n | n in Sorted(to.constraints.Keys)
        ensures PhaseOf(phase, DropForeignKeyPart(table, to.constraints))(n) == []
      {
        OfPhaseShort(phase, DropForeignKeyPart(table, to.constraints)(n));
      }
      GatherEmpty(Sorted(to.constraints.Keys), PhaseOf(phase, DropForeignKeyPart(table, to.constraints)));
    }
  }

  // A table's statements of one phase, whichever side has it.
  ghost function TablePhase(phase: Phase, source: SchemaSnapshot, target: SchemaSnapshot, n: string): seq<Statement> {
    if n in source.tables && n in target.tables then
      AlterPhase(phase, target.schema, n, source.tables[n], target.tables[n])
    else if n in source.tables then CreatePhase(phase, n, source.tables[n])
    else if n in target.tables then DropPhase(phase, n, target.tables[n])
    else []
  }

  lemma TableByPhase(phase: Phase, source: SchemaSnapshot, target: SchemaSnapshot, n: string)
    ensures EntryPhase(phase, TablePart(source, target))(n) == TablePhase(phase, source, target, n)
  {
    var entries := TableEntry(source, target, n);
    EntryListPhase(phase, entries);
    assert EntryPhase(phase, TablePart(source, target))(n) == Gather(entries, PhaseOf(phase, TaggedPart()));
    if n in source.tables && n !in target.tables {
      CreateByPhase(phase, n, source.tables[n]);
    } else if n !in source.tables && n in target.tables {
      DropByPhase(phase, n, target.tables[n]);
    } else if n in source.tables && n in target.tables {
      AlterByPhase(phase, target.schema, n, source.tables[n], target.tables[n]);
      assert entries == [] ==>
        OfPhase(phase, AlterTableStatements(target.schema, n, source.tables[n], target.tables[n])) == [];
    }
  }

  lemma EntryListPhase(phase: Phase, entries: seq<Entry>)
    requires |entries| <= 1
    ensures Gather(entries, PhaseOf(phase, TaggedPart())) ==
      if entries == [] then [] else OfPhase(phase, entries[0].tagged)
  {
    if entries != [] {
      GatherOne(entries[0], PhaseOf(phase, TaggedPart()));
      assert entries == [entries[0]];
    }
  }
}

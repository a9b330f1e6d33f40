/** The comparison as the code runs it: loops that push statements and notes onto a builder. */
module Builders {
  import opened Options
  import opened Gathering
  import opened Names
  import opened Snapshots
  import opened Statements
  import opened Diff
  import opened ScriptOrder

  lemma AlterColumnLast(table: string, column: string, changes: seq<ColumnChange>, last: ColumnChange)
    ensures AlterColumnStatements(table, column, changes + [last]) ==
            AlterColumnStatements(table, column, changes) + [Tagged(Tables, AlterColumn(table, column, last))]
  {
    assert (changes + [last])[..|changes|] == changes;
  }

  // Iterating over a map lists its keys in the one ascending order they have.
  method Keys(keys: set<string>) returns (names: seq<string>)
    ensures names == Sorted(keys)
  {
    names := SortNames(keys);
    ListedOnce(names, Sorted(keys));
  }

  lemma OneMoreRetyped(to: map<string, Column>, columns: seq<Column>, i: nat)
    requires i < |columns|
    ensures (exists c <- columns[..i + 1] :: ColumnDestructive(to, c)) <==>
            (exists c <- columns[..i] :: ColumnDestructive(to, c)) || ColumnDestructive(to, columns[i])
  {
    hide ColumnDestructive;
    assert columns[..i + 1] == columns[..i] + [columns[i]];
  }

  lemma OneMoreDropped(from: map<string, Column>, columns: seq<Column>, i: nat)
    requires i < |columns|
    ensures (exists c <- columns[..i + 1] :: c.name !in from) <==>
      (exists c <- columns[..i] :: c.name !in from) || columns[i].name !in from
  {
    assert columns[..i + 1] == columns[..i] + [columns[i]];
  }

  // What one object's comparison has pushed so far.
  class Builder {
    var statements: seq<Tagged>
    var destructive: bool
    var notes: seq<Note>

    constructor ()
      ensures statements == [] && !destructive && notes == []
    {
      statements, destructive, notes := [], false, [];
    }

    method Push(phase: Phase, statement: Statement)
      modifies this`statements
      ensures statements == old(statements) + [Tagged(phase, statement)]
    {
      statements := statements + [Tagged(phase, statement)];
    }

    // One more change to a column.
    method Alter(table: string, column: string, change: ColumnChange, ghost before: seq<Tagged>,
                 ghost done: seq<ColumnChange>)
      requires statements == before + AlterColumnStatements(table, column, done)
      modifies this`statements
      ensures statements == before + AlterColumnStatements(table, column, done + [change])
    {
      AlterColumnLast(table, column, done, change);
      Push(Tables, AlterColumn(table, column, change));
    }

    lemma Grouped(done: seq<ColumnChange>, first: ColumnChange, second: ColumnChange)
      ensures done + [first] + [second] == done + [first, second]
    {
    }

    lemma NewIdentity(existing: Column, column: Column)
      requires column.identity.Some? && existing.identity.None?
      ensures IdentityChanges(existing, column) ==
              var add := AddIdentity(column.identity.value == 'a');
              if existing.notNull then [add] else [SetNotNull, add]
    {
    }

    method AlterIdentity(table: string, existing: Column, column: Column, ghost before: seq<Tagged>,
                         ghost done: seq<ColumnChange>)
      requires statements == before + AlterColumnStatements(table, column.name, done)
      modifies this`statements
      ensures statements == before + AlterColumnStatements(table, column.name, done + IdentityChanges(existing, column))
    {
      assert done + [] == done;
      if column.identity.Some? {
        var always := column.identity.value == 'a';
        match existing.identity
        case None =>
          if !existing.notNull {
            Alter(table, column.name, SetNotNull, before, done);
            Alter(table, column.name, AddIdentity(always), before, done + [SetNotNull]);
            Grouped(done, SetNotNull, AddIdentity(always));
          } else {
            Alter(table, column.name, AddIdentity(always), before, done);
          }
          NewIdentity(existing, column);
        case Some(current) =>
          if current != column.identity.value {
            Alter(table, column.name, SetIdentity(always), before, done);
          }
      }
    }

    method Retype(table: string, existing: Column, column: Column, ghost before: seq<Tagged>)
      requires statements == before + AlterColumnStatements(table, column.name, [])
      modifies this`statements, this`destructive
      ensures statements == before + AlterColumnStatements(table, column.name, TypeChanges(existing, column))
      ensures destructive == (old(destructive) || existing.dataType != column.dataType)
    {
      if existing.dataType != column.dataType {
        assert [] + [SetType(column.dataType)] == [SetType(column.dataType)];
        Alter(table, column.name, SetType(column.dataType), before, []);
        destructive := true;
      }
    }

    method RemoveIdentity(table: string, existing: Column, column: Column, ghost before: seq<Tagged>,
                          ghost done: seq<ColumnChange>)
      requires statements == before + AlterColumnStatements(table, column.name, done)
      modifies this`statements
      ensures statements ==
        before + AlterColumnStatements(table, column.name, done + OldIdentityChanges(existing, column))
    {
      assert done + [] == done;
      if existing.identity.Some? && column.identity.None? {
        Alter(table, column.name, DropIdentity, before, done);
      }
    }

    method AlterDefault(table: string, existing: Column, column: Column, ghost before: seq<Tagged>,
                        ghost done: seq<ColumnChange>)
      requires statements == before + AlterColumnStatements(table, column.name, done)
      modifies this`statements
      ensures statements == before + AlterColumnStatements(table, column.name, done + DefaultChanges(existing, column))
    {
      assert done + [] == done;
      if existing.default != column.default && column.generated.None? {
        match column.default
        case Some(value) => Alter(table, column.name, SetDefault(value), before, done);
        case None => Alter(table, column.name, ColumnChange.DropDefault, before, done);
      }
    }

    method AlterNullability(table: string, existing: Column, column: Column, ghost before: seq<Tagged>,
                            ghost done: seq<ColumnChange>)
      requires statements == before + AlterColumnStatements(table, column.name, done)
      modifies this`statements
      ensures statements ==
        before + AlterColumnStatements(table, column.name, done + NullabilityChanges(existing, column))
    {
      assert done + [] == done;
      if existing.notNull != column.notNull && column.identity.None? {
        Alter(table, column.name, if column.notNull then SetNotNull else DropNotNull, before, done);
      }
    }

    // The changes to a column whose generation expression stays.
    method AlterExisting(table: string, existing: Column, column: Column)
      modifies this`statements, this`destructive
      ensures statements == old(statements) + AlterColumnStatements(table, column.name, ColumnChanges(existing, column))
      ensures destructive == (old(destructive) || existing.dataType != column.dataType)
    {
      ghost var before := statements;
      ghost var a, b := TypeChanges(existing, column), OldIdentityChanges(existing, column);
      ghost var c, d := DefaultChanges(existing, column), IdentityChanges(existing, column);
      assert before + AlterColumnStatements(table, column.name, []) == before;
      hide AlterColumnStatements, TypeChanges, OldIdentityChanges, DefaultChanges, IdentityChanges, NullabilityChanges;
      Retype(table, existing, column, before);
      RemoveIdentity(table, existing, column, before, a);
      AlterDefault(table, existing, column, before, a + b);
      AlterIdentity(table, existing, column, before, a + b + c);
      AlterNullability(table, existing, column, before, a + b + c + d);
    }

    method AlterWanted(table: string, to: map<string, Column>, column: Column)
      modifies this
      ensures statements == old(statements) + ColumnStatements(table, to, column)
      ensures notes == old(notes) + ColumnNotes(to, column)
      ensures destructive == (old(destructive) || ColumnDestructive(to, column))
    {
      if column.name !in to {
        Push(Tables, AddColumn(table, DefinitionOf(column)));
        return;
      }
      var existing := to[column.name];
      if existing.generated != column.generated {
        notes := notes + [GenerationDiffers(column.name)];
        return;
      }
      AlterExisting(table, existing, column);
    }

    method AlterColumns(table: string, from: seq<Column>, to: map<string, Column>)
      modifies this
      ensures statements == old(statements) + Gather(from, ColumnPart(table, to))
      ensures notes == old(notes) + Gather(from, ColumnNotePart(to))
      ensures destructive == (old(destructive) || exists column <- from :: ColumnDestructive(to, column))
    {
      hide Gather, ColumnStatements, ColumnNotes, ColumnDestructive;
      GatherNone(from, ColumnPart(table, to));
      GatherNone(from, ColumnNotePart(to));
      for i := 0 to |from|
        invariant statements == old(statements) + Gather(from[..i], ColumnPart(table, to))
        invariant notes == old(notes) + Gather(from[..i], ColumnNotePart(to))
        invariant destructive == (old(destructive) || exists column <- from[..i] :: ColumnDestructive(to, column))
      {
        GatherStep(from, i, ColumnPart(table, to));
        GatherStep(from, i, ColumnNotePart(to));
        OneMoreRetyped(to, from, i);
        AlterWanted(table, to, from[i]);
      }
      assert from[..|from|] == from;
    }

    method DropColumns(table: string, from: map<string, Column>, to: seq<Column>)
      modifies this`statements, this`destructive
      ensures statements == old(statements) + Gather(to, DropColumnPart(table, from))
      ensures destructive == (old(destructive) || exists column <- to :: column.name !in from)
    {
      hide Gather;
      GatherNone(to, DropColumnPart(table, from));
      for i := 0 to |to|
        invariant statements == old(statements) + Gather(to[..i], DropColumnPart(table, from))
        invariant destructive == (old(destructive) || exists column <- to[..i] :: column.name !in from)
      {
        GatherStep(to, i, DropColumnPart(table, from));
        OneMoreDropped(from, to, i);
        if to[i].name !in from {
          Push(Tables, DropColumn(table, to[i].name));
          destructive := true;
        }
      }
      assert to[..|to|] == to;
    }

    method AlterConstraint(table: string, from: map<string, Constraint>, to: map<string, Constraint>, name: string)
      modifies this`statements
      ensures statements == old(statements) + ConstraintStatements(table, from, to, name)
    {
      var wanted, existing := Lookup(from, name), Lookup(to, name);
      if wanted != existing {
        if existing.Some? {
          Push(if existing.value.kind == FOREIGN_KEY then DropForeignKeys else Tables, DropConstraint(table, name));
        }
        if wanted.Some? {
          Push(if wanted.value.kind == FOREIGN_KEY then ForeignKeys else Tables,
               AddConstraint(table, name, wanted.value));
        }
      }
    }

    method AlterConstraints(table: string, from: map<string, Constraint>, to: map<string, Constraint>)
      modifies this`statements
      ensures statements == old(statements) + Gather(Sorted(from.Keys + to.Keys), ConstraintPart(table, from, to))
    {
      hide Gather, ConstraintStatements, IndexStatements, TriggerStatements;
      var names := Keys(from.Keys + to.Keys);
      GatherNone(names, ConstraintPart(table, from, to));
      for i := 0 to |names|
        invariant statements == old(statements) + Gather(names[..i], ConstraintPart(table, from, to))
      {
        GatherStep(names, i, ConstraintPart(table, from, to));
        AlterConstraint(table, from, to, names[i]);
      }
      assert names[..|names|] == names;
    }

    method AlterIndex(qualifier: string, table: string, from: map<string, string>, to: map<string, string>,
                      name: string)
      modifies this`statements
      ensures statements == old(statements) + IndexStatements(qualifier, table, from, to, name)
    {
      var wanted, existing := Lookup(from, name), Lookup(to, name);
      if wanted != existing {
        if existing.Some? {
          Push(DropIndexes, DropIndex(qualifier, name));
        }
        if wanted.Some? {
          Push(Indexes, CreateIndex(name, table, wanted.value));
        }
      }
    }

    method AlterIndexes(qualifier: string, table: string, from: map<string, string>, to: map<string, string>)
      modifies this`statements
      ensures statements == old(statements) + Gather(Sorted(from.Keys + to.Keys), IndexPart(qualifier, table, from, to))
    {
      hide Gather, ConstraintStatements, IndexStatements, TriggerStatements;
      var names := Keys(from.Keys + to.Keys);
      GatherNone(names, IndexPart(qualifier, table, from, to));
      for i := 0 to |names|
        invariant statements == old(statements) + Gather(names[..i], IndexPart(qualifier, table, from, to))
      {
        GatherStep(names, i, IndexPart(qualifier, table, from, to));
        AlterIndex(qualifier, table, from, to, names[i]);
      }
      assert names[..|names|] == names;
    }

    method AlterTrigger(table: string, from: map<string, string>, to: map<string, string>, name: string)
      modifies this`statements
      ensures statements == old(statements) + TriggerStatements(table, from, to, name)
    {
      var wanted, existing := Lookup(from, name), Lookup(to, name);
      if wanted != existing {
        if existing.Some? {
          Push(DropTriggers, DropTrigger(name, table));
        }
        if wanted.Some? {
          Push(Triggers, CreateTrigger(name, table, wanted.value));
        }
      }
    }

    method AlterTriggers(table: string, from: map<string, string>, to: map<string, string>)
      modifies this`statements
      ensures statements == old(statements) + Gather(Sorted(from.Keys + to.Keys), TriggerPart(table, from, to))
    {
      hide Gather, ConstraintStatements, IndexStatements, TriggerStatements;
      var names := Keys(from.Keys + to.Keys);
      GatherNone(names, TriggerPart(table, from, to));
      for i := 0 to |names|
        invariant statements == old(statements) + Gather(names[..i], TriggerPart(table, from, to))
      {
        GatherStep(names, i, TriggerPart(table, from, to));
        AlterTrigger(table, from, to, names[i]);
      }
      assert names[..|names|] == names;
    }

    method AlterTable(schema: string, table: string, from: TableSnapshot, to: TableSnapshot)
      modifies this
      ensures statements == old(statements) + AlterTableStatements(schema, table, from, to)
      ensures notes == old(notes) + AlterTableNotes(from, to)
      ensures destructive == (old(destructive) || AlterTableDestructive(from, to))
    {
      hide Gather, IndexQualifier, ColumnPart, ColumnNotePart, DropColumnPart, ConstraintPart, IndexPart, TriggerPart,
        ColumnMap, ColumnDestructive;
      if from.partitionKey != to.partitionKey {
        notes := notes + [PartitioningDiffers];
      }
      AlterColumns(table, from.columns, ColumnMap(to.columns));
      DropColumns(table, ColumnMap(from.columns), to.columns);
      AlterConstraints(table, from.constraints, to.constraints);
      var qualifier := IndexQualifier(schema, table);
      AlterIndexes(qualifier, table, from.indexes, to.indexes);
      AlterTriggers(table, from.triggers, to.triggers);
    }

    method AddForeignKeys(table: string, constraints: map<string, Constraint>)
      modifies this`statements
      ensures statements == old(statements) + Gather(Sorted(constraints.Keys), ForeignKeyPart(table, constraints))
    {
      hide Gather;
      var names := Keys(constraints.Keys);
      GatherNone(names, ForeignKeyPart(table, constraints));
      for i := 0 to |names|
        invariant statements == old(statements) + Gather(names[..i], ForeignKeyPart(table, constraints))
      {
        GatherStep(names, i, ForeignKeyPart(table, constraints));
        assert names[i] in names;
        if constraints[names[i]].kind == FOREIGN_KEY {
          Push(ForeignKeys, AddConstraint(table, names[i], constraints[names[i]]));
        }
      }
      assert names[..|names|] == names;
    }

    method ColumnDefinitions(columns: seq<Column>) returns (definitions: seq<ColumnDefinition>)
      ensures definitions == Gather(columns, DefinitionPart())
    {
      hide Gather, DefinitionOf;
      definitions := [];
      GatherNone(columns, DefinitionPart());
      for i := 0 to |columns|
        invariant definitions == Gather(columns[..i], DefinitionPart())
      {
        GatherStep(columns, i, DefinitionPart());
        definitions := definitions + [DefinitionOf(columns[i])];
      }
      assert columns[..|columns|] == columns;
    }

    method InlineConstraints(constraints: map<string, Constraint>) returns (inline: seq<(string, Constraint)>)
      ensures inline == Gather(Sorted(constraints.Keys), InlineConstraintPart(constraints))
    {
      hide Gather;
      var names := Keys(constraints.Keys);
      inline := [];
      GatherNone(names, InlineConstraintPart(constraints));
      for i := 0 to |names|
        invariant inline == Gather(names[..i], InlineConstraintPart(constraints))
      {
        GatherStep(names, i, InlineConstraintPart(constraints));
        assert names[i] in names;
        if constraints[names[i]].kind != FOREIGN_KEY {
          inline := inline + [(names[i], constraints[names[i]])];
        }
      }
      assert names[..|names|] == names;
    }

    // Foreign keys, indexes and triggers follow the table.
    method CreateTable(table: string, from: TableSnapshot)
      modifies this`statements
      ensures statements == old(statements) + CreateTableStatements(table, from)
    {
      hide Gather, ForeignKeyPart, IndexPart, TriggerPart, DefinitionPart, InlineConstraintPart;
      var columns := ColumnDefinitions(from.columns);
      var inline := InlineConstraints(from.constraints);
      Push(Tables, Statement.CreateTable(table, columns, inline, from.partitionKey));
      AddForeignKeys(table, from.constraints);
      var none: map<string, string> := map[];
      assert from.indexes.Keys + none.Keys == from.indexes.Keys && from.triggers.Keys + none.Keys == from.triggers.Keys;
      AlterIndexes("", table, from.indexes, none);
      AlterTriggers(table, from.triggers, none);
    }

    method DropForeignKeysOf(table: string, constraints: map<string, Constraint>)
      modifies this`statements
      ensures statements == old(statements) + Gather(Sorted(constraints.Keys), DropForeignKeyPart(table, constraints))
    {
      hide Gather;
      var names := Keys(constraints.Keys);
      GatherNone(names, DropForeignKeyPart(table, constraints));
      for i := 0 to |names|
        invariant statements == old(statements) + Gather(names[..i], DropForeignKeyPart(table, constraints))
      {
        GatherStep(names, i, DropForeignKeyPart(table, constraints));
        assert names[i] in names;
        if constraints[names[i]].kind == FOREIGN_KEY {
          Push(DropForeignKeys, DropConstraint(table, names[i]));
        }
      }
      assert names[..|names|] == names;
    }

    method DropTable(table: string, to: TableSnapshot)
      modifies this`statements, this`destructive
      ensures statements == old(statements) + DropTableStatements(table, to)
      ensures destructive
    {
      hide Gather, DropForeignKeyPart;
      DropForeignKeysOf(table, to.constraints);
      Push(DropTables, Statement.DropTable(table));
      destructive := true;
    }
  }
}

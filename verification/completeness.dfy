/** What the report of a comparison says about the two schemas. */
module Completeness {
  import opened Options
  import opened Gathering
  import opened Names
  import opened Snapshots
  import opened Statements
  import opened Diff
  import opened ScriptOrder
  import opened Database
  import opened Applies
  import opened Inexpressible

  /* ---- Nothing is reported exactly when nothing differs ---- */

  lemma NothingGathered<T>(keys: set<string>, part: string -> seq<T>)
    ensures Gather(Sorted(keys), part) == [] <==> forall n <- keys :: part(n) == []
  {
    var names := Sorted(keys);
    GatherEmpty(names, part);
    assert forall n :: n in names <==> n in keys;
  }

  lemma SequencesAgree(source: SchemaSnapshot, target: SchemaSnapshot)
    ensures Gather(Sorted(source.sequences.Keys + target.sequences.Keys), SequencePart(source, target)) == [] <==>
            source.sequences == target.sequences
  {
    NothingGathered(source.sequences.Keys + target.sequences.Keys, SequencePart(source, target));
    if forall n <- source.sequences.Keys + target.sequences.Keys :: SequencePart(source, target)(n) == [] {
      forall n
        ensures n in source.sequences <==> n in target.sequences
        ensures n in source.sequences && n in target.sequences ==> source.sequences[n] == target.sequences[n]
      {
        assert n in source.sequences.Keys + target.sequences.Keys ==> SequencePart(source, target)(n) == [];
      }
    }
  }

  ghost function ViewsOfSnapshot(s: SchemaSnapshot): map<string, View> {
    map v | v in s.views :: ViewOf(s.views[v])
  }

  lemma ViewAgrees(source: SchemaSnapshot, target: SchemaSnapshot, n: string)
    requires n in source.views || n in target.views
    ensures ViewEntry(source, target, n) == [] <==>
            n in source.views && n in target.views &&
            ViewOf(source.views[n]) == ViewOf(target.views[n])
  {
    hide NormalizeBody;
  }

  lemma ViewsAgree(source: SchemaSnapshot, target: SchemaSnapshot)
    ensures Gather(Sorted(source.views.Keys + target.views.Keys), ViewPart(source, target)) == [] <==>
            ViewsOfSnapshot(source) == ViewsOfSnapshot(target)
  {
    hide NormalizeBody, Gather, ViewEntry;
    NothingGathered(source.views.Keys + target.views.Keys, ViewPart(source, target));
    var f, t := ViewsOfSnapshot(source), ViewsOfSnapshot(target);
    assert f.Keys == source.views.Keys && t.Keys == target.views.Keys;
    forall n | n in source.views.Keys + target.views.Keys
      ensures ViewPart(source, target)(n) == [] <==> n in f && n in t && f[n] == t[n]
    {
      ViewAgrees(source, target, n);
    }
    SameMaps(f, t);
  }

  lemma SameMaps<V>(f: map<string, V>, t: map<string, V>)
    ensures f == t <==> forall n <- f.Keys + t.Keys :: n in f && n in t && f[n] == t[n]
  {
    if forall n <- f.Keys + t.Keys :: n in f && n in t && f[n] == t[n] {
      assert forall n :: n in f ==> n in f.Keys + t.Keys;
      assert forall n :: n in t ==> n in f.Keys + t.Keys;
    }
  }

  ghost function RoutinesOfSnapshot(s: SchemaSnapshot): map<string, Routine> {
    map k | k in s.routines :: RoutineOf(s.routines[k])
  }

  lemma RoutineAgrees(pg: Reader, source: SchemaSnapshot, target: SchemaSnapshot, k: string)
    requires k in source.routines || k in target.routines
    requires k in source.routines ==>
      RoutineOf(source.routines[k]).procedure == pg.isProcedure(RoutineOf(source.routines[k]).body)
    requires k in target.routines ==>
      RoutineOf(target.routines[k]).procedure == pg.isProcedure(RoutineOf(target.routines[k]).body)
    ensures RoutineEntry(source, target, k) == [] <==>
            k in source.routines && k in target.routines &&
              RoutineOf(source.routines[k]) == RoutineOf(target.routines[k])
  {
    hide NormalizeBody;
  }

  // The definition says whether it is a procedure, so routines with equal bodies are of one kind.
  lemma RoutinesAgree(pg: Reader, source: SchemaSnapshot, target: SchemaSnapshot)
    requires forall k <- RoutinesOfSnapshot(source) ::
      RoutinesOfSnapshot(source)[k].procedure == pg.isProcedure(RoutinesOfSnapshot(source)[k].body)
    requires forall k <- RoutinesOfSnapshot(target) ::
      RoutinesOfSnapshot(target)[k].procedure == pg.isProcedure(RoutinesOfSnapshot(target)[k].body)
    ensures Gather(Sorted(source.routines.Keys + target.routines.Keys), RoutinePart(source, target)) == [] <==>
            RoutinesOfSnapshot(source) == RoutinesOfSnapshot(target)
  {
    hide Gather, RoutineEntry, RoutineOf;
    NothingGathered(source.routines.Keys + target.routines.Keys, RoutinePart(source, target));
    var f, t := RoutinesOfSnapshot(source), RoutinesOfSnapshot(target);
    assert f.Keys == source.routines.Keys && t.Keys == target.routines.Keys;
    forall k | k in source.routines.Keys + target.routines.Keys
      ensures RoutinePart(source, target)(k) == [] <==> k in f && k in t && f[k] == t[k]
    {
      RoutineAgrees(pg, source, target, k);
    }
    SameMaps(f, t);
  }

  /* ---- Tables ---- */

  lemma AlterColumnsEmpty(table: string, name: string, changes: seq<ColumnChange>)
    ensures AlterColumnStatements(table, name, changes) == [] <==> changes == []
  {
  }

  lemma ColumnUnchanged(existing: Column, column: Column)
    requires existing.name == column.name && existing.generated == column.generated
    requires ColumnShape(existing) && ColumnShape(column)
    ensures ColumnChanges(existing, column) == [] <==> existing == column
  {
  }

  ghost predicate Shaped(columns: seq<Column>) {
    DistinctColumns(columns) && forall c <- columns :: ColumnShape(c)
  }

  lemma WantedColumnsAgree(table: string, from: seq<Column>, to: seq<Column>)
    requires Shaped(from) && Shaped(to)
    ensures (Gather(from, ColumnPart(table, ColumnMap(to))) == [] &&
             Gather(from, ColumnNotePart(ColumnMap(to))) == []) <==>
            forall c <- from :: c.name in ColumnMap(to) && ColumnMap(to)[c.name] == c
  {
    var t := ColumnMap(to);
    GatherEmpty(from, ColumnPart(table, t));
    GatherEmpty(from, ColumnNotePart(t));
    forall c | c in from
      ensures ColumnPart(table, t)(c) == [] && ColumnNotePart(t)(c) == [] <==> c.name in t && t[c.name] == c
    {
      if c.name in t && t[c.name].generated == c.generated {
        ColumnUnchanged(t[c.name], c);
        AlterColumnsEmpty(table, c.name, ColumnChanges(t[c.name], c));
      }
    }
  }

  lemma ColumnsAgree(table: string, from: seq<Column>, to: seq<Column>)
    requires Shaped(from) && Shaped(to)
    ensures Gather(from, ColumnPart(table, ColumnMap(to))) == [] && Gather(from, ColumnNotePart(ColumnMap(to))) == [] &&
            Gather(to, DropColumnPart(table, ColumnMap(from))) == [] <==>
            ColumnMap(from) == ColumnMap(to)
  {
    var f, t := ColumnMap(from), ColumnMap(to);
    WantedColumnsAgree(table, from, to);
    GatherEmpty(to, DropColumnPart(table, f));
    if forall c <- from :: c.name in t && t[c.name] == c {
      forall n | n in f
        ensures n in t && t[n] == f[n]
      {
        assert f[n] in from;
      }
      if forall c <- to :: DropColumnPart(table, f)(c) == [] {
        forall n | n in t
          ensures n in f
        {
          assert t[n] in to && DropColumnPart(table, f)(t[n]) == [];
        }
        SameMaps(f, t);
      }
    }
    if f == t {
      forall c | c in from
        ensures f[c.name] == c
      {
        var i: nat :| i < |from| && from[i] == c;
        ColumnMapAt(from, i);
      }
    }
  }

  lemma ConstraintsAgree(table: string, f: map<string, Constraint>, t: map<string, Constraint>)
    ensures Gather(Sorted(f.Keys + t.Keys), ConstraintPart(table, f, t)) == [] <==> f == t
  {
    NothingGathered(f.Keys + t.Keys, ConstraintPart(table, f, t));
    forall n | n in f.Keys + t.Keys
      ensures ConstraintPart(table, f, t)(n) == [] <==> n in f && n in t && f[n] == t[n]
    {
    }
    SameMaps(f, t);
  }

  lemma IndexesAgree(qualifier: string, table: string, f: map<string, string>, t: map<string, string>)
    ensures Gather(Sorted(f.Keys + t.Keys), IndexPart(qualifier, table, f, t)) == [] <==> f == t
  {
    NothingGathered(f.Keys + t.Keys, IndexPart(qualifier, table, f, t));
    forall n | n in f.Keys + t.Keys
      ensures IndexPart(qualifier, table, f, t)(n) == [] <==> n in f && n in t && f[n] == t[n]
    {
    }
    SameMaps(f, t);
  }

  lemma TriggersAgree(table: string, f: map<string, string>, t: map<string, string>)
    ensures Gather(Sorted(f.Keys + t.Keys), TriggerPart(table, f, t)) == [] <==> f == t
  {
    NothingGathered(f.Keys + t.Keys, TriggerPart(table, f, t));
    forall n | n in f.Keys + t.Keys
      ensures TriggerPart(table, f, t)(n) == [] <==> n in f && n in t && f[n] == t[n]
    {
    }
    SameMaps(f, t);
  }

  lemma TableAgrees(schema: string, table: string, from: TableSnapshot, to: TableSnapshot)
    requires Shaped(from.columns) && Shaped(to.columns)
    ensures AlterTableStatements(schema, table, from, to) == [] && AlterTableNotes(from, to) == [] <==>
            TableOf(from) == TableOf(to) && from.indexes == to.indexes
  {
    hide Gather, ColumnMap;
    ColumnsAgree(table, from.columns, to.columns);
    ConstraintsAgree(table, from.constraints, to.constraints);
    IndexesAgree(IndexQualifier(schema, table), table, from.indexes, to.indexes);
    TriggersAgree(table, from.triggers, to.triggers);
  }

  ghost predicate ShapedTables(s: SchemaSnapshot) {
    forall n <- s.tables :: Shaped(s.tables[n].columns)
  }

  ghost function TablesOfSnapshot(s: SchemaSnapshot): map<string, Table> {
    map n | n in s.tables :: TableOf(s.tables[n])
  }

  ghost function IndexMaps(s: SchemaSnapshot): map<string, map<string, string>> {
    map n | n in s.tables :: s.tables[n].indexes
  }

  lemma TablesAgree(source: SchemaSnapshot, target: SchemaSnapshot)
    requires ShapedTables(source) && ShapedTables(target)
    ensures Gather(Sorted(source.tables.Keys + target.tables.Keys), TablePart(source, target)) == [] <==>
            TablesOfSnapshot(source) == TablesOfSnapshot(target) && IndexMaps(source) == IndexMaps(target)
  {
    var f, t := TablesOfSnapshot(source), TablesOfSnapshot(target);
    var i, j := IndexMaps(source), IndexMaps(target);
    hide Gather, TableEntry, TableOf, ShapedTables;
    NothingGathered(source.tables.Keys + target.tables.Keys, TablePart(source, target));
    assert f.Keys == i.Keys == source.tables.Keys && t.Keys == j.Keys == target.tables.Keys;
    forall n | n in source.tables.Keys + target.tables.Keys
      ensures TablePart(source, target)(n) == [] <==> n in f && n in t && f[n] == t[n] && i[n] == j[n]
    {
      TableEntryEmpty(source, target, n);
    }
    SameMaps(f, t);
    SameMaps(i, j);
  }

  lemma TableEntryEmpty(source: SchemaSnapshot, target: SchemaSnapshot, n: string)
    requires ShapedTables(source) && ShapedTables(target) && (n in source.tables || n in target.tables)
    ensures TableEntry(source, target, n) == [] <==>
            n in source.tables && n in target.tables && TableOf(source.tables[n]) == TableOf(target.tables[n]) &&
            source.tables[n].indexes == target.tables[n].indexes
  {
    hide AlterTableStatements, AlterTableNotes, TableOf, CreateTableStatements, DropTableStatements,
      AlterTableDestructive, Shaped;
    if n in source.tables && n in target.tables {
      TableAgrees(target.schema, n, source.tables[n], target.tables[n]);
    }
  }

  // Index names are unique in a schema, so the schema's indexes determine each table's.
  lemma IndexMapsAgree(source: SchemaSnapshot, target: SchemaSnapshot)
    requires DistinctIndexes(source) && DistinctIndexes(target) && source.tables.Keys == target.tables.Keys
    ensures IndexMaps(source) == IndexMaps(target) <==> IndexesOf(source) == IndexesOf(target)
  {
    if IndexMaps(source) == IndexMaps(target) {
      SameIndexes(source, target);
    }
    if IndexesOf(source) == IndexesOf(target) {
      hide IndexesOf;
      forall n | n in source.tables
        ensures source.tables[n].indexes == target.tables[n].indexes
      {
        IndexesIncluded(source, target, n);
        IndexesIncluded(target, source, n);
      }
    }
  }

  lemma SameIndexes(source: SchemaSnapshot, target: SchemaSnapshot)
    requires DistinctIndexes(source) && DistinctIndexes(target) && IndexMaps(source) == IndexMaps(target)
    ensures IndexesOf(source) == IndexesOf(target)
  {
    assert source.tables.Keys == IndexMaps(source).Keys && target.tables.Keys == IndexMaps(target).Keys;
    forall n | n in source.tables
      ensures source.tables[n].indexes == target.tables[n].indexes
    {
      assert IndexMaps(source)[n] == IndexMaps(target)[n];
    }
  }

  lemma IndexesIncluded(one: SchemaSnapshot, other: SchemaSnapshot, n: string)
    requires DistinctIndexes(one) && DistinctIndexes(other) && IndexesOf(one) == IndexesOf(other)
    requires n in one.tables && n in other.tables
    ensures forall i <- one.tables[n].indexes ::
      i in other.tables[n].indexes && other.tables[n].indexes[i] == one.tables[n].indexes[i]
  {
    forall i | i in one.tables[n].indexes
      ensures i in other.tables[n].indexes && other.tables[n].indexes[i] == one.tables[n].indexes[i]
    {
      assert IndexesOf(one)[i] == Index(n, one.tables[n].indexes[i]);
      assert i in IndexesOf(other);
    }
  }

  lemma ValidShapes(pg: Reader, s: SchemaSnapshot)
    requires Valid(pg, s)
    ensures ShapedTables(s)
  {
    var db := DbOf(s);
    forall n | n in s.tables
      ensures Shaped(s.tables[n].columns)
    {
      var columns := s.tables[n].columns;
      forall c | c in columns
        ensures ColumnShape(c)
      {
        var i: nat :| i < |columns| && columns[i] == c;
        ColumnMapAt(columns, i);
        assert TableSound(pg, db, db.tables[n]);
        assert db.tables[n].columns[c.name] == c;
      }
    }
  }

  lemma DbParts(s: SchemaSnapshot)
    requires DistinctIndexes(s)
    ensures DbOf(s) == Db(s.sequences, TablesOfSnapshot(s), IndexesOf(s), ViewsOfSnapshot(s), RoutinesOfSnapshot(s))
  {
  }

  lemma ValidRoutines(pg: Reader, s: SchemaSnapshot)
    requires Valid(pg, s)
    ensures forall k <- RoutinesOfSnapshot(s) ::
      RoutinesOfSnapshot(s)[k].procedure == pg.isProcedure(RoutinesOfSnapshot(s)[k].body)
  {
    assert DbOf(s).routines == RoutinesOfSnapshot(s);
  }

  // The comparison reports no object exactly when the two sides are the same schema, columns taken as a map and
  // bodies normalised.
  lemma NothingReported(pg: Reader, source: SchemaSnapshot, target: SchemaSnapshot)
    requires Valid(pg, source) && Valid(pg, target)
    ensures Entries(source, target) == [] <==> DbOf(source) == DbOf(target)
  {
    hide Gather, ViewsOfSnapshot, RoutinesOfSnapshot, IndexesOf, Consistent, DistinctColumns, TablePart, SequencePart,
      ViewPart, RoutinePart, IndexMaps, TableOf, ShapedTables;
    ValidShapes(pg, source);
    ValidShapes(pg, target);
    ValidRoutines(pg, source);
    ValidRoutines(pg, target);
    SequencesAgree(source, target);
    TablesAgree(source, target);
    ViewsAgree(source, target);
    RoutinesAgree(pg, source, target);
    DbParts(source);
    DbParts(target);
    assert TablesOfSnapshot(source).Keys == source.tables.Keys && TablesOfSnapshot(target).Keys == target.tables.Keys;
    if source.tables.Keys == target.tables.Keys {
      IndexMapsAgree(source, target);
    }
  }

  // Applying the script and comparing again reports nothing.
  lemma AppliedOnce(pg: Reader, source: SchemaSnapshot, target: SchemaSnapshot, after: SchemaSnapshot)
    requires Valid(pg, source) && Valid(pg, target) && Valid(pg, after) && Describes(pg, target)
    requires Run(pg, DbOf(target), ScriptOf(Entries(source, target))) == Some(DbOf(after))
    ensures Entries(source, after) == [] <==> ScriptApplies(pg, source, target)
  {
    hide Run, ScriptOf, Entries, ScriptApplies, Consistent, DistinctColumns, DbOf, Describes, Keyed, FieldsAgree;
    Converges(pg, source, target);
    NothingReported(pg, source, after);
  }
}

/** When a comparison is called destructive. */
module Destruction {
  import opened Options
  import opened Gathering
  import opened Names
  import opened Snapshots
  import opened Statements
  import opened Diff
  import opened ScriptOrder

  // The statement loses data or may fail to keep it.
  predicate Destroys(st: Statement) {
    st.DropTable? || st.DropColumn? || st.DropSequence? || (st.AlterColumn? && st.change.SetType?)
  }

  ghost predicate AnyDestroys(tagged: seq<Tagged>) {
    exists x <- tagged :: Destroys(x.statement)
  }

  lemma ConcatDestroys(a: seq<Tagged>, b: seq<Tagged>)
    ensures AnyDestroys(a + b) <==> AnyDestroys(a) || AnyDestroys(b)
  {
    assert forall x <- a :: x in a + b;
    assert forall x <- b :: x in a + b;
  }

  // A gathered list destroys something exactly when one of its parts does.
  lemma {:induction false} GatherDestroys<T>(items: seq<T>, part: T -> seq<Tagged>)
    ensures AnyDestroys(Gather(items, part)) <==> exists item <- items :: AnyDestroys(part(item))
  {
    if AnyDestroys(Gather(items, part)) {
      var x :| x in Gather(items, part) && Destroys(x.statement);
      GatherMember(items, part, x);
    }
    if item :| item in items && AnyDestroys(part(item)) {
      var x :| x in part(item) && Destroys(x.statement);
      GatherMember(items, part, x);
    }
  }

  lemma {:induction false} ChangesDestroy(table: string, name: string, changes: seq<ColumnChange>)
    ensures AnyDestroys(AlterColumnStatements(table, name, changes)) <==> exists c <- changes :: c.SetType?
  {
    if changes != [] {
      var n := |changes| - 1;
      ChangesDestroy(table, name, changes[..n]);
      assert changes == changes[..n] + [changes[n]];
      var last := [Tagged(Tables, AlterColumn(table, name, changes[n]))];
      assert AnyDestroys(last) <==> changes[n].SetType? by {
        assert last[0] in last;
      }
      ConcatDestroys(AlterColumnStatements(table, name, changes[..n]), last);
    }
  }

  lemma RetypesExactly(existing: Column, column: Column)
    ensures (exists c <- ColumnChanges(existing, column) :: c.SetType?) <==> existing.dataType != column.dataType
  {
    var retype := TypeChanges(existing, column);
    var others :=
      OldIdentityChanges(existing, column) + DefaultChanges(existing, column) + IdentityChanges(existing, column) +
      NullabilityChanges(existing, column);
    assert forall c <- others :: !c.SetType?;
    assert ColumnChanges(existing, column) == retype + others;
    if existing.dataType != column.dataType {
      assert (retype + others)[0].SetType?;
    }
  }

  lemma ColumnDestroys(table: string, to: map<string, Column>, column: Column)
    ensures AnyDestroys(ColumnPart(table, to)(column)) <==> ColumnDestructive(to, column)
  {
    if column.name !in to {
      assert ColumnPart(table, to)(column) == [Tagged(Tables, AddColumn(table, DefinitionOf(column)))];
    } else if to[column.name].generated == column.generated {
      var changes := ColumnChanges(to[column.name], column);
      hide ColumnChanges, AlterColumnStatements, AnyDestroys;
      ChangesDestroy(table, column.name, changes);
      RetypesExactly(to[column.name], column);
    }
  }

  lemma DropColumnDestroys(table: string, from: map<string, Column>, column: Column)
    ensures AnyDestroys(DropColumnPart(table, from)(column)) <==> column.name !in from
  {
    if column.name !in from {
      assert DropColumnPart(table, from)(column)[0] in DropColumnPart(table, from)(column);
    }
  }

  ghost predicate Harmless<T(!new)>(part: T -> seq<Tagged>) {
    forall item :: !AnyDestroys(part(item))
  }

  lemma HarmlessGather<T(!new)>(items: seq<T>, part: T -> seq<Tagged>)
    requires Harmless(part)
    ensures !AnyDestroys(Gather(items, part))
  {
    GatherDestroys(items, part);
  }

  lemma HarmlessConstraint(table: string, c: map<string, Constraint>, d: map<string, Constraint>, n: string)
    ensures !AnyDestroys(ConstraintStatements(table, c, d, n))
  {
  }

  lemma HarmlessIndex(qualifier: string, table: string, f: map<string, string>, t: map<string, string>, n: string)
    ensures !AnyDestroys(IndexStatements(qualifier, table, f, t, n))
  {
  }

  lemma HarmlessTrigger(table: string, f: map<string, string>, t: map<string, string>, n: string)
    ensures !AnyDestroys(TriggerStatements(table, f, t, n))
  {
  }

  lemma HarmlessForeign(table: string, c: map<string, Constraint>, n: string)
    ensures !AnyDestroys(ForeignKeyPart(table, c)(n)) && !AnyDestroys(DropForeignKeyPart(table, c)(n))
  {
  }

  lemma HarmlessParts(qualifier: string, table: string, c: map<string, Constraint>, d: map<string, Constraint>,
                      f: map<string, string>,
                      t: map<string, string>)
    ensures Harmless(ConstraintPart(table, c, d)) && Harmless(IndexPart(qualifier, table, f, t)) &&
      Harmless(TriggerPart(table, f, t))
    ensures Harmless(ForeignKeyPart(table, c)) && Harmless(DropForeignKeyPart(table, c))
  {
    hide ConstraintStatements, IndexStatements, TriggerStatements, AnyDestroys, ForeignKeyPart, DropForeignKeyPart;
    forall n: string
      ensures !AnyDestroys(ConstraintPart(table, c, d)(n)) && !AnyDestroys(IndexPart(qualifier, table, f, t)(n))
      ensures !AnyDestroys(TriggerPart(table, f, t)(n))
      ensures !AnyDestroys(ForeignKeyPart(table, c)(n)) && !AnyDestroys(DropForeignKeyPart(table, c)(n))
    {
      HarmlessConstraint(table, c, d, n);
      HarmlessIndex(qualifier, table, f, t, n);
      HarmlessTrigger(table, f, t, n);
      HarmlessForeign(table, c, n);
    }
  }

  lemma AlterDestroys(schema: string, table: string, from: TableSnapshot, to: TableSnapshot)
    ensures AnyDestroys(AlterTableStatements(schema, table, from, to)) <==> AlterTableDestructive(from, to)
  {
    hide Gather, ColumnPart, DropColumnPart, ConstraintPart, IndexPart, TriggerPart, ColumnMap, AnyDestroys,
      ColumnDestructive;
    var f, t := ColumnMap(from.columns), ColumnMap(to.columns);
    var a := Gather(from.columns, ColumnPart(table, t));
    var b := Gather(to.columns, DropColumnPart(table, f));
    var c :=
      Gather(Sorted(from.constraints.Keys + to.constraints.Keys),
             ConstraintPart(table, from.constraints, to.constraints));
    var i :=
      Gather(Sorted(from.indexes.Keys + to.indexes.Keys),
             IndexPart(IndexQualifier(schema, table), table, from.indexes, to.indexes));
    var g := Gather(Sorted(from.triggers.Keys + to.triggers.Keys), TriggerPart(table, from.triggers, to.triggers));
    WantedDestroy(table, t, from.columns);
    UnwantedDestroy(table, f, to.columns);
    HarmlessParts(IndexQualifier(schema, table), table, from.constraints, to.constraints, from.indexes, to.indexes);
    HarmlessParts(IndexQualifier(schema, table), table, from.constraints, to.constraints, from.triggers, to.triggers);
    HarmlessGather(Sorted(from.constraints.Keys + to.constraints.Keys),
                   ConstraintPart(table, from.constraints, to.constraints));
    HarmlessGather(Sorted(from.indexes.Keys + to.indexes.Keys),
                   IndexPart(IndexQualifier(schema, table), table, from.indexes, to.indexes));
    HarmlessGather(Sorted(from.triggers.Keys + to.triggers.Keys), TriggerPart(table, from.triggers, to.triggers));
    ConcatDestroys(a, b);
    ConcatDestroys(a + b, c);
    ConcatDestroys(a + b + c, i);
    ConcatDestroys(a + b + c + i, g);
  }

  lemma WantedDestroy(table: string, to: map<string, Column>, columns: seq<Column>)
    ensures AnyDestroys(Gather(columns, ColumnPart(table, to))) <==>
      exists column <- columns :: ColumnDestructive(to, column)
  {
    hide ColumnPart, AnyDestroys, Gather, ColumnDestructive;
    GatherDestroys(columns, ColumnPart(table, to));
    forall column | column in columns
      ensures AnyDestroys(ColumnPart(table, to)(column)) <==> ColumnDestructive(to, column)
    {
      ColumnDestroys(table, to, column);
    }
  }

  lemma UnwantedDestroy(table: string, from: map<string, Column>, columns: seq<Column>)
    ensures AnyDestroys(Gather(columns, DropColumnPart(table, from))) <==>
      exists column <- columns :: column.name !in from
  {
    hide DropColumnPart, AnyDestroys, Gather;
    GatherDestroys(columns, DropColumnPart(table, from));
    forall column | column in columns
      ensures AnyDestroys(DropColumnPart(table, from)(column)) <==> column.name !in from
    {
      DropColumnDestroys(table, from, column);
    }
  }

  lemma CreateDestroysNothing(table: string, from: TableSnapshot)
    ensures !AnyDestroys(CreateTableStatements(table, from))
  {
    hide Gather, ForeignKeyPart, IndexPart, TriggerPart, AnyDestroys;
    var create := [Tagged(Tables, CreateTableStatement(table, from))];
    var f := Gather(Sorted(from.constraints.Keys), ForeignKeyPart(table, from.constraints));
    var i := Gather(Sorted(from.indexes.Keys), IndexPart("", table, from.indexes, map[]));
    var g := Gather(Sorted(from.triggers.Keys), TriggerPart(table, from.triggers, map[]));
    HarmlessParts("", table, from.constraints, map[], from.indexes, map[]);
    HarmlessParts("", table, from.constraints, map[], from.triggers, map[]);
    HarmlessGather(Sorted(from.constraints.Keys), ForeignKeyPart(table, from.constraints));
    HarmlessGather(Sorted(from.indexes.Keys), IndexPart("", table, from.indexes, map[]));
    HarmlessGather(Sorted(from.triggers.Keys), TriggerPart(table, from.triggers, map[]));
    OneDestroys(create[0]);
    ConcatDestroys(create, f);
    ConcatDestroys(create + f, i);
    ConcatDestroys(create + f + i, g);
  }

  lemma OneDestroys(x: Tagged)
    ensures AnyDestroys([x]) <==> Destroys(x.statement)
  {
    assert x in [x];
  }

  lemma DropDestroys(table: string, to: TableSnapshot)
    ensures AnyDestroys(DropTableStatements(table, to))
  {
    var drops := DropTableStatements(table, to);
    assert Tagged(DropTables, DropTable(table)) in drops;
  }

  lemma TableDestroys(source: SchemaSnapshot, target: SchemaSnapshot, n: string, e: Entry)
    requires e in TableEntry(source, target, n)
    ensures AnyDestroys(e.tagged) <==> e.report.destructive
  {
    hide AlterTableStatements, CreateTableStatements, DropTableStatements, AlterTableNotes, AlterTableDestructive,
      AnyDestroys;
    if n in source.tables && n !in target.tables {
      CreateDestroysNothing(n, source.tables[n]);
    } else if n !in source.tables {
      DropDestroys(n, target.tables[n]);
    } else {
      AlterDestroys(target.schema, n, source.tables[n], target.tables[n]);
    }
  }

  lemma SequenceDestroys(source: SchemaSnapshot, target: SchemaSnapshot, n: string, e: Entry)
    requires e in SequenceEntry(source, target, n)
    ensures AnyDestroys(e.tagged) <==> e.report.destructive
  {
    OneDestroys(e.tagged[0]);
  }

  lemma ViewDestroys(source: SchemaSnapshot, target: SchemaSnapshot, n: string, e: Entry)
    requires e in ViewEntry(source, target, n)
    ensures AnyDestroys(e.tagged) <==> e.report.destructive
  {
  }

  lemma RoutineDestroys(source: SchemaSnapshot, target: SchemaSnapshot, k: string, e: Entry)
    requires e in RoutineEntry(source, target, k)
    ensures AnyDestroys(e.tagged) <==> e.report.destructive
  {
  }

  lemma EntryDestroys(source: SchemaSnapshot, target: SchemaSnapshot, e: Entry)
    requires e in Entries(source, target)
    ensures AnyDestroys(e.tagged) <==> e.report.destructive
  {
    hide Gather, SequenceEntry, TableEntry, ViewEntry, RoutineEntry, AnyDestroys;
    GatherMember(Sorted(source.sequences.Keys + target.sequences.Keys), SequencePart(source, target), e);
    GatherMember(Sorted(source.tables.Keys + target.tables.Keys), TablePart(source, target), e);
    GatherMember(Sorted(source.views.Keys + target.views.Keys), ViewPart(source, target), e);
    GatherMember(Sorted(source.routines.Keys + target.routines.Keys), RoutinePart(source, target), e);
    if n :| e in SequencePart(source, target)(n) {
      SequenceDestroys(source, target, n, e);
    } else if n :| e in TablePart(source, target)(n) {
      TableDestroys(source, target, n, e);
    } else if n :| e in ViewPart(source, target)(n) {
      ViewDestroys(source, target, n, e);
    } else {
      var k :| e in RoutinePart(source, target)(k);
      RoutineDestroys(source, target, k, e);
    }
  }

  lemma {:induction false} OrderedMember(entries: seq<Entry>, st: Statement)
    ensures (exists x <- OrderedEntries(entries) :: x.statement == st) <==>
            (exists e <- entries, x <- e.tagged :: x.statement == st)
  {
    if entries != [] {
      var n := |entries| - 1;
      OrderedMember(entries[..n], st);
      var tagged, ordered := entries[n].tagged, OrderedEntry(n, entries[n].tagged);
      assert entries == entries[..n] + [entries[n]];
      if x :| x in tagged && x.statement == st {
        var i: nat :| i < |tagged| && tagged[i] == x;
        assert ordered[i].statement == st;
      }
      if x :| x in ordered && x.statement == st {
        var i: nat :| i < |ordered| && ordered[i] == x;
        assert tagged[i].statement == st && tagged[i] in tagged;
      }
    }
  }

  lemma SortedMember(ordered: seq<Ordered>, x: Ordered)
    ensures x in StableSort(ordered) <==> x in ordered
  {
    hide StableSort, InOrder, Stable;
    StableSortSorts(ordered);
    assert x in StableSort(ordered) <==> x in multiset(StableSort(ordered));
    assert x in ordered <==> x in multiset(ordered);
  }

  // A statement is in the script exactly when some object brings it.
  lemma ScriptMember(entries: seq<Entry>, st: Statement)
    ensures st in ScriptOf(entries) <==> exists e <- entries, x <- e.tagged :: x.statement == st
  {
    hide StableSort, OrderedEntries;
    var ordered := OrderedEntries(entries);
    var sorted := StableSort(ordered);
    OrderedMember(entries, st);
    if st in ScriptOf(entries) {
      var i: nat :| i < |sorted| && sorted[i].statement == st;
      SortedMember(ordered, sorted[i]);
    }
    if x :| x in ordered && x.statement == st {
      SortedMember(ordered, x);
      var i: nat :| i < |sorted| && sorted[i] == x;
      assert ScriptOf(entries)[i] == st;
    }
  }

  // The comparison is called destructive exactly when its script drops a table, a column or a sequence, or retypes a
  // column.
  lemma DestructiveExactly(source: SchemaSnapshot, target: SchemaSnapshot)
    ensures (exists e <- Entries(source, target) :: e.report.destructive) <==>
            exists st <- ScriptOf(Entries(source, target)) :: Destroys(st)
  {
    hide Entries, ScriptOf;
    var entries := Entries(source, target);
    if e :| e in entries && e.report.destructive {
      EntryDestroys(source, target, e);
      var x :| x in e.tagged && Destroys(x.statement);
      ScriptMember(entries, x.statement);
    }
    if st :| st in ScriptOf(entries) && Destroys(st) {
      ScriptMember(entries, st);
      var e, x :| e in entries && x in e.tagged && x.statement == st;
      EntryDestroys(source, target, e);
    }
  }
}

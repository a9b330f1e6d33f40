/**
 What a successful script leaves depends only on the order of each object's own statements: PostgreSQL may refuse
 statements for reasons elsewhere in the schema, but what an accepted one changes is its own object.
 */
module Reordering {
  import opened Options
  import opened Gathering
  import opened Snapshots
  import opened Statements
  import opened Identifiers
  import opened Database
  import opened Keeping

  // The object a statement is about; an index counts with its table.
  datatype Owner =
    | SequenceNamed(name: string) | TableNamed(name: string) | ViewNamed(name: string) | RoutineKeyed(key: string)

  // `home` says which table each index name belongs to.
  function OwnerOf(home: string -> string, st: Statement): Owner {
    match st
    case CreateSequence(n, _) => SequenceNamed(n)
    case AlterSequence(n, _) => SequenceNamed(n)
    case DropSequence(n) => SequenceNamed(n)
    case CreateTable(t, _, _, _) => TableNamed(t)
    case AddColumn(t, _) => TableNamed(t)
    case AlterColumn(t, _, _) => TableNamed(t)
    case DropColumn(t, _) => TableNamed(t)
    case AddConstraint(t, _, _) => TableNamed(t)
    case DropConstraint(t, _) => TableNamed(t)
    case DropTable(t) => TableNamed(t)
    case CreateIndex(_, t, _) => TableNamed(t)
    case DropIndex(_, i) => TableNamed(home(i))
    case CreateTrigger(_, t, _) => TableNamed(t)
    case DropTrigger(_, t) => TableNamed(t)
    case CreateView(v, _, _, _) => ViewNamed(v)
    case DropView(v, _) => ViewNamed(v)
    case CreateRoutine(k, _, _) => RoutineKeyed(k)
    case DropRoutine(k, _) => RoutineKeyed(k)
  }

  predicate AtHome(home: string -> string, st: Statement) { st.CreateIndex? ==> home(st.index) == st.table }

  ghost predicate AllAtHome(home: string -> string, db: Db) { forall i <- db.indexes :: db.indexes[i].table == home(i) }

  // What the schema holds of one object.
  datatype Share =
    | SequenceShare(sequence: Option<Sequence>)
    | TableShare(table: Option<Table>, indexes: map<string, Index>)
    | ViewShare(view: Option<View>)
    | RoutineShare(routine: Option<Routine>)

  function Held<V>(m: map<string, V>, name: string): Option<V> { if name in m then Some(m[name]) else None }

  function Elsewhere(indexes: map<string, Index>, table: string): set<string> {
    set i | i in indexes && indexes[i].table != table
  }

  function ShareOf(db: Db, o: Owner): Share {
    match o
    case SequenceNamed(n) => SequenceShare(Held(db.sequences, n))
    case TableNamed(n) => TableShare(Held(db.tables, n), db.indexes - Elsewhere(db.indexes, n))
    case ViewNamed(n) => ViewShare(Held(db.views, n))
    case RoutineKeyed(k) => RoutineShare(Held(db.routines, k))
  }

  // The shares are the schema.
  lemma SameShares(a: Db, b: Db)
    requires forall o :: ShareOf(a, o) == ShareOf(b, o)
    ensures a == b
  {
    forall n
      ensures Held(a.sequences, n) == Held(b.sequences, n)
      ensures Held(a.views, n) == Held(b.views, n) && Held(a.routines, n) == Held(b.routines, n)
    {
      assert ShareOf(a, SequenceNamed(n)) == ShareOf(b, SequenceNamed(n));
      assert ShareOf(a, ViewNamed(n)) == ShareOf(b, ViewNamed(n));
      assert ShareOf(a, RoutineKeyed(n)) == ShareOf(b, RoutineKeyed(n));
    }
    forall n
      ensures Held(a.tables, n) == Held(b.tables, n)
    {
      assert ShareOf(a, TableNamed(n)) == ShareOf(b, TableNamed(n));
    }
    SameIndexShares(a, b);
    SameHeld(a.sequences, b.sequences);
    SameHeld(a.tables, b.tables);
    SameHeld(a.views, b.views);
    SameHeld(a.routines, b.routines);
  }

  lemma SameHeld<V>(a: map<string, V>, b: map<string, V>)
    requires forall n :: Held(a, n) == Held(b, n)
    ensures a == b
  {
    forall n
      ensures n in a <==> n in b
      ensures n in a ==> a[n] == b[n]
    {
      assert Held(a, n) == Held(b, n);
    }
  }

  lemma SameIndexShares(a: Db, b: Db)
    requires forall o :: ShareOf(a, o) == ShareOf(b, o)
    ensures a.indexes == b.indexes
  {
    forall i
      ensures Held(a.indexes, i) == Held(b.indexes, i)
    {
      if i in a.indexes {
        IndexInShare(a, b, i);
      }
      if i in b.indexes {
        IndexInShare(b, a, i);
      }
    }
    SameHeld(a.indexes, b.indexes);
  }

  lemma IndexInShare(a: Db, b: Db, i: string)
    requires i in a.indexes && ShareOf(a, TableNamed(a.indexes[i].table)) == ShareOf(b, TableNamed(a.indexes[i].table))
    ensures i in b.indexes && b.indexes[i] == a.indexes[i]
  {
    var n := a.indexes[i].table;
    var ours, theirs := a.indexes - Elsewhere(a.indexes, n), b.indexes - Elsewhere(b.indexes, n);
    assert i in ours && ours[i] == a.indexes[i] && ours == theirs;
  }

  /* ---- What an accepted statement changes ---- */

  // Statements on tables leave the other kinds alone, and the other way round.
  predicate OnTables(st: Statement) {
    st.CreateTable? || st.AddColumn? || st.AlterColumn? || st.DropColumn? || st.AddConstraint? || st.DropConstraint? ||
    st.DropTable? || st.CreateIndex? || st.DropIndex? || st.CreateTrigger? || st.DropTrigger?
  }

  // A change to one table: it keeps views, routines, the other tables, and of the indexes those of other tables.
  ghost predicate ChangesOnly(db: Db, after: Db, t: string) {
    after.views == db.views && after.routines == db.routines &&
    (forall n :: n != t ==> Held(after.tables, n) == Held(db.tables, n)) &&
    (forall i ::
      i in db.indexes && db.indexes[i].table != t ==> i in after.indexes && after.indexes[i] == db.indexes[i]) &&
    (forall i ::
      i in after.indexes && after.indexes[i].table != t ==> i in db.indexes && db.indexes[i] == after.indexes[i])
  }

  lemma {:induction false} AddColumnsOnly(pg: Reader, db: Db, t: string, columns: seq<ColumnDefinition>)
    requires t in db.tables && ExecAddColumns(pg, db, t, columns).Some?
    ensures var after := ExecAddColumns(pg, db, t, columns).value;
      t in after.tables && after == PutTable(db, t, after.tables[t])
  {
    hide Available, OptionAvailable;
    if columns == [] {
      PutSame(db, t);
    } else {
      var n := |columns| - 1;
      AddColumnsOnly(pg, db, t, columns[..n]);
      var mid := ExecAddColumns(pg, db, t, columns[..n]).value;
      var after := ExecDeclareColumn(pg, mid, t, columns[n]).value;
      PutTwice(db, t, mid.tables[t], after.tables[t]);
    }
  }

  lemma {:induction false} AddConstraintsOnly(pg: Reader, db: Db, t: string, constraints: seq<(string, Constraint)>)
    requires t in db.tables && ExecAddConstraints(pg, db, t, constraints).Some?
    ensures var after := ExecAddConstraints(pg, db, t, constraints).value;
      t in after.tables && after == PutTable(db, t, after.tables[t])
  {
    hide Available, RequireNotNull;
    if constraints == [] {
      PutSame(db, t);
    } else {
      var n := |constraints| - 1;
      AddConstraintsOnly(pg, db, t, constraints[..n]);
      var mid := ExecAddConstraints(pg, db, t, constraints[..n]).value;
      var after := ExecAddConstraint(pg, mid, t, constraints[n].0, constraints[n].1).value;
      PutTwice(db, t, mid.tables[t], after.tables[t]);
    }
  }

  lemma PutOnly(db: Db, t: string, table: Table)
    ensures ChangesOnly(db, PutTable(db, t, table), t)
  {
  }

  lemma CreateTableOnly(pg: Reader, db: Db, t: string, columns: seq<ColumnDefinition>,
                        constraints: seq<(string, Constraint)>,
                        p: Option<string>)
    requires ExecCreateTable(pg, db, t, columns, constraints, p).Some?
    ensures ChangesOnly(db, ExecCreateTable(pg, db, t, columns, constraints, p).value, t)
  {
    hide ExecAddColumns, ExecAddConstraints, ChangesOnly, RelationNames;
    var empty := Table(map[], p, map[], map[]);
    var start := PutTable(db, t, empty);
    AddColumnsOnly(pg, start, t, columns);
    var wide := ExecAddColumns(pg, start, t, columns).value;
    AddConstraintsOnly(pg, wide, t, constraints);
    var after := ExecAddConstraints(pg, wide, t, constraints).value;
    PutTwice(db, t, empty, wide.tables[t]);
    PutTwice(db, t, wide.tables[t], after.tables[t]);
    PutOnly(db, t, after.tables[t]);
  }

  lemma DropTableOnly(pg: Reader, db: Db, t: string)
    requires ExecDropTable(pg, db, t).Some?
    ensures ChangesOnly(db, ExecDropTable(pg, db, t).value, t)
  {
    hide Referenced, ReadRelation, SequenceUsed;
  }

  lemma DropColumnOnly(pg: Reader, db: Db, t: string, c: string)
    requires ExecDropColumn(pg, db, t, c).Some?
    ensures ChangesOnly(db, ExecDropColumn(pg, db, t, c).value, t)
  {
    hide ReadByView, WithoutColumn, FeedsColumn, HoldsColumn, SequenceUsed;
  }

  lemma CreateIndexOnly(pg: Reader, db: Db, i: string, t: string, text: string)
    requires ExecCreateIndex(pg, db, i, t, text).Some?
    ensures ChangesOnly(db, ExecCreateIndex(pg, db, i, t, text).value, t)
  {
    hide Signatures;
    assert i !in db.indexes;
  }

  lemma DropIndexOnly(pg: Reader, db: Db, qualifier: string, i: string)
    requires ExecDropIndex(pg, db, qualifier, i).Some?
    ensures i in db.indexes && ChangesOnly(db, ExecDropIndex(pg, db, qualifier, i).value, db.indexes[i].table)
  {
    hide Rested, QuoteIdent;
  }

  lemma IndexOnly(pg: Reader, home: string -> string, db: Db, st: Statement)
    requires (st.CreateIndex? || st.DropIndex?) && Exec(pg, db, st).Some? && AtHome(home, st) && AllAtHome(home, db)
    ensures ChangesOnly(db, Exec(pg, db, st).value, OwnerOf(home, st).name)
    ensures AllAtHome(home, Exec(pg, db, st).value)
  {
    hide ChangesOnly, RelationNames, Rested, Signatures, QuoteIdent;
    if st.CreateIndex? {
      CreateIndexOnly(pg, db, st.index, st.table, st.text);
    } else {
      DropIndexOnly(pg, db, st.qualifier, st.index);
    }
  }

  // A table statement that puts a changed table.
  predicate Puts(st: Statement) {
    st.AddColumn? || st.AlterColumn? || st.AddConstraint? || st.DropConstraint? || st.CreateTrigger? || st.DropTrigger?
  }

  lemma PutsOnly(pg: Reader, home: string -> string, db: Db, st: Statement)
    requires Puts(st) && Exec(pg, db, st).Some?
    ensures ChangesOnly(db, Exec(pg, db, st).value, OwnerOf(home, st).name)
    ensures Exec(pg, db, st).value.indexes == db.indexes
  {
    hide Available, OptionAvailable, ChangeColumn, RequireNotNull, ChangesOnly;
    var t := OwnerOf(home, st).name;
    var after := Exec(pg, db, st).value;
    assert t in after.tables && after == PutTable(db, t, after.tables[t]);
    PutOnly(db, t, after.tables[t]);
  }

  lemma TableStatementOnly(pg: Reader, home: string -> string, db: Db, st: Statement)
    requires OnTables(st) && Exec(pg, db, st).Some? && AtHome(home, st) && AllAtHome(home, db)
    ensures OwnerOf(home, st).TableNamed? && ChangesOnly(db, Exec(pg, db, st).value, OwnerOf(home, st).name)
  {
    hide ExecCreateTable, ExecDropTable, ExecDropColumn, ChangesOnly, AllAtHome;
    if Puts(st) {
      PutsOnly(pg, home, db, st);
    } else if st.CreateIndex? || st.DropIndex? {
      IndexOnly(pg, home, db, st);
    } else {
      match st
      case CreateTable(t, columns, constraints, p) => CreateTableOnly(pg, db, t, columns, constraints, p);
      case DropTable(t) => DropTableOnly(pg, db, t);
      case DropColumn(t, c) => DropColumnOnly(pg, db, t, c);
    }
  }

  // What a change to one table leaves alone.
  lemma OthersKeepShare(db: Db, after: Db, t: string, o: Owner)
    requires ChangesOnly(db, after, t) && o != TableNamed(t) && !o.SequenceNamed?
    ensures ShareOf(after, o) == ShareOf(db, o)
  {
    if o.TableNamed? {
      var n := o.name;
      var kept, was := after.indexes - Elsewhere(after.indexes, n), db.indexes - Elsewhere(db.indexes, n);
      assert kept.Keys == was.Keys;
      assert kept == was;
    }
  }

  lemma SequenceUntouched(pg: Reader, db: Db, st: Statement, q: string)
    requires OnTables(st) && Exec(pg, db, st).Some? && !TakesAlong(pg, st, q)
    ensures Held(Exec(pg, db, st).value.sequences, q) == Held(db.sequences, q)
  {
    hide ExecCreateTable, ExecAddColumn, ExecAddConstraint, ChangeColumn, RelationNames, Referenced, ReadRelation,
      SequenceUsed, FeedsColumn, HoldsColumn, ReadByView, Rested;
    if !ChangesSequences(st) {
      OthersKeepSequences(pg, db, st);
    }
  }

  // The statement is about a routine that PostgreSQL takes for this one, though the key is another.
  predicate Shadows(pg: Reader, st: Statement, key: string) {
    (st.CreateRoutine? || st.DropRoutine?) && st.key != key && pg.signature(st.key) == pg.signature(key)
  }

  // The statement reaches beyond the object it is about.
  predicate Reaches(pg: Reader, st: Statement, o: Owner) {
    (o.SequenceNamed? && TakesAlong(pg, st, o.name)) || (o.RoutineKeyed? && Shadows(pg, st, o.key))
  }

  // A statement on another kind of object changes that object and nothing else.
  lemma OtherKindOnly(pg: Reader, home: string -> string, db: Db, st: Statement, o: Owner)
    requires !OnTables(st) && Exec(pg, db, st).Some?
    ensures Exec(pg, db, st).value.tables == db.tables && Exec(pg, db, st).value.indexes == db.indexes
    ensures o != OwnerOf(home, st) && !Reaches(pg, st, o) ==> ShareOf(Exec(pg, db, st).value, o) == ShareOf(db, o)
  {
    hide ShareOf;
    if st.CreateSequence? || st.AlterSequence? || st.DropSequence? {
      SequencesOnly(pg, home, db, st, o);
    } else if st.CreateView? || st.DropView? {
      ViewsOnly(pg, home, db, st, o);
    } else {
      RoutinesOnly(pg, home, db, st, o);
    }
  }

  lemma SequencesOnly(pg: Reader, home: string -> string, db: Db, st: Statement, o: Owner)
    requires (st.CreateSequence? || st.AlterSequence? || st.DropSequence?) && Exec(pg, db, st).Some?
    ensures Exec(pg, db, st).value.tables == db.tables && Exec(pg, db, st).value.indexes == db.indexes
    ensures o != OwnerOf(home, st) ==> ShareOf(Exec(pg, db, st).value, o) == ShareOf(db, o)
  {
    hide RelationNames, SequenceUsed;
  }

  lemma ViewsOnly(pg: Reader, home: string -> string, db: Db, st: Statement, o: Owner)
    requires (st.CreateView? || st.DropView?) && Exec(pg, db, st).Some?
    ensures Exec(pg, db, st).value.tables == db.tables && Exec(pg, db, st).value.indexes == db.indexes
    ensures o != OwnerOf(home, st) ==> ShareOf(Exec(pg, db, st).value, o) == ShareOf(db, o)
  {
    hide RelationNames, ReadRelation, RowsTaken, Readable;
  }

  lemma RoutinesOnly(pg: Reader, home: string -> string, db: Db, st: Statement, o: Owner)
    requires (st.CreateRoutine? || st.DropRoutine?) && Exec(pg, db, st).Some?
    ensures Exec(pg, db, st).value.tables == db.tables && Exec(pg, db, st).value.indexes == db.indexes
    ensures o != OwnerOf(home, st) && !Reaches(pg, st, o) ==> ShareOf(Exec(pg, db, st).value, o) == ShareOf(db, o)
  {
    hide RoutineUsed, RoutineCalled, Signatures, Alike, Exec;
    if st.CreateRoutine? {
      hide ExecCreateRoutine;
      RoutineCreated(pg, db, st);
    } else {
      hide ExecDropRoutine;
      RoutineDropped(pg, db, st);
    }
    forall k | o == RoutineKeyed(k) && o != OwnerOf(home, st) && !Reaches(pg, st, o)
      ensures k != st.key && k !in Alike(pg, db.routines, st.key)
    {
      NotAlike(pg, db, st, k);
    }
  }

  lemma NotAlike(pg: Reader, db: Db, st: Statement, k: string)
    requires (st.CreateRoutine? || st.DropRoutine?) && k != st.key && !Shadows(pg, st, k)
    ensures k !in Alike(pg, db.routines, st.key)
  {
  }

  lemma RoutineCreated(pg: Reader, db: Db, st: Statement)
    requires st.CreateRoutine? && Exec(pg, db, st).Some?
    ensures var after := Exec(pg, db, st).value;
      after == db.(routines := after.routines) && st.key in after.routines &&
      after.routines == (db.routines - Alike(pg, db.routines, st.key))[st.key := after.routines[st.key]]
  {
    hide Alike;
  }

  lemma RoutineDropped(pg: Reader, db: Db, st: Statement)
    requires st.DropRoutine? && Exec(pg, db, st).Some?
    ensures Exec(pg, db, st).value == db.(routines := db.routines - Alike(pg, db.routines, st.key))
  {
    hide Alike, RoutineUsed, RoutineCalled;
  }

  // An accepted statement leaves the share of every other object as it was, but for the sequences of what it drops and
  // the routine it takes another for.
  lemma OthersUntouched(pg: Reader, home: string -> string, db: Db, st: Statement, o: Owner)
    requires Exec(pg, db, st).Some? && AtHome(home, st) && AllAtHome(home, db) && o != OwnerOf(home, st)
    requires !Reaches(pg, st, o)
    ensures ShareOf(Exec(pg, db, st).value, o) == ShareOf(db, o)
  {
    hide Exec, ChangesOnly, AllAtHome, TakesAlong, Shadows;
    if !OnTables(st) {
      OtherKindOnly(pg, home, db, st, o);
    } else if o.SequenceNamed? {
      SequenceUntouched(pg, db, st, o.name);
    } else {
      TableStatementOnly(pg, home, db, st);
      OthersKeepShare(db, Exec(pg, db, st).value, OwnerOf(home, st).name, o);
    }
  }

  lemma StaysAtHome(pg: Reader, home: string -> string, db: Db, st: Statement)
    requires Exec(pg, db, st).Some? && AtHome(home, st) && AllAtHome(home, db)
    ensures AllAtHome(home, Exec(pg, db, st).value)
  {
    hide ExecCreateTable, ExecDropTable, ExecDropColumn;
    if st.CreateIndex? || st.DropIndex? {
      IndexOnly(pg, home, db, st);
    } else if Puts(st) {
      PutsOnly(pg, home, db, st);
    } else if !OnTables(st) {
      OtherKindOnly(pg, home, db, st, OwnerOf(home, st));
    } else {
      match st
      case CreateTable(t, columns, constraints, p) => CreateTableHome(pg, db, t, columns, constraints, p);
      case DropTable(t) => DropTableHome(pg, db, t);
      case DropColumn(t, c) => DropColumnHome(pg, db, t, c);
    }
  }

  lemma CreateTableHome(pg: Reader, db: Db, t: string, columns: seq<ColumnDefinition>,
                        constraints: seq<(string, Constraint)>,
                        p: Option<string>)
    requires ExecCreateTable(pg, db, t, columns, constraints, p).Some?
    ensures ExecCreateTable(pg, db, t, columns, constraints, p).value.indexes == db.indexes
  {
    hide ExecAddColumns, ExecAddConstraints, RelationNames;
    var start := PutTable(db, t, Table(map[], p, map[], map[]));
    AddColumnsOnly(pg, start, t, columns);
    AddConstraintsOnly(pg, ExecAddColumns(pg, start, t, columns).value, t, constraints);
  }

  lemma DropTableHome(pg: Reader, db: Db, t: string)
    requires ExecDropTable(pg, db, t).Some?
    ensures var after := ExecDropTable(pg, db, t).value;
      forall i <- after.indexes :: i in db.indexes && after.indexes[i] == db.indexes[i]
  {
    hide Referenced, ReadRelation, SequenceUsed;
  }

  lemma DropColumnHome(pg: Reader, db: Db, t: string, c: string)
    requires ExecDropColumn(pg, db, t, c).Some?
    ensures var after := ExecDropColumn(pg, db, t, c).value;
      forall i <- after.indexes :: i in db.indexes && after.indexes[i] == db.indexes[i]
  {
    hide ReadByView, WithoutColumn, FeedsColumn, HoldsColumn, SequenceUsed;
  }

  /* ---- The change depends on the object's own share ---- */

  lemma {:induction false} AddColumnsAlike(pg: Reader, a: Db, b: Db, t: string, columns: seq<ColumnDefinition>)
    requires t in a.tables && t in b.tables && a.tables[t] == b.tables[t]
    requires ExecAddColumns(pg, a, t, columns).Some? && ExecAddColumns(pg, b, t, columns).Some?
    ensures var x, y := ExecAddColumns(pg, a, t, columns).value, ExecAddColumns(pg, b, t, columns).value;
      t in x.tables && t in y.tables && x.tables[t] == y.tables[t]
  {
    hide Available, OptionAvailable;
    if columns != [] {
      AddColumnsAlike(pg, a, b, t, columns[..|columns| - 1]);
    }
  }

  lemma {:induction false} AddConstraintsAlike(pg: Reader, a: Db, b: Db, t: string,
                                               constraints: seq<(string, Constraint)>)
    requires t in a.tables && t in b.tables && a.tables[t] == b.tables[t]
    requires ExecAddConstraints(pg, a, t, constraints).Some? && ExecAddConstraints(pg, b, t, constraints).Some?
    ensures var x, y :=
      ExecAddConstraints(pg, a, t, constraints).value, ExecAddConstraints(pg, b, t, constraints).value;
      t in x.tables && t in y.tables && x.tables[t] == y.tables[t]
  {
    hide Available, RequireNotNull;
    if constraints != [] {
      AddConstraintsAlike(pg, a, b, t, constraints[..|constraints| - 1]);
    }
  }

  lemma CreateTableAlike(pg: Reader, a: Db, b: Db, t: string, columns: seq<ColumnDefinition>,
                         constraints: seq<(string, Constraint)>, p: Option<string>)
    requires ExecCreateTable(pg, a, t, columns, constraints, p).Some? &&
      ExecCreateTable(pg, b, t, columns, constraints, p).Some?
    ensures var x, y :=
      ExecCreateTable(pg, a, t, columns, constraints, p).value,
      ExecCreateTable(pg, b, t, columns, constraints, p).value;
      Held(x.tables, t) == Held(y.tables, t) && x.indexes == a.indexes && y.indexes == b.indexes
  {
    hide ExecAddColumns, ExecAddConstraints, RelationNames;
    var empty := Table(map[], p, map[], map[]);
    var c, d := PutTable(a, t, empty), PutTable(b, t, empty);
    AddColumnsAlike(pg, c, d, t, columns);
    AddConstraintsAlike(pg, ExecAddColumns(pg, c, t, columns).value, ExecAddColumns(pg, d, t, columns).value, t,
                        constraints);
    CreateTableHome(pg, a, t, columns, constraints, p);
    CreateTableHome(pg, b, t, columns, constraints, p);
  }

  lemma ChangeAlike(pg: Reader, a: Db, b: Db, t: string, c: Column, change: ColumnChange)
    requires t in a.tables && t in b.tables && ChangeColumn(pg, a, t, c, change).Some? &&
      ChangeColumn(pg, b, t, c, change).Some?
    ensures ChangeColumn(pg, a, t, c, change) == ChangeColumn(pg, b, t, c, change)
  {
    hide ReadByView, Available, InKey;
  }

  lemma AlterAlike(pg: Reader, a: Db, b: Db, t: string, name: string, change: ColumnChange)
    requires Exec(pg, a, AlterColumn(t, name, change)).Some? && Exec(pg, b, AlterColumn(t, name, change)).Some?
    requires Held(a.tables, t) == Held(b.tables, t)
    ensures var x, y :=
      Exec(pg, a, AlterColumn(t, name, change)).value, Exec(pg, b, AlterColumn(t, name, change)).value;
      Held(x.tables, t) == Held(y.tables, t) && x.indexes == a.indexes && y.indexes == b.indexes
  {
    hide ChangeColumn;
    ChangeAlike(pg, a, b, t, a.tables[t].columns[name], change);
  }

  lemma AddAlike(pg: Reader, a: Db, b: Db, t: string, d: ColumnDefinition)
    requires ExecAddColumn(pg, a, t, d).Some? && ExecAddColumn(pg, b, t, d).Some? &&
      Held(a.tables, t) == Held(b.tables, t)
    ensures var x, y := ExecAddColumn(pg, a, t, d).value, ExecAddColumn(pg, b, t, d).value;
      Held(x.tables, t) == Held(y.tables, t) && x.indexes == a.indexes && y.indexes == b.indexes
  {
    hide OptionAvailable;
  }

  lemma ConstrainAlike(pg: Reader, a: Db, b: Db, t: string, k: string, c: Constraint)
    requires ExecAddConstraint(pg, a, t, k, c).Some? && ExecAddConstraint(pg, b, t, k, c).Some?
    requires Held(a.tables, t) == Held(b.tables, t)
    ensures var x, y := ExecAddConstraint(pg, a, t, k, c).value, ExecAddConstraint(pg, b, t, k, c).value;
      Held(x.tables, t) == Held(y.tables, t) && x.indexes == a.indexes && y.indexes == b.indexes
  {
    hide Available, RequireNotNull, OtherNames;
  }

  lemma PutsAlike(pg: Reader, home: string -> string, a: Db, b: Db, st: Statement)
    requires Puts(st) && Exec(pg, a, st).Some? && Exec(pg, b, st).Some?
    requires ShareOf(a, OwnerOf(home, st)) == ShareOf(b, OwnerOf(home, st))
    ensures var x, y, t := Exec(pg, a, st).value, Exec(pg, b, st).value, OwnerOf(home, st).name;
      Held(x.tables, t) == Held(y.tables, t) && x.indexes == a.indexes && y.indexes == b.indexes
  {
    hide Exec;
    var t := OwnerOf(home, st).name;
    assert Held(a.tables, t) == Held(b.tables, t);
    if st.AlterColumn? {
      AlterAlike(pg, a, b, t, st.column, st.change);
    } else if st.AddColumn? {
      AddColumnIs(pg, a, t, st.definition);
      AddColumnIs(pg, b, t, st.definition);
      AddAlike(pg, a, b, t, st.definition);
    } else if st.AddConstraint? {
      AddConstraintIs(pg, a, t, st.name, st.constraint);
      AddConstraintIs(pg, b, t, st.name, st.constraint);
      ConstrainAlike(pg, a, b, t, st.name, st.constraint);
    } else {
      OtherPutsAlike(pg, a, b, t, st);
    }
  }

  lemma OtherPutsAlike(pg: Reader, a: Db, b: Db, t: string, st: Statement)
    requires Puts(st) && !st.AlterColumn? && !st.AddColumn? && !st.AddConstraint? && st.table == t
    requires Exec(pg, a, st).Some? && Exec(pg, b, st).Some? && Held(a.tables, t) == Held(b.tables, t)
    ensures var x, y := Exec(pg, a, st).value, Exec(pg, b, st).value;
      Held(x.tables, t) == Held(y.tables, t) && x.indexes == a.indexes && y.indexes == b.indexes
  {
    hide KeyNeeded, Signatures;
    assert t in a.tables && t in b.tables && a.tables[t] == b.tables[t];
  }

  lemma DropTableAlike(pg: Reader, a: Db, b: Db, t: string)
    requires ExecDropTable(pg, a, t).Some? && ExecDropTable(pg, b, t).Some?
    ensures ShareOf(ExecDropTable(pg, a, t).value, TableNamed(t)) ==
      ShareOf(ExecDropTable(pg, b, t).value, TableNamed(t))
  {
    hide Referenced, ReadRelation, SequenceUsed;
    NoneLeft(a.indexes - IndexesOn(a.indexes, t), t);
    NoneLeft(b.indexes - IndexesOn(b.indexes, t), t);
  }

  lemma NoneLeft(indexes: map<string, Index>, t: string)
    requires forall i <- indexes :: indexes[i].table != t
    ensures indexes - Elsewhere(indexes, t) == map[]
  {
  }

  lemma DropColumnAlike(pg: Reader, a: Db, b: Db, t: string, c: string)
    requires ExecDropColumn(pg, a, t, c).Some? && ExecDropColumn(pg, b, t, c).Some?
    requires ShareOf(a, TableNamed(t)) == ShareOf(b, TableNamed(t))
    ensures ShareOf(ExecDropColumn(pg, a, t, c).value, TableNamed(t)) ==
      ShareOf(ExecDropColumn(pg, b, t, c).value, TableNamed(t))
  {
    hide ReadByView, WithoutColumn, FeedsColumn, HoldsColumn, SequenceUsed;
    assert Held(a.tables, t) == Held(b.tables, t);
    IndexesLeft(pg, a.indexes, t, c);
    IndexesLeft(pg, b.indexes, t, c);
  }

  lemma IndexesLeft(pg: Reader, indexes: map<string, Index>, t: string, c: string)
    ensures var after := IndexesWithoutColumn(pg, indexes, t, c);
      after - Elsewhere(after, t) == IndexesWithoutColumn(pg, indexes - Elsewhere(indexes, t), t, c)
  {
    var after := IndexesWithoutColumn(pg, indexes, t, c);
    assert (after - Elsewhere(after, t)).Keys == IndexesWithoutColumn(pg, indexes - Elsewhere(indexes, t), t, c).Keys;
  }

  lemma CreateIndexShare(indexes: map<string, Index>, i: string, index: Index)
    ensures var after, t := indexes[i := index], index.table;
      after - Elsewhere(after, t) == (indexes - Elsewhere(indexes, t))[i := index]
  {
    var after, t := indexes[i := index], index.table;
    assert (after - Elsewhere(after, t)).Keys == (indexes - Elsewhere(indexes, t))[i := index].Keys;
  }

  lemma DropIndexShare(indexes: map<string, Index>, i: string, t: string)
    ensures (indexes - {i}) - Elsewhere(indexes - {i}, t) == (indexes - Elsewhere(indexes, t)) - {i}
  {
  }

  lemma IndexAlike(pg: Reader, home: string -> string, a: Db, b: Db, st: Statement)
    requires (st.CreateIndex? || st.DropIndex?) && Exec(pg, a, st).Some? && Exec(pg, b, st).Some?
    requires ShareOf(a, OwnerOf(home, st)) == ShareOf(b, OwnerOf(home, st))
    ensures ShareOf(Exec(pg, a, st).value, OwnerOf(home, st)) == ShareOf(Exec(pg, b, st).value, OwnerOf(home, st))
  {
    hide RelationNames;
    if st.CreateIndex? {
      CreateIndexShare(a.indexes, st.index, Index(st.table, st.text));
      CreateIndexShare(b.indexes, st.index, Index(st.table, st.text));
    } else {
      DropIndexShare(a.indexes, st.index, home(st.index));
      DropIndexShare(b.indexes, st.index, home(st.index));
    }
  }

  lemma OtherKindAlike(pg: Reader, home: string -> string, a: Db, b: Db, st: Statement)
    requires !OnTables(st) && Exec(pg, a, st).Some? && Exec(pg, b, st).Some?
    ensures ShareOf(Exec(pg, a, st).value, OwnerOf(home, st)) == ShareOf(Exec(pg, b, st).value, OwnerOf(home, st))
  {
    hide ShareOf;
    if st.CreateRoutine? || st.DropRoutine? {
      RoutinesAlike(pg, home, a, b, st);
    } else {
      RelationsAlike(pg, home, a, b, st);
    }
  }

  lemma RoutinesAlike(pg: Reader, home: string -> string, a: Db, b: Db, st: Statement)
    requires (st.CreateRoutine? || st.DropRoutine?) && Exec(pg, a, st).Some? && Exec(pg, b, st).Some?
    ensures ShareOf(Exec(pg, a, st).value, OwnerOf(home, st)) == ShareOf(Exec(pg, b, st).value, OwnerOf(home, st))
  {
    hide RoutineUsed, RoutineCalled, Signatures;
  }

  lemma RelationsAlike(pg: Reader, home: string -> string, a: Db, b: Db, st: Statement)
    requires !OnTables(st) && !st.CreateRoutine? && !st.DropRoutine? && Exec(pg, a, st).Some? && Exec(pg, b, st).Some?
    ensures ShareOf(Exec(pg, a, st).value, OwnerOf(home, st)) == ShareOf(Exec(pg, b, st).value, OwnerOf(home, st))
  {
    hide RelationNames, SequenceUsed, ReadRelation, RowsTaken, Readable;
  }

  // Where a statement is accepted in two schemas that agree on its object, they agree on it afterwards.
  lemma ChangedAlike(pg: Reader, home: string -> string, a: Db, b: Db, st: Statement)
    requires Exec(pg, a, st).Some? && Exec(pg, b, st).Some?
    requires ShareOf(a, OwnerOf(home, st)) == ShareOf(b, OwnerOf(home, st))
    ensures ShareOf(Exec(pg, a, st).value, OwnerOf(home, st)) == ShareOf(Exec(pg, b, st).value, OwnerOf(home, st))
  {
    hide ExecCreateTable, ExecDropTable, ExecDropColumn, ExecAddColumn, ExecAddConstraint, ChangeColumn, RelationNames,
      SequenceUsed, RoutineUsed, ReadRelation;
    if Puts(st) {
      PutsAlike(pg, home, a, b, st);
    } else if st.CreateIndex? || st.DropIndex? {
      IndexAlike(pg, home, a, b, st);
    } else if !OnTables(st) {
      OtherKindAlike(pg, home, a, b, st);
    } else {
      match st
      case CreateTable(t, columns, constraints, p) => CreateTableAlike(pg, a, b, t, columns, constraints, p);
      case DropTable(t) => DropTableAlike(pg, a, b, t);
      case DropColumn(t, c) => DropColumnAlike(pg, a, b, t, c);
    }
  }

  /* ---- Scripts ---- */

  // The share after a statement, from the share before it; any schema that accepts the statement tells.
  ghost predicate Accepts(pg: Reader, home: string -> string, share: Share, st: Statement, db: Db) {
    ShareOf(db, OwnerOf(home, st)) == share && Exec(pg, db, st).Some?
  }

  ghost function Effect(pg: Reader, home: string -> string, share: Share, st: Statement): Share {
    if exists db :: Accepts(pg, home, share, st, db) then
      var db :| Accepts(pg, home, share, st, db);
      ShareOf(Exec(pg, db, st).value, OwnerOf(home, st))
    else share
  }

  lemma EffectIs(pg: Reader, home: string -> string, db: Db, st: Statement)
    requires Exec(pg, db, st).Some?
    ensures ShareOf(Exec(pg, db, st).value, OwnerOf(home, st)) == Effect(pg, home, ShareOf(db, OwnerOf(home, st)), st)
  {
    hide Exec, ShareOf, OwnerOf;
    var share := ShareOf(db, OwnerOf(home, st));
    assert Accepts(pg, home, share, st, db);
    forall other | Accepts(pg, home, share, st, other)
      ensures ShareOf(Exec(pg, db, st).value, OwnerOf(home, st)) ==
        ShareOf(Exec(pg, other, st).value, OwnerOf(home, st))
    {
      ChangedAlike(pg, home, db, other, st);
    }
  }

  // An object's own statements.
  function OwnPart(home: string -> string, o: Owner): Statement -> seq<Statement> {
    (st: Statement) => if OwnerOf(home, st) == o then [st] else []
  }

  function Own(home: string -> string, o: Owner, script: seq<Statement>): seq<Statement> {
    Gather(script, OwnPart(home, o))
  }

  ghost function Effects(pg: Reader, home: string -> string, share: Share, script: seq<Statement>): Share {
    if script == [] then share
    else Effect(pg, home, Effects(pg, home, share, script[..|script| - 1]), script[|script| - 1])
  }

  ghost predicate ScriptAtHome(home: string -> string, script: seq<Statement>) {
    forall st <- script :: AtHome(home, st)
  }

  lemma EffectsLast(pg: Reader, home: string -> string, share: Share, script: seq<Statement>, st: Statement)
    ensures Effects(pg, home, share, script + [st]) == Effect(pg, home, Effects(pg, home, share, script), st)
  {
    assert (script + [st])[..|script|] == script;
  }

  // A successful run takes each object through its own statements, whatever happens around them.
  lemma {:induction false} RunByOwner(pg: Reader, home: string -> string, db: Db, script: seq<Statement>, o: Owner)
    requires Run(pg, db, script).Some? && ScriptAtHome(home, script) && AllAtHome(home, db)
    requires forall st <- script :: !Reaches(pg, st, o)
    ensures AllAtHome(home, Run(pg, db, script).value)
    ensures ShareOf(Run(pg, db, script).value, o) == Effects(pg, home, ShareOf(db, o), Own(home, o, script))
  {
    hide Exec, ShareOf, OwnerOf, Effect, AllAtHome, AtHome, Reaches;
    if script != [] {
      var n := |script| - 1;
      RunByOwner(pg, home, db, script[..n], o);
      var before := Run(pg, db, script[..n]).value;
      StaysAtHome(pg, home, before, script[n]);
      if OwnerOf(home, script[n]) == o {
        EffectIs(pg, home, before, script[n]);
        EffectsLast(pg, home, ShareOf(db, o), Own(home, o, script[..n]), script[n]);
      } else {
        OthersUntouched(pg, home, before, script[n], o);
        assert Own(home, o, script[..n]) + [] == Own(home, o, script[..n]);
      }
    }
  }

  // A sequence that goes with its column stays away.
  lemma {:induction false} TakenGone(pg: Reader, db: Db, script: seq<Statement>, q: string)
    requires Run(pg, db, script).Some? && forall st <- script :: !Creates(st, q)
    requires exists st <- script :: TakesAlong(pg, st, q)
    ensures q !in Run(pg, db, script).value.sequences
  {
    hide Exec, Creates, Spares;
    var n := |script| - 1;
    var before := Run(pg, db, script[..n]).value;
    if TakesAlong(pg, script[n], q) {
      DropsOwned(pg, before, script[n], q, pg.owner(q).value.0, pg.owner(q).value.1);
    } else {
      TakenGone(pg, db, script[..n], q);
      StillGone(pg, before, script[n], q);
    }
  }

  lemma OwnMember(home: string -> string, a: seq<Statement>, b: seq<Statement>, st: Statement)
    requires Own(home, OwnerOf(home, st), a) == Own(home, OwnerOf(home, st), b) && st in a
    ensures st in b
  {
    hide OwnerOf;
    var o := OwnerOf(home, st);
    GatherMember(a, OwnPart(home, o), st);
    GatherMember(b, OwnPart(home, o), st);
  }

  // A routine nobody creates stays away.
  lemma {:induction false} NeverThere(pg: Reader, db: Db, script: seq<Statement>, key: string)
    requires Run(pg, db, script).Some? && key !in db.routines
    requires forall st <- script :: !(st.CreateRoutine? && st.key == key)
    ensures key !in Run(pg, db, script).value.routines
  {
    hide Exec;
    if script != [] {
      var n := |script| - 1;
      NeverThere(pg, db, script[..n], key);
      NotThere(pg, Run(pg, db, script[..n]).value, script[n], key);
    }
  }

  lemma NotThere(pg: Reader, db: Db, st: Statement, key: string)
    requires key !in db.routines && !(st.CreateRoutine? && st.key == key) && Exec(pg, db, st).Some?
    ensures key !in Exec(pg, db, st).value.routines
  {
    if st.CreateRoutine? || st.DropRoutine? {
      hide RoutineUsed;
    } else {
      hide Exec;
      OthersKeepRoutines(pg, db, st);
    }
  }

  // The sequences a script drops along with their columns are none that it creates, and no routine of the schema or the
  // script is taken for another one of the script.
  ghost predicate Clear(pg: Reader, db: Db, script: seq<Statement>) {
    (forall q, st, other :: st in script && other in script && TakesAlong(pg, st, q) ==> !Creates(other, q)) &&
    (forall k, st, other :: st in script && other in script && Shadows(pg, st, k) ==>
       k !in db.routines && !(other.CreateRoutine? && other.key == k))
  }

  lemma ReachedAlike(pg: Reader, db: Db, a: seq<Statement>, b: seq<Statement>, o: Owner, st: Statement)
    requires Clear(pg, db, a) && st in a && st in b && Reaches(pg, st, o)
    requires forall other <- b :: other in a
    requires Run(pg, db, a).Some? && Run(pg, db, b).Some?
    ensures ShareOf(Run(pg, db, a).value, o) == ShareOf(Run(pg, db, b).value, o)
  {
    hide Run, TakesAlong, Creates, Shadows;
    if o.SequenceNamed? {
      TakenGone(pg, db, a, o.name);
      TakenGone(pg, db, b, o.name);
    } else {
      NeverThere(pg, db, a, o.key);
      NeverThere(pg, db, b, o.key);
    }
  }

  lemma ShareAlike(pg: Reader, home: string -> string, db: Db, a: seq<Statement>, b: seq<Statement>, o: Owner)
    requires AllAtHome(home, db) && ScriptAtHome(home, a) && ScriptAtHome(home, b) && Clear(pg, db, a)
    requires forall st <- a :: st in b
    requires forall st <- b :: st in a
    requires Own(home, o, a) == Own(home, o, b)
    requires Run(pg, db, a).Some? && Run(pg, db, b).Some?
    ensures ShareOf(Run(pg, db, a).value, o) == ShareOf(Run(pg, db, b).value, o)
  {
    hide Run, Own, Effects, AllAtHome, ScriptAtHome, Reaches, Clear, ShareOf;
    if st :| st in a && Reaches(pg, st, o) {
      ReachedAlike(pg, db, a, b, o, st);
    } else {
      RunByOwner(pg, home, db, a, o);
      RunByOwner(pg, home, db, b, o);
    }
  }

  // Two scripts that order each object's statements alike, and both succeed, leave the same schema.
  lemma SameOwnOrder(pg: Reader, home: string -> string, db: Db, a: seq<Statement>, b: seq<Statement>)
    requires AllAtHome(home, db) && ScriptAtHome(home, a) && ScriptAtHome(home, b) && Clear(pg, db, a)
    requires forall o :: Own(home, o, a) == Own(home, o, b)
    requires Run(pg, db, a).Some? && Run(pg, db, b).Some?
    ensures Run(pg, db, a) == Run(pg, db, b)
  {
    hide Run, ShareOf, Own, OwnerOf, AllAtHome, ScriptAtHome, Clear;
    forall st | st in a || st in b
      ensures st in a && st in b
    {
      var o := OwnerOf(home, st);
      assert Own(home, o, a) == Own(home, o, b);
      if st in a { OwnMember(home, a, b, st); }
      if st in b { OwnMember(home, b, a, st); }
    }
    forall o
      ensures ShareOf(Run(pg, db, a).value, o) == ShareOf(Run(pg, db, b).value, o)
    {
      ShareAlike(pg, home, db, a, b, o);
    }
    SameShares(Run(pg, db, a).value, Run(pg, db, b).value);
  }
}

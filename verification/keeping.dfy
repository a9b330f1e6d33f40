/** What a statement leaves as it is: tables and columns it does not drop, and the sequences it does not name. */
module Keeping {
  import opened Options
  import opened Snapshots
  import opened Statements
  import opened Database

  // The statement drops neither the table nor the column.
  predicate Spares(table: string, column: Option<string>, st: Statement) {
    st != DropTable(table) && (column.Some? ==> st != DropColumn(table, column.value))
  }

  // The table keeps its partition key and the column its generation expression.
  predicate Keeps(db: Db, after: Db, n: string, c: Option<string>)
    requires n in db.tables
  {
    n in after.tables && after.tables[n].partitionKey == db.tables[n].partitionKey &&
    (c.Some? && c.value in db.tables[n].columns ==>
       c.value in after.tables[n].columns &&
       after.tables[n].columns[c.value].generated == db.tables[n].columns[c.value].generated)
  }

  lemma DeclareColumnKeeps(pg: Reader, db: Db, t: string, d: ColumnDefinition, n: string, c: Option<string>)
    requires n in db.tables && ExecDeclareColumn(pg, db, t, d).Some?
    ensures Keeps(db, ExecDeclareColumn(pg, db, t, d).value, n, c)
  {
  }

  lemma AddColumnKeeps(pg: Reader, db: Db, t: string, d: ColumnDefinition, n: string, c: Option<string>)
    requires n in db.tables && ExecAddColumn(pg, db, t, d).Some?
    ensures Keeps(db, ExecAddColumn(pg, db, t, d).value, n, c)
  {
  }

  lemma AddConstraintKeeps(pg: Reader, db: Db, t: string, k: string, constraint: Constraint, n: string,
                           c: Option<string>)
    requires n in db.tables && ExecAddConstraint(pg, db, t, k, constraint).Some?
    ensures Keeps(db, ExecAddConstraint(pg, db, t, k, constraint).value, n, c)
  {
  }

  lemma {:induction false} AddColumnsKeep(pg: Reader, db: Db, t: string, columns: seq<ColumnDefinition>, n: string,
                                          c: Option<string>)
    requires n in db.tables && ExecAddColumns(pg, db, t, columns).Some?
    ensures Keeps(db, ExecAddColumns(pg, db, t, columns).value, n, c)
  {
    if columns != [] {
      var m := |columns| - 1;
      AddColumnsKeep(pg, db, t, columns[..m], n, c);
      DeclareColumnKeeps(pg, ExecAddColumns(pg, db, t, columns[..m]).value, t, columns[m], n, c);
    }
  }

  lemma {:induction false} AddConstraintsKeep(pg: Reader, db: Db, t: string, constraints: seq<(string, Constraint)>,
                                              n: string, c: Option<string>)
    requires n in db.tables && ExecAddConstraints(pg, db, t, constraints).Some?
    ensures Keeps(db, ExecAddConstraints(pg, db, t, constraints).value, n, c)
  {
    if constraints != [] {
      var m := |constraints| - 1;
      AddConstraintsKeep(pg, db, t, constraints[..m], n, c);
      AddConstraintKeeps(pg, ExecAddConstraints(pg, db, t, constraints[..m]).value, t, constraints[m].0,
                         constraints[m].1, n, c);
    }
  }

  lemma CreateTableKeeps(pg: Reader, db: Db, t: string, columns: seq<ColumnDefinition>,
                         constraints: seq<(string, Constraint)>,
                         p: Option<string>, n: string, c: Option<string>)
    requires n in db.tables && ExecCreateTable(pg, db, t, columns, constraints, p).Some?
    ensures Keeps(db, ExecCreateTable(pg, db, t, columns, constraints, p).value, n, c)
  {
    var start := PutTable(db, t, Table(map[], p, map[], map[]));
    AddColumnsKeep(pg, start, t, columns, n, c);
    AddConstraintsKeep(pg, ExecAddColumns(pg, start, t, columns).value, t, constraints, n, c);
  }

  lemma ChangeKeeps(pg: Reader, db: Db, t: string, c: Column, change: ColumnChange)
    requires t in db.tables && ChangeColumn(pg, db, t, c, change).Some?
    ensures ChangeColumn(pg, db, t, c, change).value.generated == c.generated
  {
    hide Retypes, Available, InKey;
  }

  lemma AlterColumnKeeps(pg: Reader, db: Db, t: string, name: string, change: ColumnChange, n: string,
                         c: Option<string>)
    requires n in db.tables && Exec(pg, db, AlterColumn(t, name, change)).Some?
    ensures Keeps(db, Exec(pg, db, AlterColumn(t, name, change)).value, n, c)
  {
    hide ChangeColumn;
    ChangeKeeps(pg, db, t, db.tables[t].columns[name], change);
  }

  lemma DropTableKeeps(pg: Reader, db: Db, t: string, n: string, c: Option<string>)
    requires n in db.tables && Spares(n, c, DropTable(t)) && ExecDropTable(pg, db, t).Some?
    ensures Keeps(db, ExecDropTable(pg, db, t).value, n, c)
  {
  }

  lemma DropColumnKeeps(pg: Reader, db: Db, t: string, name: string, n: string, c: Option<string>)
    requires n in db.tables && Spares(n, c, DropColumn(t, name)) && ExecDropColumn(pg, db, t, name).Some?
    ensures Keeps(db, ExecDropColumn(pg, db, t, name).value, n, c)
  {
  }

  predicate ChangesTables(st: Statement) {
    st.CreateTable? || st.AddColumn? || st.AlterColumn? || st.DropColumn? || st.AddConstraint? || st.DropConstraint? ||
    st.DropTable? || st.CreateTrigger? || st.DropTrigger?
  }

  lemma OthersKeepTables(pg: Reader, db: Db, st: Statement)
    requires !ChangesTables(st) && Exec(pg, db, st).Some?
    ensures Exec(pg, db, st).value.tables == db.tables
  {
    hide ExecCreateTable, ExecAddColumn, ExecAddConstraint, ExecDropTable, ExecDropColumn, ChangeColumn, RelationNames,
      SequenceUsed, RoutineUsed, ReadRelation;
  }

  lemma TriggersKeep(pg: Reader, db: Db, st: Statement, n: string, c: Option<string>)
    requires n in db.tables && (st.CreateTrigger? || st.DropTrigger? || st.DropConstraint?) && Exec(pg, db, st).Some?
    ensures Keeps(db, Exec(pg, db, st).value, n, c)
  {
    hide Rested, Grouped, Signatures, Keeps;
    var after := Exec(pg, db, st).value;
    assert after == PutTable(db, st.table, after.tables[st.table]);
    PutKeeps(db, st.table, after.tables[st.table], n, c);
  }

  lemma PutKeeps(db: Db, t: string, table: Table, n: string, c: Option<string>)
    requires n in db.tables && t in db.tables
    requires table.columns == db.tables[t].columns && table.partitionKey == db.tables[t].partitionKey
    ensures Keeps(db, PutTable(db, t, table), n, c)
  {
  }

  lemma ExecKeeps(pg: Reader, db: Db, st: Statement, n: string, c: Option<string>)
    requires n in db.tables && Spares(n, c, st) && Exec(pg, db, st).Some?
    ensures Keeps(db, Exec(pg, db, st).value, n, c)
  {
    hide Exec, Spares, Keeps;
    if !ChangesTables(st) {
      OthersKeepTables(pg, db, st);
      SameKeeps(db, Exec(pg, db, st).value, n, c);
    } else if st.CreateTrigger? || st.DropTrigger? || st.DropConstraint? {
      TriggersKeep(pg, db, st, n, c);
    } else {
      hide ExecCreateTable, ExecAddColumn, ExecAddConstraint, ExecDropTable, ExecDropColumn;
      match st
      case CreateTable(t, columns, constraints, p) =>
        CreateTableIs(pg, db, t, columns, constraints, p);
        CreateTableKeeps(pg, db, t, columns, constraints, p, n, c);
      case AddColumn(t, d) =>
        AddColumnIs(pg, db, t, d);
        AddColumnKeeps(pg, db, t, d, n, c);
      case AddConstraint(t, k, constraint) =>
        AddConstraintIs(pg, db, t, k, constraint);
        AddConstraintKeeps(pg, db, t, k, constraint, n, c);
      case AlterColumn(t, name, change) =>
        AlterColumnKeeps(pg, db, t, name, change, n, c);
      case DropTable(t) =>
        DropsAre(pg, db, t, "");
        DropTableKeeps(pg, db, t, n, c);
      case DropColumn(t, name) =>
        DropsAre(pg, db, t, name);
        DropColumnKeeps(pg, db, t, name, n, c);
    }
  }

  lemma SameKeeps(db: Db, after: Db, n: string, c: Option<string>)
    requires n in db.tables && after.tables == db.tables
    ensures Keeps(db, after, n, c)
  {
  }

  lemma {:induction false} RunKeeps(pg: Reader, db: Db, script: seq<Statement>, n: string, c: Option<string>)
    requires n in db.tables && Run(pg, db, script).Some?
    requires forall st <- script :: Spares(n, c, st)
    ensures Keeps(db, Run(pg, db, script).value, n, c)
  {
    if script != [] {
      var m := |script| - 1;
      RunKeeps(pg, db, script[..m], n, c);
      ExecKeeps(pg, Run(pg, db, script[..m]).value, script[m], n, c);
    }
  }

  /* ---- Sequences ---- */

  predicate ChangesSequences(st: Statement) {
    st.CreateSequence? || st.AlterSequence? || st.DropSequence? || st.DropColumn? || st.DropTable?
  }

  lemma {:induction false} AddColumnsElsewhere(pg: Reader, db: Db, t: string, columns: seq<ColumnDefinition>)
    requires ExecAddColumns(pg, db, t, columns).Some?
    ensures ExecAddColumns(pg, db, t, columns).value.sequences == db.sequences
    ensures ExecAddColumns(pg, db, t, columns).value.routines == db.routines
  {
    if columns != [] {
      AddColumnsElsewhere(pg, db, t, columns[..|columns| - 1]);
    }
  }

  lemma {:induction false} AddConstraintsElsewhere(pg: Reader, db: Db, t: string,
                                                   constraints: seq<(string, Constraint)>)
    requires ExecAddConstraints(pg, db, t, constraints).Some?
    ensures ExecAddConstraints(pg, db, t, constraints).value.sequences == db.sequences
    ensures ExecAddConstraints(pg, db, t, constraints).value.routines == db.routines
  {
    if constraints != [] {
      AddConstraintsElsewhere(pg, db, t, constraints[..|constraints| - 1]);
    }
  }

  lemma CreateTableElsewhere(pg: Reader, db: Db, t: string, columns: seq<ColumnDefinition>,
                             constraints: seq<(string, Constraint)>, p: Option<string>)
    requires ExecCreateTable(pg, db, t, columns, constraints, p).Some?
    ensures ExecCreateTable(pg, db, t, columns, constraints, p).value.sequences == db.sequences
    ensures ExecCreateTable(pg, db, t, columns, constraints, p).value.routines == db.routines
  {
    var start := PutTable(db, t, Table(map[], p, map[], map[]));
    AddColumnsElsewhere(pg, start, t, columns);
    AddConstraintsElsewhere(pg, ExecAddColumns(pg, start, t, columns).value, t, constraints);
  }

  lemma OthersKeepSequences(pg: Reader, db: Db, st: Statement)
    requires !ChangesSequences(st) && Exec(pg, db, st).Some?
    ensures Exec(pg, db, st).value.sequences == db.sequences
  {
    hide ExecCreateTable, ChangeColumn, RelationNames, SequenceUsed, RoutineUsed, ReadRelation;
    if st.CreateTable? {
      CreateTableElsewhere(pg, db, st.table, st.columns, st.constraints, st.partitionKey);
    }
  }

  predicate Creates(st: Statement, q: string) { st.CreateSequence? && st.sequence == q }

  // The statement drops the column, or the table, that the sequence belongs to.
  predicate TakesAlong(pg: Reader, st: Statement, q: string) {
    pg.owner(q).Some? && !Spares(pg.owner(q).value.0, Some(pg.owner(q).value.1), st)
  }

  lemma DropsOwned(pg: Reader, db: Db, st: Statement, q: string, t: string, c: string)
    requires pg.owner(q) == Some((t, c)) && !Spares(t, Some(c), st) && Exec(pg, db, st).Some?
    ensures q !in Exec(pg, db, st).value.sequences
  {
    hide Referenced, ReadRelation, SequenceUsed, FeedsColumn, HoldsColumn, ReadByView;
  }

  lemma StillGone(pg: Reader, db: Db, st: Statement, q: string)
    requires q !in db.sequences && !Creates(st, q) && Exec(pg, db, st).Some?
    ensures q !in Exec(pg, db, st).value.sequences
  {
    hide ExecCreateTable, ExecAddColumn, ExecAddConstraint, ChangeColumn, RelationNames, SequenceUsed, RoutineUsed,
      ReadRelation, Referenced, FeedsColumn, HoldsColumn, ReadByView;
    if !ChangesSequences(st) {
      OthersKeepSequences(pg, db, st);
    }
  }

  /* ---- Routines ---- */

  lemma OthersKeepRoutines(pg: Reader, db: Db, st: Statement)
    requires !st.CreateRoutine? && !st.DropRoutine? && Exec(pg, db, st).Some?
    ensures Exec(pg, db, st).value.routines == db.routines
  {
    hide ExecCreateTable, ChangeColumn, RelationNames, SequenceUsed, ReadRelation, FeedsColumn, HoldsColumn, ReadByView,
      Rested, Referenced;
    if st.CreateTable? {
      CreateTableElsewhere(pg, db, st.table, st.columns, st.constraints, st.partitionKey);
    }
  }
}

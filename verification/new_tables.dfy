/** `CREATE TABLE` of a table only the source has. */
module NewTables {
  import opened Options
  import opened Gathering
  import opened Names
  import opened Snapshots
  import opened Statements
  import opened Diff
  import opened Database
  import opened Applies
  import opened Stages
  import opened ScriptOrder
  import opened PhaseLists
  import opened TableLists
  import opened ColumnPhases
  import opened ForeignKeyPhases
  import opened AlteredTables
  import opened KeptTables

  function Bare(partitionKey: Option<string>, columns: map<string, Column>,
                constraints: map<string, Constraint>): Table {
    Table(columns, partitionKey, constraints, map[])
  }

  ghost predicate ColumnsNew(pg: Reader, db: Db, columns: seq<Column>) {
    forall c <- columns :: NewColumnApplies(pg, db, c)
  }

  lemma DeclareOne(pg: Reader, db: Db, n: string, p: Option<string>, columns: map<string, Column>, c: Column)
    requires c.name !in columns && ColumnReady(pg, db, c)
    ensures ExecDeclareColumn(pg, PutTable(db, n, Bare(p, columns, map[])), n, DefinitionOf(c)) ==
            Outcome(NewColumnApplies(pg, db, c), PutTable(db, n, Bare(p, columns[c.name := c], map[])))
  {
    assert DeclaredColumn(DefinitionOf(c)) == c;
    PutTwice(db, n, Bare(p, columns, map[]), Bare(p, columns[c.name := c], map[]));
  }

  lemma AddColumnsThen(pg: Reader, db: Db, n: string, front: seq<ColumnDefinition>, last: ColumnDefinition,
                       p: bool, mid: Db, q: bool, end: Db)
    requires ExecAddColumns(pg, db, n, front) == Outcome(p, mid) &&
      ExecDeclareColumn(pg, mid, n, last) == Outcome(q, end)
    ensures ExecAddColumns(pg, db, n, front + [last]) == Outcome(p && q, end)
  {
    assert (front + [last])[..|front|] == front;
  }

  lemma AddConstraintsThen(pg: Reader, db: Db, n: string, front: seq<(string, Constraint)>, last: (string, Constraint),
                           p: bool, mid: Db, q: bool, end: Db)
    requires ExecAddConstraints(pg, db, n, front) == Outcome(p, mid)
    requires ExecAddConstraint(pg, mid, n, last.0, last.1) == Outcome(q, end)
    ensures ExecAddConstraints(pg, db, n, front + [last]) == Outcome(p && q, end)
  {
    assert (front + [last])[..|front|] == front;
  }

  lemma DeclareNextColumn(pg: Reader, db: Db, n: string, p: Option<string>, columns: seq<Column>, c: Column,
                          before: map<string, Column>)
    requires c.name !in before && ColumnReady(pg, db, c)
    requires ExecAddColumns(pg, PutTable(db, n, Bare(p, map[], map[])), n, Gather(columns, DefinitionPart())) ==
             Outcome(ColumnsNew(pg, db, columns), PutTable(db, n, Bare(p, before, map[])))
    ensures ExecAddColumns(pg, PutTable(db, n, Bare(p, map[], map[])), n,
                           Gather(columns, DefinitionPart()) + [DefinitionOf(c)]) ==
            Outcome(ColumnsNew(pg, db, columns + [c]), PutTable(db, n, Bare(p, before[c.name := c], map[])))
  {
    hide ExecAddColumns, ExecDeclareColumn, Gather, PutTable, ColumnReady, NewColumnApplies;
    DeclareOne(pg, db, n, p, before, c);
    AddColumnsThen(pg, PutTable(db, n, Bare(p, map[], map[])), n, Gather(columns, DefinitionPart()), DefinitionOf(c),
                   ColumnsNew(pg, db, columns), PutTable(db, n, Bare(p, before, map[])),
                   NewColumnApplies(pg, db, c), PutTable(db, n, Bare(p, before[c.name := c], map[])));
    assert ColumnsNew(pg, db, columns + [c]) == (ColumnsNew(pg, db, columns) && NewColumnApplies(pg, db, c));
  }

  lemma DeclareNone(pg: Reader, db: Db, n: string, p: Option<string>)
    ensures ExecAddColumns(pg, PutTable(db, n, Bare(p, map[], map[])), n, Gather([], DefinitionPart())) ==
            Outcome(ColumnsNew(pg, db, []), PutTable(db, n, Bare(p, ColumnMap([]), map[])))
  {
    assert ColumnMap([]) == map[];
  }

  lemma FrontAndLast(columns: seq<Column>)
    requires columns != [] && DistinctColumns(columns)
    ensures var front, last := columns[..|columns| - 1], columns[|columns| - 1];
      DistinctColumns(front) && ColumnMap(columns) == ColumnMap(front)[last.name := last] &&
      Gather(columns, DefinitionPart()) == Gather(front, DefinitionPart()) + [DefinitionOf(last)]
  {
  }

  lemma {:induction false} DeclareColumns(pg: Reader, db: Db, n: string, p: Option<string>, columns: seq<Column>)
    requires DistinctColumns(columns) && forall c <- columns :: ColumnReady(pg, db, c)
    ensures ExecAddColumns(pg, PutTable(db, n, Bare(p, map[], map[])), n, Gather(columns, DefinitionPart())) ==
            Outcome(ColumnsNew(pg, db, columns), PutTable(db, n, Bare(p, ColumnMap(columns), map[])))
  {
    hide ExecAddColumns, ExecDeclareColumn, PutTable, ColumnReady, NewColumnApplies, DistinctColumns, ColumnsNew,
      Gather, ColumnMap;
    if columns == [] {
      DeclareNone(pg, db, n, p);
      assert columns == [];
    } else {
      var m := |columns| - 1;
      FrontAndLast(columns);
      DeclareColumns(pg, db, n, p, columns[..m]);
      NotYet(columns, m);
      DeclareNextColumn(pg, db, n, p, columns[..m], columns[m], ColumnMap(columns[..m]));
      assert columns == columns[..m] + [columns[m]];
    }
  }

  function InlineSoFar(f: map<string, Constraint>, names: seq<string>): map<string, Constraint> {
    f - set k | k in f && (k !in names || IsForeign(f[k]))
  }

  // The names taken for a constraint of the new table.
  function Taken(db: Db, n: string): set<string> {
    OtherNames(PutTable(db, n, Bare(None, map[], map[])), n)
  }

  ghost predicate DeclareOk(pg: Reader, db: Db, n: string, k: string, c: Constraint) {
    pg.routines(c.definition) <= Signatures(pg, db.routines) && (IsBacked(c) ==> k !in Taken(db, n))
  }

  ghost predicate InlineOk(pg: Reader, db: Db, n: string, f: map<string, Constraint>, names: seq<string>) {
    forall k <- names :: k in f && !IsForeign(f[k]) ==> DeclareOk(pg, db, n, k, f[k])
  }

  lemma TakenSame(db: Db, n: string, table: Table)
    ensures OtherNames(PutTable(db, n, table), n) == Taken(db, n)
  {
    PutTwice(db, n, Bare(None, map[], map[]), table);
    OthersSame(PutTable(db, n, Bare(None, map[], map[])), n, table);
  }

  lemma DeclareConstraint(pg: Reader, db: Db, n: string, p: Option<string>, columns: map<string, Column>,
                          constraints: map<string, Constraint>, k: string, c: Constraint)
    requires k !in constraints && !IsForeign(c) && ConstraintReady(pg, db, columns, c)
    requires IsKey(c) ==> NoKey(constraints)
    ensures ExecAddConstraint(pg, PutTable(db, n, Bare(p, columns, constraints)), n, k, c) ==
            Outcome(DeclareOk(pg, db, n, k, c), PutTable(db, n, Bare(p, columns, constraints[k := c])))
  {
    hide OtherNames, Taken;
    if IsKey(c) {
      NoneToRequire(pg, db, columns, c);
    }
    TakenSame(db, n, Bare(p, columns, constraints));
    PutTwice(db, n, Bare(p, columns, constraints), Bare(p, columns, constraints[k := c]));
  }

  lemma InlineStep(f: map<string, Constraint>, names: seq<string>, k: string)
    requires k in f && !IsForeign(f[k])
    ensures InlineSoFar(f, names + [k]) == InlineSoFar(f, names)[k := f[k]]
  {
  }

  lemma {:induction false} DeclareConstraints(pg: Reader, db: Db, n: string, p: Option<string>,
                                              columns: map<string, Column>,
                                              f: map<string, Constraint>, names: seq<string>)
    requires Ascending(names) && OneKey(f) && forall k <- f :: ConstraintReady(pg, db, columns, f[k])
    ensures ExecAddConstraints(pg, PutTable(db, n, Bare(p, columns, map[])), n,
                               Gather(names, InlineConstraintPart(f))) ==
            Outcome(InlineOk(pg, db, n, f, names), PutTable(db, n, Bare(p, columns, InlineSoFar(f, names))))
  {
    hide ExecAddConstraint, PutTable, ConstraintReady, OneKey, DeclareOk;
    if names == [] {
      assert InlineSoFar(f, []) == map[];
    } else {
      var m := |names| - 1;
      var k := names[m];
      DeclareConstraints(pg, db, n, p, columns, f, names[..m]);
      NewName(names, m);
      assert names == names[..m] + [k];
      DeclareNext(pg, db, n, p, columns, f, names[..m], k);
    }
  }

  lemma DeclareNext(pg: Reader, db: Db, n: string, p: Option<string>, columns: map<string, Column>,
                    f: map<string, Constraint>, names: seq<string>, k: string)
    requires k !in names && OneKey(f) && (k in f ==> ConstraintReady(pg, db, columns, f[k]))
    requires var start := PutTable(db, n, Bare(p, columns, map[]));
      ExecAddConstraints(pg, start, n, Gather(names, InlineConstraintPart(f))) ==
      Outcome(InlineOk(pg, db, n, f, names), PutTable(db, n, Bare(p, columns, InlineSoFar(f, names))))
    ensures var start := PutTable(db, n, Bare(p, columns, map[]));
      ExecAddConstraints(pg, start, n, Gather(names, InlineConstraintPart(f)) + InlineConstraintPart(f)(k)) ==
      Outcome(InlineOk(pg, db, n, f, names + [k]), PutTable(db, n, Bare(p, columns, InlineSoFar(f, names + [k]))))
  {
    hide ExecAddConstraints, ExecAddConstraint, PutTable, ConstraintReady, DeclareOk;
    var here := InlineSoFar(f, names);
    var front := Gather(names, InlineConstraintPart(f));
    if k in f && !IsForeign(f[k]) {
      InlineStep(f, names, k);
      DeclareConstraint(pg, db, n, p, columns, here, k, f[k]);
      AddConstraintsThen(pg, PutTable(db, n, Bare(p, columns, map[])), n, front, (k, f[k]),
                         InlineOk(pg, db, n, f, names), PutTable(db, n, Bare(p, columns, here)),
                         DeclareOk(pg, db, n, k, f[k]),
                         PutTable(db, n, Bare(p, columns, here[k := f[k]])));
    } else {
      assert InlineSoFar(f, names + [k]) == here;
      assert front + [] == front;
    }
  }

  // What the rest of the schema has to do with the new table: the names it takes are free, or not.
  ghost predicate NewPlaced(s: Db, d: Db, db: Db, n: string, f: map<string, Constraint>) {
    db.routines == d.routines && (n in RelationNames(db) <==> !FreeInTurn(s, d, n, n)) &&
    forall k <- f :: IsBacked(f[k]) ==> (k in Taken(db, n) <==> !FreeInTurn(s, d, n, k))
  }

  lemma InlineMeans(pg: Reader, s: Db, d: Db, db: Db, n: string, f: map<string, Constraint>, names: seq<string>)
    requires NewPlaced(s, d, db, n, f) && Lists(names, f.Keys)
    ensures InlineOk(pg, db, n, f, names) <==> NewConstraintsApply(pg, s, d, n, f, map[])
  {
    hide Taken, FreeInTurn, RelationNames;
  }

  lemma NewTableMeans(pg: Reader, s: Db, d: Db, db: Db, n: string, from: TableSnapshot, names: seq<string>)
    requires DistinctColumns(from.columns) && Lists(names, from.constraints.Keys) &&
      NewPlaced(s, d, db, n, from.constraints)
    ensures NewTableApplies(pg, s, d, n, TableOf(from)) <==>
            n !in RelationNames(db) && OptionComputable(pg, db.routines, from.partitionKey) &&
            ColumnsNew(pg, db, from.columns) && InlineOk(pg, db, n, from.constraints, names)
  {
    hide InlineOk, NewConstraintsApply, Taken, FreeInTurn, RelationNames, Computable;
    InlineMeans(pg, s, d, db, n, from.constraints, names);
    forall c | c in from.columns
      ensures c.name in ColumnMap(from.columns) && ColumnMap(from.columns)[c.name] == c
    {
      ColumnMapMember(from.columns, c);
    }
  }

  lemma CreateOutcome(pg: Reader, db: Db, n: string, columns: seq<ColumnDefinition>,
                      constraints: seq<(string, Constraint)>,
                      part: Option<string>, p: bool, mid: Db, q: bool, end: Db)
    requires ExecAddColumns(pg, PutTable(db, n, Bare(part, map[], map[])), n, columns) == Outcome(p, mid)
    requires ExecAddConstraints(pg, mid, n, constraints) == Outcome(q, end)
    requires n in mid.tables && Complete(pg, mid.tables[n].columns)
    requires part.Some? ==> pg.columns(part.value) <= mid.tables[n].columns.Keys
    ensures Run(pg, db, [CreateTable(n, columns, constraints, part)]) ==
            Outcome(n !in RelationNames(db) && OptionComputable(pg, db.routines, part) && p && q, end)
  {
    hide Run, Exec, ExecAddColumns, ExecAddConstraints, RelationNames, Complete, OptionComputable;
    CreateTableIs(pg, db, n, columns, constraints, part);
    RunShort(pg, db, [CreateTable(n, columns, constraints, part)]);
  }

  lemma WantedReady(pg: Reader, s: Db, db: Db, n: string, from: TableSnapshot)
    requires Described(s, n, from) && TableSound(pg, s, s.tables[n]) && s.sequences.Keys <= db.sequences.Keys
    ensures forall c <- from.columns :: ColumnReady(pg, db, c)
  {
    forall c | c in from.columns
      ensures ColumnReady(pg, db, c)
    {
      ColumnMapMember(from.columns, c);
      assert ColumnSound(pg, s, c);
    }
  }

  lemma CreatedTable(from: TableSnapshot, names: seq<string>)
    requires Lists(names, from.constraints.Keys)
    ensures Bare(from.partitionKey, ColumnMap(from.columns), InlineSoFar(from.constraints, names)) ==
      NewTable(6, TableOf(from))
  {
    assert InlineSoFar(from.constraints, names) == WithoutNewForeign(from.constraints, map[]);
  }

  lemma CreateReady(pg: Reader, s: Db, d: Db, db: Db, n: string, from: TableSnapshot)
    requires DistinctColumns(from.columns) && OneKey(from.constraints) && NewPlaced(s, d, db, n, from.constraints)
    requires Complete(pg, ColumnMap(from.columns))
    requires from.partitionKey.Some? ==> pg.columns(from.partitionKey.value) <= ColumnMap(from.columns).Keys
    requires forall c <- from.columns :: ColumnReady(pg, db, c)
    requires forall k <- from.constraints :: ConstraintReady(pg, db, ColumnMap(from.columns), from.constraints[k])
    ensures Run(pg, db, [CreateTableStatement(n, from)]) ==
            Outcome(NewTableApplies(pg, s, d, n, TableOf(from)), PutTable(db, n, NewTable(6, TableOf(from))))
  {
    hide ExecAddConstraints, ExecAddColumns, ConstraintReady, ColumnReady, Run, RelationNames, NewTable, InlineSoFar,
      InlineOk, ColumnsNew, NewTableApplies, Gather, ColumnMap, Complete, NewPlaced, OptionComputable;
    var names := Sorted(from.constraints.Keys);
    var columns, p := ColumnMap(from.columns), from.partitionKey;
    DeclareColumns(pg, db, n, p, from.columns);
    DeclareConstraints(pg, db, n, p, columns, from.constraints, names);
    CreateOutcome(pg, db, n, Gather(from.columns, DefinitionPart()),
                  Gather(names, InlineConstraintPart(from.constraints)), p,
                  ColumnsNew(pg, db, from.columns), PutTable(db, n, Bare(p, columns, map[])),
                  InlineOk(pg, db, n, from.constraints, names),
                  PutTable(db, n, Bare(p, columns, InlineSoFar(from.constraints, names))));
    CreatedTable(from, names);
    NewTableMeans(pg, s, d, db, n, from, names);
  }

  // The new table gets its columns and its own constraints; foreign keys, indexes and triggers come later.
  lemma CreateRun(pg: Reader, s: Db, d: Db, db: Db, n: string, from: TableSnapshot)
    requires Described(s, n, from) && TableSound(pg, s, s.tables[n])
    requires s.sequences.Keys <= db.sequences.Keys && NewPlaced(s, d, db, n, s.tables[n].constraints)
    ensures Run(pg, db, [CreateTableStatement(n, from)]) ==
            Outcome(NewTableApplies(pg, s, d, n, s.tables[n]), PutTable(db, n, NewTable(6, s.tables[n])))
  {
    hide NewPlaced, NewTableApplies, Run;
    WantedReady(pg, s, db, n, from);
    ConstraintsReady(pg, s, db, s.tables[n]);
    CreateReady(pg, s, d, db, n, from);
  }
}

/** A table both sides have, across the phase that changes its columns and constraints. */
module KeptTables {
  import opened Options
  import opened Gathering
  import opened Names
  import opened Snapshots
  import opened Statements
  import opened Diff
  import opened Database
  import opened Applies
  import opened Stages
  import opened ScriptOrder
  import opened PhaseLists
  import opened TableLists
  import opened ColumnPhases
  import opened ForeignKeyPhases
  import opened AlteredTables
  import opened AlteredConditions

  lemma ColumnMapMember(columns: seq<Column>, c: Column)
    requires DistinctColumns(columns) && c in columns
    ensures c.name in ColumnMap(columns) && ColumnMap(columns)[c.name] == c
  {
    var i :| 0 <= i < |columns| && columns[i] == c;
    ColumnMapAt(columns, i);
  }

  lemma KeyUnchanged(pg: Reader, f: map<string, Constraint>, t: map<string, Constraint>, column: string)
    ensures InKey(pg, WithoutChangedForeign(f, t), column) == InKey(pg, t, column)
  {
    var c2 := WithoutChangedForeign(f, t);
    forall k | k in t && IsKey(t[k])
      ensures k in c2 && c2[k] == t[k]
    {
    }
  }

  // The schema just before the table's columns change.
  ghost predicate BeforeTables(pg: Reader, s: Db, d: Db, db: Db, n: string)
    requires n in s.tables && n in d.tables
  {
    n in db.tables && db.tables[n] == KeptTable(5, s.tables[n], d.tables[n]) &&
    db.views == KeptViews(s, d) && db.routines == d.routines && s.sequences.Keys <= db.sequences.Keys &&
    IndexesMention(pg, db, n, s.tables[n].columns.Keys) && Placed(pg, s, d, db, n, s.tables[n].constraints) &&
    OwnersIn(pg, db, n, s.tables[n].columns.Keys) && TypesAround(pg, s, d, db, n)
  }

  // The types a retyped column finds around it.
  ghost predicate TypesAround(pg: Reader, s: Db, d: Db, db: Db, n: string)
    requires n in d.tables && n in db.tables
  {
    forall columns :: TypesSound(pg, db.tables[n := db.tables[n].(columns := columns)], db.indexes, n) ==
                      TypesSound(pg, TablesInTurn(s, d, n, columns), KeptIndexes(s, d), n)
  }

  // Sequences of the table belong to one of these columns.
  ghost predicate OwnersIn(pg: Reader, db: Db, n: string, columns: set<string>) {
    forall q <- db.sequences :: pg.owner(q).Some? && pg.owner(q).value.0 == n ==> pg.owner(q).value.1 in columns
  }

  ghost predicate Described(s: Db, n: string, from: TableSnapshot) {
    n in s.tables && s.tables[n] == TableOf(from) && DistinctColumns(from.columns)
  }

  lemma ColumnsReady(pg: Reader, s: Db, d: Db, db: Db, n: string, from: TableSnapshot)
    requires Described(s, n, from) && n in d.tables && BeforeTables(pg, s, d, db, n)
    requires TableSound(pg, s, s.tables[n]) && TableSound(pg, d, d.tables[n])
    requires Expressible(s.tables[n], d.tables[n])
    ensures forall c <- from.columns :: ColumnReady(pg, db, c) && Matches(d.tables[n].columns, c)
  {
    forall c | c in from.columns
      ensures ColumnReady(pg, db, c) && Matches(d.tables[n].columns, c)
    {
      ColumnMapMember(from.columns, c);
      assert ColumnSound(pg, s, c);
      if c.name in d.tables[n].columns {
        assert ColumnSound(pg, d, d.tables[n].columns[c.name]);
      }
    }
  }

  ghost predicate WantedColumnsApply(pg: Reader, s: Db, d: Db, n: string, wanted: seq<Column>)
    requires n in s.tables && n in d.tables
  {
    forall i: nat :: i < |wanted| ==> WantedColumnApplies(pg, s, d, n, wanted, i)
  }

  ghost predicate UnwantedColumnsApply(pg: Reader, s: Db, d: Db, n: string, present: seq<Column>)
    requires n in s.tables && n in d.tables
  {
    forall i: nat :: i < |present| ==> UnwantedColumnApplies(pg, s, d, n, present, i)
  }

  lemma RetypesMeans(pg: Reader, s: Db, d: Db, db: Db, n: string, here: map<string, Column>, c: Column,
                     existing: Column)
    requires n in s.tables && n in d.tables && BeforeTables(pg, s, d, db, n) && existing.name == c.name
    ensures Retypes(pg, WithColumns(db, n, here), n, existing, c.dataType) ==
            (TypeApplies(pg, s, d, n, c, existing) && TypeFits(pg, s, d, n, c, existing, here))
  {
    hide ReadByView, HoldsColumn, FeedsColumn, Placed, IndexesMention, OwnersIn, TypesSound, TablesInTurn;
    var retyped := existing.(dataType := c.dataType);
    assert WithColumnIn(WithColumns(db, n, here).tables, n, retyped) ==
           db.tables[n := db.tables[n].(columns := here[c.name := retyped])];
  }

  // One wanted column, at its turn.
  lemma ColumnOkMeans(pg: Reader, s: Db, d: Db, db: Db, n: string, wanted: seq<Column>, i: nat)
    requires n in s.tables && n in d.tables && BeforeTables(pg, s, d, db, n) && i < |wanted|
    requires Matches(d.tables[n].columns, wanted[i])
    ensures var t := d.tables[n].columns;
      ColumnOk(pg, WithColumns(db, n, ColumnsSoFar(t, wanted, i)), n, t, wanted[i]) ==
        WantedColumnApplies(pg, s, d, n, wanted, i)
  {
    hide Retypes, TypeApplies, TypeFits, InKey, Placed, IndexesMention, OwnersIn, TypesAround, ColumnsSoFar;
    var c, t := wanted[i], d.tables[n].columns;
    KeyUnchanged(pg, s.tables[n].constraints, d.tables[n].constraints, c.name);
    if c.name in t {
      RetypesMeans(pg, s, d, db, n, ColumnsSoFar(t, wanted, i), c, t[c.name]);
    }
  }

  lemma WantedColumnsMean(pg: Reader, s: Db, d: Db, db: Db, n: string, from: TableSnapshot)
    requires Described(s, n, from) && n in d.tables && BeforeTables(pg, s, d, db, n)
    requires forall c <- from.columns :: Matches(d.tables[n].columns, c)
    ensures AllColumnsOk(pg, db, n, d.tables[n].columns, from.columns) <==>
      WantedColumnsApply(pg, s, d, n, from.columns)
  {
    hide WantedColumnApplies, ColumnOk, ColumnsSoFar, Placed, OwnersIn, IndexesMention, TypesAround;
    var t := d.tables[n].columns;
    forall i: nat | i < |from.columns|
      ensures ColumnOk(pg, WithColumns(db, n, ColumnsSoFar(t, from.columns, i)), n, t, from.columns[i]) ==
              WantedColumnApplies(pg, s, d, n, from.columns, i)
    {
      ColumnOkMeans(pg, s, d, db, n, from.columns, i);
    }
  }

  lemma UnwantedColumnsMean(pg: Reader, s: Db, d: Db, db: Db, n: string, to: TableSnapshot)
    requires n in s.tables && n in d.tables && n in db.tables && db.views == KeptViews(s, d)
    requires db.tables[n].columns == d.tables[n].columns + s.tables[n].columns
    ensures AllDropsOk(pg, db, n, s.tables[n].columns, to.columns) <==> UnwantedColumnsApply(pg, s, d, n, to.columns)
  {
    hide ReadByView, FeedsColumn, DroppedNames;
    var f := s.tables[n].columns;
    forall i: nat | i < |to.columns|
      ensures (to.columns[i].name !in f ==>
        DropOneOk(pg, db, n, DroppedNames(to.columns[..i], f), to.columns[i].name)) ==
              UnwantedColumnApplies(pg, s, d, n, to.columns, i)
    {
    }
  }

  function Left(pg: Reader, s: Db, d: Db, n: string): map<string, Constraint>
    requires n in s.tables && n in d.tables
  {
    Unmentioning(pg, WithoutChangedForeign(s.tables[n].constraints, d.tables[n].constraints),
                 d.tables[n].columns.Keys - s.tables[n].columns.Keys)
  }

  lemma LeftMeans(pg: Reader, s: Db, d: Db, n: string)
    requires n in s.tables && n in d.tables
    requires TableSound(pg, s, s.tables[n]) && TableSound(pg, d, d.tables[n])
    ensures var f, t := s.tables[n].constraints, d.tables[n].constraints;
      Remaining(Left(pg, s, d, n), f, t) &&
      (StillThere(Left(pg, s, d, n), f, t) && NoneNeeded(pg, s, d, n, f, t) <==> DroppedConstraintsApply(pg, s, d, n))
  {
    hide RestedThroughout, Grouped;
    var f, t := s.tables[n].constraints, d.tables[n].constraints;
    forall k | k in f && Same(f, t, k)
      ensures k in Left(pg, s, d, n)
    {
      assert ConstraintSound(pg, s, s.tables[n].columns, f[k]);
    }
    forall k | k in t && !IsForeign(t[k])
      ensures k in Left(pg, s, d, n) <==> pg.columns(t[k].definition) <= s.tables[n].columns.Keys
    {
      assert ConstraintSound(pg, d, d.tables[n].columns, t[k]);
    }
  }

  lemma ConstraintsReady(pg: Reader, s: Db, db: Db, t: Table)
    requires TableSound(pg, s, t) && s.sequences.Keys <= db.sequences.Keys
    ensures forall k <- t.constraints :: ConstraintReady(pg, db, t.columns, t.constraints[k])
  {
    forall k | k in t.constraints
      ensures ConstraintReady(pg, db, t.columns, t.constraints[k])
    {
      assert ConstraintSound(pg, s, t.columns, t.constraints[k]);
    }
  }

  // The table with the wanted columns, before its constraints change.
  function Reshaped(pg: Reader, s: Db, d: Db, db: Db, n: string): Db
    requires n in s.tables && n in d.tables && n in db.tables
  {
    PutTable(db, n, db.tables[n].(columns := s.tables[n].columns, constraints := Left(pg, s, d, n)))
  }

  lemma ColumnsReshape(pg: Reader, s: Db, d: Db, db: Db, n: string, from: TableSnapshot, to: TableSnapshot)
    requires Described(s, n, from) && Described(d, n, to) && BeforeTables(pg, s, d, db, n)
    ensures var wide := WithColumns(db, n, d.tables[n].columns + s.tables[n].columns);
      WithoutColumns(pg, wide, n, DroppedNames(to.columns, ColumnMap(from.columns))) == Reshaped(pg, s, d, db, n)
  {
    var f, t := s.tables[n].columns, d.tables[n].columns;
    var names := DroppedNames(to.columns, ColumnMap(from.columns));
    assert names == t.Keys - f.Keys by {
      forall c | c in t.Keys - f.Keys
        ensures c in names
      {
        assert t[c] in to.columns;
      }
    }
    assert t + f - names == f;
    PutTwice(db, n, db.tables[n].(columns := t + f), db.tables[n].(columns := f, constraints := Left(pg, s, d, n)));
  }

  ghost function ColumnScript(n: string, from: TableSnapshot, to: TableSnapshot): seq<Statement> {
    Gather(from.columns, PhaseOf(Tables, ColumnPart(n, ColumnMap(to.columns)))) +
    Gather(to.columns, PhaseOf(Tables, DropColumnPart(n, ColumnMap(from.columns))))
  }

  ghost function ConstraintScript(n: string, from: TableSnapshot, to: TableSnapshot): seq<Statement> {
    Gather(ConstraintNames(from, to), PhaseOf(Tables, ConstraintPart(n, from.constraints, to.constraints)))
  }

  lemma WantedRun(pg: Reader, s: Db, d: Db, db: Db, n: string, from: TableSnapshot, to: TableSnapshot)
    requires Described(s, n, from) && Described(d, n, to) && BeforeTables(pg, s, d, db, n)
    requires TableSound(pg, s, s.tables[n]) && TableSound(pg, d, d.tables[n])
    requires Expressible(s.tables[n], d.tables[n])
    ensures Run(pg, db, Gather(from.columns, PhaseOf(Tables, ColumnPart(n, ColumnMap(to.columns))))) ==
            Outcome(WantedColumnsApply(pg, s, d, n, from.columns),
                    WithColumns(db, n, d.tables[n].columns + s.tables[n].columns))
  {
    hide Run, WantedColumnsApply, AllColumnsOk, Placed, OwnersIn, IndexesMention, TypesAround, TableSound, Expressible;
    ColumnsReady(pg, s, d, db, n, from);
    ColumnsConverge(pg, db, n, ColumnMap(to.columns), from.columns);
    WantedColumnsMean(pg, s, d, db, n, from);
  }

  // What the source's table names, the source's table has.
  lemma DroppedLoose(pg: Reader, s: Db, d: Db, db: Db, n: string, column: string)
    requires n in s.tables && n in d.tables && BeforeTables(pg, s, d, db, n) && column !in s.tables[n].columns
    requires TableSound(pg, s, s.tables[n]) && Expressible(s.tables[n], d.tables[n])
    ensures Loose(pg, WithColumns(db, n, d.tables[n].columns + s.tables[n].columns), n, column)
  {
    hide Placed, TypesAround;
    var f, t := s.tables[n], d.tables[n];
    forall g | g in Common(f.triggers, t.triggers)
      ensures column !in pg.columns(Common(f.triggers, t.triggers)[g])
    {
      assert pg.columns(f.triggers[g]) <= f.columns.Keys;
    }
  }

  lemma UnwantedRun(pg: Reader, s: Db, d: Db, db: Db, n: string, from: TableSnapshot, to: TableSnapshot)
    requires Described(s, n, from) && Described(d, n, to) && BeforeTables(pg, s, d, db, n)
    requires TableSound(pg, s, s.tables[n]) && Expressible(s.tables[n], d.tables[n])
    ensures Run(pg, WithColumns(db, n, d.tables[n].columns + s.tables[n].columns),
                Gather(to.columns, PhaseOf(Tables, DropColumnPart(n, ColumnMap(from.columns))))) ==
            Outcome(UnwantedColumnsApply(pg, s, d, n, to.columns), Reshaped(pg, s, d, db, n))
  {
    hide Run, UnwantedColumnsApply, AllDropsOk, WithoutColumns, Reshaped, Loose, Placed, OwnersIn, IndexesMention,
      TypesAround, TableSound, Expressible;
    var wide := WithColumns(db, n, d.tables[n].columns + s.tables[n].columns);
    forall c | c in to.columns && c.name !in s.tables[n].columns
      ensures Loose(pg, wide, n, c.name)
    {
      DroppedLoose(pg, s, d, db, n, c.name);
    }
    DropsConverge(pg, wide, n, ColumnMap(from.columns), to.columns);
    ColumnsReshape(pg, s, d, db, n, from, to);
    UnwantedColumnsMean(pg, s, d, wide, n, to);
  }

  lemma ColumnsRun(pg: Reader, s: Db, d: Db, db: Db, n: string, from: TableSnapshot, to: TableSnapshot)
    requires Described(s, n, from) && Described(d, n, to) && BeforeTables(pg, s, d, db, n)
    requires TableSound(pg, s, s.tables[n]) && TableSound(pg, d, d.tables[n])
    requires Expressible(s.tables[n], d.tables[n])
    ensures Run(pg, db, ColumnScript(n, from, to)) ==
            Outcome(ColumnsApply(pg, s, d, n, from.columns, to.columns), Reshaped(pg, s, d, db, n))
  {
    hide Run, TableSound, Expressible, WantedColumnApplies, UnwantedColumnApplies, WithColumns, Reshaped, Placed,
      OwnersIn, IndexesMention, TypesAround;
    var f, t := ColumnMap(from.columns), ColumnMap(to.columns);
    WantedRun(pg, s, d, db, n, from, to);
    UnwantedRun(pg, s, d, db, n, from, to);
    RunThen(pg, db, Gather(from.columns, PhaseOf(Tables, ColumnPart(n, t))),
            Gather(to.columns, PhaseOf(Tables, DropColumnPart(n, f))),
            WantedColumnsApply(pg, s, d, n, from.columns), WithColumns(db, n, t + f),
            UnwantedColumnsApply(pg, s, d, n, to.columns), Reshaped(pg, s, d, db, n));
  }

  // Foreign keys of both sides survive the column changes.
  lemma LeftForeign(pg: Reader, s: Db, d: Db, n: string)
    requires n in s.tables && n in d.tables && TableSound(pg, s, s.tables[n])
    ensures ForeignAlike(Left(pg, s, d, n), WithoutChangedForeign(s.tables[n].constraints, d.tables[n].constraints))
  {
    var f, t := s.tables[n].constraints, d.tables[n].constraints;
    forall k | k in f && Same(f, t, k)
      ensures k in Left(pg, s, d, n)
    {
      assert ConstraintSound(pg, s, s.tables[n].columns, f[k]);
    }
  }

  lemma StillPlaced(pg: Reader, s: Db, d: Db, db: Db, n: string)
    requires n in s.tables && n in d.tables && BeforeTables(pg, s, d, db, n) && TableSound(pg, s, s.tables[n])
    ensures Placed(pg, s, d, Reshaped(pg, s, d, db, n), n, s.tables[n].constraints)
  {
    hide Rested, RestedThroughout, OtherNames, FreeInTurn, TableSound, Left, OwnersIn, IndexesMention, TypesAround;
    var mid := Reshaped(pg, s, d, db, n);
    OthersSame(db, n, mid.tables[n]);
    LeftForeign(pg, s, d, n);
    forall k
      ensures Rested(pg, mid.tables, n, k) == Rested(pg, db.tables, n, k)
    {
      RestsSame(pg, mid.tables, db.tables, n, k);
    }
  }

  lemma ConstraintsRun(pg: Reader, s: Db, d: Db, db: Db, n: string, from: TableSnapshot, to: TableSnapshot)
    requires Described(s, n, from) && Described(d, n, to) && BeforeTables(pg, s, d, db, n)
    requires TableSound(pg, s, s.tables[n]) && TableSound(pg, d, d.tables[n])
    requires Expressible(s.tables[n], d.tables[n])
    ensures Run(pg, Reshaped(pg, s, d, db, n), ConstraintScript(n, from, to)) ==
            Outcome(DroppedConstraintsApply(pg, s, d, n) &&
              NewConstraintsApply(pg, s, d, n, from.constraints, to.constraints),
                    PutTable(db, n, KeptTable(6, s.tables[n], d.tables[n])))
  {
    hide Run, DroppedConstraintsApply, NewConstraintsApply, Placed, OwnersIn, IndexesMention, TypesAround,
      AllConstraintsOk, NoneNeeded, StillThere, Remaining, Left, ConstraintReady;
    var mid := Reshaped(pg, s, d, db, n);
    var f, t := from.constraints, to.constraints;
    LeftMeans(pg, s, d, n);
    ConstraintsReady(pg, s, mid, s.tables[n]);
    StillPlaced(pg, s, d, db, n);
    ConstraintsConverge(pg, mid, n, Left(pg, s, d, n), f, t, ConstraintNames(from, to));
    ConstraintsApplyExactly(pg, s, d, mid, n, Left(pg, s, d, n), f, t, ConstraintNames(from, to));
    PutTwice(db, n, mid.tables[n], KeptTable(6, s.tables[n], d.tables[n]));
    assert mid.tables[n].(constraints := WithoutNewForeign(f, t)) == KeptTable(6, s.tables[n], d.tables[n]);
  }

  lemma AlterPhaseTables(schema: string, n: string, from: TableSnapshot, to: TableSnapshot)
    ensures AlterPhase(Tables, schema, n, from, to) == ColumnScript(n, from, to) + ConstraintScript(n, from, to)
  {
    hide Gather, PhaseOf, ColumnPart, DropColumnPart, ConstraintPart, IndexPart, TriggerPart, ColumnMap;
  }

  lemma AlterRun(pg: Reader, s: Db, d: Db, db: Db, schema: string, n: string, from: TableSnapshot, to: TableSnapshot)
    requires Described(s, n, from) && Described(d, n, to) && BeforeTables(pg, s, d, db, n)
    requires TableSound(pg, s, s.tables[n]) && TableSound(pg, d, d.tables[n])
    requires Expressible(s.tables[n], d.tables[n])
    ensures Run(pg, db, AlterPhase(Tables, schema, n, from, to)) ==
            Outcome(KeptTableApplies(pg, s, d, n, from, to), PutTable(db, n, KeptTable(6, s.tables[n], d.tables[n])))
  {
    hide Run, TableSound, Expressible, ColumnsApply, DroppedConstraintsApply, NewConstraintsApply, Placed, OwnersIn,
      IndexesMention, TypesAround, AlterPhase, ColumnScript, ConstraintScript, Reshaped, KeptTable, KeptViews,
      ColumnMap, TableOf, DistinctColumns;
    AlterPhaseTables(schema, n, from, to);
    ColumnsRun(pg, s, d, db, n, from, to);
    ConstraintsRun(pg, s, d, db, n, from, to);
    RunThen(pg, db, ColumnScript(n, from, to), ConstraintScript(n, from, to),
            ColumnsApply(pg, s, d, n, from.columns, to.columns), Reshaped(pg, s, d, db, n),
            DroppedConstraintsApply(pg, s, d, n) && NewConstraintsApply(pg, s, d, n, from.constraints, to.constraints),
            PutTable(db, n, KeptTable(6, s.tables[n], d.tables[n])));
  }
}

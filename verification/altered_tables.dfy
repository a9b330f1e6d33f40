/** The phase that changes columns and constraints, for a table both sides have. */
module AlteredTables {
  import opened Options
  import opened Gathering
  import opened Names
  import opened Snapshots
  import opened Statements
  import opened Diff
  import opened Database
  import opened Applies
  import opened Stages
  import opened ScriptOrder
  import opened PhaseLists
  import opened TableLists
  import opened Blending
  import opened ColumnPhases
  import opened ForeignKeyPhases

  /* ---- Columns the source has ---- */

  ghost predicate ColumnOk(pg: Reader, db: Db, n: string, t: map<string, Column>, c: Column)
    requires n in db.tables
  {
    if c.name in t then ChangesApply(pg, db, n, t[c.name], c)
    else
      NewColumnApplies(pg, db, c) &&
      (c.generated.Some? ==> pg.columns(c.generated.value) <= db.tables[n].columns.Keys)
  }

  // What the wanted column asks of the schema besides the routines it calls.
  ghost predicate ColumnReady(pg: Reader, db: Db, c: Column) {
    ColumnShape(c) && (c.identity.Some? ==> pg.identityType(c.dataType)) &&
    (c.default.Some? ==> pg.sequences(c.default.value) <= db.sequences.Keys) &&
    (c.generated.Some? ==> pg.sequences(c.generated.value) <= db.sequences.Keys)
  }

  lemma AddOneColumn(pg: Reader, db: Db, n: string, c: Column)
    requires n in db.tables && c.name !in db.tables[n].columns && ColumnReady(pg, db, c)
    ensures Exec(pg, db, AddColumn(n, DefinitionOf(c))) ==
            Outcome(ColumnOk(pg, db, n, db.tables[n].columns, c), WithColumn(db, n, c))
  {
    assert DeclaredColumn(DefinitionOf(c)) == c;
  }

  function ColumnsMid(db: Db, n: string, t: map<string, Column>, columns: seq<Column>): nat -> Db
    requires n in db.tables
  {
    (i: nat) => WithColumns(db, n, ColumnsSoFar(t, columns, i))
  }

  ghost function ColumnsOk(pg: Reader, db: Db, n: string, t: map<string, Column>, columns: seq<Column>): nat -> bool
    requires n in db.tables
  {
    (i: nat) => i < |columns| ==> ColumnOk(pg, WithColumns(db, n, ColumnsSoFar(t, columns, i)), n, t, columns[i])
  }

  lemma AlterOneColumn(pg: Reader, db: Db, n: string, c: Column)
    requires n in db.tables && c.name in db.tables[n].columns && Matches(db.tables[n].columns, c) &&
      ColumnReady(pg, db, c)
    ensures var existing := db.tables[n].columns[c.name];
      Run(pg, db, OfPhase(Tables, AlterColumnStatements(n, c.name, ColumnChanges(existing, c)))) ==
      Outcome(ChangesApply(pg, db, n, existing, c), WithColumn(db, n, c))
  {
    var existing := db.tables[n].columns[c.name];
    RunAlterColumn(pg, db, n, c.name, ColumnChanges(existing, c));
    ColumnConverges(pg, db, n, existing, c);
  }

  lemma ColumnRun(pg: Reader, db: Db, n: string, t: map<string, Column>, c: Column)
    requires n in db.tables && ColumnReady(pg, db, c) && Matches(t, c)
    requires c.name in t <==> c.name in db.tables[n].columns
    requires c.name in t ==> db.tables[n].columns[c.name] == t[c.name]
    ensures Run(pg, db, OfPhase(Tables, ColumnStatements(n, t, c))) ==
            Outcome(ColumnOk(pg, db, n, t, c), WithColumn(db, n, c))
  {
    if c.name in t {
      AlterOneColumn(pg, db, n, c);
    } else {
      var add := AddColumn(n, DefinitionOf(c));
      AddOneColumn(pg, db, n, c);
      OfPhaseShort(Tables, [Tagged(Tables, add)]);
      RunShort(pg, db, [add]);
    }
  }

  lemma AddThenUpdate<V>(a: map<string, V>, b: map<string, V>, k: string, v: V)
    ensures a + b[k := v] == (a + b)[k := v]
  {
  }

  lemma SoFar(t: map<string, Column>, columns: seq<Column>, i: nat)
    requires i < |columns|
    ensures ColumnsSoFar(t, columns, i + 1) == ColumnsSoFar(t, columns, i)[columns[i].name := columns[i]]
  {
    ColumnMapPrefix(columns, i);
    AddThenUpdate(t, ColumnMap(columns[..i]), columns[i].name, columns[i]);
  }

  lemma NotYet(columns: seq<Column>, i: nat)
    requires i < |columns| && DistinctColumns(columns)
    ensures columns[i].name !in ColumnMap(columns[..i])
  {
    forall c | c in columns[..i]
      ensures c.name != columns[i].name
    {
      var j :| 0 <= j < i && columns[j] == c;
    }
  }

  lemma ColumnStep(pg: Reader, db: Db, n: string, t: map<string, Column>, columns: seq<Column>, i: nat)
    requires n in db.tables && i < |columns| && DistinctColumns(columns)
    requires ColumnReady(pg, db, columns[i]) && Matches(t, columns[i])
    ensures Steps(pg, PhaseOf(Tables, ColumnPart(n, t))(columns[i]), ColumnsMid(db, n, t, columns),
                  ColumnsOk(pg, db, n, t, columns), i)
  {
    var c := columns[i];
    var here := WithColumns(db, n, ColumnsSoFar(t, columns, i));
    SoFar(t, columns, i);
    NotYet(columns, i);
    ColumnRun(pg, here, n, t, c);
    PutTwice(db, n, here.tables[n], WithColumn(here, n, c).tables[n]);
    StepRun(pg, PhaseOf(Tables, ColumnPart(n, t))(c), ColumnsMid(db, n, t, columns), ColumnsOk(pg, db, n, t, columns),
            i, here, ColumnOk(pg, here, n, t, c), WithColumn(here, n, c));
  }

  ghost predicate AllColumnsOk(pg: Reader, db: Db, n: string, t: map<string, Column>, columns: seq<Column>)
    requires n in db.tables
  {
    forall i: nat :: i < |columns| ==> ColumnOk(pg, WithColumns(db, n, ColumnsSoFar(t, columns, i)), n, t, columns[i])
  }

  ghost predicate Matches(t: map<string, Column>, c: Column) {
    c.name in t ==> t[c.name].name == c.name && ColumnShape(t[c.name]) && t[c.name].generated == c.generated
  }

  lemma ColumnsEnds(db: Db, n: string, t: map<string, Column>, columns: seq<Column>)
    requires n in db.tables && db.tables[n].columns == t
    ensures ColumnsMid(db, n, t, columns)(0) == db
    ensures ColumnsMid(db, n, t, columns)(|columns|) == WithColumns(db, n, t + ColumnMap(columns))
  {
    assert t + ColumnMap([]) == t;
    PutSame(db, n);
    assert columns[..|columns|] == columns;
  }

  lemma ColumnsConverge(pg: Reader, db: Db, n: string, t: map<string, Column>, columns: seq<Column>)
    requires n in db.tables && db.tables[n].columns == t && DistinctColumns(columns)
    requires forall c <- columns :: ColumnReady(pg, db, c) && Matches(t, c)
    ensures Run(pg, db, Gather(columns, PhaseOf(Tables, ColumnPart(n, t)))) ==
            Outcome(AllColumnsOk(pg, db, n, t, columns), WithColumns(db, n, t + ColumnMap(columns)))
  {
    var part := PhaseOf(Tables, ColumnPart(n, t));
    var mid, ok := ColumnsMid(db, n, t, columns), ColumnsOk(pg, db, n, t, columns);
    forall i: nat | i < |columns|
      ensures Steps(pg, part(columns[i]), mid, ok, i)
    {
      ColumnStep(pg, db, n, t, columns, i);
    }
    ColumnsEnds(db, n, t, columns);
    RunLoop(pg, columns, part, mid, ok, db, WithColumns(db, n, t + ColumnMap(columns)),
            AllColumnsOk(pg, db, n, t, columns));
  }

  /* ---- Columns only the target has ---- */

  function Unmentioning(pg: Reader, constraints: map<string, Constraint>, names: set<string>): map<string, Constraint> {
    constraints - set k | k in constraints && !(pg.columns(constraints[k].definition) !! names)
  }

  function WithoutColumns(pg: Reader, db: Db, n: string, names: set<string>): Db
    requires n in db.tables
  {
    PutTable(db, n, db.tables[n].(columns := db.tables[n].columns - names,
                                  constraints := Unmentioning(pg, db.tables[n].constraints, names)))
  }

  ghost predicate IndexesMention(pg: Reader, db: Db, n: string, columns: set<string>) {
    forall i <- db.indexes :: db.indexes[i].table == n ==> pg.columns(db.indexes[i].text) <= columns
  }

  // Nothing but a view or a computed column stands in the way of dropping the column.
  ghost predicate Loose(pg: Reader, db: Db, n: string, column: string)
    requires n in db.tables
  {
    (forall i <- db.indexes :: db.indexes[i].table == n ==> column !in pg.columns(db.indexes[i].text)) &&
    !HoldsColumn(pg, db.tables[n].partitionKey, db.tables[n].triggers, column) &&
    forall q <- db.sequences :: pg.owner(q) != Some((n, column))
  }

  ghost predicate DropOneOk(pg: Reader, db: Db, n: string, names: set<string>, name: string)
    requires n in db.tables
  {
    !ReadByView(pg, db.views, n, name) && !FeedsColumn(pg, db.tables[n].columns - names - {name}, name)
  }

  // The column's constraints go with it, and nothing else.
  lemma TakenAlong(pg: Reader, db: Db, n: string, names: set<string>, name: string)
    requires n in db.tables && Loose(pg, db, n, name)
    ensures var t := db.tables[n];
      IndexesWithoutColumn(pg, db.indexes, n, name) == db.indexes && OwnedBy(pg, db.sequences, n, name) == {} &&
      db.sequences - {} == db.sequences && t.columns - names - {name} == t.columns - (names + {name}) &&
      WithoutColumn(pg, Unmentioning(pg, t.constraints, names), name) == Unmentioning(pg, t.constraints, names + {name})
  {
    var t := db.tables[n];
    assert WithoutColumn(pg, Unmentioning(pg, t.constraints, names), name).Keys ==
      Unmentioning(pg, t.constraints, names + {name}).Keys;
  }

  lemma DropOneColumn(pg: Reader, db: Db, n: string, names: set<string>, name: string)
    requires n in db.tables && name in db.tables[n].columns && name !in names && Loose(pg, db, n, name)
    ensures Exec(pg, WithoutColumns(pg, db, n, names), DropColumn(n, name)) ==
            Outcome(DropOneOk(pg, db, n, names, name), WithoutColumns(pg, db, n, names + {name}))
  {
    hide FeedsColumn, HoldsColumn, ReadByView, SequenceUsed, Unmentioning, WithoutColumn, OwnedBy, IndexesWithoutColumn;
    var t := db.tables[n];
    var mid := WithoutColumns(pg, db, n, names);
    TakenAlong(pg, db, n, names, name);
    PutTwice(db, n, mid.tables[n],
             t.(columns := t.columns - (names + {name}),
                constraints := Unmentioning(pg, t.constraints, names + {name})));
  }

  function DropMid(pg: Reader, db: Db, n: string, f: map<string, Column>, columns: seq<Column>): nat -> Db
    requires n in db.tables
  {
    (i: nat) => WithoutColumns(pg, db, n, DroppedNames(if i <= |columns| then columns[..i] else columns, f))
  }

  ghost function DropOk(pg: Reader, db: Db, n: string, f: map<string, Column>, columns: seq<Column>): nat -> bool
    requires n in db.tables
  {
    (i: nat) => i < |columns| && columns[i].name !in f ==>
      DropOneOk(pg, db, n, DroppedNames(columns[..i], f), columns[i].name)
  }

  lemma DropStep(pg: Reader, db: Db, n: string, f: map<string, Column>, columns: seq<Column>, i: nat)
    requires n in db.tables && i < |columns| && DistinctColumns(columns)
    requires columns[i].name in db.tables[n].columns && (columns[i].name !in f ==> Loose(pg, db, n, columns[i].name))
    ensures Steps(pg, PhaseOf(Tables, DropColumnPart(n, f))(columns[i]), DropMid(pg, db, n, f, columns),
                  DropOk(pg, db, n, f, columns), i)
  {
    hide DropOneOk, Loose, Exec, WithoutColumns, Run, Steps;
    var c := columns[i];
    var mid, ok := DropMid(pg, db, n, f, columns), DropOk(pg, db, n, f, columns);
    var done := DroppedNames(columns[..i], f);
    assert columns[..i + 1] == columns[..i] + [c];
    var script := OfPhase(Tables, DropColumnStatements(n, f, c));
    assert PhaseOf(Tables, DropColumnPart(n, f))(c) == script;
    OfPhaseShort(Tables, DropColumnStatements(n, f, c));
    if c.name in f {
      assert DroppedNames(columns[..i + 1], f) == done;
      StepNone(pg, script, mid, ok, i);
    } else {
      assert DroppedNames(columns[..i + 1], f) == done + {c.name};
      assert c.name !in done;
      DropOneColumn(pg, db, n, done, c.name);
      StepOne(pg, script, mid, ok, i);
    }
  }

  ghost predicate AllDropsOk(pg: Reader, db: Db, n: string, f: map<string, Column>, columns: seq<Column>)
    requires n in db.tables
  {
    forall i: nat :: i < |columns| && columns[i].name !in f ==>
      DropOneOk(pg, db, n, DroppedNames(columns[..i], f), columns[i].name)
  }

  lemma DropsConverge(pg: Reader, db: Db, n: string, f: map<string, Column>, columns: seq<Column>)
    requires n in db.tables && DistinctColumns(columns)
    requires forall c <- columns :: c.name in db.tables[n].columns && (c.name !in f ==> Loose(pg, db, n, c.name))
    ensures Run(pg, db, Gather(columns, PhaseOf(Tables, DropColumnPart(n, f)))) ==
            Outcome(AllDropsOk(pg, db, n, f, columns), WithoutColumns(pg, db, n, DroppedNames(columns, f)))
  {
    hide DropOneOk, Loose, WithoutColumns, Run;
    var part := PhaseOf(Tables, DropColumnPart(n, f));
    var mid, ok := DropMid(pg, db, n, f, columns), DropOk(pg, db, n, f, columns);
    forall i: nat | i < |columns|
      ensures Steps(pg, part(columns[i]), mid, ok, i)
    {
      assert columns[i] in columns;
      DropStep(pg, db, n, f, columns, i);
    }
    DropEnds(pg, db, n, f, columns);
    RunLoop(pg, columns, part, mid, ok, db, WithoutColumns(pg, db, n, DroppedNames(columns, f)),
            AllDropsOk(pg, db, n, f, columns));
  }

  lemma DropEnds(pg: Reader, db: Db, n: string, f: map<string, Column>, columns: seq<Column>)
    requires n in db.tables
    ensures DropMid(pg, db, n, f, columns)(0) == db
    ensures DropMid(pg, db, n, f, columns)(|columns|) == WithoutColumns(pg, db, n, DroppedNames(columns, f))
  {
    assert DroppedNames([], f) == {};
    assert db.tables[n].columns - {} == db.tables[n].columns;
    assert Unmentioning(pg, db.tables[n].constraints, {}) == db.tables[n].constraints;
    PutSame(db, n);
    assert columns[..|columns|] == columns;
  }

  /* ---- Constraints other than foreign keys ---- */

  // What the wanted constraint asks of the schema besides the routines it calls and the place of a primary key.
  ghost predicate ConstraintReady(pg: Reader, db: Db, columns: map<string, Column>, c: Constraint) {
    pg.columns(c.definition) <= columns.Keys && pg.sequences(c.definition) <= db.sequences.Keys &&
    (IsKey(c) ==> forall n <- pg.columns(c.definition) :: columns[n].notNull)
  }

  ghost predicate NoKey(constraints: map<string, Constraint>) {
    forall k <- constraints :: !IsKey(constraints[k])
  }

  ghost predicate AddOk(pg: Reader, db: Db, n: string, constraints: map<string, Constraint>, k: string, c: Constraint) {
    pg.routines(c.definition) <= Signatures(pg, db.routines) && (IsBacked(c) ==> k !in OtherNames(db, n)) &&
    (IsKey(c) ==> NoKey(constraints))
  }

  lemma AddOneConstraint(pg: Reader, db: Db, n: string, constraints: map<string, Constraint>, k: string, c: Constraint)
    requires n in db.tables && k !in constraints && !IsForeign(c) && ConstraintReady(pg, db, db.tables[n].columns, c)
    ensures Exec(pg, WithConstraints(db, n, constraints), AddConstraint(n, k, c)) ==
            Outcome(AddOk(pg, db, n, constraints, k, c), WithConstraints(db, n, constraints[k := c]))
  {
    hide Exec, OtherNames, Signatures, RequireNotNull;
    var t := db.tables[n];
    AddConstraintIs(pg, WithConstraints(db, n, constraints), n, k, c);
    if IsKey(c) {
      NoneToRequire(pg, db, t.columns, c);
    }
    OthersSame(db, n, t.(constraints := constraints));
    PutTwice(db, n, t.(constraints := constraints), t.(constraints := constraints[k := c]));
  }

  // A primary key of columns that are all NOT NULL changes none of them.
  lemma NoneToRequire(pg: Reader, db: Db, columns: map<string, Column>, c: Constraint)
    requires IsKey(c) && ConstraintReady(pg, db, columns, c)
    ensures RequireNotNull(columns, pg.columns(c.definition)) == columns
  {
  }

  // The names taken elsewhere do not depend on the table itself.
  lemma OthersSame(db: Db, n: string, table: Table)
    requires n in db.tables
    ensures OtherNames(PutTable(db, n, table), n) == OtherNames(db, n)
  {
    assert PutTable(db, n, table).tables - {n} == db.tables - {n};
  }

  // Both lists hold the same foreign keys.
  ghost predicate ForeignAlike(a: map<string, Constraint>, b: map<string, Constraint>) {
    forall k :: k in a && IsForeign(a[k]) <==> k in b && IsForeign(b[k])
  }

  lemma RestsAlike(pg: Reader, db: Db, n: string, constraints: map<string, Constraint>, k: string)
    requires n in db.tables && ForeignAlike(constraints, db.tables[n].constraints)
    ensures Rested(pg, WithConstraints(db, n, constraints).tables, n, k) == Rested(pg, db.tables, n, k)
  {
    var a, b := WithConstraints(db, n, constraints).tables, db.tables;
    assert forall t :: t in a <==> t in b;
    assert forall t :: t in a && t != n ==> a[t] == b[t];
    forall t, x | t in a
      ensures x in a[t].constraints && IsForeign(a[t].constraints[x]) <==>
        x in b[t].constraints && IsForeign(b[t].constraints[x])
    {
    }
    RestsSame(pg, a, b, n, k);
  }

  lemma RestsSame(pg: Reader, a: map<string, Table>, b: map<string, Table>, n: string, k: string)
    requires forall t, x :: t in a && x in a[t].constraints && IsForeign(a[t].constraints[x]) <==>
                            t in b && x in b[t].constraints && IsForeign(b[t].constraints[x])
    ensures Rested(pg, a, n, k) == Rested(pg, b, n, k)
  {
  }

  // A foreign key rests on it, or the grouping of a view.
  predicate NeededIn(pg: Reader, db: Db, n: string, k: string) {
    Rested(pg, db.tables, n, k) || Grouped(pg, db.views, n, k)
  }

  lemma DropOneConstraint(pg: Reader, db: Db, n: string, constraints: map<string, Constraint>, k: string)
    requires n in db.tables && k in constraints && !IsForeign(constraints[k])
    requires ForeignAlike(constraints, db.tables[n].constraints)
    ensures Exec(pg, WithConstraints(db, n, constraints), DropConstraint(n, k)) ==
            Outcome(!NeededIn(pg, db, n, k), WithConstraints(db, n, constraints - {k}))
  {
    hide Rested, Grouped;
    RestsAlike(pg, db, n, constraints, k);
    PutTwice(db, n, db.tables[n].(constraints := constraints), db.tables[n].(constraints := constraints - {k}));
  }

  lemma DropNoConstraint(pg: Reader, db: Db, n: string, constraints: map<string, Constraint>, k: string)
    requires n in db.tables && k !in constraints
    ensures Exec(pg, WithConstraints(db, n, constraints), DropConstraint(n, k)) == None
  {
  }

  // The changes of one constraint in this phase.
  ghost predicate ConstraintOk(pg: Reader, db: Db, n: string, here: map<string, Constraint>, f: map<string, Constraint>,
                               t: map<string, Constraint>, k: string) {
    (k in t && !IsForeign(t[k]) && !Same(f, t, k) ==> k in here && !NeededIn(pg, db, n, k)) &&
    (k in f && !IsForeign(f[k]) && !Same(f, t, k) ==> AddOk(pg, db, n, here - {k}, k, f[k]))
  }

  lemma ConstraintRun(pg: Reader, db: Db, n: string, here: map<string, Constraint>, f: map<string, Constraint>,
                      t: map<string, Constraint>, k: string)
    requires n in db.tables
    requires k in f ==> ConstraintReady(pg, db, db.tables[n].columns, f[k])
    requires k in here ==> k in t && here[k] == t[k] && (!IsForeign(t[k]) || Same(f, t, k))
    requires ForeignAlike(here, db.tables[n].constraints)
    requires Same(f, t, k) ==> Same(f, here, k)
    ensures Run(pg, WithConstraints(db, n, here), ConstraintPhaseStatements(Tables, n, f, t, k)) ==
            Outcome(ConstraintOk(pg, db, n, here, f, t, k),
                    WithConstraints(db, n, Updated(here, WithoutNewForeign(f, t), k)))
  {
    var script := ConstraintPhaseStatements(Tables, n, f, t, k);
    var drop := k in t && !IsForeign(t[k]) && !Same(f, t, k);
    var add := k in f && !IsForeign(f[k]) && !Same(f, t, k);
    if !drop {
      assert k !in here || Same(f, t, k);
      if add {
        assert here - {k} == here;
        assert script == [AddConstraint(n, k, f[k])];
        AddOneConstraint(pg, db, n, here, k, f[k]);
        RunShort(pg, WithConstraints(db, n, here), script);
      } else {
        assert script == [];
        assert Updated(here, WithoutNewForeign(f, t), k) == here;
      }
    } else {
      DropThenAdd(pg, db, n, here, f, t, k);
    }
  }

  lemma DropThenAdd(pg: Reader, db: Db, n: string, here: map<string, Constraint>, f: map<string, Constraint>,
                    t: map<string, Constraint>, k: string)
    requires n in db.tables
    requires k in f ==> ConstraintReady(pg, db, db.tables[n].columns, f[k])
    requires k in t && !IsForeign(t[k]) && !Same(f, t, k)
    requires (k in here ==> here[k] == t[k]) && ForeignAlike(here, db.tables[n].constraints)
    ensures Run(pg, WithConstraints(db, n, here), ConstraintPhaseStatements(Tables, n, f, t, k)) ==
            Outcome(ConstraintOk(pg, db, n, here, f, t, k),
                    WithConstraints(db, n, Updated(here, WithoutNewForeign(f, t), k)))
  {
    hide Run, Exec, AddOk, NeededIn, ConstraintReady, WithConstraints;
    var add := k in f && !IsForeign(f[k]);
    var adds: seq<Statement> := if add then [AddConstraint(n, k, f[k])] else [];
    assert ConstraintPhaseStatements(Tables, n, f, t, k) == [DropConstraint(n, k)] + adds;
    var rest := here - {k};
    RunShort(pg, WithConstraints(db, n, here), [DropConstraint(n, k)]);
    if k in here {
      DropOneConstraint(pg, db, n, here, k);
    } else {
      DropNoConstraint(pg, db, n, here, k);
    }
    RunShort(pg, WithConstraints(db, n, rest), adds);
    var q := add ==> AddOk(pg, db, n, rest, k, f[k]);
    if add {
      AddOneConstraint(pg, db, n, rest, k, f[k]);
      assert rest[k := f[k]] == here[k := f[k]];
    }
    RunThen(pg, WithConstraints(db, n, here), [DropConstraint(n, k)], adds, k in here &&
      !NeededIn(pg, db, n, k), WithConstraints(db, n, rest),
            q, WithConstraints(db, n, Updated(here, WithoutNewForeign(f, t), k)));
  }

  function MidConstraints(k0: map<string, Constraint>, f: map<string, Constraint>, t: map<string, Constraint>,
                names: seq<string>, i: nat): map<string, Constraint> {
    Blend(k0, WithoutNewForeign(f, t), if i <= |names| then names[..i] else names)
  }

  ghost function ConstraintsOk(pg: Reader, db: Db, n: string, k0: map<string, Constraint>, f: map<string, Constraint>,
                               t: map<string, Constraint>, names: seq<string>): nat -> bool {
    (i: nat) => i < |names| ==> ConstraintOk(pg, db, n, MidConstraints(k0, f, t, names, i), f, t, names[i])
  }

  // `k0`: the constraints left once columns are dropped.
  ghost predicate Remaining(k0: map<string, Constraint>, f: map<string, Constraint>, t: map<string, Constraint>) {
    (forall k <- k0 :: k in t && k0[k] == t[k] && (!IsForeign(t[k]) || Same(f, t, k))) &&
    (forall k <- f :: Same(f, t, k) ==> k in k0)
  }

  // The foreign keys of both sides stay where they are.
  lemma MidForeign(k0: map<string, Constraint>, f: map<string, Constraint>, t: map<string, Constraint>,
                   names: seq<string>, i: nat)
    requires Remaining(k0, f, t)
    ensures ForeignAlike(MidConstraints(k0, f, t, names, i), k0)
  {
  }

  lemma ConstraintStep(pg: Reader, db: Db, n: string, k0: map<string, Constraint>, f: map<string, Constraint>,
                       t: map<string, Constraint>, names: seq<string>, i: nat)
    requires n in db.tables && i < |names| && Ascending(names) && Remaining(k0, f, t)
    requires names[i] in f ==> ConstraintReady(pg, db, db.tables[n].columns, f[names[i]])
    requires db.tables[n].constraints == k0
    ensures Steps(pg, PhaseOf(Tables, ConstraintPart(n, f, t))(names[i]),
                  Mid(PutConstraints(db, n), k0, WithoutNewForeign(f, t), names),
                    ConstraintsOk(pg, db, n, k0, f, t, names), i)
  {
    var k := names[i];
    NewName(names, i);
    ConstraintByPhase(Tables, n, f, t, k);
    BlendStep(k0, WithoutNewForeign(f, t), names, i);
    MidForeign(k0, f, t, names, i);
    ConstraintRun(pg, db, n, MidConstraints(k0, f, t, names, i), f, t, k);
    BlendRun(pg, PhaseOf(Tables, ConstraintPart(n, f, t))(k), PutConstraints(db, n), k0, WithoutNewForeign(f, t), names,
             ConstraintsOk(pg, db, n, k0, f, t, names), i);
  }

  ghost predicate AllConstraintsOk(pg: Reader, db: Db, n: string, k0: map<string, Constraint>,
                                   f: map<string, Constraint>,
                                   t: map<string, Constraint>, names: seq<string>) {
    AllOk(ConstraintsOk(pg, db, n, k0, f, t, names), |names|)
  }

  lemma ConstraintsConverge(pg: Reader, db: Db, n: string, k0: map<string, Constraint>, f: map<string, Constraint>,
                            t: map<string, Constraint>, names: seq<string>)
    requires n in db.tables && Lists(names, f.Keys + t.Keys) && Remaining(k0, f, t)
    requires db.tables[n].constraints == k0
    requires forall k <- f :: ConstraintReady(pg, db, db.tables[n].columns, f[k])
    ensures Run(pg, db, Gather(names, PhaseOf(Tables, ConstraintPart(n, f, t)))) ==
            Outcome(AllConstraintsOk(pg, db, n, k0, f, t, names), WithConstraints(db, n, WithoutNewForeign(f, t)))
  {
    var part := PhaseOf(Tables, ConstraintPart(n, f, t));
    forall i: nat | i < |names|
      ensures Steps(pg, part(names[i]), Mid(PutConstraints(db, n), k0, WithoutNewForeign(f, t), names),
                    ConstraintsOk(pg, db, n, k0, f, t, names), i)
    {
      ConstraintStep(pg, db, n, k0, f, t, names, i);
    }
    RunBlend(pg, names, part, PutConstraints(db, n), k0, WithoutNewForeign(f, t),
             ConstraintsOk(pg, db, n, k0, f, t, names));
    PutSame(db, n);
  }
}

/** The phase that creates tables and changes columns, over all tables; and the one that drops tables. */
module ReshapePhase {
  import opened Options
  import opened Gathering
  import opened Names
  import opened Snapshots
  import opened Statements
  import opened Diff
  import opened Database
  import opened Applies
  import opened Stages
  import opened ScriptOrder
  import opened PhaseLists
  import opened TableLists
  import opened ObjectLists
  import opened Blending
  import opened AlteredTables
  import opened AlteredConditions
  import opened KeptTables
  import opened NewTables
  import opened SequencePhases
  import opened TablePhases

  /* ---- Phase 5: columns and constraints ---- */

  ghost predicate TableOk(pg: Reader, source: SchemaSnapshot, target: SchemaSnapshot, s: Db, d: Db, n: string)
    requires Named(source, s) && Named(target, d)
  {
    n in s.tables ==>
      if n in d.tables then KeptTableApplies(pg, s, d, n, source.tables[n], target.tables[n])
      else NewTableApplies(pg, s, d, n, s.tables[n])
  }

  ghost function TablesOk(pg: Reader, source: SchemaSnapshot, target: SchemaSnapshot, s: Db, d: Db): nat -> bool
    requires Named(source, s) && Named(target, d)
  {
    (i: nat) => i < |TableNames(source, target)| ==> TableOk(pg, source, target, s, d, TableNames(source, target)[i])
  }

  ghost predicate AllExpressible(s: Db, d: Db) {
    forall n <- s.tables :: n in d.tables ==> Expressible(s.tables[n], d.tables[n])
  }

  ghost predicate IndexesSound(pg: Reader, s: Db) {
    forall i <- s.indexes :: IndexSound(pg, s, s.indexes[i])
  }

  lemma KeptMention(pg: Reader, s: Db, d: Db, db: Db, n: string)
    requires n in s.tables && IndexesSound(pg, s) && db.indexes == KeptIndexes(s, d)
    ensures IndexesMention(pg, db, n, s.tables[n].columns.Keys)
  {
    forall i | i in db.indexes && db.indexes[i].table == n
      ensures pg.columns(db.indexes[i].text) <= s.tables[n].columns.Keys
    {
      assert IndexSound(pg, s, s.indexes[i]);
    }
  }

  lemma HereAtFive(s: Db, d: Db, source: SchemaSnapshot, target: SchemaSnapshot, i: nat)
    requires i <= |TableNames(source, target)|
    ensures var db := Here(s, d, source, target, 5, i);
      db.sequences == d.sequences + s.sequences && db.views == KeptViews(s, d) && db.routines == d.routines &&
      db.indexes == KeptIndexes(s, d)
  {
  }

  /* What is there when a table has its turn: the tables before it are done, the ones after it are not. */

  predicate Later(s: Db, d: Db, n: string, m: string) {
    exists u <- d.tables :: u in s.tables && Less(n, u) && m in BackedNames(d.tables[u].constraints)
  }

  function ConstraintsHere(s: Db, d: Db, n: string, u: string): map<string, Constraint>
    requires u in s.tables || u in d.tables
  {
    if u in s.tables && (u !in d.tables || Less(u, n)) then s.tables[u].constraints else d.tables[u].constraints
  }

  lemma HereAt(s: Db, d: Db, source: SchemaSnapshot, target: SchemaSnapshot, i: nat, u: string)
    requires i < |TableNames(source, target)| && Named(source, s) && Named(target, d)
    ensures var tables, n := Here(s, d, source, target, 5, i).tables, TableNames(source, target)[i];
      (u in tables <==> u in d.tables || (u in s.tables && Less(u, n))) &&
      (u in tables ==> BackedNames(tables[u].constraints) == BackedNames(ConstraintsHere(s, d, n, u)))
  {
    hide BackedNames, KeptTable, NewTable, OldTable, Less;
    var names := TableNames(source, target);
    if u in names {
      Earlier(names, i, u);
      if HasTable(s, d, 5, u) { BackedAt(s, d, 5, u); }
      if HasTable(s, d, 6, u) { BackedAt(s, d, 6, u); }
    }
  }

  // The tables `n` finds.
  ghost predicate Around(s: Db, d: Db, n: string, tables: map<string, Table>) {
    forall u :: (u in tables <==> u in d.tables || (u in s.tables && Less(u, n))) &&
      (u in tables ==> BackedNames(tables[u].constraints) == BackedNames(ConstraintsHere(s, d, n, u)))
  }

  lemma BackedBy(s: Db, d: Db, n: string, tables: map<string, Table>, u: string, m: string)
    requires Around(s, d, n, tables) && m !in Backing(s.tables - {n})
    requires u in tables && u != n && m in BackedNames(tables[u].constraints)
    ensures m in Backing(RemovedTables(s, d)) || Later(s, d, n, m)
  {
    LessTotal(u, n);
    if u !in s.tables {
      BackingOf(RemovedTables(s, d), u, m);
    } else if u in d.tables && !Less(u, n) {
      assert Later(s, d, n, m);
    } else {
      BackingOf(s.tables - {n}, u, m);
      assert false;
    }
  }

  lemma StillBacked(s: Db, d: Db, n: string, tables: map<string, Table>, m: string)
    requires Around(s, d, n, tables) && n in s.tables
    requires m in Backing(RemovedTables(s, d)) || Later(s, d, n, m)
    ensures m in Backing(tables - {n})
  {
    if m in Backing(RemovedTables(s, d)) {
      var u :| u in RemovedTables(s, d) && m in BackedNames(RemovedTables(s, d)[u].constraints);
      BackingOf(tables - {n}, u, m);
    } else {
      var u :| u in d.tables && u in s.tables && Less(n, u) && m in BackedNames(d.tables[u].constraints);
      LessTotal(n, u);
      BackingOf(tables - {n}, u, m);
    }
  }

  lemma BackingHere(s: Db, d: Db, source: SchemaSnapshot, target: SchemaSnapshot, i: nat, m: string)
    requires i < |TableNames(source, target)| && Named(source, s) && Named(target, d)
    requires TableNames(source, target)[i] in s.tables && m !in Backing(s.tables - {TableNames(source, target)[i]})
    ensures var n := TableNames(source, target)[i];
      m in Backing(Here(s, d, source, target, 5, i).tables - {n}) <==>
        m in Backing(RemovedTables(s, d)) || Later(s, d, n, m)
  {
    hide Here, BackedNames, Less, RemovedTables, Later, ConstraintsHere;
    var n := TableNames(source, target)[i];
    var tables := Here(s, d, source, target, 5, i).tables;
    forall u
      ensures (u in tables <==> u in d.tables || (u in s.tables && Less(u, n))) &&
        (u in tables ==> BackedNames(tables[u].constraints) == BackedNames(ConstraintsHere(s, d, n, u)))
    {
      HereAt(s, d, source, target, i, u);
    }
    if m in Backing(tables - {n}) {
      var u :| u in tables - {n} && m in BackedNames((tables - {n})[u].constraints);
      BackedBy(s, d, n, tables, u, m);
    }
    if m in Backing(RemovedTables(s, d)) || Later(s, d, n, m) {
      StillBacked(s, d, n, tables, m);
    }
  }

  lemma BackingOf(tables: map<string, Table>, u: string, m: string)
    requires u in tables && m in BackedNames(tables[u].constraints)
    ensures m in Backing(tables)
  {
  }

  // A name of the table's own: it is not used for anything else in the source.
  ghost predicate OwnName(s: Db, d: Db, n: string, m: string) {
    m !in s.sequences && m !in s.indexes && m !in s.views && (m in s.tables ==> m == n && n !in d.tables) &&
    m !in Backing(s.tables - {n})
  }

  // The relations of other kinds with such a name are the ones dropped later.
  lemma RelationsHere(s: Db, d: Db, source: SchemaSnapshot, target: SchemaSnapshot, i: nat, m: string)
    requires i < |TableNames(source, target)| && Named(source, s) && Named(target, d)
    requires OwnName(s, d, TableNames(source, target)[i], m)
    ensures var db := Here(s, d, source, target, 5, i);
      m in db.sequences || m in db.tables || m in db.indexes || m in db.views <==>
      m in d.sequences.Keys - s.sequences.Keys || m in RemovedTables(s, d) ||
        (m in d.indexes && d.indexes[m].table !in s.tables)
  {
    hide Here, Backing;
    var n := TableNames(source, target)[i];
    HereAt(s, d, source, target, i, m);
    LessTotal(n, n);
    HereAtFive(s, d, source, target, i);
  }

  lemma OthersHere(s: Db, d: Db, source: SchemaSnapshot, target: SchemaSnapshot, i: nat, m: string)
    requires i < |TableNames(source, target)| && Named(source, s) && Named(target, d)
    requires TableNames(source, target)[i] in s.tables && OwnName(s, d, TableNames(source, target)[i], m)
    ensures var n := TableNames(source, target)[i];
      m in OtherNames(Here(s, d, source, target, 5, i), n) <==> !FreeInTurn(s, d, n, m)
  {
    hide Here, Backing, DroppedLate, BackedNames, RemovedTables;
    RelationsHere(s, d, source, target, i, m);
    BackingHere(s, d, source, target, i, m);
    LateNames(s, d, m);
  }

  lemma OwnConstraint(s: Db, d: Db, n: string, k: string)
    requires NamesDisjoint(s) && n in s.tables && k in BackedNames(s.tables[n].constraints)
    ensures OwnName(s, d, n, k) && k != n
  {
    BackingOf(s.tables, n, k);
  }

  lemma OwnTable(s: Db, d: Db, n: string)
    requires NamesDisjoint(s) && n in s.tables && n !in d.tables
    ensures OwnName(s, d, n, n)
  {
  }

  lemma RestsHere(pg: Reader, s: Db, d: Db, source: SchemaSnapshot, target: SchemaSnapshot, i: nat, n: string,
                  k: string)
    requires i <= |TableNames(source, target)|
    ensures Rested(pg, Here(s, d, source, target, 5, i).tables, n, k) <==> RestedThroughout(pg, s, d, n, k)
  {
    hide Rested, RestedThroughout, TablesAt, ForeignHeld;
    var tables := Here(s, d, source, target, 5, i).tables;
    forall t, x
      ensures ForeignIn(tables, t, x) <==> ForeignHeld(s, d, t, x)
    {
      HeldAt(s, d, 5, t, x);
      HeldAt(s, d, 6, t, x);
      HereEither(s, d, source, target, i, t);
    }
    RestsHeld(pg, s, d, tables, n, k);
  }

  lemma HereEither(s: Db, d: Db, source: SchemaSnapshot, target: SchemaSnapshot, i: nat, t: string)
    requires i <= |TableNames(source, target)|
    ensures var tables := Here(s, d, source, target, 5, i).tables;
      ((t in tables <==> t in TablesAt(s, d, 5)) && (t in tables ==> tables[t] == TablesAt(s, d, 5)[t])) ||
      ((t in tables <==> t in TablesAt(s, d, 6)) && (t in tables ==> tables[t] == TablesAt(s, d, 6)[t]))
  {
    hide TablesAt;
  }

  /* The types a retyped column finds in the other tables. */

  ghost predicate ReferencesKnown(pg: Reader, d: Db) {
    forall t, k :: ForeignIn(d.tables, t, k) && pg.references(d.tables[t].constraints[k].definition).Some? ==>
      pg.references(d.tables[t].constraints[k].definition).value in d.tables
  }

  // For the table `n`, the tables `a` are the tables `b` and perhaps some without foreign keys.
  ghost predicate TypedAlike(pg: Reader, a: map<string, Table>, b: map<string, Table>, n: string) {
    n in a && n in b && a[n].constraints == b[n].constraints && a[n].columns == b[n].columns &&
    (forall t <- b :: t in a && a[t].columns == b[t].columns) &&
    (forall t, k :: ForeignIn(a, t, k) <==> ForeignIn(b, t, k)) &&
    (forall t, k ::
      ForeignIn(b, t, k) ==> t in a && k in a[t].constraints && a[t].constraints[k] == b[t].constraints[k]) &&
    (forall t, k :: ForeignIn(b, t, k) && pg.references(b[t].constraints[k].definition).Some? ==>
       pg.references(b[t].constraints[k].definition).value in b)
  }

  lemma JoinsAlike(pg: Reader, a: map<string, Table>, b: map<string, Table>, n: string, t: string, k: string)
    requires TypedAlike(pg, a, b, n) && ForeignIn(b, t, k)
    ensures t in a && k in a[t].constraints
    ensures JoinSound(pg, a, t, a[t].constraints[k].definition, n) ==
      JoinSound(pg, b, t, b[t].constraints[k].definition, n)
  {
  }

  lemma TypesAlike(pg: Reader, a: map<string, Table>, b: map<string, Table>, indexes: map<string, Index>, n: string)
    requires TypedAlike(pg, a, b, n)
    ensures TypesSound(pg, a, indexes, n) == TypesSound(pg, b, indexes, n)
  {
    hide JoinSound, Types;
    forall t, k | ForeignIn(b, t, k)
      ensures ForeignIn(a, t, k) && JoinSound(pg, a, t, a[t].constraints[k].definition, n) ==
                                    JoinSound(pg, b, t, b[t].constraints[k].definition, n)
    {
      JoinsAlike(pg, a, b, n, t, k);
    }
    TypesByJoins(pg, a, indexes, n);
    TypesByJoins(pg, b, indexes, n);
  }

  lemma TypesByJoins(pg: Reader, tables: map<string, Table>, indexes: map<string, Index>, n: string)
    requires n in tables
    ensures TypesSound(pg, tables, indexes, n) <==>
      (forall k <- tables[n].constraints :: !IsForeign(tables[n].constraints[k]) ==>
         pg.fits(tables[n].constraints[k].definition, Types(tables[n].columns))) &&
      (forall i <- indexes :: indexes[i].table == n ==> pg.fits(indexes[i].text, Types(tables[n].columns))) &&
      (forall t, k :: ForeignIn(tables, t, k) ==> JoinSound(pg, tables, t, tables[t].constraints[k].definition, n))
  {
    hide JoinSound, Types;
  }

  lemma HereColumns(s: Db, d: Db, source: SchemaSnapshot, target: SchemaSnapshot, i: nat, t: string)
    requires i < |TableNames(source, target)| && Named(source, s) && Named(target, d) && t in d.tables
    ensures var tables, n := Here(s, d, source, target, 5, i).tables, TableNames(source, target)[i];
      t in tables &&
      tables[t].columns == if t in s.tables && Less(t, n) then s.tables[t].columns else d.tables[t].columns
  {
    hide Less;
    var names := TableNames(source, target);
    assert t in names;
    Earlier(names, i, t);
    HereOld(s, d, source, target, i, t);
  }

  lemma HereOld(s: Db, d: Db, source: SchemaSnapshot, target: SchemaSnapshot, i: nat, t: string)
    requires i < |TableNames(source, target)| && t in d.tables
    ensures var tables := Here(s, d, source, target, 5, i).tables;
      t in tables &&
      tables[t] == if t !in s.tables then OldTable(5, d.tables[t])
                   else KeptTable(if t in TableNames(source, target)[..i] then 6 else 5, s.tables[t], d.tables[t])
  {
    if t in s.tables {
      KeptAt(s, d, 5, t);
      KeptAt(s, d, 6, t);
    } else {
      OldAt(s, d, 5, t);
      OldAt(s, d, 6, t);
    }
  }

  lemma HereForeign(s: Db, d: Db, source: SchemaSnapshot, target: SchemaSnapshot, i: nat, t: string, k: string)
    requires i < |TableNames(source, target)| && ForeignHeld(s, d, t, k)
    ensures var tables := Here(s, d, source, target, 5, i).tables;
      t in tables && k in tables[t].constraints && tables[t].constraints[k] == d.tables[t].constraints[k]
  {
    HereOld(s, d, source, target, i, t);
  }

  lemma ForeignHere(s: Db, d: Db, source: SchemaSnapshot, target: SchemaSnapshot, i: nat, t: string, k: string)
    requires i <= |TableNames(source, target)|
    ensures ForeignIn(Here(s, d, source, target, 5, i).tables, t, k) <==> ForeignHeld(s, d, t, k)
  {
    hide TablesAt, ForeignHeld;
    HeldAt(s, d, 5, t, k);
    HeldAt(s, d, 6, t, k);
    HereEither(s, d, source, target, i, t);
  }

  lemma ForeignInTurn(s: Db, d: Db, n: string, columns: map<string, Column>, t: string, k: string)
    ensures ForeignIn(TablesInTurn(s, d, n, columns), t, k) <==> ForeignHeld(s, d, t, k)
    ensures ForeignHeld(s, d, t, k) ==> TablesInTurn(s, d, n, columns)[t].constraints[k] == d.tables[t].constraints[k]
  {
  }

  lemma HeldIn(s: Db, d: Db, t: string, k: string)
    requires ForeignHeld(s, d, t, k)
    ensures ForeignIn(d.tables, t, k)
  {
  }

  lemma TypedHere(pg: Reader, s: Db, d: Db, source: SchemaSnapshot, target: SchemaSnapshot, i: nat,
                  columns: map<string, Column>)
    requires i < |TableNames(source, target)| && Named(source, s) && Named(target, d) && ReferencesKnown(pg, d)
    requires TableNames(source, target)[i] in s.tables && TableNames(source, target)[i] in d.tables
    ensures var n := TableNames(source, target)[i]; var tables := Here(s, d, source, target, 5, i).tables;
      n in tables && n in TablesInTurn(s, d, n, columns) &&
        TypedAlike(pg, tables[n := tables[n].(columns := columns)], TablesInTurn(s, d, n, columns), n)
  {
    hide Here, ForeignHeld, Less;
    var n := TableNames(source, target)[i];
    var tables := Here(s, d, source, target, 5, i).tables;
    KeptHere(s, d, source, target, 5, i);
    var a, b := tables[n := tables[n].(columns := columns)], TablesInTurn(s, d, n, columns);
    forall t | t in b
      ensures t in a && a[t].columns == b[t].columns
    {
      HereColumns(s, d, source, target, i, t);
    }
    forall t, k
      ensures ForeignIn(a, t, k) <==> ForeignHeld(s, d, t, k)
      ensures ForeignIn(b, t, k) <==> ForeignHeld(s, d, t, k)
    {
      ForeignHere(s, d, source, target, i, t, k);
      ForeignInTurn(s, d, n, columns, t, k);
    }
    forall t, k | ForeignHeld(s, d, t, k)
      ensures t in a && k in a[t].constraints && a[t].constraints[k] == d.tables[t].constraints[k]
      ensures ForeignIn(d.tables, t, k) && b[t].constraints[k] == d.tables[t].constraints[k]
    {
      HereForeign(s, d, source, target, i, t, k);
      ForeignInTurn(s, d, n, columns, t, k);
      HeldIn(s, d, t, k);
    }
  }

  lemma AroundHere(pg: Reader, s: Db, d: Db, source: SchemaSnapshot, target: SchemaSnapshot, i: nat)
    requires i < |TableNames(source, target)| && Named(source, s) && Named(target, d) && ReferencesKnown(pg, d)
    requires TableNames(source, target)[i] in s.tables && TableNames(source, target)[i] in d.tables
    ensures var n := TableNames(source, target)[i];
      n in Here(s, d, source, target, 5, i).tables && TypesAround(pg, s, d, Here(s, d, source, target, 5, i), n)
  {
    hide Here, TypesSound, TypedAlike, TablesInTurn, ReferencesKnown;
    var n := TableNames(source, target)[i];
    var db := Here(s, d, source, target, 5, i);
    HereAtFive(s, d, source, target, i);
    KeptHere(s, d, source, target, 5, i);
    forall columns: map<string, Column>
      ensures n in TablesInTurn(s, d, n, columns) &&
        TypesSound(pg, db.tables[n := db.tables[n].(columns := columns)], db.indexes, n) ==
        TypesSound(pg, TablesInTurn(s, d, n, columns), KeptIndexes(s, d), n)
    {
      TypedHere(pg, s, d, source, target, i, columns);
      TypesAlike(pg, db.tables[n := db.tables[n].(columns := columns)], TablesInTurn(s, d, n, columns), db.indexes, n);
    }
  }

  // What holds of one table and the rest of both schemas.
  ghost predicate TableReady(pg: Reader, s: Db, d: Db, n: string) {
    (n in s.tables ==> TableSound(pg, s, s.tables[n])) && (n in d.tables ==> TableSound(pg, d, d.tables[n])) &&
    (n in s.tables && n in d.tables ==> Expressible(s.tables[n], d.tables[n])) &&
    NamesDisjoint(s) && IndexesSound(pg, s) && Owning(pg, s, d) && ReferencesKnown(pg, d)
  }

  // Every sequence that belongs to a column belongs to one the source has.
  ghost predicate Owning(pg: Reader, s: Db, d: Db) {
    forall q :: (q in d.sequences || q in s.sequences) && pg.owner(q).Some? ==>
      pg.owner(q).value.0 in s.tables && pg.owner(q).value.1 in s.tables[pg.owner(q).value.0].columns
  }

  lemma BackedIs(constraints: map<string, Constraint>, k: string)
    requires k in constraints && IsBacked(constraints[k])
    ensures k in BackedNames(constraints)
  {
  }

  lemma PlacedHere(pg: Reader, source: SchemaSnapshot, target: SchemaSnapshot, s: Db, d: Db, i: nat)
    requires i < |TableNames(source, target)| && Named(source, s) && Named(target, d) && NamesDisjoint(s)
    requires TableNames(source, target)[i] in s.tables
    ensures var n := TableNames(source, target)[i];
      Placed(pg, s, d, Here(s, d, source, target, 5, i), n, s.tables[n].constraints)
  {
    hide Here, OtherNames, FreeInTurn, Rested, RestedThroughout, NamesDisjoint, OwnName, BackedNames;
    var n := TableNames(source, target)[i];
    var db := Here(s, d, source, target, 5, i);
    HereAtFive(s, d, source, target, i);
    forall k
      ensures Rested(pg, db.tables, n, k) <==> RestedThroughout(pg, s, d, n, k)
    {
      RestsHere(pg, s, d, source, target, i, n, k);
    }
    forall k | k in s.tables[n].constraints && IsBacked(s.tables[n].constraints[k])
      ensures k in OtherNames(db, n) <==> !FreeInTurn(s, d, n, k)
    {
      BackedIs(s.tables[n].constraints, k);
      OwnConstraint(s, d, n, k);
      OthersHere(s, d, source, target, i, k);
    }
  }

  lemma BeforeFive(pg: Reader, source: SchemaSnapshot, target: SchemaSnapshot, s: Db, d: Db, i: nat)
    requires i < |TableNames(source, target)| && Named(source, s) && Named(target, d)
    requires IndexesSound(pg, s) && NamesDisjoint(s) && Owning(pg, s, d) && ReferencesKnown(pg, d)
    requires TableNames(source, target)[i] in s.tables && TableNames(source, target)[i] in d.tables
    ensures BeforeTables(pg, s, d, Here(s, d, source, target, 5, i), TableNames(source, target)[i])
  {
    hide Here, NamesDisjoint, IndexesSound, Placed, ReferencesKnown, TypesAround;
    KeptHere(s, d, source, target, 5, i);
    HereAtFive(s, d, source, target, i);
    PlacedHere(pg, source, target, s, d, i);
    AroundHere(pg, s, d, source, target, i);
    KeptMention(pg, s, d, Here(s, d, source, target, 5, i), TableNames(source, target)[i]);
  }

  lemma ReshapeKept(pg: Reader, source: SchemaSnapshot, target: SchemaSnapshot, s: Db, d: Db, i: nat)
    requires i < |TableNames(source, target)| && TwoSides(source, target, s, d, TableNames(source, target)[i])
    requires TableNames(source, target)[i] in s.tables && TableNames(source, target)[i] in d.tables
    requires TableReady(pg, s, d, TableNames(source, target)[i])
    ensures TableSteps(pg, source, target, s, d, 5, TablesOk(pg, source, target, s, d), i)
  {
    hide Run, Here, TablesAt, KeptTable, KeptTableApplies, TableSound, BeforeTables, TableSteps, NamesDisjoint,
      IndexesSound, Owning, ReferencesKnown, Expressible, Described, Stage, AlterPhase;
    var n := TableNames(source, target)[i];
    var db := Here(s, d, source, target, 5, i);
    BeforeFive(pg, source, target, s, d, i);
    AlterRun(pg, s, d, db, target.schema, n, source.tables[n], target.tables[n]);
    KeptTurns(pg, source, target, s, d, 5, TablesOk(pg, source, target, s, d), i);
  }

  // What a new table finds.
  lemma NewPlacedHere(s: Db, d: Db, source: SchemaSnapshot, target: SchemaSnapshot, i: nat)
    requires i < |TableNames(source, target)| && Named(source, s) && Named(target, d) && NamesDisjoint(s)
    requires TableNames(source, target)[i] in s.tables && TableNames(source, target)[i] !in d.tables
    ensures var n := TableNames(source, target)[i];
      NewPlaced(s, d, Here(s, d, source, target, 5, i), n, s.tables[n].constraints)
  {
    hide Here, FreeInTurn, NamesDisjoint, OwnName, BackedNames, Backing;
    var n := TableNames(source, target)[i];
    var db := Here(s, d, source, target, 5, i);
    HereAtFive(s, d, source, target, i);
    HereAt(s, d, source, target, i, n);
    LessTotal(n, n);
    assert db.tables - {n} == db.tables;
    OwnTable(s, d, n);
    OthersHere(s, d, source, target, i, n);
    forall k | k in s.tables[n].constraints && IsBacked(s.tables[n].constraints[k])
      ensures k in Taken(db, n) <==> !FreeInTurn(s, d, n, k)
    {
      BackedIs(s.tables[n].constraints, k);
      OwnConstraint(s, d, n, k);
      OthersHere(s, d, source, target, i, k);
      assert PutTable(db, n, Bare(None, map[], map[])).tables - {n} == db.tables;
    }
  }

  lemma CreatePhaseTables(n: string, from: TableSnapshot)
    ensures CreatePhase(Tables, n, from) == [CreateTableStatement(n, from)]
  {
  }

  lemma BothNamed(source: SchemaSnapshot, target: SchemaSnapshot, s: Db, d: Db, n: string)
    requires TwoSides(source, target, s, d, n)
    ensures Named(source, s) && Named(target, d)
  {
  }

  lemma NewOk(pg: Reader, source: SchemaSnapshot, target: SchemaSnapshot, s: Db, d: Db, i: nat)
    requires i < |TableNames(source, target)| && Named(source, s) && Named(target, d)
    requires TableNames(source, target)[i] in s.tables && TableNames(source, target)[i] !in d.tables
    ensures var n := TableNames(source, target)[i];
      5 < PHASE_COUNT && PhaseAt(5) == Tables && n in source.tables &&
      TablesOk(pg, source, target, s, d)(i) == NewTableApplies(pg, s, d, n, s.tables[n])
  {
    hide NewTableApplies, KeptTableApplies;
  }

  lemma ReshapeNew(pg: Reader, source: SchemaSnapshot, target: SchemaSnapshot, s: Db, d: Db, i: nat)
    requires i < |TableNames(source, target)| && TwoSides(source, target, s, d, TableNames(source, target)[i])
    requires TableNames(source, target)[i] in s.tables && TableNames(source, target)[i] !in d.tables
    requires TableReady(pg, s, d, TableNames(source, target)[i])
    ensures Named(source, s) && Named(target, d)
    ensures TableSteps(pg, source, target, s, d, 5, TablesOk(pg, source, target, s, d), i)
  {
    hide *;
    var n := TableNames(source, target)[i];
    BothNamed(source, target, s, d, n);
    NewOk(pg, source, target, s, d, i);
    NewRuns(pg, source, target, s, d, i);
    NewTurns(pg, source, target, s, d, 5, TablesOk(pg, source, target, s, d), i);
  }

  lemma NewRuns(pg: Reader, source: SchemaSnapshot, target: SchemaSnapshot, s: Db, d: Db, i: nat)
    requires i < |TableNames(source, target)| && TwoSides(source, target, s, d, TableNames(source, target)[i])
    requires TableNames(source, target)[i] in s.tables && TableNames(source, target)[i] !in d.tables
    requires TableReady(pg, s, d, TableNames(source, target)[i])
    ensures var n := TableNames(source, target)[i];
      n in source.tables && Run(pg, Here(s, d, source, target, 5, i), CreatePhase(Tables, n, source.tables[n])) ==
      Outcome(NewTableApplies(pg, s, d, n, s.tables[n]),
              PutTable(Here(s, d, source, target, 5, i), n, NewTable(6, s.tables[n])))
  {
    hide Run, Stage, Here, NewTable, NewTableApplies, TableSound, NewPlaced, NamesDisjoint, IndexesSound, Owning,
      ReferencesKnown, Expressible, CreateTableStatement, PutTable, Described, CreatePhase;
    var n := TableNames(source, target)[i];
    var db := Here(s, d, source, target, 5, i);
    HereAtFive(s, d, source, target, i);
    NewPlacedHere(s, d, source, target, i);
    CreatePhaseTables(n, source.tables[n]);
    CreateRun(pg, s, d, db, n, source.tables[n]);
  }

  lemma ReshapeStep(pg: Reader, source: SchemaSnapshot, target: SchemaSnapshot, s: Db, d: Db, i: nat)
    requires i < |TableNames(source, target)| && TwoSides(source, target, s, d, TableNames(source, target)[i])
    requires TableReady(pg, s, d, TableNames(source, target)[i])
    ensures TableSteps(pg, source, target, s, d, 5, TablesOk(pg, source, target, s, d), i)
  {
    hide TableReady, TableSteps, KeptTableApplies, NewTableApplies;
    var n := TableNames(source, target)[i];
    if n !in s.tables {
      OldUntouched(pg, source, target, s, d, 5, TablesOk(pg, source, target, s, d), i);
    } else if n !in d.tables {
      ReshapeNew(pg, source, target, s, d, i);
    } else {
      ReshapeKept(pg, source, target, s, d, i);
    }
  }

  ghost predicate TablesReady(pg: Reader, s: Db, d: Db) {
    AllSound(pg, s) && AllSound(pg, d) && AllExpressible(s, d) && NamesDisjoint(s) && IndexesSound(pg, s) &&
      Owning(pg, s, d)
  }

  lemma AllReferencesKnown(pg: Reader, d: Db)
    requires AllSound(pg, d)
    ensures ReferencesKnown(pg, d)
  {
    forall t, k | ForeignIn(d.tables, t, k) && pg.references(d.tables[t].constraints[k].definition).Some?
      ensures pg.references(d.tables[t].constraints[k].definition).value in d.tables
    {
      assert TableSound(pg, d, d.tables[t]);
      assert ConstraintSound(pg, d, d.tables[t].columns, d.tables[t].constraints[k]);
    }
  }

  lemma ReshapeAll(pg: Reader, source: SchemaSnapshot, target: SchemaSnapshot, s: Db, d: Db)
    requires TablesOf(source, s) && TablesOf(target, d) && TablesReady(pg, s, d)
    ensures forall i: nat :: i < |TableNames(source, target)| ==>
      TableSteps(pg, source, target, s, d, 5, TablesOk(pg, source, target, s, d), i)
  {
    hide NamesDisjoint, IndexesSound, Owning, TableSteps, TableSound, Expressible, ReferencesKnown;
    AllReferencesKnown(pg, d);
    forall i: nat | i < |TableNames(source, target)|
      ensures TableSteps(pg, source, target, s, d, 5, TablesOk(pg, source, target, s, d), i)
    {
      Sides(source, target, s, d, i);
      ReshapeStep(pg, source, target, s, d, i);
    }
  }

  lemma TablesOkMeans(pg: Reader, source: SchemaSnapshot, target: SchemaSnapshot, s: Db, d: Db)
    requires Named(source, s) && Named(target, d) && AllExpressible(s, d)
    ensures AllOk(TablesOk(pg, source, target, s, d), |TableNames(source, target)|) <==>
      TablesApply(pg, source, target, s, d)
  {
    hide KeptTableApplies, NewTableApplies;
    var names := TableNames(source, target);
    var ok := TablesOk(pg, source, target, s, d);
    if AllOk(ok, |names|) {
      forall n | n in s.tables
        ensures TableOk(pg, source, target, s, d, n)
      {
        assert n in names;
        var i: nat :| i < |names| && names[i] == n;
        assert ok(i);
      }
    }
    if TablesApply(pg, source, target, s, d) {
      forall n
        ensures TableOk(pg, source, target, s, d, n)
      {
      }
    }
  }

  lemma ReshapeNamed(source: SchemaSnapshot, target: SchemaSnapshot, s: Db, d: Db)
    requires TablesOf(source, s) && TablesOf(target, d)
    ensures Named(source, s) && Named(target, d)
    ensures 5 < PHASE_COUNT && TablesIn(PhaseAt(5))
  {
  }

  lemma ReadyMeans(pg: Reader, s: Db, d: Db)
    requires TablesReady(pg, s, d)
    ensures AllExpressible(s, d)
  {
  }

  lemma SameNames(source: SchemaSnapshot, s: Db)
    requires Named(source, s)
    ensures s.tables.Keys == source.tables.Keys
  {
  }

  lemma ReshapeRun(pg: Reader, source: SchemaSnapshot, target: SchemaSnapshot, s: Db, d: Db)
    requires TablesOf(source, s) && TablesOf(target, d) && TablesReady(pg, s, d)
    ensures PhaseRuns(pg, source, target, s, d, 5, TablesApply(pg, source, target, s, d))
  {
    hide *;
    ReshapeNamed(source, target, s, d);
    SameNames(source, s);
    SameNames(target, d);
    ReadyMeans(pg, s, d);
    ReshapeAll(pg, source, target, s, d);
    TablesOkMeans(pg, source, target, s, d);
    OnlyTablesChange(s, d, 5);
    TablePhaseDone(pg, source, target, s, d, 5, TablesOk(pg, source, target, s, d),
                   TablesApply(pg, source, target, s, d));
  }

  /* ---- Phase 12: tables are dropped ---- */

  // Dropping a table takes its indexes with it.
  function OnTables(indexes: map<string, Index>, tables: map<string, Table>): map<string, Index> {
    indexes - set i | i in indexes && indexes[i].table !in tables
  }

  function PutRemaining(db: Db): map<string, Table> -> Db {
    tables => db.(tables := tables, indexes := OnTables(db.indexes, tables))
  }

  // Nothing left in the schema points at a table the source does not have.
  ghost predicate Unreferenced(pg: Reader, s: Db, d: Db) {
    forall n <- d.tables :: n !in s.tables ==>
      !Referenced(pg, TablesAt(s, d, 12), n) && !ReadRelation(pg, s.views, n) && !RowsTaken(pg, s.routines, n)
  }

  lemma StillUnreferenced(pg: Reader, all: map<string, Table>, tables: map<string, Table>, n: string)
    requires !Referenced(pg, all, n) && forall t <- tables :: t in all && tables[t] == all[t]
    ensures !Referenced(pg, tables, n)
  {
  }

  ghost predicate OwnsNone(pg: Reader, db: Db, n: string) {
    forall q <- db.sequences :: pg.owner(q).Some? ==> pg.owner(q).value.0 != n
  }

  lemma DropOneTable(pg: Reader, db: Db, tables: map<string, Table>, n: string)
    requires n in tables && !Referenced(pg, tables, n) && !ReadRelation(pg, db.views, n) && OwnsNone(pg, db, n)
    requires !RowsTaken(pg, db.routines, n)
    ensures Exec(pg, PutRemaining(db)(tables), DropTable(n)) == Some(PutRemaining(db)(tables - {n}))
  {
    var here := PutRemaining(db)(tables);
    assert OwnedByTable(pg, db.sequences, n) == {};
    assert db.sequences - {} == db.sequences;
    assert here.indexes - IndexesOn(here.indexes, n) == OnTables(db.indexes, tables - {n});
  }

  lemma StaysAtTwelve(s: Db, d: Db, n: string)
    requires n in s.tables
    ensures var before, after := TablesAt(s, d, 12), TablesAt(s, d, 13);
      n in before && n in after && before[n] == after[n]
  {
    if n in d.tables {
      KeptAt(s, d, 12, n);
      KeptAt(s, d, 13, n);
    } else {
      NewAt(s, d, 12, n);
      NewAt(s, d, 13, n);
    }
  }

  // A table the source lacks, when its turn to be dropped comes.
  lemma DropOld(pg: Reader, s: Db, d: Db, names: seq<string>, i: nat)
    requires i < |names| && Ascending(names) && Unreferenced(pg, s, d) && Owning(pg, s, d)
    requires names[i] in d.tables && names[i] !in s.tables
    ensures var here := Blend(TablesAt(s, d, 12), TablesAt(s, d, 13), names[..i]);
      names[i] !in TablesAt(s, d, 13) &&
      Exec(pg, PutRemaining(Stage(s, d, 12))(here), DropTable(names[i])) ==
        Some(PutRemaining(Stage(s, d, 12))(here - {names[i]}))
  {
    hide TablesAt, Exec, Referenced, ReadRelation, RowsTaken, PutRemaining;
    var n := names[i];
    var here := Blend(TablesAt(s, d, 12), TablesAt(s, d, 13), names[..i]);
    OldAt(s, d, 12, n);
    OldAt(s, d, 13, n);
    Remaining12(s, d, names, i);
    StillUnreferenced(pg, TablesAt(s, d, 12), here, n);
    DropOneTable(pg, Stage(s, d, 12), here, n);
  }

  lemma DropTablesStep(pg: Reader, source: SchemaSnapshot, target: SchemaSnapshot, s: Db, d: Db, i: nat)
    requires i < |TableNames(source, target)| && Named(source, s) && Named(target, d) && Unreferenced(pg, s, d) &&
      Owning(pg, s, d)
    ensures Steps(pg, EntryPhase(DropTables, TablePart(source, target))(TableNames(source, target)[i]),
                  Mid(PutRemaining(Stage(s, d, 12)), TablesAt(s, d, 12), TablesAt(s, d, 13),
                      TableNames(source, target)),
                  Always(), i)
  {
    hide TablesAt, Stage, PutRemaining, Exec, Run, Steps, Blend, Unreferenced, Owning;
    var names := TableNames(source, target);
    var n := names[i];
    var before, after := TablesAt(s, d, 12), TablesAt(s, d, 13);
    var put := PutRemaining(Stage(s, d, 12));
    var script := EntryPhase(DropTables, TablePart(source, target))(n);
    TableByPhase(DropTables, source, target, n);
    Listed(source, target, i);
    if n in s.tables {
      DropTablesOthers(source, target, n);
      StaysAtTwelve(s, d, n);
      BlendNoop(pg, script, put, before, after, names, Always(), i);
    } else {
      DropOld(pg, s, d, names, i);
      BlendExec(pg, script, put, before, after, names, Always(), i);
    }
  }

  lemma Remaining12(s: Db, d: Db, names: seq<string>, i: nat)
    requires i < |names| && Ascending(names)
    ensures var here := Blend(TablesAt(s, d, 12), TablesAt(s, d, 13), names[..i]);
      forall t <- here :: t in TablesAt(s, d, 12) && here[t] == TablesAt(s, d, 12)[t]
    ensures names[i] in TablesAt(s, d, 12) ==> names[i] in Blend(TablesAt(s, d, 12), TablesAt(s, d, 13), names[..i])
  {
    NewName(names, i);
  }

  lemma DropTablesOthers(source: SchemaSnapshot, target: SchemaSnapshot, n: string)
    requires n in source.tables
    ensures TablePhase(DropTables, source, target, n) == []
  {
  }

  lemma TableKeys(s: Db, d: Db)
    ensures TablesAt(s, d, 12).Keys == s.tables.Keys + d.tables.Keys
    ensures TablesAt(s, d, 13).Keys == s.tables.Keys
  {
  }

  lemma IndexTablesKnown(pg: Reader, s: Db, i: string)
    requires IndexesSound(pg, s) && i in s.indexes
    ensures s.indexes[i].table in s.tables
  {
    assert IndexSound(pg, s, s.indexes[i]);
  }

  lemma OnAllTables(pg: Reader, s: Db, d: Db, tables: map<string, Table>)
    requires IndexesSound(pg, s) && IndexesSound(pg, d) && tables.Keys == s.tables.Keys + d.tables.Keys
    ensures OnTables(KeptIndexes(s, d) + s.indexes, tables) == KeptIndexes(s, d) + s.indexes
  {
    var all := KeptIndexes(s, d) + s.indexes;
    forall i | i in all
      ensures all[i].table in tables
    {
      if i in s.indexes { IndexTablesKnown(pg, s, i); } else { IndexTablesKnown(pg, d, i); }
    }
  }

  lemma OnSourceTables(pg: Reader, s: Db, d: Db, tables: map<string, Table>)
    requires IndexesSound(pg, s) && tables.Keys == s.tables.Keys
    ensures OnTables(KeptIndexes(s, d) + s.indexes, tables) == s.indexes
  {
    var all := KeptIndexes(s, d) + s.indexes;
    forall i | i in s.indexes
      ensures all[i].table in tables
    {
      IndexTablesKnown(pg, s, i);
    }
  }

  lemma IndexTables(pg: Reader, s: Db, d: Db)
    requires IndexesSound(pg, s) && IndexesSound(pg, d)
    ensures OnTables(KeptIndexes(s, d) + s.indexes, TablesAt(s, d, 12)) == KeptIndexes(s, d) + s.indexes
    ensures OnTables(KeptIndexes(s, d) + s.indexes, TablesAt(s, d, 13)) == s.indexes
  {
    TableKeys(s, d);
    OnAllTables(pg, s, d, TablesAt(s, d, 12));
    OnSourceTables(pg, s, d, TablesAt(s, d, 13));
  }

  lemma AfterDropTables(pg: Reader, s: Db, d: Db)
    requires IndexesSound(pg, s) && IndexesSound(pg, d)
    ensures PutRemaining(Stage(s, d, 12))(TablesAt(s, d, 12)) == Stage(s, d, 12)
    ensures PutRemaining(Stage(s, d, 12))(TablesAt(s, d, 13)) == Stage(s, d, 13)
  {
    IndexTables(pg, s, d);
    assert Stage(s, d, 12).indexes == KeptIndexes(s, d) + s.indexes;
  }

  lemma DropTablesBlend(pg: Reader, source: SchemaSnapshot, target: SchemaSnapshot, s: Db, d: Db)
    requires Named(source, s) && Named(target, d) && Unreferenced(pg, s, d) && IndexesSound(pg, s) &&
      IndexesSound(pg, d)
    requires Owning(pg, s, d)
    ensures Run(pg, Stage(s, d, 12), TableScript(DropTables, source, target)) == Outcome(true, Stage(s, d, 13))
  {
    hide Run, Stage;
    var names := TableNames(source, target);
    var part := EntryPhase(DropTables, TablePart(source, target));
    var put := PutRemaining(Stage(s, d, 12));
    forall i: nat | i < |names|
      ensures Steps(pg, part(names[i]), Mid(put, TablesAt(s, d, 12), TablesAt(s, d, 13), names), Always(), i)
    {
      DropTablesStep(pg, source, target, s, d, i);
    }
    RunBlend(pg, names, part, put, TablesAt(s, d, 12), TablesAt(s, d, 13), Always());
    AfterDropTables(pg, s, d);
  }

  lemma DropTablesRun(pg: Reader, source: SchemaSnapshot, target: SchemaSnapshot, s: Db, d: Db)
    requires Named(source, s) && Named(target, d) && Unreferenced(pg, s, d) && IndexesSound(pg, s) &&
      IndexesSound(pg, d)
    requires Owning(pg, s, d)
    ensures PhaseRuns(pg, source, target, s, d, 12, true)
  {
    hide *;
    PhaseNames();
    DropTablesBlend(pg, source, target, s, d);
    TablePhaseIs(pg, source, target, s, d, 12, true);
  }

  // Removed tables have lost their foreign keys, and the source refers only to its own tables.
  lemma NothingRefers(pg: Reader, s: Db, d: Db)
    requires AllSound(pg, s) && NamesDisjoint(d)
    requires forall v <- s.views :: pg.relations(s.views[v].body) <= s.tables.Keys + s.views.Keys
    requires forall v <- s.views :: v !in d.tables
    requires forall k <- s.routines :: pg.relations(s.routines[k].body) <= s.tables.Keys + s.views.Keys
    ensures Unreferenced(pg, s, d)
  {
    forall n | n in d.tables && n !in s.tables
      ensures !Referenced(pg, TablesAt(s, d, 12), n)
    {
      forall t, k | t in TablesAt(s, d, 12) && k in TablesAt(s, d, 12)[t].constraints &&
        IsForeign(TablesAt(s, d, 12)[t].constraints[k])
        ensures pg.references(TablesAt(s, d, 12)[t].constraints[k].definition) != Some(n)
      {
        assert t in s.tables;
        assert TableSound(pg, s, s.tables[t]);
        assert ConstraintSound(pg, s, s.tables[t].columns, s.tables[t].constraints[k]);
      }
    }
  }
}

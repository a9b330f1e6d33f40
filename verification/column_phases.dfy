/** How the changes to one column turn it into the wanted one. */
module ColumnPhases {
  import opened Options
  import opened Gathering
  import opened Names
  import opened Snapshots
  import opened Statements
  import opened Diff
  import opened Database
  import opened Applies
  import opened Stages
  import opened ScriptOrder
  import opened PhaseLists
  import opened TableLists

  function ApplyChanges(pg: Reader, db: Db, n: string, c: Column, changes: seq<ColumnChange>): Option<Column>
    requires n in db.tables
  {
    if changes == [] then Some(c)
    else
      var before := ApplyChanges(pg, db, n, c, changes[..|changes| - 1]);
      if before.None? then None else ChangeColumn(pg, db, n, before.value, changes[|changes| - 1])
  }

  function ApplyFrom(pg: Reader, db: Db, n: string, c: Option<Column>, changes: seq<ColumnChange>): Option<Column>
    requires n in db.tables
  {
    if c.None? then None else ApplyChanges(pg, db, n, c.value, changes)
  }

  lemma {:induction false} ApplyConcat(pg: Reader, db: Db, n: string, c: Column, left: seq<ColumnChange>,
                                       right: seq<ColumnChange>)
    requires n in db.tables
    ensures ApplyChanges(pg, db, n, c, left + right) == ApplyFrom(pg, db, n, ApplyChanges(pg, db, n, c, left), right)
  {
    hide ChangeColumn;
    if right == [] {
      assert left + right == left;
    } else {
      var m := |right| - 1;
      assert (left + right)[..|left| + m] == left + right[..m];
      ApplyConcat(pg, db, n, c, left, right[..m]);
    }
  }

  lemma ApplyOne(pg: Reader, db: Db, n: string, c: Column, change: ColumnChange)
    requires n in db.tables
    ensures ApplyChanges(pg, db, n, c, [change]) == ChangeColumn(pg, db, n, c, change)
  {
    assert [change][..0] == [];
  }

  lemma ApplyFive(pg: Reader, db: Db, n: string, c: Column, v: seq<ColumnChange>, w: seq<ColumnChange>,
                  x: seq<ColumnChange>, y: seq<ColumnChange>, z: seq<ColumnChange>)
    requires n in db.tables
    ensures ApplyChanges(pg, db, n, c, v + w + x + y + z) ==
      ApplyFrom(pg, db, n, ApplyFrom(pg, db, n, ApplyFrom(pg, db, n, ApplyFrom(pg, db, n,
        ApplyChanges(pg, db, n, c, v), w), x), y), z)
  {
    ApplyConcat(pg, db, n, c, v, w);
    ApplyConcat(pg, db, n, c, v + w, x);
    ApplyConcat(pg, db, n, c, v + w + x, y);
    ApplyConcat(pg, db, n, c, v + w + x + y, z);
  }

  /* The five groups of changes, one after the other. */

  lemma TypeConverges(pg: Reader, db: Db, n: string, c: Column, column: Column)
    requires n in db.tables
    ensures ApplyChanges(pg, db, n, c, if c.dataType != column.dataType then [SetType(column.dataType)] else []) ==
            if c.dataType != column.dataType && !Retypes(pg, db, n, c, column.dataType) then None
            else Some(c.(dataType := column.dataType))
  {
    ApplyOne(pg, db, n, c, SetType(column.dataType));
  }

  lemma DropIdentityConverges(pg: Reader, db: Db, n: string, c: Column, drop: bool)
    requires n in db.tables && (drop ==> c.identity.Some?)
    ensures ApplyChanges(pg, db, n, c, if drop then [DropIdentity] else []) ==
            Some(if drop then c.(identity := None) else c)
  {
    ApplyOne(pg, db, n, c, DropIdentity);
  }

  lemma DefaultConverges(pg: Reader, db: Db, n: string, c: Column, existing: Column, column: Column)
    requires n in db.tables && c.default == existing.default && c.generated == existing.generated == column.generated
    requires ColumnShape(existing) && ColumnShape(column)
    requires c.identity == if column.identity.None? then None else existing.identity
    requires column.default.Some? ==> pg.sequences(column.default.value) <= db.sequences.Keys
    ensures ApplyChanges(pg, db, n, c, DefaultChanges(existing, column)) ==
            if existing.default != column.default && !OptionCalls(pg, db, column.default) then None
            else Some(c.(default := column.default))
  {
    ApplyOne(pg, db, n, c, DropDefault);
    if column.default.Some? {
      ApplyOne(pg, db, n, c, SetDefault(column.default.value));
    }
  }

  lemma IdentityConverges(pg: Reader, db: Db, n: string, c: Column, existing: Column, column: Column)
    requires n in db.tables && ColumnShape(existing) && ColumnShape(column)
    requires c.dataType == column.dataType && (column.identity.Some? ==> pg.identityType(column.dataType))
    requires c.notNull == existing.notNull && c.default == column.default && c.generated == column.generated
    requires c.identity == if column.identity.None? then None else existing.identity
    ensures ApplyChanges(pg, db, n, c, IdentityChanges(existing, column)) ==
            Some(c.(identity := column.identity, notNull := column.identity.Some? || c.notNull))
  {
    if column.identity.Some? {
      var always := column.identity.value == 'a';
      if existing.identity.None? {
        if existing.notNull {
          ApplyOne(pg, db, n, c, AddIdentity(always));
          assert IdentityChanges(existing, column) == [AddIdentity(always)];
        } else {
          ApplyConcat(pg, db, n, c, [SetNotNull], [AddIdentity(always)]);
          ApplyOne(pg, db, n, c, SetNotNull);
          ApplyOne(pg, db, n, c.(notNull := true), AddIdentity(always));
        }
      } else {
        ApplyOne(pg, db, n, c, SetIdentity(always));
      }
    }
  }

  lemma NullabilityConverges(pg: Reader, db: Db, n: string, c: Column, existing: Column, column: Column)
    requires n in db.tables && ColumnShape(column)
    requires c.identity == column.identity
    requires c.notNull == (column.identity.Some? || existing.notNull)
    ensures ApplyChanges(pg, db, n, c, NullabilityChanges(existing, column)) ==
            if existing.notNull && !column.notNull && InKey(pg, db.tables[n].constraints, c.name) then None
            else Some(c.(notNull := column.notNull))
  {
    ApplyOne(pg, db, n, c, SetNotNull);
    ApplyOne(pg, db, n, c, DropNotNull);
  }

  ghost predicate ChangesApply(pg: Reader, db: Db, n: string, existing: Column, column: Column)
    requires n in db.tables
  {
    (existing.dataType != column.dataType ==> Retypes(pg, db, n, existing, column.dataType)) &&
    (existing.default != column.default ==> OptionCalls(pg, db, column.default)) &&
    (existing.notNull && !column.notNull ==> !InKey(pg, db.tables[n].constraints, column.name))
  }

  // The column after its type and identity are as wanted, before its default is.
  function Retyped(existing: Column, column: Column): Column {
    existing.(dataType := column.dataType, identity := if column.identity.None? then None else existing.identity)
  }

  lemma FirstHalf(pg: Reader, db: Db, n: string, existing: Column, column: Column)
    requires n in db.tables && existing.name == column.name
    ensures ApplyFrom(pg, db, n,
              ApplyChanges(pg, db, n, existing,
                           if existing.dataType != column.dataType then [SetType(column.dataType)] else []),
              if existing.identity.Some? && column.identity.None? then [DropIdentity] else []) ==
            if existing.dataType != column.dataType && !Retypes(pg, db, n, existing, column.dataType) then None
            else Some(Retyped(existing, column))
  {
    TypeConverges(pg, db, n, existing, column);
    DropIdentityConverges(pg, db, n, existing.(dataType := column.dataType), existing.identity.Some? &&
      column.identity.None?);
  }

  lemma SecondHalf(pg: Reader, db: Db, n: string, existing: Column, column: Column)
    requires n in db.tables && existing.name == column.name && existing.generated == column.generated
    requires ColumnShape(existing) && ColumnShape(column)
    requires column.identity.Some? ==> pg.identityType(column.dataType)
    requires column.default.Some? ==> pg.sequences(column.default.value) <= db.sequences.Keys
    ensures ApplyFrom(pg, db, n, ApplyFrom(pg, db, n,
              ApplyChanges(pg, db, n, Retyped(existing, column), DefaultChanges(existing, column)),
              IdentityChanges(existing, column)), NullabilityChanges(existing, column)) ==
            if existing.default != column.default && !OptionCalls(pg, db, column.default) then None
            else if existing.notNull && !column.notNull && InKey(pg, db.tables[n].constraints, column.name) then None
            else Some(column)
  {
    var c2 := Retyped(existing, column);
    DefaultConverges(pg, db, n, c2, existing, column);
    var c3 := c2.(default := column.default);
    IdentityConverges(pg, db, n, c3, existing, column);
    var c4 := c3.(identity := column.identity, notNull := column.identity.Some? || c3.notNull);
    NullabilityConverges(pg, db, n, c4, existing, column);
    assert c4.(notNull := column.notNull) == column;
  }

  // From any catalog column to any other one with the same generation expression: type, identity, default and NOT NULL
  // are changed in an order PostgreSQL accepts, and the result is the wanted column.
  lemma ColumnConverges(pg: Reader, db: Db, n: string, existing: Column, column: Column)
    requires n in db.tables && existing.name == column.name && existing.generated == column.generated
    requires ColumnShape(existing) && ColumnShape(column)
    requires column.identity.Some? ==> pg.identityType(column.dataType)
    requires column.default.Some? ==> pg.sequences(column.default.value) <= db.sequences.Keys
    ensures ApplyChanges(pg, db, n, existing, ColumnChanges(existing, column)) ==
            if ChangesApply(pg, db, n, existing, column) then Some(column) else None
  {
    ApplyFive(pg, db, n, existing,
              if existing.dataType != column.dataType then [SetType(column.dataType)] else [],
              if existing.identity.Some? && column.identity.None? then [DropIdentity] else [],
              DefaultChanges(existing, column), IdentityChanges(existing, column),
                NullabilityChanges(existing, column));
    FirstHalf(pg, db, n, existing, column);
    SecondHalf(pg, db, n, existing, column);
  }

  /* ---- Running the ALTER COLUMN statements ---- */

  function WithColumns(db: Db, n: string, columns: map<string, Column>): Db
    requires n in db.tables
  {
    PutTable(db, n, db.tables[n].(columns := columns))
  }

  function WithColumn(db: Db, n: string, c: Column): Db
    requires n in db.tables
  {
    WithColumns(db, n, db.tables[n].columns[c.name := c])
  }

  lemma StillFeeds(pg: Reader, columns: map<string, Column>, name: string, c: Column, column: string)
    requires name in columns && columns[name].generated == c.generated
    ensures FeedsColumn(pg, columns[name := c], column) == FeedsColumn(pg, columns, column)
  {
    var after := columns[name := c];
    if x :| x in columns && ComputedFrom(pg, columns[x], column) {
      assert ComputedFrom(pg, after[x], column);
    }
  }

  // What is computed from a column does not depend on the other things a change can change.
  lemma SameChange(pg: Reader, db: Db, n: string, c: Column, change: ColumnChange)
    requires n in db.tables && c.name in db.tables[n].columns && db.tables[n].columns[c.name].generated == c.generated
    ensures ChangeColumn(pg, WithColumn(db, n, c), n, c, change) == ChangeColumn(pg, db, n, c, change)
  {
    hide TypesSound, FeedsColumn, HoldsColumn, ReadByView, InKey, Signatures;
    StillFeeds(pg, db.tables[n].columns, c.name, c, c.name);
    if change.SetType? {
      var t := change.dataType;
      RetypedTwice(db, n, c, c.(dataType := t));
      assert WithColumn(db, n, c).indexes == db.indexes && WithColumn(db, n, c).views == db.views;
      assert Retypes(pg, WithColumn(db, n, c), n, c, t) == Retypes(pg, db, n, c, t);
    }
  }

  lemma RetypedTwice(db: Db, n: string, c: Column, retyped: Column)
    requires n in db.tables && c.name == retyped.name
    ensures WithColumnIn(WithColumn(db, n, c).tables, n, retyped) == WithColumnIn(db.tables, n, retyped)
  {
    var columns := db.tables[n].columns;
    assert columns[c.name := c][c.name := retyped] == columns[c.name := retyped];
  }

  lemma ChangeKeepsName(pg: Reader, db: Db, n: string, c: Column, change: ColumnChange)
    requires n in db.tables && ChangeColumn(pg, db, n, c, change).Some?
    ensures ChangeColumn(pg, db, n, c, change).value.name == c.name
    ensures ChangeColumn(pg, db, n, c, change).value.generated == c.generated
  {
    hide Retypes, Available, InKey;
  }

  lemma ColumnTwice(db: Db, n: string, c: Column, other: Column)
    requires n in db.tables && c.name == other.name
    ensures var t := WithColumn(db, n, c).tables[n];
      PutTable(WithColumn(db, n, c), n, t.(columns := t.columns[c.name := other])) == WithColumn(db, n, other)
  {
    var columns := db.tables[n].columns;
    assert columns[c.name := c][c.name := other] == columns[c.name := other];
    PutTwice(db, n, db.tables[n].(columns := columns[c.name := c]), db.tables[n].(columns := columns[c.name := other]));
  }

  lemma ColumnPut(db: Db, n: string, c: Column)
    requires n in db.tables
    ensures var here := WithColumn(db, n, c);
      n in here.tables && here.tables[n].columns == db.tables[n].columns[c.name := c]
  {
  }

  lemma AlterOne(pg: Reader, db: Db, n: string, c: Column, change: ColumnChange)
    requires n in db.tables && c.name in db.tables[n].columns && db.tables[n].columns[c.name].generated == c.generated
    ensures Exec(pg, WithColumn(db, n, c), AlterColumn(n, c.name, change)) ==
      var changed := ChangeColumn(pg, db, n, c, change);
      if changed.None? then None else Some(WithColumn(db, n, changed.value))
  {
    hide Exec, ChangeColumn, PutTable, WithColumn;
    var here := WithColumn(db, n, c);
    var changed := ChangeColumn(pg, db, n, c, change);
    SameChange(pg, db, n, c, change);
    ColumnPut(db, n, c);
    AlterColumnIs(pg, here, n, c.name, change);
    if changed.Some? {
      ChangeKeepsName(pg, db, n, c, change);
      ColumnTwice(db, n, c, changed.value);
    }
  }

  ghost function WithChanged(db: Db, n: string, c: Option<Column>): Option<Db>
    requires n in db.tables
  {
    if c.None? then None else Some(WithColumn(db, n, c.value))
  }

  lemma SameColumn(db: Db, n: string, name: string)
    requires n in db.tables && name in db.tables[n].columns && db.tables[n].columns[name].name == name
    ensures WithColumn(db, n, db.tables[n].columns[name]) == db
  {
    var columns := db.tables[n].columns;
    assert columns[name := columns[name]] == columns;
    PutSame(db, n);
  }

  lemma {:induction false} ApplyKeepsName(pg: Reader, db: Db, n: string, c: Column, changes: seq<ColumnChange>)
    requires n in db.tables
    ensures var after := ApplyChanges(pg, db, n, c, changes);
      after.Some? ==> after.value.name == c.name && after.value.generated == c.generated
  {
    hide ChangeColumn;
    if changes != [] {
      var before := ApplyChanges(pg, db, n, c, changes[..|changes| - 1]);
      ApplyKeepsName(pg, db, n, c, changes[..|changes| - 1]);
      if before.Some? && ChangeColumn(pg, db, n, before.value, changes[|changes| - 1]).Some? {
        ChangeKeepsName(pg, db, n, before.value, changes[|changes| - 1]);
      }
    }
  }

  lemma {:induction false} RunAlterColumn(pg: Reader, db: Db, n: string, name: string, changes: seq<ColumnChange>)
    requires n in db.tables && name in db.tables[n].columns && db.tables[n].columns[name].name == name
    ensures Run(pg, db, OfPhase(Tables, AlterColumnStatements(n, name, changes))) ==
            WithChanged(db, n, ApplyChanges(pg, db, n, db.tables[n].columns[name], changes))
  {
    hide Exec, ChangeColumn, WithColumn;
    if changes == [] {
      assert OfPhase(Tables, []) == [];
      SameColumn(db, n, name);
    } else {
      var m := |changes| - 1;
      var last := Tagged(Tables, AlterColumn(n, name, changes[m]));
      RunAlterColumn(pg, db, n, name, changes[..m]);
      var front := OfPhase(Tables, AlterColumnStatements(n, name, changes[..m]));
      OfPhaseConcat(Tables, AlterColumnStatements(n, name, changes[..m]), [last]);
      OfPhaseShort(Tables, [last]);
      var c := ApplyChanges(pg, db, n, db.tables[n].columns[name], changes[..m]);
      RunConcat(pg, db, front, [last.statement]);
      if c.Some? {
        ApplyKeepsName(pg, db, n, db.tables[n].columns[name], changes[..m]);
        RunShort(pg, WithColumn(db, n, c.value), [last.statement]);
        AlterOne(pg, db, n, c.value, changes[m]);
      }
    }
  }
}

/** The phases that drop and create indexes. */
module IndexPhases {
  import opened Options
  import opened Gathering
  import opened Names
  import opened Snapshots
  import opened Text
  import opened Splitting
  import opened Identifiers
  import opened Statements
  import opened Diff
  import opened Database
  import opened Applies
  import opened Stages
  import opened ScriptOrder
  import opened PhaseLists
  import opened TableLists
  import opened ObjectLists
  import opened Blending
  import opened SequencePhases
  import opened TablePhases

  // The indexes of a snapshot, as the schema holds them.
  ghost predicate Indexed(source: SchemaSnapshot, s: Db) {
    (forall n <- source.tables, i <- source.tables[n].indexes ::
       i in s.indexes && s.indexes[i] == Index(n, source.tables[n].indexes[i])) &&
    (forall i <- s.indexes :: s.indexes[i].table in source.tables && i in source.tables[s.indexes[i].table].indexes)
  }

  lemma SameIndex(source: SchemaSnapshot, target: SchemaSnapshot, s: Db, d: Db, n: string, i: string)
    requires Indexed(source, s) && Indexed(target, d) && n in source.tables && n in target.tables
    ensures i in source.tables[n].indexes && i in target.tables[n].indexes ==>
      (Same(s.indexes, d.indexes, i) <==> source.tables[n].indexes[i] == target.tables[n].indexes[i])
    ensures i in source.tables[n].indexes && i !in target.tables[n].indexes ==> !Same(s.indexes, d.indexes, i)
    ensures i !in source.tables[n].indexes && i in target.tables[n].indexes ==> !Same(s.indexes, d.indexes, i)
  {
  }

  function PutIndexes(db: Db): map<string, Index> -> Db {
    indexes => db.(indexes := indexes)
  }

  ghost function IndexNames(f: map<string, string>, t: map<string, string>): seq<string> {
    Sorted(f.Keys + t.Keys)
  }

  /* ---- Dropping ---- */

  // The changed indexes of the tables that are done are gone.
  function Dropped(s: Db, d: Db, done: seq<string>): map<string, Index> {
    d.indexes - set i | i in d.indexes && d.indexes[i].table in done && d.indexes[i].table in s.tables &&
                        !Same(s.indexes, d.indexes, i)
  }

  lemma DroppedAt(s: Db, d: Db, n: string, done: seq<string>, names: seq<string>, k: nat)
    requires n !in done && n in s.tables && k < |names| && Ascending(names)
    ensures var i := names[k]; var here := Blend(Dropped(s, d, done), Dropped(s, d, done + [n]), names[..k]);
      i in d.indexes && d.indexes[i].table == n && !Same(s.indexes, d.indexes, i) ==>
        i in here && i !in Dropped(s, d, done + [n])
    ensures var i := names[k];
      i !in d.indexes || d.indexes[i].table != n || Same(s.indexes, d.indexes, i) ==>
        (i in Dropped(s, d, done) <==> i in Dropped(s, d, done + [n])) &&
        (i in Dropped(s, d, done) ==> Dropped(s, d, done)[i] == Dropped(s, d, done + [n])[i])
  {
    NewName(names, k);
    BlendStep(Dropped(s, d, done), Dropped(s, d, done + [n]), names, k);
  }

  /* The qualifier is the part of the qualified table name before its last dot. */

  lemma {:induction false} DotsDoubled(text: string)
    ensures '.' in Doubled(text) <==> '.' in text
  {
    if text != "" {
      DotsDoubled(text[1..]);
      assert text == [text[0]] + text[1..];
    }
  }

  lemma DotsQuoted(name: string)
    ensures '.' in QuoteIdent(name) <==> '.' in name
  {
    DotsDoubled(name);
  }

  lemma SameEnd(a: string, x: string, c: char, b: string, y: string)
    requires a + [c] + b == x + [c] + y
    ensures a == x ==> b == y
  {
    var text := a + [c] + b;
    assert b == text[|a| + 1..] && y == text[|x| + 1..];
  }

  lemma QualifierIs(schema: string, table: string)
    ensures IndexQualifier(schema, table) == QuoteIdent(schema) <==> '.' !in table
  {
    hide QuoteIdent;
    var a, b := QuoteIdent(schema), QuoteIdent(table);
    DotsQuoted(table);
    if '.' !in table {
      SplitLastAt(a, '.', b);
    } else {
      var text := a + ['.'] + b;
      assert text[|a|] == '.';
      SplitLastParts(text, '.');
      var parts := SplitLast(text, '.').value;
      SameEnd(a, parts.0, '.', b, parts.1);
    }
  }

  predicate IndexDropOk(pg: Reader, s: Db, d: Db, n: string, i: string) {
    '.' !in n && !RestedThroughout(pg, s, d, n, i)
  }

  // The schema while indexes are dropped.
  ghost predicate Unindexing(pg: Reader, s: Db, d: Db, db: Db) {
    forall n, k :: Rested(pg, db.tables, n, k) <==> RestedThroughout(pg, s, d, n, k)
  }

  lemma DropOneIndex(pg: Reader, s: Db, d: Db, db: Db, schema: string, i: string, indexes: map<string, Index>)
    requires Unindexing(pg, s, d, db) && pg.schema == schema && i in indexes
    ensures var n := indexes[i].table;
      Exec(pg, db.(indexes := indexes), DropIndex(IndexQualifier(schema, n), i)) ==
      Outcome(IndexDropOk(pg, s, d, n, i), db.(indexes := indexes - {i}))
  {
    hide Rested, RestedThroughout, IndexQualifier, QuoteIdent;
    QualifierIs(schema, indexes[i].table);
  }

  ghost function DropsOk(pg: Reader, s: Db, d: Db, n: string, names: seq<string>): nat -> bool {
    (k: nat) =>
      (k < |names| && names[k] in d.indexes && d.indexes[names[k]].table == n &&
        !Same(s.indexes, d.indexes, names[k]) ==>
         IndexDropOk(pg, s, d, n, names[k]))
  }

  lemma DropIndexStep(pg: Reader, s: Db, d: Db, db: Db, schema: string, n: string, f: map<string, string>,
                      t: map<string, string>,
                      done: seq<string>, names: seq<string>, k: nat, script: seq<Statement>)
    requires n in s.tables && n !in done && k < |names| && Ascending(names)
    requires Unindexing(pg, s, d, db) && pg.schema == schema
    requires script == IndexPhaseStatements(DropIndexes, IndexQualifier(schema, n), n, f, t, names[k])
    requires names[k] in t <==> names[k] in d.indexes && d.indexes[names[k]].table == n
    requires names[k] in t ==> (Same(f, t, names[k]) <==> Same(s.indexes, d.indexes, names[k]))
    ensures Steps(pg, script, Mid(PutIndexes(db), Dropped(s, d, done), Dropped(s, d, done + [n]), names),
                  DropsOk(pg, s, d, n, names), k)
  {
    hide Steps, Run, Dropped, IndexDropOk, Exec, Unindexing, IndexQualifier;
    var i := names[k];
    var before, after := Dropped(s, d, done), Dropped(s, d, done + [n]);
    DroppedAt(s, d, n, done, names, k);
    if i in t && !Same(f, t, i) {
      assert script == [DropIndex(IndexQualifier(schema, n), i)];
      DroppedTable(s, d, n, done, names, k);
      DropOneIndex(pg, s, d, db, schema, i, Blend(before, after, names[..k]));
      BlendExec(pg, script, PutIndexes(db), before, after, names, DropsOk(pg, s, d, n, names), k);
    } else {
      assert script == [];
      BlendNoop(pg, script, PutIndexes(db), before, after, names, DropsOk(pg, s, d, n, names), k);
    }
  }

  lemma DroppedTable(s: Db, d: Db, n: string, done: seq<string>, names: seq<string>, k: nat)
    requires k < |names| && Ascending(names) && names[k] in d.indexes && d.indexes[names[k]].table == n && n !in done
    ensures var here := Blend(Dropped(s, d, done), Dropped(s, d, done + [n]), names[..k]);
      names[k] in here && here[names[k]].table == n
  {
    NewName(names, k);
  }

  // The existing indexes of one table.
  ghost predicate HeldIndexes(s: Db, d: Db, n: string, f: map<string, string>, t: map<string, string>,
                              names: seq<string>) {
    forall i <- names ::
      (i in t <==> i in d.indexes && d.indexes[i].table == n) &&
      (i in t ==> (Same(f, t, i) <==> Same(s.indexes, d.indexes, i)))
  }

  lemma DropIndexesOf(pg: Reader, s: Db, d: Db, db: Db, schema: string, n: string, f: map<string, string>,
                      t: map<string, string>,
                      done: seq<string>, names: seq<string>)
    requires n in s.tables && n !in done && Ascending(names) && HeldIndexes(s, d, n, f, t, names)
    requires Unindexing(pg, s, d, db) && pg.schema == schema
    requires forall i <- d.indexes :: d.indexes[i].table == n ==> i in names
    ensures Run(pg, db.(indexes := Dropped(s, d, done)),
                Gather(names, PhaseOf(DropIndexes, IndexPart(IndexQualifier(schema, n), n, f, t)))) ==
            Outcome(AllOk(DropsOk(pg, s, d, n, names), |names|), db.(indexes := Dropped(s, d, done + [n])))
  {
    hide Unindexing, Run, IndexQualifier, IndexDropOk;
    var part := PhaseOf(DropIndexes, IndexPart(IndexQualifier(schema, n), n, f, t));
    forall k: nat | k < |names|
      ensures Steps(pg, part(names[k]), Mid(PutIndexes(db), Dropped(s, d, done), Dropped(s, d, done + [n]), names),
                    DropsOk(pg, s, d, n, names), k)
    {
      IndexByPhase(DropIndexes, IndexQualifier(schema, n), n, f, t, names[k]);
      DropIndexStep(pg, s, d, db, schema, n, f, t, done, names, k, part(names[k]));
    }
    assert AgreeOutside(Dropped(s, d, done), Dropped(s, d, done + [n]), names);
    RunBlend(pg, names, part, PutIndexes(db), Dropped(s, d, done), Dropped(s, d, done + [n]),
             DropsOk(pg, s, d, n, names));
  }

  ghost predicate TableDropsApply(pg: Reader, s: Db, d: Db, n: string) {
    forall i <- d.indexes :: d.indexes[i].table == n && n in s.tables && !Same(s.indexes, d.indexes, i) ==>
      IndexDropOk(pg, s, d, n, i)
  }

  lemma DropsOkMeans(pg: Reader, s: Db, d: Db, n: string, names: seq<string>)
    requires n in s.tables && forall i <- d.indexes :: d.indexes[i].table == n ==> i in names
    ensures AllOk(DropsOk(pg, s, d, n, names), |names|) <==> TableDropsApply(pg, s, d, n)
  {
    hide IndexDropOk;
    if AllOk(DropsOk(pg, s, d, n, names), |names|) {
      forall i | i in d.indexes && d.indexes[i].table == n && !Same(s.indexes, d.indexes, i)
        ensures IndexDropOk(pg, s, d, n, i)
      {
        assert i in names;
        var k: nat :| k < |names| && names[k] == i;
        assert DropsOk(pg, s, d, n, names)(k);
      }
    }
  }

  lemma HeldHere(source: SchemaSnapshot, target: SchemaSnapshot, s: Db, d: Db, n: string)
    requires Indexed(source, s) && Indexed(target, d) && n in source.tables && n in target.tables
    ensures var f, t := source.tables[n].indexes, target.tables[n].indexes;
      HeldIndexes(s, d, n, f, t, IndexNames(f, t)) &&
        forall i <- d.indexes :: d.indexes[i].table == n ==> i in IndexNames(f, t)
  {
    var f, t := source.tables[n].indexes, target.tables[n].indexes;
    forall i | i in t
      ensures Same(f, t, i) <==> Same(s.indexes, d.indexes, i)
    {
      SameIndex(source, target, s, d, n, i);
    }
  }

  lemma DropIndexesKept(pg: Reader, source: SchemaSnapshot, target: SchemaSnapshot, s: Db, d: Db, db: Db, n: string,
                        done: seq<string>)
    requires Indexed(source, s) && Indexed(target, d) && n in source.tables && n in target.tables && n in s.tables &&
      n !in done
    requires Unindexing(pg, s, d, db) && pg.schema == target.schema
    ensures Run(pg, db.(indexes := Dropped(s, d, done)),
                AlterPhase(DropIndexes, target.schema, n, source.tables[n], target.tables[n])) ==
            Outcome(TableDropsApply(pg, s, d, n), db.(indexes := Dropped(s, d, done + [n])))
  {
    hide Run, AlterPhase, Dropped, Gather, PhaseOf, IndexPart, Unindexing, TableDropsApply, IndexQualifier, DropsOk,
      AllOk, HeldIndexes, Indexed;
    var f, t := source.tables[n].indexes, target.tables[n].indexes;
    var names := IndexNames(f, t);
    HeldHere(source, target, s, d, n);
    DropIndexesOf(pg, s, d, db, target.schema, n, f, t, done, names);
    DropsOkMeans(pg, s, d, n, names);
    AlterIndexes(DropIndexes, target.schema, n, source.tables[n], target.tables[n]);
  }

  lemma AlterIndexes(phase: Phase, schema: string, n: string, from: TableSnapshot, to: TableSnapshot)
    requires IndexPhase(phase)
    ensures AlterPhase(phase, schema, n, from, to) ==
            Gather(IndexNames(from.indexes, to.indexes),
                   PhaseOf(phase, IndexPart(IndexQualifier(schema, n), n, from.indexes, to.indexes)))
  {
    hide Gather, PhaseOf, ColumnPart, DropColumnPart, ConstraintPart, IndexPart, TriggerPart, ColumnMap;
  }

  lemma CreateIndexes(n: string, from: TableSnapshot)
    ensures CreatePhase(Indexes, n, from) ==
            Gather(Sorted(from.indexes.Keys), PhaseOf(Indexes, IndexPart("", n, from.indexes, map[])))
  {
    hide Gather, PhaseOf, ColumnPart, DropColumnPart, ConstraintPart, IndexPart, TriggerPart, ColumnMap;
  }

  lemma NoDropIndexes(n: string, from: TableSnapshot)
    ensures CreatePhase(DropIndexes, n, from) == []
  {
    var names := Sorted(from.indexes.Keys);
    forall i | i in names
      ensures PhaseOf(DropIndexes, IndexPart("", n, from.indexes, map[]))(i) == []
    {
      IndexByPhase(DropIndexes, "", n, from.indexes, map[], i);
    }
    GatherEmpty(names, PhaseOf(DropIndexes, IndexPart("", n, from.indexes, map[])));
  }

  function DropMid(s: Db, d: Db, names: seq<string>): nat -> Db {
    (i: nat) => Stage(s, d, 3).(indexes := Dropped(s, d, if i <= |names| then names[..i] else names))
  }

  lemma NoKeptIndexes(target: SchemaSnapshot, s: Db, d: Db, n: string, i: string)
    requires Indexed(target, d) && (n !in target.tables || n !in s.tables) && i in d.indexes && d.indexes[i].table == n
    ensures n !in s.tables
  {
  }

  lemma DropUnchanged(pg: Reader, target: SchemaSnapshot, s: Db, d: Db, n: string, done: seq<string>)
    requires Indexed(target, d) && (n !in target.tables || n !in s.tables)
    ensures Dropped(s, d, done + [n]) == Dropped(s, d, done)
    ensures TableDropsApply(pg, s, d, n)
  {
    hide IndexDropOk, Same, Indexed;
    forall i | i in d.indexes && d.indexes[i].table == n
      ensures n !in s.tables
    {
      NoKeptIndexes(target, s, d, n, i);
    }
  }

  lemma DropIndexesTable(pg: Reader, source: SchemaSnapshot, target: SchemaSnapshot, s: Db, d: Db, db: Db, n: string,
                         done: seq<string>)
    requires Named(source, s) && Named(target, d) && Indexed(source, s) && Indexed(target, d) && n !in done
    requires Unindexing(pg, s, d, db) && pg.schema == target.schema
    ensures Run(pg, db.(indexes := Dropped(s, d, done)), TablePhase(DropIndexes, source, target, n)) ==
            Outcome(TableDropsApply(pg, s, d, n), db.(indexes := Dropped(s, d, done + [n])))
  {
    hide Unindexing, TableDropsApply, Dropped;
    if n in source.tables && n in target.tables {
      DropIndexesKept(pg, source, target, s, d, db, n, done);
    } else {
      if n in source.tables { NoDropIndexes(n, source.tables[n]); }
      DropUnchanged(pg, target, s, d, n, done);
      assert TablePhase(DropIndexes, source, target, n) == [];
    }
  }

  ghost function AllDropsOk(pg: Reader, s: Db, d: Db, names: seq<string>): nat -> bool {
    (i: nat) => i < |names| ==> TableDropsApply(pg, s, d, names[i])
  }

  lemma DropMidAt(s: Db, d: Db, names: seq<string>, i: nat)
    requires i < |names|
    ensures DropMid(s, d, names)(i) == Stage(s, d, 3).(indexes := Dropped(s, d, names[..i]))
    ensures DropMid(s, d, names)(i + 1) == Stage(s, d, 3).(indexes := Dropped(s, d, names[..i] + [names[i]]))
  {
    assert names[..i + 1] == names[..i] + [names[i]];
  }

  lemma UnindexingAt(pg: Reader, s: Db, d: Db)
    ensures Unindexing(pg, s, d, Stage(s, d, 3))
  {
    hide Rested, RestedThroughout, TablesAt;
    forall n, k
      ensures Rested(pg, TablesAt(s, d, 3), n, k) <==> RestedThroughout(pg, s, d, n, k)
    {
      RestsAt(pg, s, d, 3, n, k);
    }
  }

  lemma DropIndexesStep(pg: Reader, source: SchemaSnapshot, target: SchemaSnapshot, s: Db, d: Db, i: nat)
    requires i < |TableNames(source, target)| && Named(source, s) && Named(target, d)
    requires Indexed(source, s) && Indexed(target, d) && pg.schema == target.schema
    ensures Steps(pg, EntryPhase(DropIndexes, TablePart(source, target))(TableNames(source, target)[i]),
                  DropMid(s, d, TableNames(source, target)), AllDropsOk(pg, s, d, TableNames(source, target)), i)
  {
    hide Stage, TableDropsApply, Unindexing, Run, Dropped, TablePhase;
    var names := TableNames(source, target);
    var n, done := names[i], names[..i];
    TableByPhase(DropIndexes, source, target, n);
    NewName(names, i);
    UnindexingAt(pg, s, d);
    DropIndexesTable(pg, source, target, s, d, Stage(s, d, 3), n, done);
    DropMidAt(s, d, names, i);
    StepRun(pg, EntryPhase(DropIndexes, TablePart(source, target))(n), DropMid(s, d, names),
            AllDropsOk(pg, s, d, names), i,
            Stage(s, d, 3).(indexes := Dropped(s, d, done)), TableDropsApply(pg, s, d, n),
            Stage(s, d, 3).(indexes := Dropped(s, d, done + [n])));
  }

  lemma DroppedNone(s: Db, d: Db)
    ensures Dropped(s, d, []) == d.indexes
  {
  }

  lemma DroppedAll(s: Db, d: Db, names: seq<string>)
    requires forall i <- d.indexes :: d.indexes[i].table in names
    ensures Dropped(s, d, names) == KeptIndexes(s, d)
  {
  }

  lemma AfterDropIndexes(s: Db, d: Db)
    ensures Stage(s, d, 3).(indexes := d.indexes) == Stage(s, d, 3)
    ensures Stage(s, d, 3).(indexes := KeptIndexes(s, d)) == Stage(s, d, 4)
  {
    TablesStay(s, d, 3);
  }

  lemma DropEnds(source: SchemaSnapshot, target: SchemaSnapshot, s: Db, d: Db)
    requires Indexed(target, d)
    ensures DropMid(s, d, TableNames(source, target))(0) == Stage(s, d, 3)
    ensures DropMid(s, d, TableNames(source, target))(|TableNames(source, target)|) == Stage(s, d, 4)
  {
    var names := TableNames(source, target);
    assert names[..|names|] == names;
    DroppedNone(s, d);
    DroppedAll(s, d, names);
    AfterDropIndexes(s, d);
  }

  lemma AllDropsMean(pg: Reader, source: SchemaSnapshot, target: SchemaSnapshot, s: Db, d: Db)
    requires Named(source, s) && Named(target, d) && Indexed(target, d)
    ensures AllOk(AllDropsOk(pg, s, d, TableNames(source, target)), |TableNames(source, target)|) <==>
      IndexDropsApply(pg, s, d)
  {
    hide IndexDropsApply, AllDropsOk, AllOk;
    assert forall i <- d.indexes :: d.indexes[i].table in TableNames(source, target);
    DropsInTurn(pg, s, d, TableNames(source, target));
  }

  lemma DropsInTurn(pg: Reader, s: Db, d: Db, names: seq<string>)
    requires forall i <- d.indexes :: d.indexes[i].table in names
    ensures AllOk(AllDropsOk(pg, s, d, names), |names|) <==> IndexDropsApply(pg, s, d)
  {
    hide RestedThroughout, Same;
    if AllOk(AllDropsOk(pg, s, d, names), |names|) {
      forall i | i in d.indexes && d.indexes[i].table in s.tables && !Same(s.indexes, d.indexes, i)
        ensures IndexDropOk(pg, s, d, d.indexes[i].table, i)
      {
        var k: nat :| k < |names| && names[k] == d.indexes[i].table;
        assert AllDropsOk(pg, s, d, names)(k);
      }
    }
  }

  lemma DropIndexesBlend(pg: Reader, source: SchemaSnapshot, target: SchemaSnapshot, s: Db, d: Db)
    requires Named(source, s) && Named(target, d) && Indexed(source, s) && Indexed(target, d) &&
      pg.schema == target.schema
    ensures Run(pg, Stage(s, d, 3), TableScript(DropIndexes, source, target)) ==
      Outcome(IndexDropsApply(pg, s, d), Stage(s, d, 4))
  {
    hide Run, Stage, TableDropsApply, IndexDropsApply;
    var names := TableNames(source, target);
    var part := EntryPhase(DropIndexes, TablePart(source, target));
    forall i: nat | i < |names|
      ensures Steps(pg, part(names[i]), DropMid(s, d, names), AllDropsOk(pg, s, d, names), i)
    {
      DropIndexesStep(pg, source, target, s, d, i);
    }
    DropEnds(source, target, s, d);
    AllDropsMean(pg, source, target, s, d);
    RunLoop(pg, names, part, DropMid(s, d, names), AllDropsOk(pg, s, d, names), Stage(s, d, 3), Stage(s, d, 4),
            IndexDropsApply(pg, s, d));
  }

  lemma DropIndexesRun(pg: Reader, source: SchemaSnapshot, target: SchemaSnapshot, s: Db, d: Db)
    requires Named(source, s) && Named(target, d) && Indexed(source, s) && Indexed(target, d) &&
      pg.schema == target.schema
    ensures PhaseRuns(pg, source, target, s, d, 3, IndexDropsApply(pg, s, d))
  {
    hide *;
    PhaseNames();
    DropIndexesBlend(pg, source, target, s, d);
    TablePhaseIs(pg, source, target, s, d, 3, IndexDropsApply(pg, s, d));
  }

  /* ---- Creating ---- */

  // The wanted indexes of the tables that are done are there.
  function Added(s: Db, d: Db, done: seq<string>): map<string, Index> {
    map i | i in KeptIndexes(s, d).Keys + s.indexes.Keys && (i in KeptIndexes(s, d) || s.indexes[i].table in done) ::
      if i in s.indexes && s.indexes[i].table in done then s.indexes[i] else KeptIndexes(s, d)[i]
  }

  // Texts that call only routines of the first kind can be computed with both or with neither.
  ghost predicate CallsAlike(pg: Reader, own: map<string, Routine>, all: map<string, Routine>) {
    forall text ::
      pg.routines(text) <= Signatures(pg, own) ==> (Computable(pg, all, text) <==> Computable(pg, own, text))
  }

  // The schema while indexes are created.
  ghost predicate Indexing(pg: Reader, s: Db, d: Db, db: Db) {
    db.sequences == d.sequences + s.sequences && db.tables.Keys == s.tables.Keys + d.tables.Keys &&
      db.views == s.views &&
    CallsAlike(pg, s.routines, db.routines) &&
      Backing(db.tables) == Backing(s.tables) + Backing(RemovedTables(s, d)) &&
    forall n <- s.tables :: db.tables[n].columns == s.tables[n].columns
  }

  lemma IndexNameFree(pg: Reader, s: Db, d: Db, db: Db, i: string, indexes: map<string, Index>)
    requires NamesDisjoint(s) && Indexing(pg, s, d, db) && i in s.indexes && !Same(s.indexes, d.indexes, i)
    requires i in indexes <==> i in KeptIndexes(s, d)
    ensures i in RelationNames(db.(indexes := indexes)) <==> !Free(s, d, i)
  {
    hide Backing, DroppedLate;
    assert i !in s.sequences && i !in s.tables && i !in s.views;
    LateNames(s, d, i);
  }

  lemma CreateOneIndex(pg: Reader, s: Db, d: Db, db: Db, i: string, indexes: map<string, Index>)
    requires NamesDisjoint(s) && Indexing(pg, s, d, db) && i in s.indexes && !Same(s.indexes, d.indexes, i)
    requires i in indexes <==> i in KeptIndexes(s, d)
    requires IndexSound(pg, s, s.indexes[i])
    ensures Exec(pg, db.(indexes := indexes), CreateIndex(i, s.indexes[i].table, s.indexes[i].text)) ==
            Outcome(IndexApplies(pg, s, d, i), db.(indexes := indexes[i := s.indexes[i]]))
  {
    hide RelationNames, Free, NamesDisjoint, Signatures, Computable;
    IndexNameFree(pg, s, d, db, i, indexes);
  }

  ghost function IndexesOk(pg: Reader, s: Db, d: Db, n: string, names: seq<string>): nat -> bool {
    (k: nat) =>
      (k < |names| && names[k] in s.indexes && s.indexes[names[k]].table == n &&
        !Same(s.indexes, d.indexes, names[k]) ==>
         IndexApplies(pg, s, d, names[k]))
  }

  lemma AddedAt(s: Db, d: Db, n: string, done: seq<string>, names: seq<string>, k: nat)
    requires n !in done && k < |names| && Ascending(names)
    ensures var i := names[k]; var here := Blend(Added(s, d, done), Added(s, d, done + [n]), names[..k]);
      i in s.indexes && s.indexes[i].table == n ==>
        (i in here <==> i in KeptIndexes(s, d)) && i in Added(s, d, done + [n]) &&
          Added(s, d, done + [n])[i] == s.indexes[i]
    ensures var i := names[k];
      i !in s.indexes || s.indexes[i].table != n || Same(s.indexes, d.indexes, i) ==>
        (i in Added(s, d, done) <==> i in Added(s, d, done + [n])) &&
        (i in Added(s, d, done) ==> Added(s, d, done)[i] == Added(s, d, done + [n])[i])
  {
    NewName(names, k);
    BlendStep(Added(s, d, done), Added(s, d, done + [n]), names, k);
  }

  // `t`: the target's indexes on the table, if it has the table.
  lemma CreateIndexStep(pg: Reader, s: Db, d: Db, db: Db, qualifier: string, n: string, f: map<string, string>,
                        t: map<string, string>,
                        done: seq<string>, names: seq<string>, k: nat, script: seq<Statement>)
    requires NamesDisjoint(s) && Indexing(pg, s, d, db) && n !in done && k < |names| && Ascending(names)
    requires script == IndexPhaseStatements(Indexes, qualifier, n, f, t, names[k])
    requires names[k] in f <==> names[k] in s.indexes && s.indexes[names[k]].table == n
    requires names[k] in f ==> s.indexes[names[k]] == Index(n, f[names[k]]) && IndexSound(pg, s, s.indexes[names[k]])
    requires names[k] in f ==> (Same(f, t, names[k]) <==> Same(s.indexes, d.indexes, names[k]))
    ensures Steps(pg, script, Mid(PutIndexes(db), Added(s, d, done), Added(s, d, done + [n]), names),
                  IndexesOk(pg, s, d, n, names), k)
  {
    var i := names[k];
    var before, after := Added(s, d, done), Added(s, d, done + [n]);
    AddedAt(s, d, n, done, names, k);
    if i in f && !Same(f, t, i) {
      assert script == [CreateIndex(i, n, f[i])];
      CreateOneIndex(pg, s, d, db, i, Blend(before, after, names[..k]));
      BlendExec(pg, script, PutIndexes(db), before, after, names, IndexesOk(pg, s, d, n, names), k);
    } else {
      assert script == [];
      BlendNoop(pg, script, PutIndexes(db), before, after, names, IndexesOk(pg, s, d, n, names), k);
    }
  }

  // The wanted indexes of one table.
  ghost predicate IndexesOf(pg: Reader, s: Db, d: Db, n: string, f: map<string, string>, t: map<string, string>,
                            names: seq<string>) {
    forall i <- names ::
      (i in f <==> i in s.indexes && s.indexes[i].table == n) &&
      (i in f ==> s.indexes[i] == Index(n, f[i]) && IndexSound(pg, s, s.indexes[i])) &&
      (i in f ==> (Same(f, t, i) <==> Same(s.indexes, d.indexes, i)))
  }

  lemma AddedOutside(s: Db, d: Db, n: string, done: seq<string>, names: seq<string>)
    requires forall i <- s.indexes :: s.indexes[i].table == n ==> i in names
    ensures AgreeOutside(Added(s, d, done), Added(s, d, done + [n]), names)
  {
  }

  lemma CreateIndexesOf(pg: Reader, s: Db, d: Db, db: Db, qualifier: string, n: string, f: map<string, string>,
                        t: map<string, string>,
                        done: seq<string>, names: seq<string>)
    requires NamesDisjoint(s) && Indexing(pg, s, d, db) && n !in done && Ascending(names)
    requires IndexesOf(pg, s, d, n, f, t, names)
    requires forall i <- s.indexes :: s.indexes[i].table == n ==> i in names
    ensures Run(pg, db.(indexes := Added(s, d, done)),
                Gather(names, PhaseOf(Indexes, IndexPart(qualifier, n, f, t)))) ==
            Outcome(AllOk(IndexesOk(pg, s, d, n, names), |names|), db.(indexes := Added(s, d, done + [n])))
  {
    hide Run, Steps, Mid, AgreeOutside, Added;
    var part := PhaseOf(Indexes, IndexPart(qualifier, n, f, t));
    forall k: nat | k < |names|
      ensures Steps(pg, part(names[k]), Mid(PutIndexes(db), Added(s, d, done), Added(s, d, done + [n]), names),
                    IndexesOk(pg, s, d, n, names), k)
    {
      IndexByPhase(Indexes, qualifier, n, f, t, names[k]);
      CreateIndexStep(pg, s, d, db, qualifier, n, f, t, done, names, k, part(names[k]));
    }
    AddedOutside(s, d, n, done, names);
    RunBlend(pg, names, part, PutIndexes(db), Added(s, d, done), Added(s, d, done + [n]),
             IndexesOk(pg, s, d, n, names));
  }

  ghost predicate TableIndexesApply(pg: Reader, s: Db, d: Db, n: string) {
    forall i <- s.indexes :: s.indexes[i].table == n && !Same(s.indexes, d.indexes, i) ==> IndexApplies(pg, s, d, i)
  }

  lemma IndexesOkMeans(pg: Reader, s: Db, d: Db, n: string, names: seq<string>)
    requires forall i <- s.indexes :: s.indexes[i].table == n ==> i in names
    ensures AllOk(IndexesOk(pg, s, d, n, names), |names|) <==> TableIndexesApply(pg, s, d, n)
  {
    if AllOk(IndexesOk(pg, s, d, n, names), |names|) {
      forall i | i in s.indexes && s.indexes[i].table == n && !Same(s.indexes, d.indexes, i)
        ensures IndexApplies(pg, s, d, i)
      {
        assert i in names;
        var k: nat :| k < |names| && names[k] == i;
        assert IndexesOk(pg, s, d, n, names)(k);
      }
    }
  }

  lemma WantedIndexes(pg: Reader, source: SchemaSnapshot, target: SchemaSnapshot, s: Db, d: Db, n: string,
                      t: map<string, string>, names: seq<string>)
    requires Indexed(source, s) && Indexed(target, d) && n in source.tables
    requires forall i <- s.indexes :: IndexSound(pg, s, s.indexes[i])
    requires if n in target.tables then t == target.tables[n].indexes else t == map[]
    ensures IndexesOf(pg, s, d, n, source.tables[n].indexes, t, names)
  {
    forall i | i in names && i in source.tables[n].indexes
      ensures Same(source.tables[n].indexes, t, i) <==> Same(s.indexes, d.indexes, i)
    {
      if n in target.tables {
        SameIndex(source, target, s, d, n, i);
      } else {
        assert i in d.indexes ==> d.indexes[i].table in target.tables;
      }
    }
  }

  lemma CreateIndexesTable(pg: Reader, source: SchemaSnapshot, target: SchemaSnapshot, s: Db, d: Db, db: Db, n: string,
                           done: seq<string>)
    requires Indexed(source, s) && Indexed(target, d) && n in source.tables && n !in done
    requires NamesDisjoint(s) && Indexing(pg, s, d, db)
    requires forall i <- s.indexes :: IndexSound(pg, s, s.indexes[i])
    ensures Run(pg, db.(indexes := Added(s, d, done)), TablePhase(Indexes, source, target, n)) ==
            Outcome(TableIndexesApply(pg, s, d, n), db.(indexes := Added(s, d, done + [n])))
  {
    var f := source.tables[n].indexes;
    if n in target.tables {
      var t := target.tables[n].indexes;
      var names := IndexNames(f, t);
      AlterIndexes(Indexes, target.schema, n, source.tables[n], target.tables[n]);
      WantedIndexes(pg, source, target, s, d, n, t, names);
      CreateIndexesOf(pg, s, d, db, IndexQualifier(target.schema, n), n, f, t, done, names);
      IndexesOkMeans(pg, s, d, n, names);
    } else {
      var names := Sorted(f.Keys);
      CreateIndexes(n, source.tables[n]);
      WantedIndexes(pg, source, target, s, d, n, map[], names);
      CreateIndexesOf(pg, s, d, db, "", n, f, map[], done, names);
      IndexesOkMeans(pg, s, d, n, names);
    }
  }

  function AddMid(s: Db, d: Db, names: seq<string>): nat -> Db {
    (i: nat) => Stage(s, d, 8).(indexes := Added(s, d, if i <= |names| then names[..i] else names))
  }

  ghost function AddOk(pg: Reader, s: Db, d: Db, names: seq<string>): nat -> bool {
    (i: nat) => i < |names| ==> TableIndexesApply(pg, s, d, names[i])
  }

  lemma AddedSame(s: Db, d: Db, n: string, done: seq<string>)
    requires forall i <- s.indexes :: s.indexes[i].table != n
    ensures Added(s, d, done + [n]) == Added(s, d, done)
  {
    hide KeptIndexes;
    var kept, more, less := KeptIndexes(s, d), Added(s, d, done + [n]), Added(s, d, done);
    forall i
      ensures i in more <==> i in less
      ensures i in less ==> more[i] == less[i]
    {
      assert i in s.indexes ==> (s.indexes[i].table in done + [n] <==> s.indexes[i].table in done);
    }
  }

  lemma AddUnchanged(pg: Reader, source: SchemaSnapshot, s: Db, d: Db, n: string, done: seq<string>)
    requires Indexed(source, s) && n !in source.tables
    ensures Added(s, d, done + [n]) == Added(s, d, done)
    ensures TableIndexesApply(pg, s, d, n)
  {
    hide IndexApplies, KeptIndexes, Same, Added;
    AddedSame(s, d, n, done);
  }

  // A signature is that of a routine of the source exactly if it is its key's.
  lemma OwnAlike(pg: Reader, s: Db, d: Db)
    requires SignaturesStay(pg, s, d)
    ensures CallsAlike(pg, s.routines, d.routines + s.routines)
  {
    var own, all := s.routines, d.routines + s.routines;
    forall g | g in Signatures(pg, own)
      ensures g in Signatures(pg, Immutables(pg, all)) <==> g in Signatures(pg, Immutables(pg, own))
    {
      if k :| k in Immutables(pg, all) && pg.signature(k) == g {
        var j :| j in own && pg.signature(j) == g;
        assert k in own;
        assert k in Immutables(pg, own);
      }
      if k :| k in Immutables(pg, own) && pg.signature(k) == g {
        assert k in Immutables(pg, all);
      }
    }
  }

  lemma IndexingAtEight(pg: Reader, s: Db, d: Db)
    requires SignaturesStay(pg, s, d)
    ensures Indexing(pg, s, d, Stage(s, d, 8))
  {
    BackingAt(s, d, 8);
    OwnAlike(pg, s, d);
  }

  lemma CreateIndexesAny(pg: Reader, source: SchemaSnapshot, target: SchemaSnapshot, s: Db, d: Db, db: Db, n: string,
                         done: seq<string>)
    requires Indexed(source, s) && Indexed(target, d) && n !in done && NamesDisjoint(s) && Indexing(pg, s, d, db)
    requires forall i <- s.indexes :: IndexSound(pg, s, s.indexes[i])
    ensures Run(pg, db.(indexes := Added(s, d, done)), TablePhase(Indexes, source, target, n)) ==
            Outcome(TableIndexesApply(pg, s, d, n), db.(indexes := Added(s, d, done + [n])))
  {
    if n in source.tables {
      CreateIndexesTable(pg, source, target, s, d, db, n, done);
    } else {
      AddUnchanged(pg, source, s, d, n, done);
      assert TablePhase(Indexes, source, target, n) == [];
    }
  }

  lemma AddMidAt(s: Db, d: Db, names: seq<string>, i: nat)
    requires i < |names|
    ensures AddMid(s, d, names)(i) == Stage(s, d, 8).(indexes := Added(s, d, names[..i]))
    ensures AddMid(s, d, names)(i + 1) == Stage(s, d, 8).(indexes := Added(s, d, names[..i] + [names[i]]))
  {
    assert names[..i + 1] == names[..i] + [names[i]];
  }

  lemma CreateIndexesStep(pg: Reader, source: SchemaSnapshot, target: SchemaSnapshot, s: Db, d: Db, i: nat)
    requires i < |TableNames(source, target)| && Indexed(source, s) && Indexed(target, d) && NamesDisjoint(s)
    requires forall i <- s.indexes :: IndexSound(pg, s, s.indexes[i])
    requires SignaturesStay(pg, s, d)
    ensures Steps(pg, EntryPhase(Indexes, TablePart(source, target))(TableNames(source, target)[i]),
                  AddMid(s, d, TableNames(source, target)), AddOk(pg, s, d, TableNames(source, target)), i)
  {
    var names := TableNames(source, target);
    var n, done := names[i], names[..i];
    TableByPhase(Indexes, source, target, n);
    NewName(names, i);
    IndexingAtEight(pg, s, d);
    CreateIndexesAny(pg, source, target, s, d, Stage(s, d, 8), n, done);
    AddMidAt(s, d, names, i);
    StepRun(pg, EntryPhase(Indexes, TablePart(source, target))(n), AddMid(s, d, names), AddOk(pg, s, d, names), i,
            Stage(s, d, 8).(indexes := Added(s, d, done)), TableIndexesApply(pg, s, d, n),
            Stage(s, d, 8).(indexes := Added(s, d, done + [n])));
  }

  lemma AddedNone(s: Db, d: Db)
    ensures Added(s, d, []) == KeptIndexes(s, d)
  {
  }

  lemma AddedAll(s: Db, d: Db, names: seq<string>)
    requires forall i <- s.indexes :: s.indexes[i].table in names
    ensures Added(s, d, names) == KeptIndexes(s, d) + s.indexes
  {
  }

  lemma AfterIndexes(s: Db, d: Db)
    ensures Stage(s, d, 8).(indexes := KeptIndexes(s, d)) == Stage(s, d, 8)
    ensures Stage(s, d, 8).(indexes := KeptIndexes(s, d) + s.indexes) == Stage(s, d, 9)
  {
    TablesStay(s, d, 8);
  }

  lemma AddEnds(source: SchemaSnapshot, target: SchemaSnapshot, s: Db, d: Db)
    requires Indexed(source, s)
    ensures AddMid(s, d, TableNames(source, target))(0) == Stage(s, d, 8)
    ensures AddMid(s, d, TableNames(source, target))(|TableNames(source, target)|) == Stage(s, d, 9)
  {
    var names := TableNames(source, target);
    assert names[..|names|] == names;
    AddedNone(s, d);
    AddedAll(s, d, names);
    AfterIndexes(s, d);
  }

  lemma AddOkMeans(pg: Reader, source: SchemaSnapshot, target: SchemaSnapshot, s: Db, d: Db)
    requires Indexed(source, s)
    ensures AllOk(AddOk(pg, s, d, TableNames(source, target)), |TableNames(source, target)|) <==>
      NewIndexesApply(pg, s, d)
  {
    var names := TableNames(source, target);
    if AllOk(AddOk(pg, s, d, names), |names|) {
      forall i | i in s.indexes && !Same(s.indexes, d.indexes, i)
        ensures IndexApplies(pg, s, d, i)
      {
        assert s.indexes[i].table in names;
        var k: nat :| k < |names| && names[k] == s.indexes[i].table;
        assert AddOk(pg, s, d, names)(k);
      }
    }
  }

  lemma CreateIndexesBlend(pg: Reader, source: SchemaSnapshot, target: SchemaSnapshot, s: Db, d: Db)
    requires Indexed(source, s) && Indexed(target, d) && NamesDisjoint(s)
    requires forall i <- s.indexes :: IndexSound(pg, s, s.indexes[i])
    requires SignaturesStay(pg, s, d)
    ensures Run(pg, Stage(s, d, 8), TableScript(Indexes, source, target)) ==
      Outcome(NewIndexesApply(pg, s, d), Stage(s, d, 9))
  {
    hide Run, Stage;
    var names := TableNames(source, target);
    var part := EntryPhase(Indexes, TablePart(source, target));
    forall i: nat | i < |names|
      ensures Steps(pg, part(names[i]), AddMid(s, d, names), AddOk(pg, s, d, names), i)
    {
      CreateIndexesStep(pg, source, target, s, d, i);
    }
    AddEnds(source, target, s, d);
    AddOkMeans(pg, source, target, s, d);
    RunLoop(pg, names, part, AddMid(s, d, names), AddOk(pg, s, d, names), Stage(s, d, 8), Stage(s, d, 9),
            NewIndexesApply(pg, s, d));
  }

  lemma CreateIndexesRun(pg: Reader, source: SchemaSnapshot, target: SchemaSnapshot, s: Db, d: Db)
    requires Indexed(source, s) && Indexed(target, d) && NamesDisjoint(s)
    requires forall i <- s.indexes :: IndexSound(pg, s, s.indexes[i])
    requires SignaturesStay(pg, s, d)
    ensures PhaseRuns(pg, source, target, s, d, 8, NewIndexesApply(pg, s, d))
  {
    hide *;
    PhaseNames();
    CreateIndexesBlend(pg, source, target, s, d);
    TablePhaseIs(pg, source, target, s, d, 8, NewIndexesApply(pg, s, d));
  }
}

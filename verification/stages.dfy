/**
 The schema after each phase of the script, written down directly: `Stage(s, d, k)` is the target `d` on its way to
 the source `s` after the first `k` phases.
 */
module Stages {
  import opened Options
  import opened Snapshots
  import opened Database
  import opened Applies

  // Before the changed foreign keys are added.
  function WithoutNewForeign(f: map<string, Constraint>, t: map<string, Constraint>): map<string, Constraint> {
    f - set k | k in f && IsForeign(f[k]) && !Same(f, t, k)
  }

  function KeptTable(k: nat, f: Table, t: Table): Table {
    Table(
      if k <= 5 then t.columns else f.columns,
      t.partitionKey,
      if k <= 1 then t.constraints
      else if k <= 5 then WithoutChangedForeign(f.constraints, t.constraints)
      else if k <= 9 then WithoutNewForeign(f.constraints, t.constraints)
      else f.constraints,
      if k == 0 then t.triggers else if k <= 10 then Common(f.triggers, t.triggers) else f.triggers)
  }

  function NewTable(k: nat, f: Table): Table {
    f.(constraints := if k <= 9 then WithoutNewForeign(f.constraints, map[]) else f.constraints,
       triggers := if k <= 10 then map[] else f.triggers)
  }

  function OldTable(k: nat, t: Table): Table {
    t.(constraints := if k <= 1 then t.constraints else NonForeign(t.constraints))
  }

  predicate HasTable(s: Db, d: Db, k: nat, n: string) {
    if n in d.tables then n in s.tables || k <= 12 else n in s.tables && k >= 6
  }

  function TableAt(s: Db, d: Db, k: nat, n: string): Table
    requires HasTable(s, d, k, n)
  {
    if n in s.tables && n in d.tables then KeptTable(k, s.tables[n], d.tables[n])
    else if n in s.tables then NewTable(k, s.tables[n])
    else OldTable(k, d.tables[n])
  }

  function TablesAt(s: Db, d: Db, k: nat): map<string, Table> {
    map n | n in s.tables.Keys + d.tables.Keys && HasTable(s, d, k, n) :: TableAt(s, d, k, n)
  }

  function Stage(s: Db, d: Db, k: nat): Db {
    Db(
      if k <= 4 then d.sequences else if k <= 13 then d.sequences + s.sequences else s.sequences,
      TablesAt(s, d, k),
      if k <= 3 then d.indexes else if k <= 8 then KeptIndexes(s, d)
      else if k <= 12 then KeptIndexes(s, d) + s.indexes else s.indexes,
      if k <= 2 then d.views else if k <= 7 then KeptViews(s, d) else s.views,
      if k <= 6 then d.routines else if k <= 11 then d.routines + s.routines else s.routines)
  }

  /* ---- The foreign keys between phases 1 and 9: those of both sides ---- */

  ghost predicate ForeignIn(tables: map<string, Table>, t: string, k: string) {
    t in tables && k in tables[t].constraints && IsForeign(tables[t].constraints[k])
  }

  ghost predicate ForeignHeld(s: Db, d: Db, t: string, k: string) {
    t in s.tables && ForeignIn(d.tables, t, k) && Same(s.tables[t].constraints, d.tables[t].constraints, k)
  }

  lemma HeldAt(s: Db, d: Db, r: nat, t: string, k: string)
    requires 2 <= r <= 9
    ensures ForeignIn(TablesAt(s, d, r), t, k) <==> ForeignHeld(s, d, t, k)
  {
  }

  lemma RestsHeld(pg: Reader, s: Db, d: Db, tables: map<string, Table>, n: string, k: string)
    requires forall t, x :: ForeignIn(tables, t, x) <==> ForeignHeld(s, d, t, x)
    ensures Rested(pg, tables, n, k) <==> RestedThroughout(pg, s, d, n, k)
  {
    hide Same;
    if Rested(pg, tables, n, k) {
      var t, x :| t in tables && x in tables[t].constraints && IsForeign(tables[t].constraints[x]) &&
        pg.key(t, x) == Some((n, k));
      assert ForeignIn(tables, t, x);
      assert ForeignHeld(s, d, t, x);
    }
    if RestedThroughout(pg, s, d, n, k) {
      var t, x :| t in d.tables && x in d.tables[t].constraints && t in s.tables &&
        IsForeign(d.tables[t].constraints[x]) &&
                  Same(s.tables[t].constraints, d.tables[t].constraints, x) && pg.key(t, x) == Some((n, k));
      assert ForeignHeld(s, d, t, x);
      assert ForeignIn(tables, t, x);
    }
  }

  lemma RestsAt(pg: Reader, s: Db, d: Db, r: nat, n: string, k: string)
    requires 2 <= r <= 9
    ensures Rested(pg, TablesAt(s, d, r), n, k) <==> RestedThroughout(pg, s, d, n, k)
  {
    hide Rested, RestedThroughout, TablesAt, ForeignIn, ForeignHeld;
    forall t, x
      ensures ForeignIn(TablesAt(s, d, r), t, x) <==> ForeignHeld(s, d, t, x)
    {
      HeldAt(s, d, r, t, x);
    }
    RestsHeld(pg, s, d, TablesAt(s, d, r), n, k);
  }
}

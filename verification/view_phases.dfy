/** The phases that drop, create and replace views. */
module ViewPhases {
  import opened Options
  import opened Gathering
  import opened Names
  import opened Snapshots
  import opened Statements
  import opened Diff
  import opened Database
  import opened Applies
  import opened Stages
  import opened ScriptOrder
  import opened PhaseLists
  import opened ObjectLists
  import opened Blending
  import opened SequencePhases

  // The views of a snapshot, as the schema holds them.
  ghost predicate ViewsOf(source: SchemaSnapshot, s: Db) {
    s.views.Keys == source.views.Keys &&
    forall v <- source.views ::
      s.views[v] == View(source.views[v].materialized, NormalizeBody(source.views[v].definition))
  }

  function PutViews(db: Db): map<string, View> -> Db {
    views => db.(views := views)
  }

  lemma ViewDifference(source: SchemaSnapshot, target: SchemaSnapshot, s: Db, d: Db, v: string)
    requires ViewsOf(source, s) && ViewsOf(target, d) && v in s.views && v in d.views
    ensures ViewChanged(source.views[v], target.views[v]) <==> s.views[v] != d.views[v]
  {
  }

  /* ---- Dropping ---- */

  // May `v` be dropped when the views listed before it are gone?
  predicate ViewDropOk(pg: Reader, s: Db, d: Db, v: string) {
    v in d.views && ViewDropped(s, d, v) ==> !RowsTaken(pg, d.routines, v) && ReadersGone(pg, s, d, v)
  }

  ghost function ViewDropsOk(pg: Reader, s: Db, d: Db, names: seq<string>): nat -> bool {
    (i: nat) => i < |names| ==> ViewDropOk(pg, s, d, names[i])
  }

  lemma StillRead(pg: Reader, s: Db, d: Db, names: seq<string>, i: nat)
    requires i < |names| && Ascending(names) && (forall v <- d.views :: v in names)
    requires names[i] in d.views && ViewDropped(s, d, names[i])
    ensures ReadRelation(pg, Blend(d.views, KeptViews(s, d), names[..i]), names[i]) <==>
            !ReadersGone(pg, s, d, names[i])
  {
    var v := names[i];
    var here := Blend(d.views, KeptViews(s, d), names[..i]);
    forall w | w in d.views
      ensures w in here <==> !(ViewDropped(s, d, w) && Less(w, v))
      ensures w in here ==> here[w] == d.views[w]
    {
      Earlier(names, i, w);
    }
    forall w | w in here
      ensures w in d.views
    {
    }
  }

  lemma DropOneView(pg: Reader, db: Db, views: map<string, View>, v: string, materialized: bool)
    requires v in views && views[v].materialized == materialized
    ensures Exec(pg, db.(views := views), DropView(v, materialized)) ==
            Outcome(!ReadRelation(pg, views, v) && !RowsTaken(pg, db.routines, v), db.(views := views - {v}))
  {
  }

  lemma DropViewStep(pg: Reader, source: SchemaSnapshot, target: SchemaSnapshot, s: Db, d: Db, names: seq<string>,
                     i: nat)
    requires ViewsOf(source, s) && ViewsOf(target, d)
    requires i < |names| && Ascending(names) && (forall v <- d.views :: v in names)
    ensures Steps(pg, EntryPhase(DropViews, ViewPart(source, target))(names[i]),
                  Mid(PutViews(Stage(s, d, 2)), d.views, KeptViews(s, d), names), ViewDropsOk(pg, s, d, names), i)
  {
    var v := names[i];
    var script := ViewPhase(DropViews, source, target, v);
    var before, after := d.views, KeptViews(s, d);
    var put := PutViews(Stage(s, d, 2));
    ViewByPhase(DropViews, source, target, v);
    NewName(names, i);
    BlendStep(before, after, names, i);
    if v in s.views && v in d.views {
      ViewDifference(source, target, s, d, v);
    }
    if v in d.views && ViewDropped(s, d, v) {
      assert script == [DropView(v, d.views[v].materialized)];
      DropOneView(pg, Stage(s, d, 2), Blend(before, after, names[..i]), v, d.views[v].materialized);
      StillRead(pg, s, d, names, i);
      BlendExec(pg, script, put, before, after, names, ViewDropsOk(pg, s, d, names), i);
    } else {
      BlendNoop(pg, script, put, before, after, names, ViewDropsOk(pg, s, d, names), i);
    }
  }

  lemma AfterDropViews(s: Db, d: Db)
    ensures Stage(s, d, 2).(views := d.views) == Stage(s, d, 2)
    ensures Stage(s, d, 2).(views := KeptViews(s, d)) == Stage(s, d, 3)
  {
    TablesStay(s, d, 2);
  }

  lemma ViewDropsOkMeans(pg: Reader, s: Db, d: Db, names: seq<string>)
    requires Lists(names, s.views.Keys + d.views.Keys)
    ensures AllOk(ViewDropsOk(pg, s, d, names), |names|) <==> ViewDropsApply(pg, s, d)
  {
    if AllOk(ViewDropsOk(pg, s, d, names), |names|) {
      forall v | v in d.views
        ensures ViewDropOk(pg, s, d, v)
      {
        assert v in names;
        var i: nat :| i < |names| && names[i] == v;
        assert ViewDropsOk(pg, s, d, names)(i);
      }
    }
  }

  lemma DropViewsBlend(pg: Reader, source: SchemaSnapshot, target: SchemaSnapshot, s: Db, d: Db)
    requires ViewsOf(source, s) && ViewsOf(target, d)
    ensures Run(pg, Stage(s, d, 2), ViewScript(DropViews, source, target)) ==
      Outcome(ViewDropsApply(pg, s, d), Stage(s, d, 3))
  {
    hide Run, Stage;
    var names := Sorted(source.views.Keys + target.views.Keys);
    var part := EntryPhase(DropViews, ViewPart(source, target));
    var put := PutViews(Stage(s, d, 2));
    forall i: nat | i < |names|
      ensures Steps(pg, part(names[i]), Mid(put, d.views, KeptViews(s, d), names), ViewDropsOk(pg, s, d, names), i)
    {
      DropViewStep(pg, source, target, s, d, names, i);
    }
    RunBlend(pg, names, part, put, d.views, KeptViews(s, d), ViewDropsOk(pg, s, d, names));
    AfterDropViews(s, d);
    ViewDropsOkMeans(pg, s, d, names);
  }

  /* ---- Creating and replacing ---- */

  // A replaced view keeps its columns, and another one needs a free name.
  predicate ViewNameOk(pg: Reader, s: Db, d: Db, v: string)
    requires v in s.views
  {
    if v in KeptViews(s, d) then pg.outputs(d.views[v].body) <= pg.outputs(s.views[v].body) else Free(s, d, v)
  }

  // Is the column of the wanted view `w` there when `v` has its turn?
  predicate OutputInTurn(pg: Reader, s: Db, d: Db, v: string, w: string, column: string) {
    Less(w, v) || (w in KeptViews(s, d) && column in OutputNames(pg.outputs(d.views[w].body))) ||
    (w in d.tables && column in d.tables[w].columns)
  }

  predicate ReadsInTurn(pg: Reader, s: Db, d: Db, v: string)
    requires v in s.views
  {
    (forall w <- s.views ::
      w in pg.relations(s.views[v].body) ==> w in KeptViews(s, d) || Less(w, v) || w in d.tables) &&
    (forall p <- pg.viewColumns(s.views[v].body) :: p.0 in s.views ==> OutputInTurn(pg, s, d, v, p.0, p.1))
  }

  // Does it get its name, and is everything it reads there?
  predicate ViewCreateOk(pg: Reader, s: Db, d: Db, v: string) {
    v in s.views && !Same(s.views, d.views, v) ==> ViewNameOk(pg, s, d, v) && ReadsInTurn(pg, s, d, v)
  }

  ghost function ViewCreatesOk(pg: Reader, s: Db, d: Db, names: seq<string>): nat -> bool {
    (i: nat) => i < |names| ==> ViewCreateOk(pg, s, d, names[i])
  }

  lemma KeysAtSeven(s: Db, d: Db, v: string)
    ensures v in TablesAt(s, d, 7) <==> v in d.tables || v in s.tables
  {
  }

  lemma ViewNameFree(s: Db, d: Db, v: string, views: map<string, View>)
    requires NamesDisjoint(s) && v in s.views && v !in views
    ensures v in RelationNames(Stage(s, d, 7).(views := views)) <==> !Free(s, d, v)
  {
    hide Backing, DroppedLate, TablesAt, KeptIndexes, BackedNames;
    IndexesFree(s, d, v);
    LateNames(s, d, v);
    BackingAt(s, d, 7);
    KeysAtSeven(s, d, v);
  }

  ghost predicate ReadsKnown(pg: Reader, s: Db) {
    forall v <- s.views :: ViewSound(pg, s, v, s.views[v])
  }

  lemma ReadsThere(pg: Reader, s: Db, d: Db, names: seq<string>, i: nat)
    requires i < |names| && Ascending(names) && (forall w <- s.views :: w in names)
    requires NamesDisjoint(s) && names[i] in s.views && ViewSound(pg, s, names[i], s.views[names[i]])
    ensures var here := Blend(KeptViews(s, d), s.views, names[..i]);
      pg.relations(s.views[names[i]].body) <= TablesAt(s, d, 7).Keys + here.Keys <==>
      forall w <- s.views :: w in pg.relations(s.views[names[i]].body) ==>
        w in KeptViews(s, d) || Less(w, names[i]) || w in d.tables
  {
    var v := names[i];
    var here := Blend(KeptViews(s, d), s.views, names[..i]);
    forall w | w in s.views
      ensures w in here <==> w in KeptViews(s, d) || Less(w, v)
    {
      Earlier(names, i, w);
    }
    assert TablesAt(s, d, 7).Keys == s.tables.Keys + d.tables.Keys;
    forall w | w in pg.relations(s.views[v].body) && w !in s.views
      ensures w in TablesAt(s, d, 7)
    {
      assert w in s.tables;
    }
  }

  lemma ColumnsAtSeven(s: Db, d: Db, t: string)
    ensures t in s.tables ==> t in TablesAt(s, d, 7) && TablesAt(s, d, 7)[t].columns == s.tables[t].columns
    ensures t !in s.tables ==> (t in TablesAt(s, d, 7) <==> t in d.tables)
    ensures t !in s.tables && t in d.tables ==> TablesAt(s, d, 7)[t].columns == d.tables[t].columns
  {
  }

  // One column that the wanted view reads.
  lemma ColumnInTurn(pg: Reader, s: Db, d: Db, names: seq<string>, i: nat, p: (string, string))
    requires i < |names| && Ascending(names) && (forall w <- s.views :: w in names)
    requires NamesDisjoint(s) && names[i] in s.views && ViewSound(pg, s, names[i], s.views[names[i]])
    requires p in pg.viewColumns(s.views[names[i]].body)
    ensures var here := Blend(KeptViews(s, d), s.views, names[..i]);
      ColumnThere(pg, Stage(s, d, 7).(views := here), p.0, p.1) <==>
      (p.0 in s.views ==> OutputInTurn(pg, s, d, names[i], p.0, p.1))
  {
    hide TablesAt, NamesDisjoint, OutputNames;
    var here := Blend(KeptViews(s, d), s.views, names[..i]);
    assert ColumnThere(pg, s, p.0, p.1);
    ColumnsAtSeven(s, d, p.0);
    if p.0 in s.views {
      Earlier(names, i, p.0);
      assert p.0 !in s.tables by { NotATable(s, p.0); }
    }
  }

  lemma NotATable(s: Db, v: string)
    requires NamesDisjoint(s) && v in s.views
    ensures v !in s.tables
  {
  }

  lemma ReadableInTurn(pg: Reader, s: Db, d: Db, names: seq<string>, i: nat)
    requires i < |names| && Ascending(names) && (forall w <- s.views :: w in names)
    requires NamesDisjoint(s) && names[i] in s.views && ViewSound(pg, s, names[i], s.views[names[i]])
    ensures var here := Blend(KeptViews(s, d), s.views, names[..i]);
      Readable(pg, Stage(s, d, 7).(views := here), s.views[names[i]].body) <==> ReadsInTurn(pg, s, d, names[i])
  {
    hide NamesDisjoint, OutputInTurn, ColumnThere, TablesAt, Blend, KeptViews;
    var v := names[i];
    var db := Stage(s, d, 7).(views := Blend(KeptViews(s, d), s.views, names[..i]));
    ReadsThere(pg, s, d, names, i);
    assert Signatures(pg, s.routines) <= Signatures(pg, db.routines);
    forall p | p in pg.viewColumns(s.views[v].body)
      ensures ColumnThere(pg, db, p.0, p.1) <==> (p.0 in s.views ==> OutputInTurn(pg, s, d, v, p.0, p.1))
    {
      ColumnInTurn(pg, s, d, names, i, p);
    }
  }

  lemma CreateOneView(pg: Reader, db: Db, views: map<string, View>, v: string, materialized: bool, replace: bool,
                      body: string)
    requires replace ==> v in views && !views[v].materialized
    ensures var here := db.(views := views);
      Exec(pg, here, CreateView(v, materialized, replace, body)) ==
      Outcome((if replace then pg.outputs(views[v].body) <= pg.outputs(body) else v !in RelationNames(here)) &&
              Readable(pg, here, body),
              db.(views := views[v := View(materialized, body)]))
  {
    hide Readable, RelationNames;
  }

  lemma CreateWantedView(pg: Reader, s: Db, d: Db, names: seq<string>, i: nat)
    requires NamesDisjoint(s) && ReadsKnown(pg, s) && i < |names| && Ascending(names) &&
      (forall w <- s.views :: w in names)
    requires names[i] in s.views && !Same(s.views, d.views, names[i])
    ensures var v := names[i]; var here := Blend(KeptViews(s, d), s.views, names[..i]);
      Exec(pg, Stage(s, d, 7).(views := here),
           CreateView(v, s.views[v].materialized, v in KeptViews(s, d), s.views[v].body)) ==
      Outcome(ViewCreateOk(pg, s, d, v), Stage(s, d, 7).(views := here[v := s.views[v]]))
  {
    hide Readable, ReadsInTurn, RelationNames, Stage, ViewSound, NamesDisjoint;
    var v := names[i];
    var here := Blend(KeptViews(s, d), s.views, names[..i]);
    var replace := v in KeptViews(s, d);
    NewName(names, i);
    BlendStep(KeptViews(s, d), s.views, names, i);
    CreateOneView(pg, Stage(s, d, 7), here, v, s.views[v].materialized, replace, s.views[v].body);
    if !replace {
      ViewNameFree(s, d, v, here);
    }
    ReadableInTurn(pg, s, d, names, i);
  }

  lemma CreateViewStep(pg: Reader, source: SchemaSnapshot, target: SchemaSnapshot, s: Db, d: Db, names: seq<string>,
                       i: nat)
    requires ViewsOf(source, s) && ViewsOf(target, d) && NamesDisjoint(s) && ReadsKnown(pg, s)
    requires i < |names| && Ascending(names) && (forall w <- s.views :: w in names)
    ensures Steps(pg, EntryPhase(Views, ViewPart(source, target))(names[i]),
                  Mid(PutViews(Stage(s, d, 7)), KeptViews(s, d), s.views, names), ViewCreatesOk(pg, s, d, names), i)
  {
    hide Stage, EntryPhase, ViewPart, Steps, Run, ReadsKnown;
    var v := names[i];
    var script := ViewPhase(Views, source, target, v);
    var before, after := KeptViews(s, d), s.views;
    var put := PutViews(Stage(s, d, 7));
    ViewByPhase(Views, source, target, v);
    if v in s.views && v in d.views {
      ViewDifference(source, target, s, d, v);
    }
    if v in s.views && !Same(s.views, d.views, v) {
      assert script == [CreateView(v, s.views[v].materialized, v in KeptViews(s, d), s.views[v].body)];
      CreateWantedView(pg, s, d, names, i);
      BlendExec(pg, script, put, before, after, names, ViewCreatesOk(pg, s, d, names), i);
    } else {
      BlendNoop(pg, script, put, before, after, names, ViewCreatesOk(pg, s, d, names), i);
    }
  }

  lemma AfterViews(s: Db, d: Db)
    ensures Stage(s, d, 7).(views := KeptViews(s, d)) == Stage(s, d, 7)
    ensures Stage(s, d, 7).(views := s.views) == Stage(s, d, 8)
  {
    TablesStay(s, d, 7);
  }

  lemma ViewTurnsMean(pg: Reader, s: Db, d: Db, names: seq<string>)
    requires Lists(names, s.views.Keys + d.views.Keys)
    ensures AllOk(ViewCreatesOk(pg, s, d, names), |names|) <==> forall v <- s.views :: ViewCreateOk(pg, s, d, v)
  {
    hide ReadsInTurn, Same, ViewNameOk;
    if AllOk(ViewCreatesOk(pg, s, d, names), |names|) {
      forall v | v in s.views
        ensures ViewCreateOk(pg, s, d, v)
      {
        assert v in names;
        var i: nat :| i < |names| && names[i] == v;
        assert ViewCreatesOk(pg, s, d, names)(i);
      }
    }
  }

  lemma NamesInTurn(pg: Reader, s: Db, d: Db)
    ensures ViewNamesApply(pg, s, d) <==>
      forall v <- s.views :: !Same(s.views, d.views, v) ==> ViewNameOk(pg, s, d, v)
  {
    hide Free;
    forall v | v in s.views && Same(s.views, d.views, v)
      ensures v in KeptViews(s, d) && s.views[v] == d.views[v]
    {
    }
  }

  lemma WantedNotTable(pg: Reader, s: Db, d: Db, w: string)
    requires ViewNamesApply(pg, s, d) && NamesDisjoint(d) && NamesDisjoint(s) && w in s.views
    ensures w !in d.tables
  {
    assert w !in s.tables;
    if w in KeptViews(s, d) {
      assert w in d.views;
    } else {
      assert Free(s, d, w);
    }
  }

  lemma ReadsMean(pg: Reader, s: Db, d: Db, v: string)
    requires v in s.views && ViewSound(pg, s, v, s.views[v]) && forall w <- s.views :: w !in d.tables
    ensures ReadsInTurn(pg, s, d, v) <==>
      forall w <- s.views :: w in pg.relations(s.views[v].body) ==>
        Less(w, v) || (w in KeptViews(s, d) && ReadsOld(pg, s, d, v, w))
  {
    hide KeptViews, OutputNames, ColumnThere;
    KeptInTarget(s, d);
  }

  lemma KeptInTarget(s: Db, d: Db)
    ensures forall w <- KeptViews(s, d) :: w in d.views
  {
  }

  lemma ViewCreatesOkMeans(pg: Reader, s: Db, d: Db, names: seq<string>)
    requires Lists(names, s.views.Keys + d.views.Keys) && NamesDisjoint(d) && NamesDisjoint(s) && ReadsKnown(pg, s)
    ensures AllOk(ViewCreatesOk(pg, s, d, names), |names|) <==> ViewNamesApply(pg, s, d) && ViewCreatesApply(pg, s, d)
  {
    hide NamesDisjoint, ViewSound, ReadsInTurn, ViewNameOk, ViewNamesApply, ReadsOld, KeptViews, AllOk, ViewCreatesOk;
    ViewTurnsMean(pg, s, d, names);
    NamesInTurn(pg, s, d);
    if ViewNamesApply(pg, s, d) {
      forall w | w in s.views
        ensures w !in d.tables
      {
        WantedNotTable(pg, s, d, w);
      }
      forall v | v in s.views
        ensures ReadsInTurn(pg, s, d, v) <==>
          forall w <- s.views :: w in pg.relations(s.views[v].body) ==>
            Less(w, v) || (w in KeptViews(s, d) && w in d.views && ReadsOld(pg, s, d, v, w))
      {
        KeptInTarget(s, d);
        ReadsMean(pg, s, d, v);
      }
      KeptInTarget(s, d);
    }
  }

  lemma ViewsBlend(pg: Reader, source: SchemaSnapshot, target: SchemaSnapshot, s: Db, d: Db)
    requires ViewsOf(source, s) && ViewsOf(target, d) && NamesDisjoint(s) && NamesDisjoint(d) && ReadsKnown(pg, s)
    ensures Run(pg, Stage(s, d, 7), ViewScript(Views, source, target)) ==
            Outcome(ViewNamesApply(pg, s, d) && ViewCreatesApply(pg, s, d), Stage(s, d, 8))
  {
    hide Run, Stage;
    var names := Sorted(source.views.Keys + target.views.Keys);
    var part := EntryPhase(Views, ViewPart(source, target));
    var put := PutViews(Stage(s, d, 7));
    forall i: nat | i < |names|
      ensures Steps(pg, part(names[i]), Mid(put, KeptViews(s, d), s.views, names), ViewCreatesOk(pg, s, d, names), i)
    {
      CreateViewStep(pg, source, target, s, d, names, i);
    }
    RunBlend(pg, names, part, put, KeptViews(s, d), s.views, ViewCreatesOk(pg, s, d, names));
    AfterViews(s, d);
    ViewCreatesOkMeans(pg, s, d, names);
  }

  lemma DropViewsRun(pg: Reader, source: SchemaSnapshot, target: SchemaSnapshot, s: Db, d: Db)
    requires ViewsOf(source, s) && ViewsOf(target, d)
    ensures PhaseRuns(pg, source, target, s, d, 2, ViewDropsApply(pg, s, d))
  {
    hide *;
    PhaseNames();
    DropViewsBlend(pg, source, target, s, d);
    ViewPhaseIs(pg, source, target, s, d, 2, ViewDropsApply(pg, s, d));
  }

  lemma ViewsRun(pg: Reader, source: SchemaSnapshot, target: SchemaSnapshot, s: Db, d: Db)
    requires ViewsOf(source, s) && ViewsOf(target, d) && NamesDisjoint(s) && NamesDisjoint(d) && ReadsKnown(pg, s)
    ensures PhaseRuns(pg, source, target, s, d, 7, ViewNamesApply(pg, s, d) && ViewCreatesApply(pg, s, d))
  {
    hide *;
    PhaseNames();
    ViewsBlend(pg, source, target, s, d);
    ViewPhaseIs(pg, source, target, s, d, 7, ViewNamesApply(pg, s, d) && ViewCreatesApply(pg, s, d));
  }
}

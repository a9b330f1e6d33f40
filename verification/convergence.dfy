/** The script turns the target into the source, exactly when `ScriptApplies`. */
module Convergence {
  import opened Options
  import opened Gathering
  import opened Names
  import opened Snapshots
  import opened Statements
  import opened Diff
  import opened Database
  import opened Applies
  import opened Stages
  import opened ScriptOrder
  import opened PhaseLists
  import opened ObjectLists
  import opened KeptTables
  import opened SequencePhases
  import opened RoutinePhases
  import opened ViewPhases
  import opened TablePhases
  import opened ReshapePhase
  import opened IndexPhases

  /* ---- What the catalog guarantees, as the phases use it ---- */

  ghost predicate Facts(pg: Reader, source: SchemaSnapshot, s: Db) {
    s.sequences == source.sequences && TablesOf(source, s) && Indexed(source, s) && ViewsOf(source, s) &&
    RoutinesOf(source, s) && AllSound(pg, s) && IndexesSound(pg, s) && NamesDisjoint(s) && KindsDeclared(pg, s) &&
    ReadsKnown(pg, s) && RoutinesSound(pg, s)
  }

  lemma DescribedFacts(source: SchemaSnapshot, s: Db)
    requires DistinctIndexes(source) && s == DbOf(source)
    requires forall t <- source.tables :: DistinctColumns(source.tables[t].columns)
    requires Keyed(source)
    ensures s.sequences == source.sequences && TablesOf(source, s) && ViewsOf(source, s) && RoutinesOf(source, s)
  {
    hide NormalizeBody, ColumnMap, RoutineKey, DistinctColumns;
  }

  lemma KindFacts(pg: Reader, source: SchemaSnapshot, s: Db)
    requires DistinctIndexes(source) && s == DbOf(source) && FieldsAgree(pg, source)
    ensures KindsDeclared(pg, s)
  {
    hide NormalizeBody, ColumnMap, RoutineKey;
  }

  lemma IndexFacts(source: SchemaSnapshot, s: Db)
    requires DistinctIndexes(source) && s == DbOf(source)
    ensures Indexed(source, s)
  {
  }

  lemma ConsistentFacts(pg: Reader, s: Db)
    requires Consistent(pg, s)
    ensures AllSound(pg, s) && IndexesSound(pg, s) && NamesDisjoint(s) && ReadsKnown(pg, s) && RoutinesSound(pg, s)
  {
    hide TableSound, IndexSound, ViewSound, RoutineSound, NamesDisjoint;
  }

  lemma ValidFacts(pg: Reader, source: SchemaSnapshot, s: Db)
    requires Valid(pg, source) && s == DbOf(source)
    ensures Facts(pg, source, s)
  {
    DescribedFacts(source, s);
    KindFacts(pg, source, s);
    IndexFacts(source, s);
    ConsistentFacts(pg, s);
  }

  /* ---- The condition of each phase ---- */

  // What the phases rely on besides.
  ghost predicate Settled(pg: Reader, target: SchemaSnapshot, s: Db, d: Db) {
    AllExpressible(s, d) && Owning(pg, s, d) && Distinguished(pg, s, d) && pg.schema == target.schema
  }

  lemma OwnersSettled(pg: Reader, source: SchemaSnapshot, target: SchemaSnapshot, s: Db, d: Db)
    requires Compared(pg, source, target, s, d) && AllExpressible(s, d) && OwnersStay(pg, s, d) &&
      SignaturesStay(pg, s, d)
    ensures Settled(pg, target, s, d)
  {
  }

  ghost predicate PhaseCond(pg: Reader, source: SchemaSnapshot, target: SchemaSnapshot, s: Db, d: Db, r: nat)
    requires Named(source, s) && Named(target, d)
  {
    (r == 2 ==> ViewDropsApply(pg, s, d)) &&
    (r == 3 ==> IndexDropsApply(pg, s, d)) &&
    (r == 4 ==> NewSequencesFree(s, d)) &&
    (r == 5 ==> TablesApply(pg, source, target, s, d)) &&
    (r == 6 ==> RoutinesApply(pg, s, d)) &&
    (r == 7 ==> ViewNamesApply(pg, s, d) && ViewCreatesApply(pg, s, d)) &&
    (r == 8 ==> NewIndexesApply(pg, s, d)) &&
    (r == 11 ==> NoDroppedRoutineUsed(pg, s, d))
  }

  lemma FactsNamed(pg: Reader, source: SchemaSnapshot, s: Db)
    requires Facts(pg, source, s)
    ensures Named(source, s)
  {
  }

  lemma DropPhases(pg: Reader, source: SchemaSnapshot, target: SchemaSnapshot, s: Db, d: Db, r: nat)
    requires Facts(pg, source, s) && Facts(pg, target, d) && Settled(pg, target, s, d) && r <= 3
    ensures PhaseRuns(pg, source, target, s, d, r, PhaseCond(pg, source, target, s, d, r))
  {
    hide Run, Stage, ViewDropsApply, IndexDropsApply, NewSequencesFree, TablesApply, RoutinesApply, ViewNamesApply,
      ViewCreatesApply, NewIndexesApply, NoDroppedRoutineUsed, PhaseRuns, AllExpressible, Owning, Distinguished,
      AllSound, Unused, Unreferenced;
    if r == 0 { DropTriggersRun(pg, source, target, s, d); }
    else if r == 1 { DropForeignRun(pg, source, target, s, d); }
    else if r == 2 { DropViewsRun(pg, source, target, s, d); }
    else { DropIndexesRun(pg, source, target, s, d); }
  }

  lemma ReshapePhases(pg: Reader, source: SchemaSnapshot, target: SchemaSnapshot, s: Db, d: Db, r: nat)
    requires Facts(pg, source, s) && Facts(pg, target, d) && Settled(pg, target, s, d) && 4 <= r <= 6
    ensures PhaseRuns(pg, source, target, s, d, r, PhaseCond(pg, source, target, s, d, r))
  {
    hide Run, Stage, ViewDropsApply, IndexDropsApply, NewSequencesFree, TablesApply, RoutinesApply, ViewNamesApply,
      ViewCreatesApply, NewIndexesApply, NoDroppedRoutineUsed, PhaseRuns, AllExpressible, Owning, Distinguished,
      AllSound, Unused, Unreferenced;
    if r == 4 { SequencesRun(pg, source, target, s, d); }
    else if r == 5 { ReshapeRun(pg, source, target, s, d); }
    else { RoutinesRun(pg, source, target, s, d); }
  }

  lemma ViewsNotTables(pg: Reader, s: Db, d: Db)
    requires ViewNamesApply(pg, s, d) && NamesDisjoint(s) && NamesDisjoint(d)
    ensures forall v <- s.views :: v !in d.tables
  {
    assert forall v <- s.views :: v !in s.tables;
    assert forall v <- s.views :: v in d.views || Free(s, d, v);
  }

  lemma SequencesUnused(pg: Reader, s: Db)
    requires AllSound(pg, s)
    ensures Unused(pg, s)
  {
    forall n | n !in s.sequences
      ensures !SequenceUsed(pg, s.tables, n)
    {
      UsedSequences(pg, s, n);
    }
  }

  lemma TablesAtEnd(s: Db, d: Db, k: nat)
    requires AllExpressible(s, d) && k >= 13
    ensures TablesAt(s, d, k) == s.tables
  {
    forall n | n in s.tables
      ensures TableAt(s, d, k, n) == s.tables[n]
    {
    }
  }

  lemma LastTables(s: Db, d: Db)
    requires AllExpressible(s, d)
    ensures Stage(s, d, 13).tables == s.tables
  {
    TablesAtEnd(s, d, 13);
  }

  lemma NothingLeft(pg: Reader, s: Db, d: Db)
    requires ViewNamesApply(pg, s, d) && NamesDisjoint(s) && NamesDisjoint(d) && AllSound(pg, s) && ReadsKnown(pg, s)
    requires RoutinesSound(pg, s)
    ensures Unreferenced(pg, s, d)
  {
    hide TableSound, NamesDisjoint, Unreferenced;
    forall v | v in s.views
      ensures pg.relations(s.views[v].body) <= s.tables.Keys + s.views.Keys
    {
      assert ViewSound(pg, s, v, s.views[v]);
    }
    forall k | k in s.routines
      ensures pg.relations(s.routines[k].body) <= s.tables.Keys + s.views.Keys
    {
      assert RoutineSound(pg, s, s.routines[k]);
    }
    ViewsNotTables(pg, s, d);
    NothingRefers(pg, s, d);
  }

  lemma Staying(pg: Reader, s: Db, d: Db)
    requires Distinguished(pg, s, d)
    ensures SignaturesStay(pg, s, d)
  {
  }

  lemma CreatePhases(pg: Reader, source: SchemaSnapshot, target: SchemaSnapshot, s: Db, d: Db, r: nat)
    requires Facts(pg, source, s) && Facts(pg, target, d) && Settled(pg, target, s, d) && 7 <= r <= 10
    ensures PhaseRuns(pg, source, target, s, d, r, PhaseCond(pg, source, target, s, d, r))
  {
    hide Run, Stage, ViewDropsApply, IndexDropsApply, NewSequencesFree, TablesApply, RoutinesApply, ViewNamesApply,
      ViewCreatesApply, NewIndexesApply, NoDroppedRoutineUsed, PhaseRuns, AllExpressible, Owning, Distinguished,
      AllSound, Unused, Unreferenced, SignaturesStay;
    Staying(pg, s, d);
    if r == 7 { ViewsRun(pg, source, target, s, d); }
    else if r == 8 { CreateIndexesRun(pg, source, target, s, d); }
    else if r == 9 { AddForeignRun(pg, source, target, s, d); }
    else { CreateTriggersRun(pg, source, target, s, d); }
  }

  lemma LastPhases(pg: Reader, source: SchemaSnapshot, target: SchemaSnapshot, s: Db, d: Db, r: nat)
    requires Facts(pg, source, s) && Facts(pg, target, d) && Settled(pg, target, s, d) && 11 <= r < PHASE_COUNT
    requires ViewNamesApply(pg, s, d)
    ensures PhaseRuns(pg, source, target, s, d, r, PhaseCond(pg, source, target, s, d, r))
  {
    hide Run, Stage, ViewDropsApply, IndexDropsApply, NewSequencesFree, TablesApply, RoutinesApply, ViewNamesApply,
      ViewCreatesApply, NewIndexesApply, NoDroppedRoutineUsed, PhaseRuns, AllExpressible, Owning, Distinguished,
      AllSound, Unused, Unreferenced;
    if r == 11 {
      DropRoutinesRun(pg, source, target, s, d);
    } else if r == 12 {
      NothingLeft(pg, s, d);
      DropTablesRun(pg, source, target, s, d);
    } else {
      SequencesUnused(pg, s);
      LastTables(s, d);
      DropSequencesRun(pg, source, target, s, d);
    }
  }

  ghost predicate CondsUpTo(pg: Reader, source: SchemaSnapshot, target: SchemaSnapshot, s: Db, d: Db, k: nat)
    requires Named(source, s) && Named(target, d)
  {
    forall r: nat :: r < k ==> PhaseCond(pg, source, target, s, d, r)
  }

  ghost predicate PhasesHold(pg: Reader, source: SchemaSnapshot, target: SchemaSnapshot, s: Db, d: Db)
    requires Named(source, s) && Named(target, d)
  {
    forall r: nat ::
      r < PHASE_COUNT && CondsUpTo(pg, source, target, s, d, r) ==>
      PhaseRuns(pg, source, target, s, d, r, PhaseCond(pg, source, target, s, d, r))
  }

  lemma AllPhases(pg: Reader, source: SchemaSnapshot, target: SchemaSnapshot, s: Db, d: Db)
    requires Facts(pg, source, s) && Facts(pg, target, d) && Settled(pg, target, s, d)
    ensures Named(source, s) && Named(target, d) && PhasesHold(pg, source, target, s, d)
  {
    hide Run, Stage, PhaseCond, PhaseRuns, CondsUpTo, Settled;
    FactsNamed(pg, source, s);
    FactsNamed(pg, target, d);
    forall r: nat | r < PHASE_COUNT && CondsUpTo(pg, source, target, s, d, r)
      ensures PhaseRuns(pg, source, target, s, d, r, PhaseCond(pg, source, target, s, d, r))
    {
      PhaseHolds(pg, source, target, s, d, r);
    }
  }

  lemma CondsNext(pg: Reader, source: SchemaSnapshot, target: SchemaSnapshot, s: Db, d: Db, r: nat)
    requires Named(source, s) && Named(target, d)
    ensures CondsUpTo(pg, source, target, s, d, r + 1) ==
            (CondsUpTo(pg, source, target, s, d, r) && PhaseCond(pg, source, target, s, d, r))
  {
    hide PhaseCond;
  }

  lemma BeforeAll(pg: Reader, source: SchemaSnapshot, target: SchemaSnapshot, s: Db, d: Db, entries: seq<Entry>)
    requires Named(source, s) && Named(target, d)
    ensures Run(pg, Stage(s, d, 0), FirstPhases(0, entries)) ==
            Outcome(CondsUpTo(pg, source, target, s, d, 0), Stage(s, d, 0))
  {
    hide Stage;
  }

  // The state after every phase: the script either fails in some phase, or is in the stage written down for it.
  lemma {:induction false} Through(pg: Reader, source: SchemaSnapshot, target: SchemaSnapshot, s: Db, d: Db, k: nat)
    requires Named(source, s) && Named(target, d) && PhasesHold(pg, source, target, s, d) && k <= PHASE_COUNT
    ensures Run(pg, Stage(s, d, 0), FirstPhases(k, Entries(source, target))) ==
            Outcome(CondsUpTo(pg, source, target, s, d, k), Stage(s, d, k))
  {
    hide *;
    if k == 0 {
      BeforeAll(pg, source, target, s, d, Entries(source, target));
    } else {
      Through(pg, source, target, s, d, k - 1);
      PhaseNext(pg, source, target, s, d, k - 1);
    }
  }

  lemma PhaseNext(pg: Reader, source: SchemaSnapshot, target: SchemaSnapshot, s: Db, d: Db, r: nat)
    requires Named(source, s) && Named(target, d) && PhasesHold(pg, source, target, s, d) && r < PHASE_COUNT
    requires Run(pg, Stage(s, d, 0), FirstPhases(r, Entries(source, target))) ==
             Outcome(CondsUpTo(pg, source, target, s, d, r), Stage(s, d, r))
    ensures Run(pg, Stage(s, d, 0), FirstPhases(r + 1, Entries(source, target))) ==
            Outcome(CondsUpTo(pg, source, target, s, d, r + 1), Stage(s, d, r + 1))
  {
    hide Run, Stage, FirstPhases, Entries, CondsUpTo, PhaseRuns, PhaseCond;
    assert CondsUpTo(pg, source, target, s, d, r) ==>
      PhaseRuns(pg, source, target, s, d, r, PhaseCond(pg, source, target, s, d, r));
    PhaseFollows(pg, source, target, s, d, r);
  }

  lemma PhaseHolds(pg: Reader, source: SchemaSnapshot, target: SchemaSnapshot, s: Db, d: Db, r: nat)
    requires Facts(pg, source, s) && Facts(pg, target, d) && Settled(pg, target, s, d) && r < PHASE_COUNT
    requires CondsUpTo(pg, source, target, s, d, r)
    ensures PhaseRuns(pg, source, target, s, d, r, PhaseCond(pg, source, target, s, d, r))
  {
    hide Run, Stage, ViewDropsApply, IndexDropsApply, NewSequencesFree, TablesApply, RoutinesApply, ViewNamesApply,
      ViewCreatesApply, NewIndexesApply, NoDroppedRoutineUsed, PhaseRuns, Settled;
    if r <= 3 {
      DropPhases(pg, source, target, s, d, r);
    } else if r <= 6 {
      ReshapePhases(pg, source, target, s, d, r);
    } else if r <= 10 {
      CreatePhases(pg, source, target, s, d, r);
    } else {
      assert PhaseCond(pg, source, target, s, d, 7);
      LastPhases(pg, source, target, s, d, r);
    }
  }

  lemma PhaseFollows(pg: Reader, source: SchemaSnapshot, target: SchemaSnapshot, s: Db, d: Db, r: nat)
    requires Named(source, s) && Named(target, d) && r < PHASE_COUNT
    requires Run(pg, Stage(s, d, 0), FirstPhases(r, Entries(source, target))) ==
             Outcome(CondsUpTo(pg, source, target, s, d, r), Stage(s, d, r))
    requires CondsUpTo(pg, source, target, s, d, r) ==>
               PhaseRuns(pg, source, target, s, d, r, PhaseCond(pg, source, target, s, d, r))
    ensures Run(pg, Stage(s, d, 0), FirstPhases(r + 1, Entries(source, target))) ==
            Outcome(CondsUpTo(pg, source, target, s, d, r + 1), Stage(s, d, r + 1))
  {
    hide Run, Stage, PhaseCond, CondsUpTo;
    CondsNext(pg, source, target, s, d, r);
    var entries := Entries(source, target);
    var script := EntriesOfPhase(PhaseAt(r), entries);
    OneKind(PhaseAt(r), source, target);
    RunConcat(pg, Stage(s, d, 0), FirstPhases(r, entries), script);
  }

  /* ---- The conditions of the phases together ---- */

  // The tables just before routines are dropped: the source's, and the target's others without foreign keys.
  lemma TablesAtDropRoutines(s: Db, d: Db)
    requires AllExpressible(s, d)
    ensures var tables := TablesAt(s, d, 11);
      tables.Keys == s.tables.Keys + d.tables.Keys && (forall t <- s.tables :: tables[t] == s.tables[t]) &&
      (forall t <- d.tables :: t !in s.tables ==> tables[t] == DropForeign(d.tables[t]))
  {
    forall t | t in s.tables
      ensures TableAt(s, d, 11, t) == s.tables[t]
    {
    }
  }

  lemma SourceUsesOwnRoutines(pg: Reader, s: Db, g: string)
    requires AllSound(pg, s) && IndexesSound(pg, s) && ReadsKnown(pg, s) && g !in Signatures(pg, s.routines)
    ensures forall t <- s.tables :: !TableUsesRoutine(pg, s.tables[t], g)
    ensures forall i <- s.indexes :: g !in pg.routines(s.indexes[i].text)
    ensures forall v <- s.views :: g !in pg.routines(s.views[v].body)
  {
    forall t | t in s.tables
      ensures !TableUsesRoutine(pg, s.tables[t], g)
    {
      OwnRoutines(pg, s, s.tables[t], g);
    }
    forall i | i in s.indexes
      ensures g !in pg.routines(s.indexes[i].text)
    {
      assert IndexSound(pg, s, s.indexes[i]);
    }
    forall v | v in s.views
      ensures g !in pg.routines(s.views[v].body)
    {
      assert ViewSound(pg, s, v, s.views[v]);
    }
  }

  lemma OwnRoutines(pg: Reader, s: Db, t: Table, g: string)
    requires TableSound(pg, s, t) && g !in Signatures(pg, s.routines)
    ensures !TableUsesRoutine(pg, t, g)
  {
    forall c | c in t.columns
      ensures !ColumnUsesRoutine(pg, t.columns[c], g)
    {
      assert ColumnSound(pg, s, t.columns[c]);
    }
    assert t.partitionKey.Some? ==> PartitionSound(pg, s, t.columns, t.partitionKey.value);
    forall c | c in t.constraints
      ensures g !in pg.routines(t.constraints[c].definition)
    {
      assert ConstraintSound(pg, s, t.columns, t.constraints[c]);
    }
  }

  lemma UsedIndexes(pg: Reader, s: Db, d: Db, g: string)
    requires NewIndexesApply(pg, s, d)
    requires forall i <- s.indexes :: g !in pg.routines(s.indexes[i].text)
    ensures var all := KeptIndexes(s, d) + s.indexes;
      (exists i <- all :: g in pg.routines(all[i].text)) <==>
      (exists i <- d.indexes :: d.indexes[i].table !in s.tables && g in pg.routines(d.indexes[i].text))
  {
    var all := KeptIndexes(s, d) + s.indexes;
    forall i | i in d.indexes && d.indexes[i].table !in s.tables
      ensures i in all && (g in pg.routines(d.indexes[i].text) ==> all[i] == d.indexes[i])
    {
      assert !Free(s, d, i);
    }
  }

  lemma DroppedRoutineMeans(pg: Reader, s: Db, d: Db, k: string)
    requires AllSound(pg, s) && IndexesSound(pg, s) && ReadsKnown(pg, s) && AllExpressible(s, d) &&
      NewIndexesApply(pg, s, d)
    requires k in d.routines && k !in s.routines && SignaturesStay(pg, s, d)
    ensures StillUsed(pg, Stage(s, d, 11), k) <==> !DroppedRoutineFree(pg, s, d, pg.signature(k))
  {
    hide AllSound, IndexesSound, ReadsKnown, TableUsesRoutine, KeptIndexes, TablesAt;
    SourceUsesOwnRoutines(pg, s, pg.signature(k));
    TablesUsing(pg, s, d, pg.signature(k));
    UsedIndexes(pg, s, d, pg.signature(k));
    var db := Stage(s, d, 11);
    assert db.indexes == KeptIndexes(s, d) + s.indexes && db.views == s.views && db.tables == TablesAt(s, d, 11);
  }

  lemma TablesUsing(pg: Reader, s: Db, d: Db, g: string)
    requires AllExpressible(s, d)
    requires forall t <- s.tables :: !TableUsesRoutine(pg, s.tables[t], g)
    ensures var tables := TablesAt(s, d, 11);
      (exists t <- tables :: TableUsesRoutine(pg, tables[t], g)) <==>
      (exists t <- d.tables :: t !in s.tables && TableUsesRoutine(pg, DropForeign(d.tables[t]), g))
  {
    TablesAtDropRoutines(s, d);
    var tables := TablesAt(s, d, 11);
    forall t | t in tables
      ensures TableUsesRoutine(pg, tables[t], g) <==>
              t in d.tables && t !in s.tables && TableUsesRoutine(pg, DropForeign(d.tables[t]), g)
    {
    }
    forall t | t in d.tables
      ensures t in tables
    {
    }
  }

  lemma RoutineDropsMean(pg: Reader, s: Db, d: Db)
    requires AllSound(pg, s) && IndexesSound(pg, s) && ReadsKnown(pg, s) && AllExpressible(s, d) &&
      NewIndexesApply(pg, s, d)
    requires SignaturesStay(pg, s, d)
    ensures NoDroppedRoutineUsed(pg, s, d) <==> RoutineDropsApply(pg, s, d)
  {
    hide AllSound, IndexesSound, ReadsKnown, AllExpressible, NewIndexesApply, SignaturesStay, StillUsed,
      DroppedRoutineFree, CallersGone, Stage;
    forall k | k in d.routines && k !in s.routines
      ensures StillUsed(pg, Stage(s, d, 11), k) <==> !DroppedRoutineFree(pg, s, d, pg.signature(k))
    {
      DroppedRoutineMeans(pg, s, d, k);
    }
  }

  lemma CondsMean(pg: Reader, source: SchemaSnapshot, target: SchemaSnapshot, s: Db, d: Db)
    requires Compared(pg, source, target, s, d)
    requires Facts(pg, source, s) && Facts(pg, target, d) && AllExpressible(s, d) && OwnersStay(pg, s, d) &&
      SignaturesStay(pg, s, d)
    ensures Named(source, s) && Named(target, d)
    ensures CondsUpTo(pg, source, target, s, d, PHASE_COUNT) <==> ScriptApplies(pg, source, target)
  {
    hide ViewDropsApply, IndexDropsApply, NewSequencesFree, TablesApply, RoutinesApply, ViewNamesApply,
      ViewCreatesApply, NewIndexesApply, NoDroppedRoutineUsed, RoutineDropsApply, OwnersStay, SignaturesStay,
      AllExpressible, DbOf, Keyed, FieldsAgree, Consistent;
    FactsNamed(pg, source, s);
    FactsNamed(pg, target, d);
    if NewIndexesApply(pg, s, d) {
      RoutineDropsMean(pg, s, d);
    }
    if CondsUpTo(pg, source, target, s, d, PHASE_COUNT) {
      assert PhaseCond(pg, source, target, s, d, 2) && PhaseCond(pg, source, target, s, d, 3) &&
             PhaseCond(pg, source, target, s, d, 4) && PhaseCond(pg, source, target, s, d, 5) &&
             PhaseCond(pg, source, target, s, d, 6) && PhaseCond(pg, source, target, s, d, 7) &&
             PhaseCond(pg, source, target, s, d, 8) && PhaseCond(pg, source, target, s, d, 11);
    }
  }

  lemma FirstStage(pg: Reader, s: Db, d: Db)
    ensures Stage(s, d, 0) == d
  {
    forall n | n in d.tables
      ensures TableAt(s, d, 0, n) == d.tables[n]
    {
    }
  }

  lemma LastStage(s: Db, d: Db)
    requires AllExpressible(s, d)
    ensures Stage(s, d, 14) == s
  {
    TablesAtEnd(s, d, 14);
  }

  // The target on its way to the source.
  lemma OnTheWay(pg: Reader, source: SchemaSnapshot, target: SchemaSnapshot, s: Db, d: Db, k: nat)
    requires Compared(pg, source, target, s, d) && AllExpressible(s, d) && OwnersStay(pg, s, d) &&
      SignaturesStay(pg, s, d)
    requires k <= PHASE_COUNT
    ensures Named(source, s) && Named(target, d)
    ensures Run(pg, d, FirstPhases(k, Entries(source, target))) ==
            Outcome(CondsUpTo(pg, source, target, s, d, k), Stage(s, d, k))
  {
    hide Run, Stage, CondsUpTo, PhasesHold, Facts, AllExpressible, OwnersStay, SignaturesStay, Settled, Valid,
      Describes, DbOf, Entries, FirstPhases;
    ValidFacts(pg, source, s);
    ValidFacts(pg, target, d);
    OwnersSettled(pg, source, target, s, d);
    AllPhases(pg, source, target, s, d);
    Through(pg, source, target, s, d, k);
    FirstStage(pg, s, d);
  }

  // When the script can say what has to change, and takes no sequence along with a column, it fails or ends in exactly
  // the wanted schema.
  lemma ExpressibleOutcome(pg: Reader, source: SchemaSnapshot, target: SchemaSnapshot, s: Db, d: Db)
    requires Compared(pg, source, target, s, d) && AllExpressible(s, d) && OwnersStay(pg, s, d) &&
      SignaturesStay(pg, s, d)
    ensures Run(pg, d, ScriptOf(Entries(source, target))) == Outcome(ScriptApplies(pg, source, target), s)
  {
    hide Run, Stage, ScriptApplies, CondsUpTo, Facts, AllExpressible, OwnersStay, SignaturesStay, Valid, Describes,
      DbOf, Entries, FirstPhases;
    OnTheWay(pg, source, target, s, d, PHASE_COUNT);
    ScriptByPhases(Entries(source, target));
    LastStage(s, d);
    ValidFacts(pg, source, s);
    ValidFacts(pg, target, d);
    CondsMean(pg, source, target, s, d);
  }
}

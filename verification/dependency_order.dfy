/** What the order of the script guarantees about dependencies. */
module DependencyOrder {
  import opened Options
  import opened Gathering
  import opened Names
  import opened Snapshots
  import opened Statements
  import opened Diff
  import opened ScriptOrder
  import opened Database
  import opened Applies
  import opened Stages
  import opened PhaseLists
  import opened ObjectLists
  import opened SequencePhases
  import opened TablePhases
  import opened ReshapePhase
  import opened Convergence

  predicate TargetForeign(target: SchemaSnapshot, t: string, k: string) {
    t in target.tables && k in target.tables[t].constraints && IsForeign(target.tables[t].constraints[k])
  }

  // The phase a statement stands in.
  function PhaseFor(target: SchemaSnapshot, st: Statement): Phase {
    match st
    case CreateSequence(_, _) => Sequences
    case AlterSequence(_, _) => Sequences
    case DropSequence(_) => DropSequences
    case CreateTable(_, _, _, _) => Tables
    case AddColumn(_, _) => Tables
    case AlterColumn(_, _, _) => Tables
    case DropColumn(_, _) => Tables
    case AddConstraint(_, _, c) => if IsForeign(c) then ForeignKeys else Tables
    case DropConstraint(t, k) => if TargetForeign(target, t, k) then DropForeignKeys else Tables
    case DropTable(_) => DropTables
    case CreateIndex(_, _, _) => Indexes
    case DropIndex(_, _) => DropIndexes
    case CreateTrigger(_, _, _) => Triggers
    case DropTrigger(_, _) => DropTriggers
    case CreateView(_, _, _, _) => Views
    case DropView(_, _) => DropViews
    case CreateRoutine(_, _, _) => Routines
    case DropRoutine(_, _) => DropRoutines
  }

  function Fits(target: SchemaSnapshot): Tagged -> bool { (x: Tagged) => x.phase == PhaseFor(target, x.statement) }

  ghost predicate AllFit(target: SchemaSnapshot, tagged: seq<Tagged>) { forall x <- tagged :: Fits(target)(x) }

  lemma GatherFits<T>(target: SchemaSnapshot, items: seq<T>, part: T -> seq<Tagged>)
    requires forall item <- items :: AllFit(target, part(item))
    ensures AllFit(target, Gather(items, part))
  {
    hide Fits;
    forall item, x | item in items && x in part(item)
      ensures Fits(target)(x)
    {
      assert AllFit(target, part(item));
    }
    GatherAll(items, part, Fits(target));
  }

  lemma ConcatFits(target: SchemaSnapshot, a: seq<Tagged>, b: seq<Tagged>)
    requires AllFit(target, a) && AllFit(target, b)
    ensures AllFit(target, a + b)
  {
    hide Fits;
  }

  lemma {:induction false} ChangesFit(target: SchemaSnapshot, t: string, name: string, changes: seq<ColumnChange>)
    ensures AllFit(target, AlterColumnStatements(t, name, changes))
  {
    if changes != [] {
      ChangesFit(target, t, name, changes[..|changes| - 1]);
    }
  }

  lemma ColumnFits(target: SchemaSnapshot, t: string, to: map<string, Column>, from: map<string, Column>,
                   column: Column)
    ensures AllFit(target, ColumnStatements(t, to, column)) && AllFit(target, DropColumnStatements(t, from, column))
  {
    hide ColumnChanges;
    if column.name in to {
      ChangesFit(target, t, column.name, ColumnChanges(to[column.name], column));
    }
  }

  lemma ConstraintFits(target: SchemaSnapshot, t: string, f: map<string, Constraint>, n: string)
    requires t in target.tables
    ensures AllFit(target, ConstraintStatements(t, f, target.tables[t].constraints, n))
    ensures AllFit(target, DropForeignKeyPart(t, target.tables[t].constraints)(n))
  {
  }

  lemma AddedFits(target: SchemaSnapshot, t: string, f: map<string, Constraint>, n: string)
    ensures AllFit(target, ForeignKeyPart(t, f)(n))
  {
  }

  lemma TextFits(target: SchemaSnapshot, qualifier: string, t: string, f: map<string, string>, c: map<string, string>,
                 n: string)
    ensures AllFit(target, IndexStatements(qualifier, t, f, c, n)) && AllFit(target, TriggerStatements(t, f, c, n))
  {
    IndexFits(target, qualifier, t, f, c, n);
    TriggerFits(target, t, f, c, n);
  }

  lemma IndexFits(target: SchemaSnapshot, qualifier: string, t: string, f: map<string, string>, c: map<string, string>,
                  n: string)
    ensures AllFit(target, IndexStatements(qualifier, t, f, c, n))
  {
  }

  lemma TriggerFits(target: SchemaSnapshot, t: string, f: map<string, string>, c: map<string, string>, n: string)
    ensures AllFit(target, TriggerStatements(t, f, c, n))
  {
  }

  lemma AlterFits(target: SchemaSnapshot, t: string, from: TableSnapshot)
    requires t in target.tables
    ensures AllFit(target, AlterTableStatements(target.schema, t, from, target.tables[t]))
  {
    hide AllFit, ColumnStatements, DropColumnStatements, ConstraintStatements, IndexStatements, TriggerStatements,
      Gather, ColumnMap;
    var to := target.tables[t];
    var f, c := ColumnMap(from.columns), ColumnMap(to.columns);
    var a := Gather(from.columns, ColumnPart(t, c));
    var b := Gather(to.columns, DropColumnPart(t, f));
    var k :=
      Gather(Sorted(from.constraints.Keys + to.constraints.Keys), ConstraintPart(t, from.constraints, to.constraints));
    var i :=
      Gather(Sorted(from.indexes.Keys + to.indexes.Keys),
             IndexPart(IndexQualifier(target.schema, t), t, from.indexes, to.indexes));
    var g := Gather(Sorted(from.triggers.Keys + to.triggers.Keys), TriggerPart(t, from.triggers, to.triggers));
    forall column: Column
      ensures AllFit(target, ColumnPart(t, c)(column)) && AllFit(target, DropColumnPart(t, f)(column))
    {
      ColumnFits(target, t, c, f, column);
    }
    forall n: string
      ensures AllFit(target, ConstraintPart(t, from.constraints, to.constraints)(n))
      ensures AllFit(target, IndexPart(IndexQualifier(target.schema, t), t, from.indexes, to.indexes)(n))
      ensures AllFit(target, TriggerPart(t, from.triggers, to.triggers)(n))
    {
      ConstraintFits(target, t, from.constraints, n);
      TextFits(target, IndexQualifier(target.schema, t), t, from.indexes, to.indexes, n);
      TextFits(target, IndexQualifier(target.schema, t), t, from.triggers, to.triggers, n);
    }
    GatherFits(target, from.columns, ColumnPart(t, c));
    GatherFits(target, to.columns, DropColumnPart(t, f));
    GatherFits(target, Sorted(from.constraints.Keys + to.constraints.Keys),
               ConstraintPart(t, from.constraints, to.constraints));
    GatherFits(target, Sorted(from.indexes.Keys + to.indexes.Keys),
               IndexPart(IndexQualifier(target.schema, t), t, from.indexes, to.indexes));
    GatherFits(target, Sorted(from.triggers.Keys + to.triggers.Keys), TriggerPart(t, from.triggers, to.triggers));
    ConcatFits(target, a, b);
    ConcatFits(target, a + b, k);
    ConcatFits(target, a + b + k, i);
    ConcatFits(target, a + b + k + i, g);
  }

  lemma CreateFits(target: SchemaSnapshot, t: string, from: TableSnapshot)
    ensures AllFit(target, CreateTableStatements(t, from))
  {
    hide AllFit, ForeignKeyPart, IndexStatements, TriggerStatements, Gather;
    var create := [Tagged(Tables, CreateTableStatement(t, from))];
    var k := Gather(Sorted(from.constraints.Keys), ForeignKeyPart(t, from.constraints));
    var i := Gather(Sorted(from.indexes.Keys), IndexPart("", t, from.indexes, map[]));
    var g := Gather(Sorted(from.triggers.Keys), TriggerPart(t, from.triggers, map[]));
    forall n: string
      ensures AllFit(target, ForeignKeyPart(t, from.constraints)(n))
      ensures AllFit(target, IndexPart("", t, from.indexes, map[])(n)) &&
        AllFit(target, TriggerPart(t, from.triggers, map[])(n))
    {
      AddedFits(target, t, from.constraints, n);
      TextFits(target, "", t, from.indexes, map[], n);
      TextFits(target, "", t, from.triggers, map[], n);
    }
    GatherFits(target, Sorted(from.constraints.Keys), ForeignKeyPart(t, from.constraints));
    GatherFits(target, Sorted(from.indexes.Keys), IndexPart("", t, from.indexes, map[]));
    GatherFits(target, Sorted(from.triggers.Keys), TriggerPart(t, from.triggers, map[]));
    OneFits(target, create[0]);
    ConcatFits(target, create, k);
    ConcatFits(target, create + k, i);
    ConcatFits(target, create + k + i, g);
  }

  lemma OneFits(target: SchemaSnapshot, x: Tagged)
    requires Fits(target)(x)
    ensures AllFit(target, [x])
  {
  }

  lemma DropFits(target: SchemaSnapshot, t: string)
    requires t in target.tables
    ensures AllFit(target, DropTableStatements(t, target.tables[t]))
  {
    hide AllFit, DropForeignKeyPart, Gather;
    var to := target.tables[t];
    forall n: string
      ensures AllFit(target, DropForeignKeyPart(t, to.constraints)(n))
    {
      ConstraintFits(target, t, map[], n);
    }
    GatherFits(target, Sorted(to.constraints.Keys), DropForeignKeyPart(t, to.constraints));
    OneFits(target, Tagged(DropTables, DropTable(t)));
    ConcatFits(target, Gather(Sorted(to.constraints.Keys), DropForeignKeyPart(t, to.constraints)),
               [Tagged(DropTables, DropTable(t))]);
  }

  lemma TableFits(source: SchemaSnapshot, target: SchemaSnapshot, n: string, e: Entry)
    requires e in TableEntry(source, target, n)
    ensures AllFit(target, e.tagged)
  {
    hide AlterTableStatements, CreateTableStatements, DropTableStatements, AlterTableNotes, AlterTableDestructive,
      AllFit;
    if n in source.tables && n in target.tables {
      AlterFits(target, n, source.tables[n]);
    } else if n in source.tables {
      CreateFits(target, n, source.tables[n]);
    } else {
      DropFits(target, n);
    }
  }

  lemma SequenceFits(source: SchemaSnapshot, target: SchemaSnapshot, n: string, e: Entry)
    requires e in SequenceEntry(source, target, n)
    ensures AllFit(target, e.tagged)
  {
    hide NormalizeBody;
    assert e == SequenceEntry(source, target, n)[0];
  }

  lemma ViewFits(source: SchemaSnapshot, target: SchemaSnapshot, n: string, e: Entry)
    requires e in ViewEntry(source, target, n)
    ensures AllFit(target, e.tagged)
  {
    hide NormalizeBody;
    assert e == ViewEntry(source, target, n)[0];
  }

  lemma RoutineFits(source: SchemaSnapshot, target: SchemaSnapshot, n: string, e: Entry)
    requires e in RoutineEntry(source, target, n)
    ensures AllFit(target, e.tagged)
  {
    hide NormalizeBody;
    assert e == RoutineEntry(source, target, n)[0];
  }

  lemma EntriesFit(source: SchemaSnapshot, target: SchemaSnapshot, e: Entry)
    requires e in Entries(source, target)
    ensures AllFit(target, e.tagged)
  {
    hide Gather, SequenceEntry, TableEntry, ViewEntry, RoutineEntry, Fits;
    GatherMember(Sorted(source.sequences.Keys + target.sequences.Keys), SequencePart(source, target), e);
    GatherMember(Sorted(source.tables.Keys + target.tables.Keys), TablePart(source, target), e);
    GatherMember(Sorted(source.views.Keys + target.views.Keys), ViewPart(source, target), e);
    GatherMember(Sorted(source.routines.Keys + target.routines.Keys), RoutinePart(source, target), e);
    if n :| e in SequencePart(source, target)(n) {
      SequenceFits(source, target, n, e);
    } else if n :| e in TablePart(source, target)(n) {
      TableFits(source, target, n, e);
    } else if n :| e in ViewPart(source, target)(n) {
      ViewFits(source, target, n, e);
    } else {
      var n :| e in RoutinePart(source, target)(n);
      RoutineFits(source, target, n, e);
    }
  }

  lemma {:induction false} OrderedFit(target: SchemaSnapshot, entries: seq<Entry>, x: Ordered)
    requires x in OrderedEntries(entries) && forall e <- entries :: AllFit(target, e.tagged)
    ensures x.phase == PhaseFor(target, x.statement)
  {
    hide PhaseFor;
    var n := |entries| - 1;
    if x in OrderedEntries(entries[..n]) {
      OrderedFit(target, entries[..n], x);
    } else {
      var i: nat :| i < |entries[n].tagged| && OrderedEntry(n, entries[n].tagged)[i] == x;
      assert AllFit(target, entries[n].tagged);
      assert Fits(target)(entries[n].tagged[i]);
    }
  }

  // The statements of the script stand in the order of their phases.
  lemma ScriptInPhases(source: SchemaSnapshot, target: SchemaSnapshot, i: nat, j: nat)
    requires i < j < |ScriptOf(Entries(source, target))|
    ensures var script := ScriptOf(Entries(source, target));
      Rank(PhaseFor(target, script[i])) <= Rank(PhaseFor(target, script[j]))
  {
    hide Entries, StableSort, OrderedEntries, PhaseFor, AllFit, Stable;
    var entries := Entries(source, target);
    var ordered := OrderedEntries(entries);
    var sorted := StableSort(ordered);
    StableSortSorts(ordered);
    forall e | e in entries
      ensures AllFit(target, e.tagged)
    {
      EntriesFit(source, target, e);
    }
    assert sorted[i] in multiset(sorted) && sorted[j] in multiset(sorted);
    OrderedFit(target, entries, sorted[i]);
    OrderedFit(target, entries, sorted[j]);
    RankOrder(sorted, i, j);
  }

  lemma RankOrder(sorted: seq<Ordered>, i: nat, j: nat)
    requires InOrder(sorted) && i < j < |sorted|
    ensures Rank(sorted[i].phase) <= Rank(sorted[j].phase)
  {
    assert !KeyLess(sorted[j], sorted[i]);
  }

  // A trigger, an index, a foreign key or a view is dropped before any column is, retyped or not.
  lemma DropsBeforeColumns(source: SchemaSnapshot, target: SchemaSnapshot, i: nat, j: nat)
    requires var script := ScriptOf(Entries(source, target));
      i < |script| && j < |script| && (script[i].DropColumn? || script[i].AlterColumn?) &&
      (script[j].DropTrigger? || script[j].DropIndex? || script[j].DropView? ||
       (script[j].DropConstraint? && TargetForeign(target, script[j].table, script[j].name)))
    ensures j < i
  {
    hide ScriptOf, Entries;
    if i < j {
      ScriptInPhases(source, target, i, j);
    }
  }

  // What PostgreSQL asks of a statement's surroundings.
  ghost predicate Supplied(pg: Reader, db: Db, st: Statement) {
    (st.AddConstraint? ==>
       st.table in db.tables && pg.columns(st.constraint.definition) <= db.tables[st.table].columns.Keys &&
       Available(pg, db, st.constraint.definition) &&
       (IsForeign(st.constraint) && pg.references(st.constraint.definition).Some? ==>
          pg.references(st.constraint.definition).value in db.tables)) &&
    (st.CreateTrigger? ==>
       st.table in db.tables && pg.routines(st.text) <= Signatures(pg, db.routines) &&
       pg.columns(st.text) <= db.tables[st.table].columns.Keys) &&
    (st.DropTable? ==>
       !Referenced(pg, db.tables, st.table) && !ReadRelation(pg, db.views, st.table) &&
       !RowsTaken(pg, db.routines, st.table)) &&
    (st.DropSequence? ==> st.sequence in db.sequences && !SequenceUsed(pg, db.tables, st.sequence))
  }

  lemma AcceptedSupplied(pg: Reader, db: Db, st: Statement)
    requires Exec(pg, db, st).Some?
    ensures Supplied(pg, db, st)
  {
  }

  lemma PrefixRuns(pg: Reader, db: Db, script: seq<Statement>, i: nat)
    requires Run(pg, db, script).Some? && i < |script|
    ensures Run(pg, db, script[..i]).Some? && Exec(pg, Run(pg, db, script[..i]).value, script[i]).Some?
  {
    hide Exec;
    RunConcat(pg, db, script[..i + 1], script[i + 1..]);
    assert script[..i + 1] + script[i + 1..] == script;
    assert script[..i + 1][..i] == script[..i];
  }

  /* ---- Where a statement stands ---- */

  lemma {:induction false} InSomePhase(count: nat, entries: seq<Entry>, i: nat)
    returns (r: nat)
    requires count <= PHASE_COUNT && i < |FirstPhases(count, entries)|
    ensures r < count && |FirstPhases(r, entries)| <= i < |FirstPhases(r + 1, entries)|
    ensures FirstPhases(count, entries)[i] in EntriesOfPhase(PhaseAt(r), entries)
    ensures FirstPhases(r + 1, entries) <= FirstPhases(count, entries)
  {
    hide EntriesOfPhase, PhaseAt;
    if i < |FirstPhases(count - 1, entries)| {
      r := InSomePhase(count - 1, entries, i);
    } else {
      r := count - 1;
      assert FirstPhases(count, entries)[i] ==
             EntriesOfPhase(PhaseAt(r), entries)[i - |FirstPhases(r, entries)|];
    }
  }

  lemma PhaseOfStatement(source: SchemaSnapshot, target: SchemaSnapshot, phase: Phase, st: Statement)
    requires st in EntriesOfPhase(phase, Entries(source, target))
    ensures PhaseFor(target, st) == phase
  {
    hide Entries, PhaseFor;
    var entries := Entries(source, target);
    GatherMember(entries, PhaseOf(phase, TaggedPart()), st);
    var e :| e in entries && st in PhaseOf(phase, TaggedPart())(e);
    GatherMember(e.tagged, PhaseStatements(phase), st);
    var x :| x in e.tagged && st in PhaseStatements(phase)(x);
    EntriesFit(source, target, e);
    assert Fits(target)(x);
  }

  // Every statement of the script stands in the list of its phase.
  lemma StatementAt(source: SchemaSnapshot, target: SchemaSnapshot, i: nat) returns (r: nat)
    requires i < |ScriptOf(Entries(source, target))|
    ensures var entries := Entries(source, target);
      r < PHASE_COUNT && PhaseAt(r) == PhaseFor(target, ScriptOf(entries)[i]) &&
      |FirstPhases(r, entries)| <= i < |FirstPhases(r + 1, entries)| &&
        FirstPhases(r + 1, entries) <= ScriptOf(entries) &&
      ScriptOf(entries)[i] in EntriesOfPhase(PhaseAt(r), entries)
  {
    hide Entries, ScriptOf, FirstPhases, EntriesOfPhase, PhaseFor, PhaseAt;
    ScriptByPhases(Entries(source, target));
    r := InSomePhase(PHASE_COUNT, Entries(source, target), i);
    PhaseOfStatement(source, target, PhaseAt(r), ScriptOf(Entries(source, target))[i]);
  }

  // A routine statement of the script comes from a routine of its side.
  lemma RoutineStatement(source: SchemaSnapshot, target: SchemaSnapshot, st: Statement) returns (k: string)
    requires st in ScriptOf(Entries(source, target)) && (st.CreateRoutine? || st.DropRoutine?)
    ensures st.CreateRoutine? ==> k in source.routines && st == CreateRoutineStatement(source.routines[k])
    ensures st.DropRoutine? ==>
      k in target.routines && st == DropRoutine(RoutineKey(target.routines[k]), target.routines[k].procedure)
  {
    hide Entries, ScriptOf, FirstPhases, EntriesOfPhase, RoutinePart, NormalizeBody, RoutineKey, CreateRoutineStatement;
    var phase := if st.CreateRoutine? then Routines else DropRoutines;
    var i: nat :| i < |ScriptOf(Entries(source, target))| && ScriptOf(Entries(source, target))[i] == st;
    var r := StatementAt(source, target, i);
    OneKind(phase, source, target);
    var keys := Sorted(source.routines.Keys + target.routines.Keys);
    GatherMember(keys, EntryPhase(phase, RoutinePart(source, target)), st);
    k :| k in keys && st in EntryPhase(phase, RoutinePart(source, target))(k);
    RoutineByPhase(phase, source, target, k);
    RoutinePhaseIs(phase, source, target, k, st);
  }

  lemma RoutinePhaseIs(phase: Phase, source: SchemaSnapshot, target: SchemaSnapshot, k: string, st: Statement)
    requires st in RoutinePhase(phase, source, target, k)
    ensures st.CreateRoutine? ==> k in source.routines && st == CreateRoutineStatement(source.routines[k])
    ensures st.DropRoutine? ==>
      k in target.routines && st == DropRoutine(RoutineKey(target.routines[k]), target.routines[k].procedure)
  {
    hide NormalizeBody, RoutineKey;
  }

  // These phases never refuse a statement.
  predicate Unconditional(phase: Phase) {
    phase == DropTriggers || phase == DropForeignKeys || phase == ForeignKeys || phase == Triggers ||
      phase == DropTables ||
    phase == DropSequences
  }

  lemma UnconditionalRuns(pg: Reader, source: SchemaSnapshot, target: SchemaSnapshot, s: Db, d: Db, r: nat)
    requires Named(source, s) && Named(target, d) && r < PHASE_COUNT && Unconditional(PhaseAt(r))
    ensures PhaseCond(pg, source, target, s, d, r)
  {
  }

  // If the phases before it run, so does a phase that refuses nothing.
  lemma PhaseAccepted(pg: Reader, source: SchemaSnapshot, target: SchemaSnapshot, s: Db, d: Db, r: nat)
    requires Compared(pg, source, target, s, d) && AllExpressible(s, d) && OwnersStay(pg, s, d) &&
      SignaturesStay(pg, s, d)
    requires r < PHASE_COUNT && Unconditional(PhaseAt(r))
    requires Run(pg, d, FirstPhases(r, Entries(source, target))).Some?
    ensures Run(pg, d, FirstPhases(r + 1, Entries(source, target))).Some?
  {
    hide *;
    OnTheWay(pg, source, target, s, d, r);
    OnTheWay(pg, source, target, s, d, r + 1);
    UnconditionalRuns(pg, source, target, s, d, r);
    CondsNext(pg, source, target, s, d, r);
    SomeOutcome(CondsUpTo(pg, source, target, s, d, r), Stage(s, d, r));
    SomeOutcome(CondsUpTo(pg, source, target, s, d, r + 1), Stage(s, d, r + 1));
  }

  lemma SomeOutcome(cond: bool, db: Db)
    ensures Outcome(cond, db).Some? <==> cond
  {
  }

  lemma PartRuns(pg: Reader, db: Db, script: seq<Statement>, part: seq<Statement>)
    requires part <= script && Run(pg, db, script).Some?
    ensures Run(pg, db, part).Some?
  {
    hide Exec;
    RunConcat(pg, db, part, script[|part|..]);
    assert part + script[|part|..] == script;
  }

  // However far the script gets, a foreign key finds its tables, a trigger its function and columns; and a dropped
  // table, a dropped sequence and a dropped trigger are no longer needed: only other statements can be refused.
  lemma DependenciesMet(pg: Reader, source: SchemaSnapshot, target: SchemaSnapshot, i: nat)
    requires Valid(pg, source) && Valid(pg, target) && Describes(pg, target)
    requires AllExpressible(DbOf(source), DbOf(target)) && OwnersStay(pg, DbOf(source), DbOf(target))
    requires SignaturesStay(pg, DbOf(source), DbOf(target))
    requires var script := ScriptOf(Entries(source, target));
      i < |script| && Unconditional(PhaseFor(target, script[i])) && Run(pg, DbOf(target), script[..i]).Some?
    ensures var script := ScriptOf(Entries(source, target)); var before := Run(pg, DbOf(target), script[..i]);
      Exec(pg, before.value, script[i]).Some? && Supplied(pg, before.value, script[i])
  {
    hide Run, Exec, Entries, ScriptOf, Supplied, Consistent, DistinctColumns, DbOf, FirstPhases, AllExpressible,
      OwnersStay, SignaturesStay, EntriesOfPhase, PhaseAt, PhaseFor, Describes, Keyed, FieldsAgree, Unconditional;
    var entries, d := Entries(source, target), DbOf(target);
    var script := ScriptOf(entries);
    var r := StatementAt(source, target, i);
    var whole := FirstPhases(r + 1, entries);
    FirstPhasesGrow(r, entries);
    assert FirstPhases(r, entries) <= script[..i];
    PartRuns(pg, d, script[..i], FirstPhases(r, entries));
    PhaseAccepted(pg, source, target, DbOf(source), d, r);
    PrefixRuns(pg, d, whole, i);
    assert whole[..i] == script[..i] && whole[i] == script[i];
    AcceptedSupplied(pg, Run(pg, d, script[..i]).value, script[i]);
  }

  lemma FirstPhasesGrow(r: nat, entries: seq<Entry>)
    requires r < PHASE_COUNT
    ensures FirstPhases(r, entries) <= FirstPhases(r + 1, entries)
  {
  }
}

/** The phases that change tables, over all tables. */
module TablePhases {
  import opened Options
  import opened Gathering
  import opened Names
  import opened Snapshots
  import opened Statements
  import opened Diff
  import opened Database
  import opened Applies
  import opened Stages
  import opened ScriptOrder
  import opened PhaseLists
  import opened TableLists
  import opened ObjectLists
  import opened Blending
  import opened TriggerPhases
  import opened ForeignKeyPhases
  import opened AlteredTables
  import opened KeptTables
  import opened NewTables
  import opened SequencePhases

  function PutTables(db: Db): map<string, Table> -> Db {
    tables => db.(tables := tables)
  }

  // The tables of a snapshot, as the schema holds them.
  ghost predicate TablesOf(source: SchemaSnapshot, s: Db) {
    s.tables.Keys == source.tables.Keys && forall n <- source.tables :: Described(s, n, source.tables[n])
  }

  ghost predicate Named(source: SchemaSnapshot, s: Db) { s.tables.Keys == source.tables.Keys }

  ghost predicate TwoSides(source: SchemaSnapshot, target: SchemaSnapshot, s: Db, d: Db, n: string) {
    Named(source, s) && Named(target, d) &&
    (n in source.tables ==> Described(s, n, source.tables[n])) &&
      (n in target.tables ==> Described(d, n, target.tables[n]))
  }

  ghost function TableNames(source: SchemaSnapshot, target: SchemaSnapshot): seq<string> {
    Sorted(source.tables.Keys + target.tables.Keys)
  }

  // Table `i` goes through phase `r` as planned.
  ghost predicate TableSteps(pg: Reader, source: SchemaSnapshot, target: SchemaSnapshot, s: Db, d: Db, r: nat,
                             ok: nat -> bool, i: nat)
    requires r < PHASE_COUNT && i < |TableNames(source, target)|
  {
    Steps(pg, EntryPhase(PhaseAt(r), TablePart(source, target))(TableNames(source, target)[i]),
          Mid(PutTables(Stage(s, d, r)), TablesAt(s, d, r), TablesAt(s, d, r + 1), TableNames(source, target)), ok, i)
  }

  // One table at a time, each in the state the phase finds it in.
  lemma TablesRun(pg: Reader, source: SchemaSnapshot, target: SchemaSnapshot, s: Db, d: Db, r: nat, ok: nat -> bool)
    requires r < PHASE_COUNT && Named(source, s) && Named(target, d)
    requires forall i: nat :: i < |TableNames(source, target)| ==> TableSteps(pg, source, target, s, d, r, ok, i)
    ensures Run(pg, Stage(s, d, r), TableScript(PhaseAt(r), source, target)) ==
            Outcome(AllOk(ok, |TableNames(source, target)|), Stage(s, d, r).(tables := TablesAt(s, d, r + 1)))
  {
    var names := TableNames(source, target);
    var part := EntryPhase(PhaseAt(r), TablePart(source, target));
    var put := PutTables(Stage(s, d, r));
    var before, after := TablesAt(s, d, r), TablesAt(s, d, r + 1);
    forall i: nat | i < |names|
      ensures Steps(pg, part(names[i]), Mid(put, before, after, names), ok, i)
    {
      assert TableSteps(pg, source, target, s, d, r, ok, i);
    }
    RunBlend(pg, names, part, put, before, after, ok);
  }

  lemma TableStep(pg: Reader, source: SchemaSnapshot, target: SchemaSnapshot, s: Db, d: Db, r: nat, ok: nat -> bool,
                  i: nat)
    requires r < PHASE_COUNT && i < |TableNames(source, target)|
    requires var n := TableNames(source, target)[i];
      var m := Blend(TablesAt(s, d, r), TablesAt(s, d, r + 1), TableNames(source, target)[..i]);
      Run(pg, Stage(s, d, r).(tables := m), TablePhase(PhaseAt(r), source, target, n)) ==
      Outcome(ok(i), Stage(s, d, r).(tables := Updated(m, TablesAt(s, d, r + 1), n)))
    ensures TableSteps(pg, source, target, s, d, r, ok, i)
  {
    var names := TableNames(source, target);
    var n := names[i];
    TableByPhase(PhaseAt(r), source, target, n);
    BlendRun(pg, EntryPhase(PhaseAt(r), TablePart(source, target))(n), PutTables(Stage(s, d, r)),
             TablesAt(s, d, r), TablesAt(s, d, r + 1), names, ok, i);
  }

  ghost function Here(s: Db, d: Db, source: SchemaSnapshot, target: SchemaSnapshot, r: nat, i: nat): Db
    requires i <= |TableNames(source, target)|
  {
    Stage(s, d, r).(tables := Blend(TablesAt(s, d, r), TablesAt(s, d, r + 1), TableNames(source, target)[..i]))
  }

  // A table the phase turns into `after`.
  lemma TableTurns(pg: Reader, source: SchemaSnapshot, target: SchemaSnapshot, s: Db, d: Db, r: nat, ok: nat -> bool,
                   i: nat,
                   after: Table)
    requires r < PHASE_COUNT && i < |TableNames(source, target)|
    requires var n := TableNames(source, target)[i];
      n in TablesAt(s, d, r + 1) && TablesAt(s, d, r + 1)[n] == after &&
      Run(pg, Here(s, d, source, target, r, i), TablePhase(PhaseAt(r), source, target, n)) ==
      Outcome(ok(i), PutTable(Here(s, d, source, target, r, i), n, after))
    ensures TableSteps(pg, source, target, s, d, r, ok, i)
  {
    TableStep(pg, source, target, s, d, r, ok, i);
  }

  // A table the phase leaves alone.
  lemma TableNoop(pg: Reader, source: SchemaSnapshot, target: SchemaSnapshot, s: Db, d: Db, r: nat, ok: nat -> bool,
                  i: nat)
    requires r < PHASE_COUNT && i < |TableNames(source, target)|
    requires var n := TableNames(source, target)[i];
      TablePhase(PhaseAt(r), source, target, n) == [] && ok(i) &&
      (n in TablesAt(s, d, r) <==> n in TablesAt(s, d, r + 1)) &&
      (n in TablesAt(s, d, r) ==> TablesAt(s, d, r)[n] == TablesAt(s, d, r + 1)[n])
    ensures TableSteps(pg, source, target, s, d, r, ok, i)
  {
    var names := TableNames(source, target);
    TableByPhase(PhaseAt(r), source, target, names[i]);
    BlendNoop(pg, EntryPhase(PhaseAt(r), TablePart(source, target))(names[i]), PutTables(Stage(s, d, r)),
              TablesAt(s, d, r), TablesAt(s, d, r + 1), names, ok, i);
  }

  lemma Listed(source: SchemaSnapshot, target: SchemaSnapshot, i: nat)
    requires i < |TableNames(source, target)|
    ensures TableNames(source, target)[i] in source.tables || TableNames(source, target)[i] in target.tables
  {
    assert TableNames(source, target)[i] in TableNames(source, target);
  }

  // What the step finds when it reaches table `i`.
  lemma Reached(s: Db, d: Db, source: SchemaSnapshot, target: SchemaSnapshot, r: nat, i: nat)
    requires i < |TableNames(source, target)|
    ensures var n := TableNames(source, target)[i];
      var m := Here(s, d, source, target, r, i).tables;
      (n in m <==> n in TablesAt(s, d, r)) && (n in m ==> m[n] == TablesAt(s, d, r)[n])
  {
    NewName(TableNames(source, target), i);
  }

  /* ---- Only the list concerned is left of a table's phase ---- */

  lemma AlterTriggers(phase: Phase, schema: string, n: string, from: TableSnapshot, to: TableSnapshot)
    requires TriggerPhase(phase)
    ensures AlterPhase(phase, schema, n, from, to) ==
      Gather(Sorted(from.triggers.Keys + to.triggers.Keys), PhaseOf(phase, TriggerPart(n, from.triggers, to.triggers)))
  {
    hide Gather, PhaseOf, ColumnPart, DropColumnPart, ConstraintPart, IndexPart, TriggerPart, ColumnMap;
  }

  lemma AlterForeign(phase: Phase, schema: string, n: string, from: TableSnapshot, to: TableSnapshot)
    requires phase == DropForeignKeys || phase == ForeignKeys
    ensures AlterPhase(phase, schema, n, from, to) ==
      Gather(ConstraintNames(from, to), PhaseOf(phase, ConstraintPart(n, from.constraints, to.constraints)))
  {
    hide Gather, PhaseOf, ColumnPart, DropColumnPart, ConstraintPart, IndexPart, TriggerPart, ColumnMap;
  }

  lemma NoDropTriggers(n: string, from: TableSnapshot)
    ensures CreatePhase(DropTriggers, n, from) == []
  {
    var names := Sorted(from.triggers.Keys);
    forall g | g in names
      ensures PhaseOf(DropTriggers, TriggerPart(n, from.triggers, map[]))(g) == []
    {
      TriggerByPhase(DropTriggers, n, from.triggers, map[], g);
    }
    GatherEmpty(names, PhaseOf(DropTriggers, TriggerPart(n, from.triggers, map[])));
  }

  lemma CreateTriggers(n: string, from: TableSnapshot)
    ensures CreatePhase(Triggers, n, from) ==
            Gather(Sorted(from.triggers.Keys), PhaseOf(Triggers, TriggerPart(n, from.triggers, map[])))
  {
    hide Gather, PhaseOf, ColumnPart, DropColumnPart, ConstraintPart, IndexPart, TriggerPart, ColumnMap;
  }

  lemma CreateForeign(n: string, from: TableSnapshot)
    ensures CreatePhase(ForeignKeys, n, from) ==
            Gather(Sorted(from.constraints.Keys), PhaseOf(ForeignKeys, ForeignKeyPart(n, from.constraints)))
  {
    hide Gather, PhaseOf, ColumnPart, DropColumnPart, ConstraintPart, IndexPart, TriggerPart, ColumnMap;
  }

  // A table of both sides after `k` phases.
  lemma KeptAt(s: Db, d: Db, k: nat, n: string)
    requires n in s.tables && n in d.tables
    ensures n in TablesAt(s, d, k) && TablesAt(s, d, k)[n] == KeptTable(k, s.tables[n], d.tables[n])
  {
  }

  lemma NewAt(s: Db, d: Db, k: nat, n: string)
    requires n in s.tables && n !in d.tables
    ensures n in TablesAt(s, d, k) <==> k >= 6
    ensures k >= 6 ==> TablesAt(s, d, k)[n] == NewTable(k, s.tables[n])
  {
  }

  lemma OldAt(s: Db, d: Db, k: nat, n: string)
    requires n !in s.tables && n in d.tables
    ensures n in TablesAt(s, d, k) <==> k <= 12
    ensures k <= 12 ==> TablesAt(s, d, k)[n] == OldTable(k, d.tables[n])
  {
  }

  lemma NewUntouched(pg: Reader, source: SchemaSnapshot, target: SchemaSnapshot, s: Db, d: Db, r: nat, ok: nat -> bool,
                     i: nat)
    requires r < 5 && i < |TableNames(source, target)| && Named(source, s) && Named(target, d) && ok(i)
    requires var n := TableNames(source, target)[i];
      n in s.tables && n !in d.tables && CreatePhase(PhaseAt(r), n, source.tables[n]) == []
    ensures TableSteps(pg, source, target, s, d, r, ok, i)
  {
    var n := TableNames(source, target)[i];
    NewAt(s, d, r, n);
    NewAt(s, d, r + 1, n);
    TableNoop(pg, source, target, s, d, r, ok, i);
  }

  lemma OldUntouched(pg: Reader, source: SchemaSnapshot, target: SchemaSnapshot, s: Db, d: Db, r: nat, ok: nat -> bool,
                     i: nat)
    requires r < 12 && r != 1 && i < |TableNames(source, target)| && Named(source, s) && Named(target, d) && ok(i)
    requires TableNames(source, target)[i] !in s.tables
    ensures TableSteps(pg, source, target, s, d, r, ok, i)
  {
    var n := TableNames(source, target)[i];
    Listed(source, target, i);
    OldAt(s, d, r, n);
    OldAt(s, d, r + 1, n);
    assert PhaseAt(r) != DropForeignKeys && PhaseAt(r) != DropTables;
    TableNoop(pg, source, target, s, d, r, ok, i);
  }

  lemma KeptTurns(pg: Reader, source: SchemaSnapshot, target: SchemaSnapshot, s: Db, d: Db, r: nat, ok: nat -> bool,
                  i: nat)
    requires r < PHASE_COUNT && i < |TableNames(source, target)| && Named(source, s) && Named(target, d)
    requires var n := TableNames(source, target)[i];
      n in s.tables && n in d.tables &&
      Run(pg, Here(s, d, source, target, r, i),
          AlterPhase(PhaseAt(r), target.schema, n, source.tables[n], target.tables[n])) ==
      Outcome(ok(i), PutTable(Here(s, d, source, target, r, i), n, KeptTable(r + 1, s.tables[n], d.tables[n])))
    ensures TableSteps(pg, source, target, s, d, r, ok, i)
  {
    var n := TableNames(source, target)[i];
    KeptAt(s, d, r + 1, n);
    TableTurns(pg, source, target, s, d, r, ok, i, KeptTable(r + 1, s.tables[n], d.tables[n]));
  }

  lemma NewTurns(pg: Reader, source: SchemaSnapshot, target: SchemaSnapshot, s: Db, d: Db, r: nat, ok: nat -> bool,
                 i: nat)
    requires 5 <= r < PHASE_COUNT && i < |TableNames(source, target)| && Named(source, s) && Named(target, d)
    requires var n := TableNames(source, target)[i];
      n in s.tables && n !in d.tables &&
      Run(pg, Here(s, d, source, target, r, i), CreatePhase(PhaseAt(r), n, source.tables[n])) ==
      Outcome(ok(i), PutTable(Here(s, d, source, target, r, i), n, NewTable(r + 1, s.tables[n])))
    ensures TableSteps(pg, source, target, s, d, r, ok, i)
  {
    var n := TableNames(source, target)[i];
    NewAt(s, d, r + 1, n);
    TableTurns(pg, source, target, s, d, r, ok, i, NewTable(r + 1, s.tables[n]));
  }

  lemma KeptHere(s: Db, d: Db, source: SchemaSnapshot, target: SchemaSnapshot, r: nat, i: nat)
    requires i < |TableNames(source, target)|
    requires TableNames(source, target)[i] in s.tables && TableNames(source, target)[i] in d.tables
    ensures var n := TableNames(source, target)[i]; var db := Here(s, d, source, target, r, i);
      n in db.tables && db.tables[n] == KeptTable(r, s.tables[n], d.tables[n])
  {
    Reached(s, d, source, target, r, i);
    KeptAt(s, d, r, TableNames(source, target)[i]);
  }

  lemma NewHere(s: Db, d: Db, source: SchemaSnapshot, target: SchemaSnapshot, r: nat, i: nat)
    requires i < |TableNames(source, target)| && r >= 6
    requires TableNames(source, target)[i] in s.tables && TableNames(source, target)[i] !in d.tables
    ensures var n := TableNames(source, target)[i]; var db := Here(s, d, source, target, r, i);
      n in db.tables && db.tables[n] == NewTable(r, s.tables[n])
  {
    Reached(s, d, source, target, r, i);
    NewAt(s, d, r, TableNames(source, target)[i]);
  }

  // Phases 0, 1, 5, 9 and 10 change nothing but tables.
  lemma OnlyTablesChange(s: Db, d: Db, r: nat)
    requires r == 0 || r == 1 || r == 5 || r == 9 || r == 10
    ensures Stage(s, d, r).(tables := TablesAt(s, d, r + 1)) == Stage(s, d, r + 1)
  {
  }

  lemma AllAlways(n: nat)
    ensures AllOk(Always(), n)
  {
  }

  lemma PhaseDone(pg: Reader, source: SchemaSnapshot, target: SchemaSnapshot, s: Db, d: Db, r: nat)
    requires r == 0 || r == 1 || r == 9 || r == 10
    requires Named(source, s) && Named(target, d)
    requires forall i: nat :: i < |TableNames(source, target)| ==> TableSteps(pg, source, target, s, d, r, Always(), i)
    ensures PhaseRuns(pg, source, target, s, d, r, true)
  {
    OnlyTablesChange(s, d, r);
    AllAlways(|TableNames(source, target)|);
    TablePhaseDone(pg, source, target, s, d, r, Always(), true);
  }

  lemma TablePhaseDone(pg: Reader, source: SchemaSnapshot, target: SchemaSnapshot, s: Db, d: Db, r: nat,
                       ok: nat -> bool, cond: bool)
    requires r < PHASE_COUNT && TablesIn(PhaseAt(r))
    requires Stage(s, d, r).(tables := TablesAt(s, d, r + 1)) == Stage(s, d, r + 1)
    requires AllOk(ok, |TableNames(source, target)|) == cond
    requires Named(source, s) && Named(target, d)
    requires forall i: nat :: i < |TableNames(source, target)| ==> TableSteps(pg, source, target, s, d, r, ok, i)
    ensures PhaseRuns(pg, source, target, s, d, r, cond)
  {
    TablesRun(pg, source, target, s, d, r, ok);
    TablePhaseIs(pg, source, target, s, d, r, cond);
  }

  lemma Sides(source: SchemaSnapshot, target: SchemaSnapshot, s: Db, d: Db, i: nat)
    requires TablesOf(source, s) && TablesOf(target, d) && i < |TableNames(source, target)|
    ensures TwoSides(source, target, s, d, TableNames(source, target)[i])
  {
  }

  /* ---- Phase 0: triggers are dropped ---- */

  lemma DropTriggersTurn(pg: Reader, db: Db, schema: string, n: string, from: TableSnapshot, to: TableSnapshot)
    requires n in db.tables && db.tables[n] == KeptTable(0, TableOf(from), TableOf(to))
    ensures Run(pg, db, AlterPhase(DropTriggers, schema, n, from, to)) ==
      Some(PutTable(db, n, KeptTable(1, TableOf(from), TableOf(to))))
  {
    AlterTriggers(DropTriggers, schema, n, from, to);
    DropTriggersOf(pg, db, n, from.triggers, to.triggers, Sorted(from.triggers.Keys + to.triggers.Keys));
  }

  lemma DropTriggersKept(pg: Reader, source: SchemaSnapshot, target: SchemaSnapshot, s: Db, d: Db, i: nat)
    requires i < |TableNames(source, target)| && TwoSides(source, target, s, d, TableNames(source, target)[i])
    requires TableNames(source, target)[i] in s.tables && TableNames(source, target)[i] in d.tables
    ensures TableSteps(pg, source, target, s, d, 0, Always(), i)
  {
    hide Run, Stage, Here, TableSteps, AlterPhase, TablesAt, TableOf, KeptTable, NewTable, OldTable;
    var n := TableNames(source, target)[i];
    KeptHere(s, d, source, target, 0, i);
    DropTriggersTurn(pg, Here(s, d, source, target, 0, i), target.schema, n, source.tables[n], target.tables[n]);
    KeptTurns(pg, source, target, s, d, 0, Always(), i);
  }

  lemma DropTriggersStep(pg: Reader, source: SchemaSnapshot, target: SchemaSnapshot, s: Db, d: Db, i: nat)
    requires i < |TableNames(source, target)| && TwoSides(source, target, s, d, TableNames(source, target)[i])
    ensures TableSteps(pg, source, target, s, d, 0, Always(), i)
  {
    hide Run, Stage, Here, TableSteps, AlterPhase, CreatePhase, TablesAt, TableOf, KeptTable, NewTable, OldTable;
    var n := TableNames(source, target)[i];
    if n !in s.tables {
      OldUntouched(pg, source, target, s, d, 0, Always(), i);
    } else if n !in d.tables {
      NoDropTriggers(n, source.tables[n]);
      NewUntouched(pg, source, target, s, d, 0, Always(), i);
    } else {
      DropTriggersKept(pg, source, target, s, d, i);
    }
  }

  lemma DropTriggersAll(pg: Reader, source: SchemaSnapshot, target: SchemaSnapshot, s: Db, d: Db)
    requires TablesOf(source, s) && TablesOf(target, d)
    ensures forall i: nat :: i < |TableNames(source, target)| ==> TableSteps(pg, source, target, s, d, 0, Always(), i)
  {
    forall i: nat | i < |TableNames(source, target)|
      ensures TableSteps(pg, source, target, s, d, 0, Always(), i)
    {
      Sides(source, target, s, d, i);
      DropTriggersStep(pg, source, target, s, d, i);
    }
  }

  lemma DropTriggersRun(pg: Reader, source: SchemaSnapshot, target: SchemaSnapshot, s: Db, d: Db)
    requires TablesOf(source, s) && TablesOf(target, d)
    ensures PhaseRuns(pg, source, target, s, d, 0, true)
  {
    DropTriggersAll(pg, source, target, s, d);
    PhaseDone(pg, source, target, s, d, 0);
  }

  /* ---- Phase 1: foreign keys are dropped ---- */

  lemma DropForeignTurn(pg: Reader, db: Db, schema: string, n: string, from: TableSnapshot, to: TableSnapshot)
    requires n in db.tables && db.tables[n] == KeptTable(1, TableOf(from), TableOf(to))
    ensures Run(pg, db, AlterPhase(DropForeignKeys, schema, n, from, to)) ==
      Some(PutTable(db, n, KeptTable(2, TableOf(from), TableOf(to))))
  {
    AlterForeign(DropForeignKeys, schema, n, from, to);
    DropChangedForeign(pg, db, n, from.constraints, to.constraints, ConstraintNames(from, to));
  }

  lemma DropForeignOld(pg: Reader, source: SchemaSnapshot, target: SchemaSnapshot, s: Db, d: Db, i: nat)
    requires i < |TableNames(source, target)| && TwoSides(source, target, s, d, TableNames(source, target)[i])
    requires TableNames(source, target)[i] !in s.tables
    ensures TableSteps(pg, source, target, s, d, 1, Always(), i)
  {
    var n := TableNames(source, target)[i];
    Listed(source, target, i);
    var to := target.tables[n];
    OldAt(s, d, 1, n);
    OldAt(s, d, 2, n);
    Reached(s, d, source, target, 1, i);
    DropAllForeign(pg, Here(s, d, source, target, 1, i), n, to.constraints, Sorted(to.constraints.Keys));
    TableTurns(pg, source, target, s, d, 1, Always(), i, OldTable(2, d.tables[n]));
  }

  lemma DropForeignKept(pg: Reader, source: SchemaSnapshot, target: SchemaSnapshot, s: Db, d: Db, i: nat)
    requires i < |TableNames(source, target)| && TwoSides(source, target, s, d, TableNames(source, target)[i])
    requires TableNames(source, target)[i] in s.tables && TableNames(source, target)[i] in d.tables
    ensures TableSteps(pg, source, target, s, d, 1, Always(), i)
  {
    hide Run, Stage, Here, TableSteps, AlterPhase, TablesAt, TableOf, KeptTable, NewTable, OldTable;
    var n := TableNames(source, target)[i];
    KeptHere(s, d, source, target, 1, i);
    DropForeignTurn(pg, Here(s, d, source, target, 1, i), target.schema, n, source.tables[n], target.tables[n]);
    KeptTurns(pg, source, target, s, d, 1, Always(), i);
  }

  lemma DropForeignStep(pg: Reader, source: SchemaSnapshot, target: SchemaSnapshot, s: Db, d: Db, i: nat)
    requires i < |TableNames(source, target)| && TwoSides(source, target, s, d, TableNames(source, target)[i])
    ensures TableSteps(pg, source, target, s, d, 1, Always(), i)
  {
    hide Run, Stage, Here, TableSteps, AlterPhase, TablesAt, TableOf, KeptTable, NewTable, OldTable;
    var n := TableNames(source, target)[i];
    if n !in s.tables {
      DropForeignOld(pg, source, target, s, d, i);
    } else if n !in d.tables {
      NewUntouched(pg, source, target, s, d, 1, Always(), i);
    } else {
      DropForeignKept(pg, source, target, s, d, i);
    }
  }

  lemma DropForeignAll(pg: Reader, source: SchemaSnapshot, target: SchemaSnapshot, s: Db, d: Db)
    requires TablesOf(source, s) && TablesOf(target, d)
    ensures forall i: nat :: i < |TableNames(source, target)| ==> TableSteps(pg, source, target, s, d, 1, Always(), i)
  {
    forall i: nat | i < |TableNames(source, target)|
      ensures TableSteps(pg, source, target, s, d, 1, Always(), i)
    {
      Sides(source, target, s, d, i);
      DropForeignStep(pg, source, target, s, d, i);
    }
  }

  lemma DropForeignRun(pg: Reader, source: SchemaSnapshot, target: SchemaSnapshot, s: Db, d: Db)
    requires TablesOf(source, s) && TablesOf(target, d)
    ensures PhaseRuns(pg, source, target, s, d, 1, true)
  {
    DropForeignAll(pg, source, target, s, d);
    PhaseDone(pg, source, target, s, d, 1);
  }

  /* ---- Phase 9: foreign keys are added ---- */

  // At this point every table of the source is there, with its columns.
  ghost predicate AllReady(pg: Reader, s: Db, db: Db) {
    forall n <- s.tables, k <- s.tables[n].constraints ::
      ConstraintSound(pg, db, s.tables[n].columns, s.tables[n].constraints[k])
  }

  lemma AddForeignTurn(pg: Reader, db: Db, schema: string, n: string, from: TableSnapshot, to: TableSnapshot)
    requires n in db.tables && db.tables[n] == KeptTable(9, TableOf(from), TableOf(to))
    requires forall k <- from.constraints :: ConstraintSound(pg, db, ColumnMap(from.columns), from.constraints[k])
    ensures Run(pg, db, AlterPhase(ForeignKeys, schema, n, from, to)) ==
      Some(PutTable(db, n, KeptTable(10, TableOf(from), TableOf(to))))
  {
    AlterForeign(ForeignKeys, schema, n, from, to);
    AddChangedForeign(pg, db, n, from.constraints, to.constraints, ConstraintNames(from, to));
  }

  lemma AddForeignNew(pg: Reader, db: Db, n: string, from: TableSnapshot)
    requires n in db.tables && db.tables[n] == NewTable(9, TableOf(from))
    requires forall k <- from.constraints :: ConstraintSound(pg, db, ColumnMap(from.columns), from.constraints[k])
    ensures Run(pg, db, CreatePhase(ForeignKeys, n, from)) == Some(PutTable(db, n, NewTable(10, TableOf(from))))
  {
    CreateForeign(n, from);
    AddAllForeign(pg, db, n, from.constraints, Sorted(from.constraints.Keys));
  }

  lemma HereKeeps(s: Db, d: Db, source: SchemaSnapshot, target: SchemaSnapshot, r: nat, i: nat)
    requires i <= |TableNames(source, target)| && 6 <= r <= 11
    ensures var db := Here(s, d, source, target, r, i);
      db.tables.Keys == s.tables.Keys + d.tables.Keys && db.sequences == d.sequences + s.sequences &&
      (r >= 7 ==> db.routines == d.routines + s.routines)
  {
    assert TablesAt(s, d, r).Keys == s.tables.Keys + d.tables.Keys;
    assert TablesAt(s, d, r + 1).Keys == s.tables.Keys + d.tables.Keys;
  }

  // The schema has what the source has.
  ghost predicate Includes(pg: Reader, db: Db, s: Db) {
    s.tables.Keys <= db.tables.Keys && s.sequences.Keys <= db.sequences.Keys &&
    Signatures(pg, s.routines) <= Signatures(pg, db.routines)
  }

  ghost predicate TriggersSound(pg: Reader, db: Db, columns: map<string, Column>, triggers: map<string, string>) {
    forall g <- triggers ::
      pg.routines(triggers[g]) <= Signatures(pg, db.routines) && pg.columns(triggers[g]) <= columns.Keys
  }

  lemma StaySound(pg: Reader, s: Db, db: Db, t: Table)
    requires TableSound(pg, s, t) && Includes(pg, db, s)
    ensures forall k <- t.constraints :: ConstraintSound(pg, db, t.columns, t.constraints[k])
    ensures TriggersSound(pg, db, t.columns, t.triggers)
  {
    forall k | k in t.constraints
      ensures ConstraintSound(pg, db, t.columns, t.constraints[k])
    {
      assert ConstraintSound(pg, s, t.columns, t.constraints[k]);
    }
  }

  ghost predicate AllSound(pg: Reader, s: Db) {
    forall n <- s.tables :: TableSound(pg, s, s.tables[n])
  }

  lemma StaysHere(pg: Reader, source: SchemaSnapshot, target: SchemaSnapshot, s: Db, d: Db, r: nat, i: nat)
    requires i < |TableNames(source, target)| && TwoSides(source, target, s, d, TableNames(source, target)[i])
    requires TableNames(source, target)[i] in s.tables && TableSound(pg, s, s.tables[TableNames(source, target)[i]])
    requires 7 <= r <= 11
    ensures var from, db := source.tables[TableNames(source, target)[i]], Here(s, d, source, target, r, i);
      (forall k <- from.constraints :: ConstraintSound(pg, db, ColumnMap(from.columns), from.constraints[k])) &&
      TriggersSound(pg, db, ColumnMap(from.columns), from.triggers)
  {
    hide TableSound, ConstraintSound, TriggersSound, Here;
    HereKeeps(s, d, source, target, r, i);
    StaySound(pg, s, Here(s, d, source, target, r, i), s.tables[TableNames(source, target)[i]]);
  }

  lemma AddForeignKept(pg: Reader, source: SchemaSnapshot, target: SchemaSnapshot, s: Db, d: Db, i: nat)
    requires i < |TableNames(source, target)| && TwoSides(source, target, s, d, TableNames(source, target)[i])
    requires TableNames(source, target)[i] in s.tables && TableNames(source, target)[i] in d.tables
    requires TableSound(pg, s, s.tables[TableNames(source, target)[i]])
    ensures TableSteps(pg, source, target, s, d, 9, Always(), i)
  {
    hide Run, TableSound, ConstraintSound, TriggersSound, Stage, Here, TableSteps, AlterPhase, CreatePhase, TablesAt,
      TableOf, KeptTable, NewTable;
    var n := TableNames(source, target)[i];
    StaysHere(pg, source, target, s, d, 9, i);
    KeptHere(s, d, source, target, 9, i);
    AddForeignTurn(pg, Here(s, d, source, target, 9, i), target.schema, n, source.tables[n], target.tables[n]);
    KeptTurns(pg, source, target, s, d, 9, Always(), i);
  }

  lemma AddForeignNewStep(pg: Reader, source: SchemaSnapshot, target: SchemaSnapshot, s: Db, d: Db, i: nat)
    requires i < |TableNames(source, target)| && TwoSides(source, target, s, d, TableNames(source, target)[i])
    requires TableNames(source, target)[i] in s.tables && TableNames(source, target)[i] !in d.tables
    requires TableSound(pg, s, s.tables[TableNames(source, target)[i]])
    ensures TableSteps(pg, source, target, s, d, 9, Always(), i)
  {
    hide Run, TableSound, ConstraintSound, TriggersSound, Stage, Here, TableSteps, AlterPhase, CreatePhase, TablesAt,
      TableOf, KeptTable, NewTable;
    var n := TableNames(source, target)[i];
    StaysHere(pg, source, target, s, d, 9, i);
    NewHere(s, d, source, target, 9, i);
    AddForeignNew(pg, Here(s, d, source, target, 9, i), n, source.tables[n]);
    NewTurns(pg, source, target, s, d, 9, Always(), i);
  }

  lemma AddForeignStep(pg: Reader, source: SchemaSnapshot, target: SchemaSnapshot, s: Db, d: Db, i: nat)
    requires i < |TableNames(source, target)| && TwoSides(source, target, s, d, TableNames(source, target)[i])
    requires TableNames(source, target)[i] in s.tables ==> TableSound(pg, s, s.tables[TableNames(source, target)[i]])
    ensures TableSteps(pg, source, target, s, d, 9, Always(), i)
  {
    hide Run, Stage, Here, TableSteps, AlterPhase, CreatePhase, TablesAt, TableOf, KeptTable, NewTable, OldTable;
    var n := TableNames(source, target)[i];
    if n !in s.tables {
      OldUntouched(pg, source, target, s, d, 9, Always(), i);
    } else if n !in d.tables {
      AddForeignNewStep(pg, source, target, s, d, i);
    } else {
      AddForeignKept(pg, source, target, s, d, i);
    }
  }

  lemma AddForeignAll(pg: Reader, source: SchemaSnapshot, target: SchemaSnapshot, s: Db, d: Db)
    requires TablesOf(source, s) && TablesOf(target, d) && AllSound(pg, s)
    ensures forall i: nat :: i < |TableNames(source, target)| ==> TableSteps(pg, source, target, s, d, 9, Always(), i)
  {
    forall i: nat | i < |TableNames(source, target)|
      ensures TableSteps(pg, source, target, s, d, 9, Always(), i)
    {
      Sides(source, target, s, d, i);
      AddForeignStep(pg, source, target, s, d, i);
    }
  }

  lemma AddForeignRun(pg: Reader, source: SchemaSnapshot, target: SchemaSnapshot, s: Db, d: Db)
    requires TablesOf(source, s) && TablesOf(target, d) && AllSound(pg, s)
    ensures PhaseRuns(pg, source, target, s, d, 9, true)
  {
    AddForeignAll(pg, source, target, s, d);
    PhaseDone(pg, source, target, s, d, 9);
  }

  /* ---- Phase 10: triggers are created ---- */

  lemma CreateTriggersTurn(pg: Reader, db: Db, schema: string, n: string, from: TableSnapshot, to: TableSnapshot)
    requires n in db.tables && db.tables[n] == KeptTable(10, TableOf(from), TableOf(to))
    requires TriggersSound(pg, db, ColumnMap(from.columns), from.triggers)
    ensures Run(pg, db, AlterPhase(Triggers, schema, n, from, to)) ==
      Some(PutTable(db, n, KeptTable(11, TableOf(from), TableOf(to))))
  {
    AlterTriggers(Triggers, schema, n, from, to);
    CreateTriggersOf(pg, db, n, from.triggers, to.triggers, Sorted(from.triggers.Keys + to.triggers.Keys));
  }

  lemma NoneInCommon(f: map<string, string>)
    ensures var none: map<string, string> := map[]; Common(f, none) == none && f.Keys + none.Keys == f.Keys
  {
  }

  lemma CreateTriggersNew(pg: Reader, db: Db, n: string, from: TableSnapshot)
    requires n in db.tables && db.tables[n] == NewTable(10, TableOf(from))
    requires TriggersSound(pg, db, ColumnMap(from.columns), from.triggers)
    ensures Run(pg, db, CreatePhase(Triggers, n, from)) == Some(PutTable(db, n, NewTable(11, TableOf(from))))
  {
    hide Run, Common, CreatePhase, PhaseOf, TriggerPart, Gather, ColumnMap;
    CreateTriggers(n, from);
    NoneInCommon(from.triggers);
    CreateTriggersOf(pg, db, n, from.triggers, map[], Sorted(from.triggers.Keys));
  }

  lemma CreateTriggersKept(pg: Reader, source: SchemaSnapshot, target: SchemaSnapshot, s: Db, d: Db, i: nat)
    requires i < |TableNames(source, target)| && TwoSides(source, target, s, d, TableNames(source, target)[i])
    requires TableNames(source, target)[i] in s.tables && TableNames(source, target)[i] in d.tables
    requires TableSound(pg, s, s.tables[TableNames(source, target)[i]])
    ensures TableSteps(pg, source, target, s, d, 10, Always(), i)
  {
    hide Run, TableSound, ConstraintSound, TriggersSound, Stage, Here, TableSteps, AlterPhase, CreatePhase, TablesAt,
      TableOf, KeptTable, NewTable;
    var n := TableNames(source, target)[i];
    StaysHere(pg, source, target, s, d, 10, i);
    KeptHere(s, d, source, target, 10, i);
    CreateTriggersTurn(pg, Here(s, d, source, target, 10, i), target.schema, n, source.tables[n], target.tables[n]);
    KeptTurns(pg, source, target, s, d, 10, Always(), i);
  }

  lemma CreateTriggersNewStep(pg: Reader, source: SchemaSnapshot, target: SchemaSnapshot, s: Db, d: Db, i: nat)
    requires i < |TableNames(source, target)| && TwoSides(source, target, s, d, TableNames(source, target)[i])
    requires TableNames(source, target)[i] in s.tables && TableNames(source, target)[i] !in d.tables
    requires TableSound(pg, s, s.tables[TableNames(source, target)[i]])
    ensures TableSteps(pg, source, target, s, d, 10, Always(), i)
  {
    hide Run, TableSound, ConstraintSound, TriggersSound, Stage, Here, TableSteps, AlterPhase, CreatePhase, TablesAt,
      TableOf, KeptTable, NewTable;
    var n := TableNames(source, target)[i];
    StaysHere(pg, source, target, s, d, 10, i);
    NewHere(s, d, source, target, 10, i);
    CreateTriggersNew(pg, Here(s, d, source, target, 10, i), n, source.tables[n]);
    NewTurns(pg, source, target, s, d, 10, Always(), i);
  }

  lemma CreateTriggersStep(pg: Reader, source: SchemaSnapshot, target: SchemaSnapshot, s: Db, d: Db, i: nat)
    requires i < |TableNames(source, target)| && TwoSides(source, target, s, d, TableNames(source, target)[i])
    requires TableNames(source, target)[i] in s.tables ==> TableSound(pg, s, s.tables[TableNames(source, target)[i]])
    ensures TableSteps(pg, source, target, s, d, 10, Always(), i)
  {
    hide Run, Stage, Here, TableSteps, AlterPhase, CreatePhase, TablesAt, TableOf, KeptTable, NewTable, OldTable;
    var n := TableNames(source, target)[i];
    if n !in s.tables {
      OldUntouched(pg, source, target, s, d, 10, Always(), i);
    } else if n !in d.tables {
      CreateTriggersNewStep(pg, source, target, s, d, i);
    } else {
      CreateTriggersKept(pg, source, target, s, d, i);
    }
  }

  lemma CreateTriggersAll(pg: Reader, source: SchemaSnapshot, target: SchemaSnapshot, s: Db, d: Db)
    requires TablesOf(source, s) && TablesOf(target, d) && AllSound(pg, s)
    ensures forall i: nat :: i < |TableNames(source, target)| ==> TableSteps(pg, source, target, s, d, 10, Always(), i)
  {
    forall i: nat | i < |TableNames(source, target)|
      ensures TableSteps(pg, source, target, s, d, 10, Always(), i)
    {
      Sides(source, target, s, d, i);
      CreateTriggersStep(pg, source, target, s, d, i);
    }
  }

  lemma CreateTriggersRun(pg: Reader, source: SchemaSnapshot, target: SchemaSnapshot, s: Db, d: Db)
    requires TablesOf(source, s) && TablesOf(target, d) && AllSound(pg, s)
    ensures PhaseRuns(pg, source, target, s, d, 10, true)
  {
    CreateTriggersAll(pg, source, target, s, d);
    PhaseDone(pg, source, target, s, d, 10);
  }
}

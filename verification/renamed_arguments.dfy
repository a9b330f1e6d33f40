/**
 Routines whose arguments change names. PostgreSQL takes the old and the new key for the same routine, while the script
 treats them as two: it replaces the routine and at its end drops it.
 */
module RenamedArguments {
  import opened Options
  import opened Gathering
  import opened Names
  import opened Snapshots
  import opened Statements
  import opened Diff
  import opened Database
  import opened Applies
  import opened ScriptOrder
  import opened PhaseLists
  import opened ObjectLists
  import opened SequencePhases
  import opened DependencyOrder
  import opened Keeping

  predicate Absent(pg: Reader, db: Db, signature: string) {
    forall k <- db.routines :: pg.signature(k) != signature
  }

  lemma DroppedAbsent(pg: Reader, db: Db, key: string, procedure: bool)
    requires Exec(pg, db, DropRoutine(key, procedure)).Some?
    ensures Absent(pg, Exec(pg, db, DropRoutine(key, procedure)).value, pg.signature(key))
  {
    hide RoutineUsed;
  }

  lemma StaysAbsent(pg: Reader, db: Db, st: Statement, signature: string)
    requires Absent(pg, db, signature) && !st.CreateRoutine? && Exec(pg, db, st).Some?
    ensures Absent(pg, Exec(pg, db, st).value, signature)
  {
    if st.DropRoutine? {
      hide RoutineUsed;
    } else {
      hide Exec;
      OthersKeepRoutines(pg, db, st);
    }
  }

  lemma {:induction false} RunsAbsent(pg: Reader, db: Db, script: seq<Statement>, signature: string)
    requires Absent(pg, db, signature) && (forall st <- script :: !st.CreateRoutine?) && Run(pg, db, script).Some?
    ensures Absent(pg, Run(pg, db, script).value, signature)
  {
    hide Exec, Absent;
    if script != [] {
      var m := |script| - 1;
      RunsAbsent(pg, db, script[..m], signature);
      StaysAbsent(pg, Run(pg, db, script[..m]).value, script[m], signature);
    }
  }

  lemma DropsRoutine(source: SchemaSnapshot, target: SchemaSnapshot, k: string)
    requires k in target.routines && k !in source.routines && RoutineKey(target.routines[k]) == k
    ensures DropRoutine(k, target.routines[k].procedure) in ScriptOf(Entries(source, target))
  {
    hide Entries, ScriptOf, EntriesOfPhase, RoutinePart, FirstPhases;
    var st := DropRoutine(k, target.routines[k].procedure);
    OneKind(DropRoutines, source, target);
    var keys := Sorted(source.routines.Keys + target.routines.Keys);
    RoutineByPhase(DropRoutines, source, target, k);
    GatherMember(keys, EntryPhase(DropRoutines, RoutinePart(source, target)), st);
    InPhase(source, target, 11, st);
  }

  lemma InPhase(source: SchemaSnapshot, target: SchemaSnapshot, r: nat, st: Statement)
    requires r < PHASE_COUNT && st in EntriesOfPhase(PhaseAt(r), Entries(source, target))
    ensures st in ScriptOf(Entries(source, target))
  {
    hide Entries, ScriptOf, EntriesOfPhase, FirstPhases, PhaseAt;
    ScriptByPhases(Entries(source, target));
    InFirstPhases(PHASE_COUNT, Entries(source, target), r, st);
  }

  lemma {:induction false} InFirstPhases(count: nat, entries: seq<Entry>, r: nat, st: Statement)
    requires r < count <= PHASE_COUNT && st in EntriesOfPhase(PhaseAt(r), entries)
    ensures st in FirstPhases(count, entries)
  {
    hide EntriesOfPhase, PhaseAt;
    if r < count - 1 {
      InFirstPhases(count - 1, entries, r, st);
    }
  }

  lemma NoneCreatedAfter(source: SchemaSnapshot, target: SchemaSnapshot, i: nat)
    requires i < |ScriptOf(Entries(source, target))| && ScriptOf(Entries(source, target))[i].DropRoutine?
    ensures forall st <- ScriptOf(Entries(source, target))[i + 1..] :: !st.CreateRoutine?
  {
    hide Entries, ScriptOf;
    var script := ScriptOf(Entries(source, target));
    forall j | i < j < |script|
      ensures !script[j].CreateRoutine?
    {
      ScriptInPhases(source, target, i, j);
    }
  }

  lemma RoutineGone(pg: Reader, source: SchemaSnapshot, target: SchemaSnapshot, d: Db, k: string, procedure: bool)
    requires DropRoutine(k, procedure) in ScriptOf(Entries(source, target)) &&
      Run(pg, d, ScriptOf(Entries(source, target))).Some?
    ensures Absent(pg, Run(pg, d, ScriptOf(Entries(source, target))).value, pg.signature(k))
  {
    hide Entries, ScriptOf, Run, Exec, Absent;
    var script := ScriptOf(Entries(source, target));
    var i: nat :| i < |script| && script[i] == DropRoutine(k, procedure);
    PrefixRuns(pg, d, script, i);
    var before := Run(pg, d, script[..i]).value;
    DroppedAbsent(pg, before, k, procedure);
    RunOneMore(pg, d, script, i);
    RunConcat(pg, d, script[..i + 1], script[i + 1..]);
    assert script[..i + 1] + script[i + 1..] == script;
    NoneCreatedAfter(source, target, i);
    RunsAbsent(pg, Run(pg, d, script[..i + 1]).value, script[i + 1..], pg.signature(k));
  }

  lemma RunOneMore(pg: Reader, d: Db, script: seq<Statement>, i: nat)
    requires i < |script| && Run(pg, d, script[..i]).Some?
    ensures Run(pg, d, script[..i + 1]) == Exec(pg, Run(pg, d, script[..i]).value, script[i])
  {
    hide Exec;
    assert script[..i + 1][..i] == script[..i];
  }

  // A routine of the source that PostgreSQL takes for one the target has under another key is not there in the end.
  lemma RoutineLost(pg: Reader, source: SchemaSnapshot, target: SchemaSnapshot, s: Db, d: Db)
    requires Compared(pg, source, target, s, d) && !SignaturesStay(pg, s, d)
    ensures Run(pg, d, ScriptOf(Entries(source, target))) != Some(s)
  {
    hide Run, Entries, ScriptOf, Describes, DistinctColumns, FieldsAgree, TableSound, IndexSound, ViewSound,
      NamesDisjoint;
    var k, j :| k in s.routines && j in d.routines && pg.signature(k) == pg.signature(j) && k != j;
    assert j !in s.routines by {
      assert DistinctSignatures(pg, s.routines);
    }
    assert j in target.routines && j !in source.routines;
    DropsRoutine(source, target, j);
    if Run(pg, d, ScriptOf(Entries(source, target))) == Some(s) {
      RoutineGone(pg, source, target, d, j, target.routines[j].procedure);
    }
  }
}

/** The phases that create, replace and drop routines. */
module RoutinePhases {
  import opened Options
  import opened Gathering
  import opened Names
  import opened Text
  import opened Snapshots
  import opened Statements
  import opened Diff
  import opened Database
  import opened Applies
  import opened Stages
  import opened ScriptOrder
  import opened PhaseLists
  import opened ObjectLists
  import opened Blending
  import opened SequencePhases

  // The routines of a snapshot, as the schema holds them.
  ghost predicate RoutinesOf(source: SchemaSnapshot, s: Db) {
    s.routines.Keys == source.routines.Keys &&
    forall k <- source.routines ::
      RoutineKey(source.routines[k]) == k && s.routines[k].procedure == source.routines[k].procedure &&
      s.routines[k].body == NormalizeBody(source.routines[k].definition)
  }

  ghost predicate KindsDeclared(pg: Reader, s: Db) {
    forall k <- s.routines :: s.routines[k].procedure == pg.isProcedure(s.routines[k].body)
  }

  function PutRoutines(db: Db): map<string, Routine> -> Db {
    routines => db.(routines := routines)
  }

  predicate RoutineOk(pg: Reader, s: Db, d: Db, k: string) {
    k in s.routines && (k !in d.routines || s.routines[k].body != d.routines[k].body) ==>
      RoutineFinds(pg, s, d, k) &&
      (k in d.routines ==>
         s.routines[k].procedure == d.routines[k].procedure && pg.mayReplace(d.routines[k].body, s.routines[k].body))
  }

  ghost function RoutinesOk(pg: Reader, s: Db, d: Db, names: seq<string>): nat -> bool {
    (i: nat) => i < |names| ==> RoutineOk(pg, s, d, names[i])
  }

  // PostgreSQL takes the key for no other routine.
  ghost predicate Unmistaken(pg: Reader, routines: map<string, Routine>, key: string) {
    forall k <- routines :: pg.signature(k) == pg.signature(key) ==> k == key
  }

  // No two routines of either side, and none of one and one of the other, are taken for each other.
  ghost predicate Distinguished(pg: Reader, s: Db, d: Db) {
    DistinctSignatures(pg, s.routines) && DistinctSignatures(pg, d.routines) && SignaturesStay(pg, s, d)
  }

  lemma UnmistakenHere(pg: Reader, s: Db, d: Db, routines: map<string, Routine>, key: string)
    requires Distinguished(pg, s, d) && (key in s.routines || key in d.routines)
    requires forall k <- routines :: k in s.routines || k in d.routines
    ensures Unmistaken(pg, routines, key)
  {
  }

  lemma AlikeIs(pg: Reader, routines: map<string, Routine>, key: string)
    requires Unmistaken(pg, routines, key)
    ensures Alike(pg, routines, key) == if key in routines then {key} else {}
  {
  }

  // Is everything there that the arguments and the result of the routine name?
  predicate Findable(pg: Reader, db: Db, body: string) {
    pg.relations(body) <= db.tables.Keys + db.views.Keys && pg.routines(body) <= Signatures(pg, db.routines)
  }

  // Routines name only what is there.
  ghost predicate RoutinesSound(pg: Reader, s: Db) {
    forall k <- s.routines :: RoutineSound(pg, s, s.routines[k])
  }

  // What the routines before it in the list, and those of the target, are called.
  lemma CallsFound(pg: Reader, s: Db, d: Db, names: seq<string>, i: nat)
    requires i < |names| && Ascending(names) && (forall k <- s.routines :: k in names) && Distinguished(pg, s, d)
    requires names[i] in s.routines && RoutineSound(pg, s, s.routines[names[i]])
    ensures var here := Blend(d.routines, d.routines + s.routines, names[..i]);
      pg.routines(s.routines[names[i]].body) <= Signatures(pg, here) <==>
      forall j <- s.routines :: pg.signature(j) in pg.routines(s.routines[names[i]].body) ==>
        j in d.routines || Less(j, names[i])
  {
    var calls := pg.routines(s.routines[names[i]].body);
    var here := Blend(d.routines, d.routines + s.routines, names[..i]);
    forall j | j in s.routines
      ensures pg.signature(j) in Signatures(pg, here) <==> j in d.routines || Less(j, names[i])
    {
      Earlier(names, i, j);
      if pg.signature(j) in Signatures(pg, here) {
        var m :| m in here && pg.signature(m) == pg.signature(j);
        UnmistakenHere(pg, s, d, here, j);
      }
    }
    forall g | g in calls
      ensures exists j <- s.routines :: pg.signature(j) == g
    {
    }
  }

  lemma FoundHere(pg: Reader, s: Db, d: Db, names: seq<string>, i: nat)
    requires i < |names| && Ascending(names) && (forall k <- s.routines :: k in names) && Distinguished(pg, s, d)
    requires names[i] in s.routines && RoutineSound(pg, s, s.routines[names[i]])
    ensures var here := Blend(d.routines, d.routines + s.routines, names[..i]);
      Findable(pg, PutRoutines(Stage(s, d, 6))(here), s.routines[names[i]].body) <==> RoutineFinds(pg, s, d, names[i])
  {
    hide Signatures, Blend;
    CallsFound(pg, s, d, names, i);
    assert TablesAt(s, d, 6).Keys == s.tables.Keys + d.tables.Keys;
  }

  lemma CreateOneRoutine(pg: Reader, db: Db, routine: RoutineSnapshot)
    requires Unmistaken(pg, db.routines, RoutineKey(routine))
    ensures Exec(pg, db, CreateRoutineStatement(routine)) ==
      var key := RoutineKey(routine);
      var body := NormalizeBody(routine.definition);
      Outcome(Findable(pg, db, body) && (key in db.routines ==>
                db.routines[key].procedure == routine.procedure && pg.mayReplace(db.routines[key].body, body)),
              db.(routines := db.routines[key := Routine(routine.procedure, body)]))
  {
    hide NormalizeBody, Alike, RoutineKey, Signatures;
    var key, body := RoutineKey(routine), NormalizeBody(routine.definition);
    NormalizeTrimmed(routine.definition);
    AlikeIs(pg, db.routines, key);
    assert (db.routines - {key})[key := Routine(routine.procedure, body)] ==
      db.routines[key := Routine(routine.procedure, body)];
    assert db.routines - {} == db.routines;
  }

  lemma RoutineStep(pg: Reader, source: SchemaSnapshot, target: SchemaSnapshot, s: Db, d: Db, names: seq<string>,
                    i: nat)
    requires RoutinesOf(source, s) && RoutinesOf(target, d) && KindsDeclared(pg, s) && KindsDeclared(pg, d)
    requires i < |names| && Ascending(names) && (forall k <- s.routines :: k in names) && Distinguished(pg, s, d)
    requires RoutinesSound(pg, s)
    ensures Steps(pg, EntryPhase(Routines, RoutinePart(source, target))(names[i]),
                  Mid(PutRoutines(Stage(s, d, 6)), d.routines, d.routines + s.routines, names),
                    RoutinesOk(pg, s, d, names), i)
  {
    var k := names[i];
    var script := RoutinePhase(Routines, source, target, k);
    var before, after := d.routines, d.routines + s.routines;
    var put := PutRoutines(Stage(s, d, 6));
    RoutineByPhase(Routines, source, target, k);
    NewName(names, i);
    BlendStep(before, after, names, i);
    if k in s.routines && (k !in d.routines || s.routines[k].body != d.routines[k].body) {
      UnmistakenHere(pg, s, d, Blend(before, after, names[..i]), k);
      FoundHere(pg, s, d, names, i);
      CreateOneRoutine(pg, put(Blend(before, after, names[..i])), source.routines[k]);
      assert s.routines[k] == Routine(source.routines[k].procedure, NormalizeBody(source.routines[k].definition));
      BlendExec(pg, script, put, before, after, names, RoutinesOk(pg, s, d, names), i);
    } else {
      BlendNoop(pg, script, put, before, after, names, RoutinesOk(pg, s, d, names), i);
    }
  }

  lemma AfterRoutines(s: Db, d: Db)
    ensures Stage(s, d, 6).(routines := d.routines) == Stage(s, d, 6)
    ensures Stage(s, d, 6).(routines := d.routines + s.routines) == Stage(s, d, 7)
  {
    TablesStay(s, d, 6);
  }

  lemma RoutinesOkMeans(pg: Reader, s: Db, d: Db, names: seq<string>)
    requires Lists(names, s.routines.Keys + d.routines.Keys)
    ensures AllOk(RoutinesOk(pg, s, d, names), |names|) <==> RoutinesApply(pg, s, d)
  {
    if AllOk(RoutinesOk(pg, s, d, names), |names|) {
      forall k | k in s.routines
        ensures RoutineOk(pg, s, d, k)
      {
        assert k in names;
        var i: nat :| i < |names| && names[i] == k;
        assert RoutinesOk(pg, s, d, names)(i);
      }
    }
  }

  lemma RoutinesBlend(pg: Reader, source: SchemaSnapshot, target: SchemaSnapshot, s: Db, d: Db)
    requires RoutinesOf(source, s) && RoutinesOf(target, d) && KindsDeclared(pg, s) && KindsDeclared(pg, d)
    requires Distinguished(pg, s, d) && RoutinesSound(pg, s)
    ensures Run(pg, Stage(s, d, 6), RoutineScript(Routines, source, target)) ==
            Outcome(RoutinesApply(pg, s, d), Stage(s, d, 7))
  {
    hide Run, Stage;
    var names := Sorted(source.routines.Keys + target.routines.Keys);
    var part := EntryPhase(Routines, RoutinePart(source, target));
    var put := PutRoutines(Stage(s, d, 6));
    var before, after := d.routines, d.routines + s.routines;
    forall i: nat | i < |names|
      ensures Steps(pg, part(names[i]), Mid(put, before, after, names), RoutinesOk(pg, s, d, names), i)
    {
      RoutineStep(pg, source, target, s, d, names, i);
    }
    RunBlend(pg, names, part, put, before, after, RoutinesOk(pg, s, d, names));
    AfterRoutines(s, d);
    RoutinesOkMeans(pg, s, d, names);
  }

  /* ---- Dropping ---- */

  predicate StillUsed(pg: Reader, db: Db, k: string) {
    RoutineUsed(pg, db.tables, db.indexes, db.views, pg.signature(k))
  }

  predicate RoutineDropOk(pg: Reader, s: Db, d: Db, k: string) {
    k in d.routines && k !in s.routines ==> !StillUsed(pg, Stage(s, d, 11), k) && CallersGone(pg, s, d, k)
  }

  ghost function RoutineDropsOk(pg: Reader, s: Db, d: Db, names: seq<string>): nat -> bool {
    (i: nat) => i < |names| ==> RoutineDropOk(pg, s, d, names[i])
  }

  // The routines of the source call only one another.
  lemma NotOwn(pg: Reader, s: Db, d: Db, j: string, k: string)
    requires RoutinesSound(pg, s) && Distinguished(pg, s, d) && j in s.routines && k in d.routines && k !in s.routines
    ensures pg.signature(k) !in pg.routines(s.routines[j].body)
  {
    assert RoutineSound(pg, s, s.routines[j]);
  }

  // The routines left when `k` has its turn to be dropped.
  lemma LeftHere(s: Db, d: Db, names: seq<string>, i: nat, j: string)
    requires i < |names| && Ascending(names) && (forall k <- d.routines :: k in names)
    ensures var here := Blend(d.routines + s.routines, s.routines, names[..i]);
      (j in here <==> j in s.routines || (j in d.routines && !Less(j, names[i]))) &&
      (j in here ==> here[j] == if j in s.routines then s.routines[j] else d.routines[j])
  {
    if j in d.routines {
      Earlier(names, i, j);
    }
  }

  lemma StillCalled(pg: Reader, s: Db, d: Db, names: seq<string>, i: nat)
    requires i < |names| && Ascending(names) && (forall k <- d.routines :: k in names) && RoutinesSound(pg, s)
    requires Distinguished(pg, s, d) && names[i] in d.routines && names[i] !in s.routines
    ensures var here := Blend(d.routines + s.routines, s.routines, names[..i]);
      RoutineCalled(pg, here - {names[i]}, pg.signature(names[i])) <==> !CallersGone(pg, s, d, names[i])
  {
    hide Distinguished, RoutinesSound, Blend, Less;
    var k, here := names[i], Blend(d.routines + s.routines, s.routines, names[..i]);
    if RoutineCalled(pg, here - {k}, pg.signature(k)) {
      var j :| j in here - {k} && pg.signature(k) in pg.routines((here - {k})[j].body);
      LeftHere(s, d, names, i, j);
      if j in s.routines {
        NotOwn(pg, s, d, j, k);
      }
    }
    if !CallersGone(pg, s, d, k) {
      var j :| j in d.routines && j !in s.routines && j != k && pg.signature(k) in pg.routines(d.routines[j].body) &&
               !Less(j, k);
      LeftHere(s, d, names, i, j);
      assert (here - {k})[j] == d.routines[j];
    }
  }

  // A routine that has to go when it has its turn.
  lemma DropHere(pg: Reader, s: Db, d: Db, names: seq<string>, i: nat, procedure: bool)
    requires i < |names| && Ascending(names) && (forall k <- d.routines :: k in names) && Distinguished(pg, s, d)
    requires RoutinesSound(pg, s) && names[i] in d.routines && names[i] !in s.routines
    requires d.routines[names[i]].procedure == procedure
    ensures var here := Blend(d.routines + s.routines, s.routines, names[..i]);
      Exec(pg, Stage(s, d, 11).(routines := here), DropRoutine(names[i], procedure)) ==
      Outcome(RoutineDropOk(pg, s, d, names[i]), Stage(s, d, 11).(routines := here - {names[i]}))
  {
    hide Stage, StillUsed, CallersGone, RoutineCalled, Unmistaken, Distinguished, RoutinesSound, Exec, Blend;
    var k, here := names[i], Blend(d.routines + s.routines, s.routines, names[..i]);
    forall j
      ensures (j in here <==> j in s.routines || (j in d.routines && !Less(j, k))) &&
              (j in here ==> here[j] == if j in s.routines then s.routines[j] else d.routines[j])
    {
      LeftHere(s, d, names, i, j);
    }
    NewName(names, i);
    BlendStep(d.routines + s.routines, s.routines, names, i);
    UnmistakenHere(pg, s, d, here, k);
    StillCalled(pg, s, d, names, i);
    DropOneRoutine(pg, Stage(s, d, 11), here, k, procedure);
  }

  lemma DropRoutineStep(pg: Reader, source: SchemaSnapshot, target: SchemaSnapshot, s: Db, d: Db, names: seq<string>,
                        i: nat)
    requires s.routines.Keys == source.routines.Keys && d.routines.Keys == target.routines.Keys
    requires i < |names| && Ascending(names) && (forall k <- d.routines :: k in names) && Distinguished(pg, s, d)
    requires RoutinesSound(pg, s)
    requires names[i] in target.routines ==>
      RoutineKey(target.routines[names[i]]) == names[i] &&
        d.routines[names[i]].procedure == target.routines[names[i]].procedure
    ensures Steps(pg, EntryPhase(DropRoutines, RoutinePart(source, target))(names[i]),
                  Mid(PutRoutines(Stage(s, d, 11)), d.routines + s.routines, s.routines, names),
                  RoutineDropsOk(pg, s, d, names), i)
  {
    hide Stage, Run, Steps, StillUsed, CallersGone, Distinguished, RoutinesSound, Exec, RoutineKey, Blend, Ascending;
    var k := names[i];
    var script := RoutinePhase(DropRoutines, source, target, k);
    var before, after := d.routines + s.routines, s.routines;
    var put := PutRoutines(Stage(s, d, 11));
    RoutineByPhase(DropRoutines, source, target, k);
    NewName(names, i);
    BlendStep(before, after, names, i);
    if k in d.routines && k !in s.routines {
      DropHere(pg, s, d, names, i, target.routines[k].procedure);
      BlendExec(pg, script, put, before, after, names, RoutineDropsOk(pg, s, d, names), i);
    } else {
      BlendNoop(pg, script, put, before, after, names, RoutineDropsOk(pg, s, d, names), i);
    }
  }

  lemma DropOneRoutine(pg: Reader, db: Db, routines: map<string, Routine>, k: string, procedure: bool)
    requires k in routines && routines[k].procedure == procedure && Unmistaken(pg, routines, k)
    ensures Exec(pg, db.(routines := routines), DropRoutine(k, procedure)) ==
            Outcome(!StillUsed(pg, db, k) && !RoutineCalled(pg, routines - {k}, pg.signature(k)),
                    db.(routines := routines - {k}))
  {
    hide RoutineUsed, RoutineCalled, Alike;
    AlikeIs(pg, routines, k);
  }

  predicate NoDroppedRoutineUsed(pg: Reader, s: Db, d: Db) {
    forall k <- d.routines :: k !in s.routines ==> !StillUsed(pg, Stage(s, d, 11), k) && CallersGone(pg, s, d, k)
  }

  lemma AfterDropRoutines(s: Db, d: Db)
    ensures Stage(s, d, 11).(routines := d.routines + s.routines) == Stage(s, d, 11)
    ensures Stage(s, d, 11).(routines := s.routines) == Stage(s, d, 12)
  {
    TablesStay(s, d, 11);
  }

  lemma RoutineDropsOkMeans(pg: Reader, s: Db, d: Db, names: seq<string>)
    requires Lists(names, s.routines.Keys + d.routines.Keys)
    ensures AllOk(RoutineDropsOk(pg, s, d, names), |names|) <==> NoDroppedRoutineUsed(pg, s, d)
  {
    if AllOk(RoutineDropsOk(pg, s, d, names), |names|) {
      forall k | k in d.routines && k !in s.routines
        ensures RoutineDropOk(pg, s, d, k)
      {
        assert k in names;
        var i: nat :| i < |names| && names[i] == k;
        assert RoutineDropsOk(pg, s, d, names)(i);
      }
    }
  }

  lemma DropRoutinesBlend(pg: Reader, source: SchemaSnapshot, target: SchemaSnapshot, s: Db, d: Db)
    requires RoutinesOf(source, s) && RoutinesOf(target, d) && Distinguished(pg, s, d) && RoutinesSound(pg, s)
    ensures Run(pg, Stage(s, d, 11), RoutineScript(DropRoutines, source, target)) ==
            Outcome(NoDroppedRoutineUsed(pg, s, d), Stage(s, d, 12))
  {
    hide Run, Stage;
    var names := Sorted(source.routines.Keys + target.routines.Keys);
    var part := EntryPhase(DropRoutines, RoutinePart(source, target));
    var put := PutRoutines(Stage(s, d, 11));
    var before, after := d.routines + s.routines, s.routines;
    forall i: nat | i < |names|
      ensures Steps(pg, part(names[i]), Mid(put, before, after, names), RoutineDropsOk(pg, s, d, names), i)
    {
      DropRoutineStep(pg, source, target, s, d, names, i);
    }
    RunBlend(pg, names, part, put, before, after, RoutineDropsOk(pg, s, d, names));
    AfterDropRoutines(s, d);
    RoutineDropsOkMeans(pg, s, d, names);
  }

  lemma RoutinesRun(pg: Reader, source: SchemaSnapshot, target: SchemaSnapshot, s: Db, d: Db)
    requires RoutinesOf(source, s) && RoutinesOf(target, d) && KindsDeclared(pg, s) && KindsDeclared(pg, d)
    requires Distinguished(pg, s, d) && RoutinesSound(pg, s)
    ensures PhaseRuns(pg, source, target, s, d, 6, RoutinesApply(pg, s, d))
  {
    hide *;
    PhaseNames();
    RoutinesBlend(pg, source, target, s, d);
    RoutinePhaseIs(pg, source, target, s, d, 6, RoutinesApply(pg, s, d));
  }

  lemma DropRoutinesRun(pg: Reader, source: SchemaSnapshot, target: SchemaSnapshot, s: Db, d: Db)
    requires RoutinesOf(source, s) && RoutinesOf(target, d) && Distinguished(pg, s, d) && RoutinesSound(pg, s)
    ensures PhaseRuns(pg, source, target, s, d, 11, NoDroppedRoutineUsed(pg, s, d))
  {
    hide *;
    PhaseNames();
    DropRoutinesBlend(pg, source, target, s, d);
    RoutinePhaseIs(pg, source, target, s, d, 11, NoDroppedRoutineUsed(pg, s, d));
  }
}

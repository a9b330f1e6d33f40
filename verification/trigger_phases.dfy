/** The phases that drop and create triggers, for one table. */
module TriggerPhases {
  import opened Options
  import opened Gathering
  import opened Names
  import opened Snapshots
  import opened Statements
  import opened Diff
  import opened Database
  import opened Applies
  import opened Stages
  import opened PhaseLists
  import opened TableLists
  import opened Blending

  function WithTriggers(db: Db, n: string, triggers: map<string, string>): Db
    requires n in db.tables
  {
    PutTable(db, n, db.tables[n].(triggers := triggers))
  }

  function PutTriggers(db: Db, n: string): map<string, string> -> Db
    requires n in db.tables
  {
    triggers => WithTriggers(db, n, triggers)
  }

  lemma DropOneTrigger(pg: Reader, db: Db, n: string, triggers: map<string, string>, g: string)
    requires n in db.tables && g in triggers
    ensures Exec(pg, WithTriggers(db, n, triggers), DropTrigger(g, n)) == Some(WithTriggers(db, n, triggers - {g}))
  {
    PutTwice(db, n, db.tables[n].(triggers := triggers), db.tables[n].(triggers := triggers - {g}));
  }

  lemma DropTriggerStep(pg: Reader, db: Db, n: string, f: map<string, string>, t: map<string, string>,
                        names: seq<string>, i: nat)
    requires n in db.tables && i < |names| && Ascending(names)
    ensures Steps(pg, PhaseOf(DropTriggers, TriggerPart(n, f, t))(names[i]),
                  Mid(PutTriggers(db, n), t, Common(f, t), names), Always(), i)
  {
    var g := names[i];
    NewName(names, i);
    TriggerByPhase(DropTriggers, n, f, t, g);
    var script := TriggerPhaseStatements(DropTriggers, n, f, t, g);
    if g in t && !Same(f, t, g) {
      assert script == [DropTrigger(g, n)];
      DropOneTrigger(pg, db, n, Blend(t, Common(f, t), names[..i]), g);
      BlendExec(pg, script, PutTriggers(db, n), t, Common(f, t), names, Always(), i);
    } else {
      BlendNoop(pg, script, PutTriggers(db, n), t, Common(f, t), names, Always(), i);
    }
  }

  // Changed and removed triggers go first; the ones both sides agree on stay.
  lemma DropTriggersOf(pg: Reader, db: Db, n: string, f: map<string, string>, t: map<string, string>,
                       names: seq<string>)
    requires n in db.tables && db.tables[n].triggers == t && Lists(names, f.Keys + t.Keys)
    ensures Run(pg, db, Gather(names, PhaseOf(DropTriggers, TriggerPart(n, f, t)))) ==
      Some(WithTriggers(db, n, Common(f, t)))
  {
    var part := PhaseOf(DropTriggers, TriggerPart(n, f, t));
    forall i: nat | i < |names|
      ensures Steps(pg, part(names[i]), Mid(PutTriggers(db, n), t, Common(f, t), names), Always(), i)
    {
      DropTriggerStep(pg, db, n, f, t, names, i);
    }
    RunBlend(pg, names, part, PutTriggers(db, n), t, Common(f, t), Always());
    PutSame(db, n);
  }

  // The trigger's function and the columns it names are there.
  ghost predicate TriggerReady(pg: Reader, db: Db, n: string, text: string)
    requires n in db.tables
  {
    pg.routines(text) <= Signatures(pg, db.routines) && pg.columns(text) <= db.tables[n].columns.Keys
  }

  lemma CreateOneTrigger(pg: Reader, db: Db, n: string, triggers: map<string, string>, g: string, text: string)
    requires n in db.tables && g !in triggers && TriggerReady(pg, db, n, text)
    ensures Exec(pg, WithTriggers(db, n, triggers), CreateTrigger(g, n, text)) ==
      Some(WithTriggers(db, n, triggers[g := text]))
  {
    PutTwice(db, n, db.tables[n].(triggers := triggers), db.tables[n].(triggers := triggers[g := text]));
  }

  lemma CreateTriggerStep(pg: Reader, db: Db, n: string, f: map<string, string>, t: map<string, string>,
                          names: seq<string>, i: nat)
    requires n in db.tables && i < |names| && Ascending(names)
    requires names[i] in f ==> TriggerReady(pg, db, n, f[names[i]])
    ensures Steps(pg, PhaseOf(Triggers, TriggerPart(n, f, t))(names[i]),
                  Mid(PutTriggers(db, n), Common(f, t), f, names), Always(), i)
  {
    var g := names[i];
    NewName(names, i);
    TriggerByPhase(Triggers, n, f, t, g);
    var script := TriggerPhaseStatements(Triggers, n, f, t, g);
    if g in f && !Same(f, t, g) {
      assert script == [CreateTrigger(g, n, f[g])];
      CreateOneTrigger(pg, db, n, Blend(Common(f, t), f, names[..i]), g, f[g]);
      BlendExec(pg, script, PutTriggers(db, n), Common(f, t), f, names, Always(), i);
    } else {
      BlendNoop(pg, script, PutTriggers(db, n), Common(f, t), f, names, Always(), i);
    }
  }

  lemma CreateTriggersOf(pg: Reader, db: Db, n: string, f: map<string, string>, t: map<string, string>,
                         names: seq<string>)
    requires n in db.tables && db.tables[n].triggers == Common(f, t) && Lists(names, f.Keys + t.Keys)
    requires forall g <- f :: TriggerReady(pg, db, n, f[g])
    ensures Run(pg, db, Gather(names, PhaseOf(Triggers, TriggerPart(n, f, t)))) == Some(WithTriggers(db, n, f))
  {
    var part := PhaseOf(Triggers, TriggerPart(n, f, t));
    forall i: nat | i < |names|
      ensures Steps(pg, part(names[i]), Mid(PutTriggers(db, n), Common(f, t), f, names), Always(), i)
    {
      CreateTriggerStep(pg, db, n, f, t, names, i);
    }
    RunBlend(pg, names, part, PutTriggers(db, n), Common(f, t), f, Always());
    PutSame(db, n);
  }
}

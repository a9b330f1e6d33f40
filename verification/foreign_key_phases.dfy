/** The phases that drop and add foreign keys, for one table. */
module ForeignKeyPhases {
  import opened Options
  import opened Gathering
  import opened Names
  import opened Snapshots
  import opened Statements
  import opened Diff
  import opened Database
  import opened Applies
  import opened Stages
  import opened ScriptOrder
  import opened PhaseLists
  import opened TableLists
  import opened Blending

  function WithConstraints(db: Db, n: string, constraints: map<string, Constraint>): Db
    requires n in db.tables
  {
    PutTable(db, n, db.tables[n].(constraints := constraints))
  }

  function PutConstraints(db: Db, n: string): map<string, Constraint> -> Db
    requires n in db.tables
  {
    constraints => WithConstraints(db, n, constraints)
  }

  lemma DropOneForeign(pg: Reader, db: Db, n: string, constraints: map<string, Constraint>, k: string)
    requires n in db.tables && k in constraints && IsForeign(constraints[k])
    ensures Exec(pg, WithConstraints(db, n, constraints), DropConstraint(n, k)) ==
      Some(WithConstraints(db, n, constraints - {k}))
  {
    PutTwice(db, n, db.tables[n].(constraints := constraints), db.tables[n].(constraints := constraints - {k}));
  }

  lemma DropForeignStep(pg: Reader, db: Db, n: string, f: map<string, Constraint>, t: map<string, Constraint>,
                        names: seq<string>, i: nat, script: seq<Statement>)
    requires n in db.tables && i < |names| && Ascending(names)
    requires script == ConstraintPhaseStatements(DropForeignKeys, n, f, t, names[i])
    ensures Steps(pg, script, Mid(PutConstraints(db, n), t, WithoutChangedForeign(f, t), names), Always(), i)
  {
    var k := names[i];
    NewName(names, i);
    if k in t && IsForeign(t[k]) && !Same(f, t, k) {
      assert script == [DropConstraint(n, k)];
      DropOneForeign(pg, db, n, Blend(t, WithoutChangedForeign(f, t), names[..i]), k);
      BlendExec(pg, script, PutConstraints(db, n), t, WithoutChangedForeign(f, t), names, Always(), i);
    } else {
      assert script == [];
      BlendNoop(pg, script, PutConstraints(db, n), t, WithoutChangedForeign(f, t), names, Always(), i);
    }
  }

  lemma DropForeignOf(pg: Reader, db: Db, n: string, f: map<string, Constraint>, t: map<string, Constraint>,
                      names: seq<string>, part: string -> seq<Statement>)
    requires n in db.tables && db.tables[n].constraints == t && Lists(names, f.Keys + t.Keys)
    requires forall k :: k in names ==> part(k) == ConstraintPhaseStatements(DropForeignKeys, n, f, t, k)
    ensures Run(pg, db, Gather(names, part)) == Some(WithConstraints(db, n, WithoutChangedForeign(f, t)))
  {
    forall i: nat | i < |names|
      ensures Steps(pg, part(names[i]), Mid(PutConstraints(db, n), t, WithoutChangedForeign(f, t), names), Always(), i)
    {
      DropForeignStep(pg, db, n, f, t, names, i, part(names[i]));
    }
    RunBlend(pg, names, part, PutConstraints(db, n), t, WithoutChangedForeign(f, t), Always());
    PutSame(db, n);
  }

  // Both sides have the table.
  lemma DropChangedForeign(pg: Reader, db: Db, n: string, f: map<string, Constraint>, t: map<string, Constraint>,
                           names: seq<string>)
    requires n in db.tables && db.tables[n].constraints == t && Lists(names, f.Keys + t.Keys)
    ensures Run(pg, db, Gather(names, PhaseOf(DropForeignKeys, ConstraintPart(n, f, t)))) ==
            Some(WithConstraints(db, n, WithoutChangedForeign(f, t)))
  {
    var part := PhaseOf(DropForeignKeys, ConstraintPart(n, f, t));
    forall k | k in names
      ensures part(k) == ConstraintPhaseStatements(DropForeignKeys, n, f, t, k)
    {
      ConstraintByPhase(DropForeignKeys, n, f, t, k);
    }
    DropForeignOf(pg, db, n, f, t, names, part);
  }

  lemma DropAllPart(n: string, t: map<string, Constraint>, names: seq<string>)
    ensures forall k :: k in names ==>
      PhaseOf(DropForeignKeys, DropForeignKeyPart(n, t))(k) ==
        ConstraintPhaseStatements(DropForeignKeys, n, map[], t, k)
  {
    forall k | k in names
      ensures PhaseOf(DropForeignKeys, DropForeignKeyPart(n, t))(k) ==
        ConstraintPhaseStatements(DropForeignKeys, n, map[], t, k)
    {
      OfPhaseShort(DropForeignKeys, DropForeignKeyPart(n, t)(k));
    }
  }

  lemma AgainstNothing(t: map<string, Constraint>)
    ensures WithoutChangedForeign(map[], t) == NonForeign(t)
    ensures var none: map<string, Constraint> := map[]; none.Keys + t.Keys == t.Keys == t.Keys + none.Keys
  {
  }

  // Only the target has the table.
  lemma DropAllForeign(pg: Reader, db: Db, n: string, t: map<string, Constraint>, names: seq<string>)
    requires n in db.tables && db.tables[n].constraints == t && Lists(names, t.Keys)
    ensures Run(pg, db, Gather(names, PhaseOf(DropForeignKeys, DropForeignKeyPart(n, t)))) ==
            Some(WithConstraints(db, n, NonForeign(t)))
  {
    hide Run, Gather, PhaseOf, DropForeignKeyPart, ConstraintPhaseStatements, WithoutChangedForeign, NonForeign,
      WithConstraints;
    DropAllPart(n, t, names);
    AgainstNothing(t);
    DropForeignOf(pg, db, n, map[], t, names, PhaseOf(DropForeignKeys, DropForeignKeyPart(n, t)));
  }

  lemma AddOneForeign(pg: Reader, db: Db, n: string, constraints: map<string, Constraint>, k: string, c: Constraint)
    requires n in db.tables && k !in constraints && IsForeign(c) && ConstraintSound(pg, db, db.tables[n].columns, c)
    ensures Exec(pg, WithConstraints(db, n, constraints), AddConstraint(n, k, c)) ==
      Some(WithConstraints(db, n, constraints[k := c]))
  {
    PutTwice(db, n, db.tables[n].(constraints := constraints), db.tables[n].(constraints := constraints[k := c]));
  }

  lemma AddForeignStep(pg: Reader, db: Db, n: string, f: map<string, Constraint>, t: map<string, Constraint>,
                       names: seq<string>, i: nat, script: seq<Statement>)
    requires n in db.tables && i < |names| && Ascending(names)
    requires names[i] in f ==> ConstraintSound(pg, db, db.tables[n].columns, f[names[i]])
    requires script == ConstraintPhaseStatements(ForeignKeys, n, f, t, names[i])
    ensures Steps(pg, script, Mid(PutConstraints(db, n), WithoutNewForeign(f, t), f, names), Always(), i)
  {
    var k := names[i];
    NewName(names, i);
    if k in f && IsForeign(f[k]) && !Same(f, t, k) {
      assert script == [AddConstraint(n, k, f[k])];
      AddOneForeign(pg, db, n, Blend(WithoutNewForeign(f, t), f, names[..i]), k, f[k]);
      BlendExec(pg, script, PutConstraints(db, n), WithoutNewForeign(f, t), f, names, Always(), i);
    } else {
      assert script == [];
      BlendNoop(pg, script, PutConstraints(db, n), WithoutNewForeign(f, t), f, names, Always(), i);
    }
  }

  lemma AddForeignOf(pg: Reader, db: Db, n: string, f: map<string, Constraint>, t: map<string, Constraint>,
                     names: seq<string>, part: string -> seq<Statement>)
    requires n in db.tables && db.tables[n].constraints == WithoutNewForeign(f, t) && Lists(names, f.Keys + t.Keys)
    requires forall k <- f :: ConstraintSound(pg, db, db.tables[n].columns, f[k])
    requires forall k :: k in names ==> part(k) == ConstraintPhaseStatements(ForeignKeys, n, f, t, k)
    ensures Run(pg, db, Gather(names, part)) == Some(WithConstraints(db, n, f))
  {
    forall i: nat | i < |names|
      ensures Steps(pg, part(names[i]), Mid(PutConstraints(db, n), WithoutNewForeign(f, t), f, names), Always(), i)
    {
      AddForeignStep(pg, db, n, f, t, names, i, part(names[i]));
    }
    RunBlend(pg, names, part, PutConstraints(db, n), WithoutNewForeign(f, t), f, Always());
    PutSame(db, n);
  }

  lemma AddChangedForeign(pg: Reader, db: Db, n: string, f: map<string, Constraint>, t: map<string, Constraint>,
                          names: seq<string>)
    requires n in db.tables && db.tables[n].constraints == WithoutNewForeign(f, t) && Lists(names, f.Keys + t.Keys)
    requires forall k <- f :: ConstraintSound(pg, db, db.tables[n].columns, f[k])
    ensures Run(pg, db, Gather(names, PhaseOf(ForeignKeys, ConstraintPart(n, f, t)))) == Some(WithConstraints(db, n, f))
  {
    var part := PhaseOf(ForeignKeys, ConstraintPart(n, f, t));
    forall k | k in names
      ensures part(k) == ConstraintPhaseStatements(ForeignKeys, n, f, t, k)
    {
      ConstraintByPhase(ForeignKeys, n, f, t, k);
    }
    AddForeignOf(pg, db, n, f, t, names, part);
  }

  // Only the source has the table.
  lemma AddAllForeign(pg: Reader, db: Db, n: string, f: map<string, Constraint>, names: seq<string>)
    requires n in db.tables && db.tables[n].constraints == WithoutNewForeign(f, map[]) && Lists(names, f.Keys)
    requires forall k <- f :: ConstraintSound(pg, db, db.tables[n].columns, f[k])
    ensures Run(pg, db, Gather(names, PhaseOf(ForeignKeys, ForeignKeyPart(n, f)))) == Some(WithConstraints(db, n, f))
  {
    var part := PhaseOf(ForeignKeys, ForeignKeyPart(n, f));
    forall k | k in names
      ensures part(k) == ConstraintPhaseStatements(ForeignKeys, n, f, map[], k)
    {
      OfPhaseShort(ForeignKeys, ForeignKeyPart(n, f)(k));
    }
    AgainstNothing(f);
    AddForeignOf(pg, db, n, f, map[], names, part);
  }
}

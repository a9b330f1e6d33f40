/** When the columns and constraints of a table both sides have can be changed. */
module AlteredConditions {
  import opened Options
  import opened Gathering
  import opened Names
  import opened Snapshots
  import opened Statements
  import opened Diff
  import opened Database
  import opened Applies
  import opened Stages
  import opened ScriptOrder
  import opened PhaseLists
  import opened TableLists
  import opened Blending
  import opened ColumnPhases
  import opened ForeignKeyPhases
  import opened AlteredTables

  // Every changed constraint is still there to be dropped.
  predicate StillThere(k0: map<string, Constraint>, f: map<string, Constraint>, t: map<string, Constraint>) {
    forall k <- t :: !IsForeign(t[k]) && !Same(f, t, k) ==> k in k0
  }

  lemma MidConstraintsAt(k0: map<string, Constraint>, f: map<string, Constraint>, t: map<string, Constraint>,
                         names: seq<string>, i: nat)
    requires i < |names| && Ascending(names)
    ensures names[i] in MidConstraints(k0, f, t, names, i) <==> names[i] in k0
    ensures forall b ::
      b in MidConstraints(k0, f, t, names, i) && b !in names[..i] ==>
      b in k0 && MidConstraints(k0, f, t, names, i)[b] == k0[b]
    ensures forall b ::
      b in k0 && b !in names[..i] ==>
      b in MidConstraints(k0, f, t, names, i) && MidConstraints(k0, f, t, names, i)[b] == k0[b]
    ensures forall b ::
      b in MidConstraints(k0, f, t, names, i) && b in names[..i] ==>
      b in f && MidConstraints(k0, f, t, names, i)[b] == f[b]
  {
    NewName(names, i);
  }

  // The key to be replaced is still there when its name comes later.
  lemma KeyInTheWay(k0: map<string, Constraint>, f: map<string, Constraint>, t: map<string, Constraint>,
                    names: seq<string>,
                    i: nat, b: string)
    requires i < |names| && Lists(names, f.Keys + t.Keys) && Remaining(k0, f, t) && OneKey(f) && OneKey(t)
    requires StillThere(k0, f, t)
    requires var k := names[i]; k in f && IsKey(f[k]) && !Same(f, t, k)
    requires b in t && IsKey(t[b]) && b != names[i] && !Less(b, names[i])
    ensures !NoKey(MidConstraints(k0, f, t, names, i) - {names[i]})
  {
    var k := names[i];
    var here := MidConstraints(k0, f, t, names, i);
    LessTotal(b, k);
    assert !Same(f, t, b);
    assert b in k0 && k0[b] == t[b];
    NotBefore(names, i, b);
    MidConstraintsAt(k0, f, t, names, i);
    assert b in here - {k} && here[b] == t[b];
  }

  lemma NotBefore(names: seq<string>, i: nat, b: string)
    requires Ascending(names) && i < |names| && Less(names[i], b)
    ensures b !in names[..i]
  {
    if b in names[..i] {
      var j :| 0 <= j < i && names[j] == b;
      LessTotal(b, names[i]);
      assert false;
    }
  }

  // Every key that has to go has gone when its name comes earlier.
  lemma KeyGone(k0: map<string, Constraint>, f: map<string, Constraint>, t: map<string, Constraint>, names: seq<string>,
                i: nat, b: string)
    requires i < |names| && Lists(names, f.Keys + t.Keys) && Remaining(k0, f, t) && OneKey(f) && OneKey(t)
    requires StillThere(k0, f, t)
    requires var k := names[i]; k in f && IsKey(f[k]) && !Same(f, t, k)
    requires forall c <- t :: IsKey(t[c]) && c != names[i] ==> Less(c, names[i])
    requires b in MidConstraints(k0, f, t, names, i) - {names[i]}
    ensures !IsKey(MidConstraints(k0, f, t, names, i)[b])
  {
    MidConstraintsAt(k0, f, t, names, i);
    if b !in names[..i] && IsKey(MidConstraints(k0, f, t, names, i)[b]) {
      assert b in t && IsKey(t[b]);
      Before(names, i, b);
    }
  }

  lemma Before(names: seq<string>, i: nat, b: string)
    requires Ascending(names) && i < |names| && Less(b, names[i]) && b in names
    ensures b in names[..i]
  {
    var j :| 0 <= j < |names| && names[j] == b;
    LessTotal(b, names[i]);
    assert j < i;
    assert names[..i][j] == b;
  }

  // A second primary key is in the way exactly when a differently named one has not been dropped yet.
  lemma KeyOrder(k0: map<string, Constraint>, f: map<string, Constraint>, t: map<string, Constraint>,
                 names: seq<string>, i: nat)
    requires i < |names| && Lists(names, f.Keys + t.Keys) && Remaining(k0, f, t) && OneKey(f) && OneKey(t)
    requires StillThere(k0, f, t)
    requires var k := names[i]; k in f && IsKey(f[k]) && !Same(f, t, k)
    ensures NoKey(MidConstraints(k0, f, t, names, i) - {names[i]}) <==>
            forall b <- t :: IsKey(t[b]) && b != names[i] ==> Less(b, names[i])
  {
    if b :| b in t && IsKey(t[b]) && b != names[i] && !Less(b, names[i]) {
      KeyInTheWay(k0, f, t, names, i, b);
    } else {
      forall b | b in MidConstraints(k0, f, t, names, i) - {names[i]}
        ensures !IsKey(MidConstraints(k0, f, t, names, i)[b])
      {
        KeyGone(k0, f, t, names, i, b);
      }
    }
  }

  // What the rest of the schema has to do with the table's constraints: names taken, and foreign keys that rest on
  // them.
  ghost predicate Placed(pg: Reader, s: Db, d: Db, db: Db, n: string, f: map<string, Constraint>) {
    db.routines == d.routines && db.views == KeptViews(s, d) &&
    (forall k :: Rested(pg, db.tables, n, k) <==> RestedThroughout(pg, s, d, n, k)) &&
    (forall k <- f :: IsBacked(f[k]) ==> (k in OtherNames(db, n) <==> !FreeInTurn(s, d, n, k)))
  }

  predicate Replaced(f: map<string, Constraint>, t: map<string, Constraint>, k: string) {
    k in t && !IsForeign(t[k]) && !Same(f, t, k)
  }

  predicate NeededThroughout(pg: Reader, s: Db, d: Db, n: string, k: string) {
    RestedThroughout(pg, s, d, n, k) || Grouped(pg, KeptViews(s, d), n, k)
  }

  predicate NoneNeeded(pg: Reader, s: Db, d: Db, n: string, f: map<string, Constraint>, t: map<string, Constraint>) {
    forall k <- t :: Replaced(f, t, k) ==> !NeededThroughout(pg, s, d, n, k)
  }

  ghost predicate TurnOk(pg: Reader, s: Db, d: Db, n: string, f: map<string, Constraint>, t: map<string, Constraint>,
                         k: string) {
    (Replaced(f, t, k) ==> !NeededThroughout(pg, s, d, n, k)) &&
    (k in f && !IsForeign(f[k]) && !Same(f, t, k) ==> NewConstraintApplies(pg, s, d, n, t, k, f[k]))
  }

  lemma ConstraintOkAt(pg: Reader, s: Db, d: Db, db: Db, n: string, k0: map<string, Constraint>,
                       f: map<string, Constraint>,
                       t: map<string, Constraint>, names: seq<string>, i: nat)
    requires i < |names| && Lists(names, f.Keys + t.Keys) && Remaining(k0, f, t) && OneKey(f) && OneKey(t)
    requires StillThere(k0, f, t) && Placed(pg, s, d, db, n, f)
    ensures ConstraintOk(pg, db, n, MidConstraints(k0, f, t, names, i), f, t, names[i]) <==>
      TurnOk(pg, s, d, n, f, t, names[i])
  {
    hide Rested, RestedThroughout, Grouped, KeptViews, OtherNames, FreeInTurn, MidConstraints;
    var k := names[i];
    MidConstraintsAt(k0, f, t, names, i);
    if k in f && IsKey(f[k]) && !Same(f, t, k) {
      KeyOrder(k0, f, t, names, i);
    }
  }

  lemma TurnsMean(pg: Reader, s: Db, d: Db, n: string, f: map<string, Constraint>, t: map<string, Constraint>,
                  names: seq<string>, ok: nat -> bool)
    requires Lists(names, f.Keys + t.Keys)
    requires forall i: nat :: i < |names| ==> ok(i) == TurnOk(pg, s, d, n, f, t, names[i])
    ensures AllOk(ok, |names|) <==> NoneNeeded(pg, s, d, n, f, t) && NewConstraintsApply(pg, s, d, n, f, t)
  {
    hide NewConstraintApplies, NeededThroughout;
    if AllOk(ok, |names|) {
      forall k | k in f || k in t
        ensures TurnOk(pg, s, d, n, f, t, k)
      {
        assert k in names;
        var i: nat :| i < |names| && names[i] == k;
        assert ok(i);
      }
    }
  }

  lemma ConstraintGone(pg: Reader, db: Db, n: string, k0: map<string, Constraint>, f: map<string, Constraint>,
                       t: map<string, Constraint>, names: seq<string>)
    requires Lists(names, f.Keys + t.Keys) && !StillThere(k0, f, t)
    ensures !AllConstraintsOk(pg, db, n, k0, f, t, names)
  {
    var k :| k in t && !IsForeign(t[k]) && !Same(f, t, k) && k !in k0;
    assert k in names;
    var i: nat :| i < |names| && names[i] == k;
    MidConstraintsAt(k0, f, t, names, i);
    assert !ConstraintsOk(pg, db, n, k0, f, t, names)(i);
  }

  lemma ConstraintsApplyExactly(pg: Reader, s: Db, d: Db, db: Db, n: string, k0: map<string, Constraint>,
                                f: map<string, Constraint>, t: map<string, Constraint>, names: seq<string>)
    requires Lists(names, f.Keys + t.Keys) && Remaining(k0, f, t) && OneKey(f) && OneKey(t) &&
      Placed(pg, s, d, db, n, f)
    ensures AllConstraintsOk(pg, db, n, k0, f, t, names) <==>
            StillThere(k0, f, t) && NoneNeeded(pg, s, d, n, f, t) && NewConstraintsApply(pg, s, d, n, f, t)
  {
    hide Placed, NoneNeeded, NewConstraintsApply, ConstraintOk, TurnOk, MidConstraints, Remaining, OneKey, StillThere;
    if StillThere(k0, f, t) {
      var ok := ConstraintsOk(pg, db, n, k0, f, t, names);
      forall i: nat | i < |names|
        ensures ok(i) == TurnOk(pg, s, d, n, f, t, names[i])
      {
        ConstraintOkAt(pg, s, d, db, n, k0, f, t, names, i);
      }
      TurnsMean(pg, s, d, n, f, t, names, ok);
    } else {
      ConstraintGone(pg, db, n, k0, f, t, names);
    }
  }
}

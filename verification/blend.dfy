/** Loops that turn one map into another, a name at a time. */
module Blending {
  import opened Options
  import opened Gathering
  import opened Names
  import opened Statements
  import opened Database
  import opened PhaseLists

  // The first names of a list are done.
  function Blend<V>(before: map<string, V>, after: map<string, V>, done: seq<string>): map<string, V> {
    map n | n in before.Keys + after.Keys && (if n in done then n in after else n in before) ::
      if n in done then after[n] else before[n]
  }

  lemma BlendNone<V>(before: map<string, V>, after: map<string, V>)
    ensures Blend(before, after, []) == before
  {
  }

  // Outside the names the loop goes through, nothing differs.
  ghost predicate AgreeOutside<V>(before: map<string, V>, after: map<string, V>, names: seq<string>) {
    forall n :: (n in before || n in after) && n !in names ==> n in before && n in after && before[n] == after[n]
  }

  lemma BlendAll<V>(before: map<string, V>, after: map<string, V>, names: seq<string>)
    requires AgreeOutside(before, after, names)
    ensures Blend(before, after, names) == after
  {
  }

  // One more name is done.
  lemma BlendStep<V>(before: map<string, V>, after: map<string, V>, names: seq<string>, i: nat)
    requires i < |names| && names[i] !in names[..i]
    ensures var n := names[i];
      Blend(before, after, names[..i + 1]) ==
        if n in after then Blend(before, after, names[..i])[n := after[n]] else Blend(before, after, names[..i]) - {n}
    ensures names[i] in Blend(before, after, names[..i]) <==> names[i] in before
    ensures names[i] in before ==> Blend(before, after, names[..i])[names[i]] == before[names[i]]
  {
    assert names[..i + 1] == names[..i] + [names[i]];
    var n := names[i];
    var left := Blend(before, after, names[..i + 1]);
    var right :=
      if n in after then Blend(before, after, names[..i])[n := after[n]] else Blend(before, after, names[..i]) - {n};
    assert left.Keys == right.Keys;
  }

  // A name that does not change can be skipped.
  lemma BlendSkip<V>(before: map<string, V>, after: map<string, V>, names: seq<string>, i: nat)
    requires i < |names| && names[i] !in names[..i]
    requires names[i] in before <==> names[i] in after
    requires names[i] in before ==> before[names[i]] == after[names[i]]
    ensures Blend(before, after, names[..i + 1]) == Blend(before, after, names[..i])
  {
    BlendStep(before, after, names, i);
  }

  // `put` places the map in the schema; `mid` follows the loop.
  function Mid<V>(put: map<string, V> -> Db, before: map<string, V>, after: map<string, V>,
                  names: seq<string>): nat -> Db {
    (i: nat) => put(Blend(before, after, if i <= |names| then names[..i] else names))
  }

  // A name without statements does not change.
  lemma BlendNoop<V>(pg: Reader, script: seq<Statement>, put: map<string, V> -> Db, before: map<string, V>,
                     after: map<string, V>, names: seq<string>, ok: nat -> bool, i: nat)
    requires i < |names| && Ascending(names)
    requires script == [] && ok(i)
    requires names[i] in before <==> names[i] in after
    requires names[i] in before ==> before[names[i]] == after[names[i]]
    ensures Steps(pg, script, Mid(put, before, after, names), ok, i)
  {
    NewName(names, i);
    BlendSkip(before, after, names, i);
    StepNone(pg, script, Mid(put, before, after, names), ok, i);
  }

  function Updated<V>(m: map<string, V>, after: map<string, V>, n: string): map<string, V> {
    if n in after then m[n := after[n]] else m - {n}
  }

  // A name with one statement changes by that statement.
  lemma BlendExec<V>(pg: Reader, script: seq<Statement>, put: map<string, V> -> Db, before: map<string, V>,
                     after: map<string, V>, names: seq<string>, ok: nat -> bool, i: nat)
    requires i < |names| && Ascending(names)
    requires |script| == 1
    requires var m := Blend(before, after, names[..i]);
      Exec(pg, put(m), script[0]) == Outcome(ok(i), put(Updated(m, after, names[i])))
    ensures Steps(pg, script, Mid(put, before, after, names), ok, i)
  {
    NewName(names, i);
    BlendStep(before, after, names, i);
    StepOne(pg, script, Mid(put, before, after, names), ok, i);
  }

  // A name with several statements.
  lemma BlendRun<V>(pg: Reader, script: seq<Statement>, put: map<string, V> -> Db, before: map<string, V>,
                    after: map<string, V>, names: seq<string>, ok: nat -> bool, i: nat)
    requires i < |names| && Ascending(names)
    requires var m := Blend(before, after, names[..i]);
      Run(pg, put(m), script) == Outcome(ok(i), put(Updated(m, after, names[i])))
    ensures Steps(pg, script, Mid(put, before, after, names), ok, i)
  {
    NewName(names, i);
    BlendStep(before, after, names, i);
  }

  lemma RunBlend<V>(pg: Reader, names: seq<string>, part: string -> seq<Statement>, put: map<string, V> -> Db,
                    before: map<string, V>, after: map<string, V>, ok: nat -> bool)
    requires AgreeOutside(before, after, names)
    requires forall i: nat :: i < |names| ==> Steps(pg, part(names[i]), Mid(put, before, after, names), ok, i)
    ensures Run(pg, put(before), Gather(names, part)) == Outcome(AllOk(ok, |names|), put(after))
  {
    var mid := Mid(put, before, after, names);
    RunGathered(pg, names, part, mid, ok);
    assert mid(0) == put(before) by {
      BlendNone(before, after);
    }
    assert mid(|names|) == put(after) by {
      BlendAll(before, after, names);
      assert names[..|names|] == names;
    }
  }
}

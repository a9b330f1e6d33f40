/** The comparison of two schemas of different names: the script of the report, run on the target. */
module CrossSchema {
  import opened Options
  import opened Text
  import opened Identifiers
  import opened Snapshots
  import opened Statements
  import opened Diff
  import opened ScriptOrder
  import opened Database
  import opened Applies
  import opened Requalification
  import opened DependencyOrder
  import opened Keeping
  import opened Inexpressible
  import opened Comparison

  // Every routine is held under the name and arguments its definition declares.
  ghost predicate Declared(pg: Reader, db: Db) {
    forall k <- db.routines :: pg.routineKey(db.routines[k].body) == k
  }

  ghost predicate DeclaresKey(pg: Reader, st: Statement) {
    st.CreateRoutine? ==> pg.routineKey(NormalizeBody(st.text)) == st.key
  }

  lemma ExecDeclared(pg: Reader, db: Db, st: Statement)
    requires Declared(pg, db) && DeclaresKey(pg, st) && Exec(pg, db, st).Some?
    ensures Declared(pg, Exec(pg, db, st).value)
  {
    hide NormalizeBody, RoutineUsed;
    if !st.CreateRoutine? && !st.DropRoutine? {
      hide Exec;
      OthersKeepRoutines(pg, db, st);
    }
  }

  lemma {:induction false} RunDeclared(pg: Reader, db: Db, script: seq<Statement>)
    requires Declared(pg, db) && (forall st <- script :: DeclaresKey(pg, st)) && Run(pg, db, script).Some?
    ensures Declared(pg, Run(pg, db, script).value)
  {
    hide Exec, Declared, DeclaresKey;
    if script != [] {
      var m := |script| - 1;
      RunDeclared(pg, db, script[..m]);
      ExecDeclared(pg, Run(pg, db, script[..m]).value, script[m]);
    }
  }

  lemma RoutineDeclared(pg: Reader, source: SchemaSnapshot, target: SchemaSnapshot, st: Statement)
    requires FieldsAgree(pg, source) && st in ScriptOf(Entries(source, target))
    ensures DeclaresKey(pg, st)
  {
    hide Entries, ScriptOf, NormalizeBody, RoutineKey;
    if st.CreateRoutine? {
      var k := RoutineStatement(source, target, st);
      NormalizeTrimmed(source.routines[k].definition);
    }
  }

  lemma RoutineAt(s: SchemaSnapshot, k: string)
    requires DistinctIndexes(s) && k in s.routines
    ensures k in DbOf(s).routines && DbOf(s).routines[k].body == NormalizeBody(s.routines[k].definition)
  {
    hide NormalizeBody, IndexesOf;
  }

  lemma RoutineNames(s: SchemaSnapshot)
    requires DistinctIndexes(s)
    ensures DbOf(s).routines.Keys == s.routines.Keys
  {
    hide NormalizeBody, IndexesOf;
  }

  lemma DeclaredIs(pg: Reader, s: SchemaSnapshot)
    requires DistinctIndexes(s) && FieldsAgree(pg, s)
    ensures Declared(pg, DbOf(s)) <==> Keyed(s)
  {
    hide NormalizeBody, RoutineKey, DbOf;
    RoutineNames(s);
    forall k | k in s.routines
      ensures pg.routineKey(DbOf(s).routines[k].body) == RoutineKey(s.routines[k])
    {
      RoutineAt(s, k);
    }
    if Declared(pg, DbOf(s)) {
      forall k | k in s.routines
        ensures RoutineKey(s.routines[k]) == k
      {
        assert k in DbOf(s).routines;
      }
    }
  }

  // A routine ends up under the key its definition declares, so a schema that holds one elsewhere is not reached.
  lemma ReachedKeyed(pg: Reader, wanted: SchemaSnapshot, target: SchemaSnapshot)
    requires DistinctIndexes(wanted) && FieldsAgree(pg, wanted) && Valid(pg, target)
    requires Run(pg, DbOf(target), ScriptOf(Entries(wanted, target))) == Some(DbOf(wanted))
    ensures Keyed(wanted)
  {
    hide Run, Entries, ScriptOf, Consistent, DistinctColumns, DbOf, FieldsAgree, Declared, DeclaresKey, Keyed,
      DistinctIndexes;
    DeclaredIs(pg, target);
    forall st | st in ScriptOf(Entries(wanted, target))
      ensures DeclaresKey(pg, st)
    {
      RoutineDeclared(pg, wanted, target, st);
    }
    RunDeclared(pg, DbOf(target), ScriptOf(Entries(wanted, target)));
    DeclaredIs(pg, wanted);
  }

  // The script of the report, run on the target, leaves the source as rewritten for the target's schema, exactly when
  // the script applies and the rewritten source still holds its routines under their own keys.
  lemma DiffConverges(pg: Reader, alphanumeric: char -> bool, source: SchemaSnapshot, target: SchemaSnapshot)
    requires Valid(pg, target) && Describes(pg, target)
    requires var wanted := RequalifySnapshot(alphanumeric, source, target.schema);
      DistinctIndexes(wanted) && FieldsAgree(pg, wanted) && (Keyed(wanted) ==> Valid(pg, wanted))
    ensures var wanted := RequalifySnapshot(alphanumeric, source, target.schema);
      Run(pg, DbOf(target), Report(wanted, target).script) == Some(DbOf(wanted)) <==>
      ScriptApplies(pg, wanted, target) && Keyed(wanted)
  {
    hide Run, Entries, ScriptOf, ScriptApplies, Consistent, DistinctColumns, DbOf, FieldsAgree, Keyed, Describes,
      RequalifySnapshot, DistinctIndexes;
    var wanted := RequalifySnapshot(alphanumeric, source, target.schema);
    if Run(pg, DbOf(target), ScriptOf(Entries(wanted, target))) == Some(DbOf(wanted)) {
      ReachedKeyed(pg, wanted, target);
    }
    if Keyed(wanted) {
      Converges(pg, wanted, target);
    }
  }

  // The arguments of a routine mention the schema.
  ghost predicate ArgumentsMention(alphanumeric: char -> bool, s: SchemaSnapshot, k: string)
    requires k in s.routines
  {
    Mentions(alphanumeric, Qualifier(s.schema), "", s.routines[k].identityArguments)
  }

  lemma SameKey(a: RoutineSnapshot, b: RoutineSnapshot)
    requires a.name == b.name
    ensures RoutineKey(a) == RoutineKey(b) <==> a.identityArguments == b.identityArguments
  {
    var front := a.name + "(";
    if RoutineKey(a) == RoutineKey(b) {
      assert a.identityArguments ==
        (front + a.identityArguments + ")")[|front|..|front + a.identityArguments + ")"| - 1];
      assert b.identityArguments ==
        (front + b.identityArguments + ")")[|front|..|front + b.identityArguments + ")"| - 1];
    }
  }

  // The keys stay as they are while the arguments are rewritten: they still fit exactly when no argument list mentions
  // the source's schema.
  lemma KeyedExactly(alphanumeric: char -> bool, source: SchemaSnapshot, to: string)
    requires Plain(alphanumeric, source.schema, to) && source.schema != to && Keyed(source)
    ensures Keyed(RequalifySnapshot(alphanumeric, source, to)) <==>
            forall k <- source.routines :: !ArgumentsMention(alphanumeric, source, k)
  {
    hide Requalified, RoutineKey, Mentions, TableRewritten, IsPlain, Alphabet;
    var wanted := RequalifySnapshot(alphanumeric, source, to);
    forall k | k in source.routines
      ensures k in wanted.routines &&
        (RoutineKey(wanted.routines[k]) == k <==> !ArgumentsMention(alphanumeric, source, k))
    {
      RequalifiedSame(alphanumeric, source.routines[k].identityArguments, source.schema, to);
      SameKey(wanted.routines[k], source.routines[k]);
    }
  }

  /* ---- A function that takes a row of one of the schema's tables ---- */

  function RowFunction(schema: string): SchemaSnapshot {
    SchemaSnapshot(schema, map[], map[], map["f(" + schema + ".t)" := RoutineSnapshot("f", schema + ".t", false, "f")],
                   map[])
  }

  lemma RowFunctionKeyed(schema: string)
    ensures Keyed(RowFunction(schema))
  {
    var k := "f(" + schema + ".t)";
    assert RoutineKey(RowFunction(schema).routines[k]) == k;
  }

  lemma RowFunctionMentions(alphanumeric: char -> bool, schema: string)
    requires IsPlain(schema)
    ensures ArgumentsMention(alphanumeric, RowFunction(schema), "f(" + schema + ".t)")
  {
    hide IsPlain;
    var text := schema + ".t";
    assert text[0..] == text && "" + text[..0] == "";
    assert text == Qualifier(schema) + "t";
    assert MentionsAt(alphanumeric, Qualifier(schema), "", text, 0);
  }

  // Compared across schemas it does not keep its key, and the script does not end where it should, whatever the target.
  lemma RowFunctionMoves(pg: Reader, alphanumeric: char -> bool, schema: string, target: SchemaSnapshot)
    requires Plain(alphanumeric, schema, target.schema) && schema != target.schema && Valid(pg, target)
    requires FieldsAgree(pg, RequalifySnapshot(alphanumeric, RowFunction(schema), target.schema))
    ensures Keyed(RowFunction(schema))
    ensures var wanted := RequalifySnapshot(alphanumeric, RowFunction(schema), target.schema);
      DistinctIndexes(wanted) && Run(pg, DbOf(target), Report(wanted, target).script) != Some(DbOf(wanted))
  {
    hide Run, Entries, ScriptOf, DbOf, FieldsAgree, Keyed, IsPlain, ArgumentsMention, Requalified, Alphabet, Consistent,
      DistinctColumns;
    var wanted := RequalifySnapshot(alphanumeric, RowFunction(schema), target.schema);
    RowFunctionMentions(alphanumeric, schema);
    RowFunctionKeyed(schema);
    KeyedExactly(alphanumeric, RowFunction(schema), target.schema);
    assert DistinctIndexes(wanted);
    if Run(pg, DbOf(target), ScriptOf(Entries(wanted, target))) == Some(DbOf(wanted)) {
      ReachedKeyed(pg, wanted, target);
    }
  }
}

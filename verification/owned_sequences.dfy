/**
 Sequences that belong to a column. Dropping the column, or its table, takes the sequence with it; the script does not
 expect that.
 */
module OwnedSequences {
  import opened Options
  import opened Gathering
  import opened Names
  import opened Snapshots
  import opened Statements
  import opened Diff
  import opened Database
  import opened Applies
  import opened ScriptOrder
  import opened PhaseLists
  import opened ObjectLists
  import opened SequencePhases
  import opened DependencyOrder
  import opened Keeping

  predicate HasColumn(db: Db, t: string, c: string) { t in db.tables && c in db.tables[t].columns }

  predicate OwnerOrGone(db: Db, q: string, t: string, c: string) { HasColumn(db, t, c) || q !in db.sequences }

  // Once its column is gone, so is the sequence, and it does not come back.
  lemma ExecOwner(pg: Reader, db: Db, st: Statement, q: string, t: string, c: string)
    requires pg.owner(q) == Some((t, c)) && OwnerOrGone(db, q, t, c) && !Creates(st, q) && Exec(pg, db, st).Some?
    ensures OwnerOrGone(Exec(pg, db, st).value, q, t, c)
  {
    hide Exec, Spares;
    if !Spares(t, Some(c), st) {
      DropsOwned(pg, db, st, q, t, c);
    } else if HasColumn(db, t, c) {
      ExecKeeps(pg, db, st, t, Some(c));
    } else {
      StillGone(pg, db, st, q);
    }
  }

  lemma {:induction false} RunOwner(pg: Reader, db: Db, script: seq<Statement>, q: string, t: string, c: string)
    requires pg.owner(q) == Some((t, c)) && OwnerOrGone(db, q, t, c) && Run(pg, db, script).Some?
    requires forall st <- script :: !Creates(st, q)
    ensures OwnerOrGone(Run(pg, db, script).value, q, t, c)
  {
    hide Exec, OwnerOrGone, Creates;
    if script != [] {
      var m := |script| - 1;
      RunOwner(pg, db, script[..m], q, t, c);
      ExecOwner(pg, Run(pg, db, script[..m]).value, script[m], q, t, c);
    }
  }

  lemma {:induction false} DropsKeepTables(pg: Reader, db: Db, script: seq<Statement>)
    requires (forall st <- script :: st.DropSequence?) && Run(pg, db, script).Some?
    ensures Run(pg, db, script).value.tables == db.tables
  {
    if script != [] {
      DropsKeepTables(pg, db, script[..|script| - 1]);
    }
  }

  /* ---- The script ---- */

  // The script creates no sequence the target has.
  lemma NotCreated(source: SchemaSnapshot, target: SchemaSnapshot, st: Statement, q: string)
    requires st in ScriptOf(Entries(source, target)) && q in target.sequences
    ensures !Creates(st, q)
  {
    hide Entries, ScriptOf, FirstPhases, EntriesOfPhase, SequencePart;
    if st.CreateSequence? {
      var i: nat :| i < |ScriptOf(Entries(source, target))| && ScriptOf(Entries(source, target))[i] == st;
      var r := StatementAt(source, target, i);
      OneKind(Sequences, source, target);
      var names := Sorted(source.sequences.Keys + target.sequences.Keys);
      GatherMember(names, EntryPhase(Sequences, SequencePart(source, target)), st);
      var n :| n in names && st in EntryPhase(Sequences, SequencePart(source, target))(n);
      SequenceByPhase(Sequences, source, target, n);
    }
  }

  lemma DropsIt(source: SchemaSnapshot, target: SchemaSnapshot, q: string)
    requires q in target.sequences && q !in source.sequences
    ensures DropSequence(q) in ScriptOf(Entries(source, target))
  {
    hide Entries, ScriptOf, EntriesOfPhase, SequencePart, Gather;
    OneKind(DropSequences, source, target);
    var names := Sorted(source.sequences.Keys + target.sequences.Keys);
    SequenceByPhase(DropSequences, source, target, q);
    GatherMember(names, EntryPhase(DropSequences, SequencePart(source, target)), DropSequence(q));
    ScriptByPhases(Entries(source, target));
  }

  lemma OnlyDropsAfter(source: SchemaSnapshot, target: SchemaSnapshot, i: nat)
    requires i < |ScriptOf(Entries(source, target))| && ScriptOf(Entries(source, target))[i].DropSequence?
    ensures forall st <- ScriptOf(Entries(source, target))[i..] :: st.DropSequence?
  {
    hide Entries, ScriptOf;
    var script := ScriptOf(Entries(source, target));
    forall j | i <= j < |script|
      ensures script[j].DropSequence?
    {
      if i < j { ScriptInPhases(source, target, i, j); }
    }
  }

  lemma DropNeeds(pg: Reader, db: Db, q: string)
    requires Exec(pg, db, DropSequence(q)).Some?
    ensures q in db.sequences
  {
  }

  // Where a sequence is dropped, its column is still there, and stays.
  lemma OwnerAtDrop(pg: Reader, source: SchemaSnapshot, target: SchemaSnapshot, d: Db, q: string, t: string, c: string)
    requires var script := ScriptOf(Entries(source, target));
      DropSequence(q) in script && Run(pg, d, script).Some? && forall st <- script :: !Creates(st, q)
    requires pg.owner(q) == Some((t, c)) && HasColumn(d, t, c)
    ensures HasColumn(Run(pg, d, ScriptOf(Entries(source, target))).value, t, c)
  {
    hide Entries, ScriptOf, Run, Exec, Creates;
    var script := ScriptOf(Entries(source, target));
    var i: nat :| i < |script| && script[i] == DropSequence(q);
    PrefixRuns(pg, d, script, i);
    var before := Run(pg, d, script[..i]).value;
    RunOwner(pg, d, script[..i], q, t, c);
    DropNeeds(pg, before, q);
    RunConcat(pg, d, script[..i], script[i..]);
    assert script[..i] + script[i..] == script;
    OnlyDropsAfter(source, target, i);
    DropsKeepTables(pg, before, script[i..]);
  }

  lemma SequenceGone(pg: Reader, source: SchemaSnapshot, target: SchemaSnapshot, s: Db, d: Db, q: string, t: string,
                     c: string)
    requires pg.owner(q) == Some((t, c)) && q in target.sequences && HasColumn(d, t, c)
    requires s.sequences == source.sequences && !HasColumn(s, t, c)
    ensures Run(pg, d, ScriptOf(Entries(source, target))) != Some(s)
  {
    hide Run, Entries, ScriptOf, Creates, HasColumn;
    var script := ScriptOf(Entries(source, target));
    if Run(pg, d, script) == Some(s) {
      forall st | st in script
        ensures !Creates(st, q)
      {
        NotCreated(source, target, st, q);
      }
      RunOwner(pg, d, script, q, t, c);
      DropsIt(source, target, q);
      OwnerAtDrop(pg, source, target, d, q, t, c);
    }
  }

  lemma OwnerDescribed(pg: Reader, target: SchemaSnapshot, d: Db, q: string)
    requires DistinctIndexes(target) && d == DbOf(target) && Describes(pg, target) && pg.owner(q).Some?
    ensures q in target.sequences && HasColumn(d, pg.owner(q).value.0, pg.owner(q).value.1)
  {
  }

  // If a column that owns a sequence has to go, the script fails, or leaves the source without one of its sequences.
  lemma SequenceLost(pg: Reader, source: SchemaSnapshot, target: SchemaSnapshot, s: Db, d: Db)
    requires Compared(pg, source, target, s, d) && !OwnersStay(pg, s, d)
    ensures Run(pg, d, ScriptOf(Entries(source, target))) != Some(s)
  {
    hide Run, Entries, ScriptOf, Consistent, Keyed, FieldsAgree, Describes, DistinctColumns;
    var q :| q in d.sequences && pg.owner(q).Some? && !HasColumn(s, pg.owner(q).value.0, pg.owner(q).value.1);
    OwnerDescribed(pg, target, d, q);
    SequenceGone(pg, source, target, s, d, q, pg.owner(q).value.0, pg.owner(q).value.1);
  }
}

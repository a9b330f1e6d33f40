/** The phases that create, alter and drop sequences. */
module SequencePhases {
  import opened Options
  import opened Gathering
  import opened Names
  import opened Snapshots
  import opened Statements
  import opened Diff
  import opened Database
  import opened Applies
  import opened Stages
  import opened ScriptOrder
  import opened PhaseLists
  import opened ObjectLists
  import opened Blending

  // The two schemas compared, as the catalog can hold them.
  ghost predicate Compared(pg: Reader, source: SchemaSnapshot, target: SchemaSnapshot, s: Db, d: Db) {
    Valid(pg, source) && Valid(pg, target) && Describes(pg, target) && s == DbOf(source) && d == DbOf(target)
  }

  // Phase `r` of the script takes stage `r` to the next one exactly when `cond` holds, and fails otherwise.
  ghost predicate PhaseRuns(pg: Reader, source: SchemaSnapshot, target: SchemaSnapshot, s: Db, d: Db, r: nat,
                            cond: bool)
    requires r < PHASE_COUNT
  {
    Run(pg, Stage(s, d, r), KindScript(PhaseAt(r), source, target)) == Outcome(cond, Stage(s, d, r + 1))
  }

  lemma PhaseNames()
    ensures PHASE_COUNT == 14
    ensures PhaseAt(2) == DropViews && PhaseAt(3) == DropIndexes && PhaseAt(4) == Sequences && PhaseAt(6) == Routines
    ensures PhaseAt(7) == Views && PhaseAt(8) == Indexes && PhaseAt(11) == DropRoutines && PhaseAt(12) == DropTables
    ensures PhaseAt(13) == DropSequences
    ensures SequencesIn(Sequences) && SequencesIn(DropSequences) && ViewsIn(DropViews) && ViewsIn(Views)
    ensures RoutinesIn(Routines) && RoutinesIn(DropRoutines)
    ensures TablesIn(DropIndexes) && TablesIn(Indexes) && TablesIn(DropTables)
  {
  }

  lemma SequencePhaseIs(pg: Reader, source: SchemaSnapshot, target: SchemaSnapshot, s: Db, d: Db, r: nat, cond: bool)
    requires r < PHASE_COUNT && SequencesIn(PhaseAt(r))
    requires Run(pg, Stage(s, d, r), SequenceScript(PhaseAt(r), source, target)) == Outcome(cond, Stage(s, d, r + 1))
    ensures PhaseRuns(pg, source, target, s, d, r, cond)
  {
    hide Run, Stage;
  }

  lemma ViewPhaseIs(pg: Reader, source: SchemaSnapshot, target: SchemaSnapshot, s: Db, d: Db, r: nat, cond: bool)
    requires r < PHASE_COUNT && ViewsIn(PhaseAt(r))
    requires Run(pg, Stage(s, d, r), ViewScript(PhaseAt(r), source, target)) == Outcome(cond, Stage(s, d, r + 1))
    ensures PhaseRuns(pg, source, target, s, d, r, cond)
  {
    hide Run, Stage;
  }

  lemma RoutinePhaseIs(pg: Reader, source: SchemaSnapshot, target: SchemaSnapshot, s: Db, d: Db, r: nat, cond: bool)
    requires r < PHASE_COUNT && RoutinesIn(PhaseAt(r))
    requires Run(pg, Stage(s, d, r), RoutineScript(PhaseAt(r), source, target)) == Outcome(cond, Stage(s, d, r + 1))
    ensures PhaseRuns(pg, source, target, s, d, r, cond)
  {
    hide Run, Stage;
  }

  lemma TablePhaseIs(pg: Reader, source: SchemaSnapshot, target: SchemaSnapshot, s: Db, d: Db, r: nat, cond: bool)
    requires r < PHASE_COUNT && TablesIn(PhaseAt(r))
    requires Run(pg, Stage(s, d, r), TableScript(PhaseAt(r), source, target)) == Outcome(cond, Stage(s, d, r + 1))
    ensures PhaseRuns(pg, source, target, s, d, r, cond)
  {
    hide Run, Stage;
  }

  lemma TableStays(s: Db, d: Db, k: nat, n: string)
    requires k == 2 || k == 3 || k == 4 || k == 6 || k == 7 || k == 8 || k == 11 || k == 13
    requires n in s.tables || n in d.tables
    ensures HasTable(s, d, k + 1, n) == HasTable(s, d, k, n)
    ensures HasTable(s, d, k, n) ==> TableAt(s, d, k + 1, n) == TableAt(s, d, k, n)
  {
  }

  lemma TablesStay(s: Db, d: Db, k: nat)
    requires k == 2 || k == 3 || k == 4 || k == 6 || k == 7 || k == 8 || k == 11 || k == 13
    ensures TablesAt(s, d, k + 1) == TablesAt(s, d, k)
  {
    hide TableAt;
    forall n | n in s.tables.Keys + d.tables.Keys
      ensures HasTable(s, d, k + 1, n) == HasTable(s, d, k, n)
      ensures HasTable(s, d, k, n) ==> TableAt(s, d, k + 1, n) == TableAt(s, d, k, n)
    {
      TableStays(s, d, k, n);
    }
  }

  function PutSequences(db: Db): map<string, Sequence> -> Db {
    sequences => db.(sequences := sequences)
  }

  lemma IndexesFree(s: Db, d: Db, n: string)
    requires n !in s.indexes && n !in s.tables
    ensures n in KeptIndexes(s, d) ==> !Free(s, d, n)
    ensures n in d.indexes && d.indexes[n].table !in s.tables ==> n in KeptIndexes(s, d)
  {
  }

  lemma LateNames(s: Db, d: Db, m: string)
    ensures m in DroppedLate(s, d) <==>
      m in d.sequences.Keys - s.sequences.Keys || m in RemovedTables(s, d) || m in Backing(RemovedTables(s, d)) ||
      (m in d.indexes && d.indexes[m].table !in s.tables)
  {
  }

  lemma BackedAt(s: Db, d: Db, k: nat, n: string)
    requires HasTable(s, d, k, n) && (n in s.tables || n in d.tables)
    ensures BackedNames(TableAt(s, d, k, n).constraints) ==
            BackedNames(if n in d.tables && (k <= 5 || n !in s.tables) then d.tables[n].constraints
            else s.tables[n].constraints)
  {
  }

  // Before phase 5 the target's constraints are there; after it the source's, and those of the removed tables.
  lemma BackingAt(s: Db, d: Db, k: nat)
    ensures k <= 5 ==> Backing(TablesAt(s, d, k)) == Backing(d.tables)
    ensures 6 <= k <= 12 ==> Backing(TablesAt(s, d, k)) == Backing(s.tables) + Backing(RemovedTables(s, d))
  {
    hide TableAt, BackedNames;
    forall n | n in s.tables.Keys + d.tables.Keys && HasTable(s, d, k, n)
      ensures n in TablesAt(s, d, k) && BackedNames(TablesAt(s, d, k)[n].constraints) ==
              BackedNames(if n in d.tables && (k <= 5 || n !in s.tables) then d.tables[n].constraints
              else s.tables[n].constraints)
    {
      BackedAt(s, d, k, n);
    }
    if 6 <= k <= 12 {
      BackingUnion(TablesAt(s, d, k), s.tables, RemovedTables(s, d));
    }
  }

  lemma BackingUnion(all: map<string, Table>, a: map<string, Table>, b: map<string, Table>)
    requires all.Keys == a.Keys + b.Keys && a.Keys !! b.Keys
    requires forall n <- all ::
      BackedNames(all[n].constraints) == BackedNames(if n in a then a[n].constraints else b[n].constraints)
    ensures Backing(all) == Backing(a) + Backing(b)
  {
    hide BackedNames;
    forall n | n in a
      ensures n in all && BackedNames(all[n].constraints) == BackedNames(a[n].constraints)
    {
    }
    forall n | n in b
      ensures n in all && BackedNames(all[n].constraints) == BackedNames(b[n].constraints)
    {
    }
  }

  lemma RemovedBacking(s: Db, d: Db)
    ensures Backing(RemovedTables(s, d)) <= Backing(d.tables)
  {
  }

  predicate SequenceFree(s: Db, d: Db, n: string) { Free(s, d, n) && n !in Backing(d.tables) }

  lemma SequenceNameFree(s: Db, d: Db, n: string, sequences: map<string, Sequence>)
    requires NamesDisjoint(s) && n in s.sequences && n !in sequences && n !in d.sequences
    ensures n in RelationNames(Stage(s, d, 4).(sequences := sequences)) <==> !SequenceFree(s, d, n)
  {
    hide Backing;
    IndexesFree(s, d, n);
    BackingAt(s, d, 4);
    RemovedBacking(s, d);
    assert n in TablesAt(s, d, 4) <==> n in d.tables;
  }

  ghost function SequencesOk(s: Db, d: Db, names: seq<string>): nat -> bool {
    (i: nat) => i < |names| && names[i] in s.sequences && names[i] !in d.sequences ==> SequenceFree(s, d, names[i])
  }

  lemma CreateOneSequence(pg: Reader, s: Db, d: Db, n: string, sequences: map<string, Sequence>)
    requires NamesDisjoint(s) && n in s.sequences && n !in sequences && n !in d.sequences
    ensures var here := Stage(s, d, 4).(sequences := sequences);
      Exec(pg, here, CreateSequence(n, s.sequences[n])) ==
      Outcome(SequenceFree(s, d, n), here.(sequences := sequences[n := s.sequences[n]]))
  {
    hide RelationNames, SequenceFree, NamesDisjoint, Stage;
    SequenceNameFree(s, d, n, sequences);
  }

  lemma SequenceStep(pg: Reader, source: SchemaSnapshot, target: SchemaSnapshot, s: Db, d: Db, names: seq<string>,
                     i: nat)
    requires s.sequences == source.sequences && d.sequences == target.sequences && NamesDisjoint(s)
    requires i < |names| && Ascending(names)
    ensures Steps(pg, EntryPhase(Sequences, SequencePart(source, target))(names[i]),
                  Mid(PutSequences(Stage(s, d, 4)), d.sequences, d.sequences + s.sequences, names),
                    SequencesOk(s, d, names), i)
  {
    hide Run, Steps, Stage, RelationNames, SequenceFree, NamesDisjoint, Ascending, Blend;
    var n := names[i];
    var script := SequencePhase(Sequences, source, target, n);
    var before, after := d.sequences, d.sequences + s.sequences;
    SequenceByPhase(Sequences, source, target, n);
    NewName(names, i);
    BlendStep(before, after, names, i);
    if n in s.sequences && n !in d.sequences {
      CreateOneSequence(pg, s, d, n, Blend(before, after, names[..i]));
      BlendExec(pg, script, PutSequences(Stage(s, d, 4)), before, after, names, SequencesOk(s, d, names), i);
    } else if n in s.sequences && s.sequences[n] != d.sequences[n] {
      BlendExec(pg, script, PutSequences(Stage(s, d, 4)), before, after, names, SequencesOk(s, d, names), i);
    } else {
      BlendNoop(pg, script, PutSequences(Stage(s, d, 4)), before, after, names, SequencesOk(s, d, names), i);
    }
  }

  lemma SequencesBlend(pg: Reader, source: SchemaSnapshot, target: SchemaSnapshot, s: Db, d: Db)
    requires s.sequences == source.sequences && d.sequences == target.sequences && NamesDisjoint(s)
    ensures Run(pg, Stage(s, d, 4), SequenceScript(Sequences, source, target)) ==
            Outcome(NewSequencesFree(s, d), Stage(s, d, 5))
  {
    hide Run, Stage, Steps, Mid;
    var names := Sorted(source.sequences.Keys + target.sequences.Keys);
    var part := EntryPhase(Sequences, SequencePart(source, target));
    var put := PutSequences(Stage(s, d, 4));
    var before, after := d.sequences, d.sequences + s.sequences;
    forall i: nat | i < |names|
      ensures Steps(pg, part(names[i]), Mid(put, before, after, names), SequencesOk(s, d, names), i)
    {
      SequenceStep(pg, source, target, s, d, names, i);
    }
    RunBlend(pg, names, part, put, before, after, SequencesOk(s, d, names));
    AfterSequences(s, d);
    SequencesOkMeans(s, d, names);
  }

  lemma SequencesRun(pg: Reader, source: SchemaSnapshot, target: SchemaSnapshot, s: Db, d: Db)
    requires s.sequences == source.sequences && d.sequences == target.sequences && NamesDisjoint(s)
    ensures PhaseRuns(pg, source, target, s, d, 4, NewSequencesFree(s, d))
  {
    hide *;
    PhaseNames();
    SequencesBlend(pg, source, target, s, d);
    SequencePhaseIs(pg, source, target, s, d, 4, NewSequencesFree(s, d));
  }

  lemma AfterSequences(s: Db, d: Db)
    ensures Stage(s, d, 4).(sequences := d.sequences) == Stage(s, d, 4)
    ensures Stage(s, d, 4).(sequences := d.sequences + s.sequences) == Stage(s, d, 5)
  {
    TablesStay(s, d, 4);
  }

  lemma SequencesOkMeans(s: Db, d: Db, names: seq<string>)
    requires Lists(names, s.sequences.Keys + d.sequences.Keys)
    ensures AllOk(SequencesOk(s, d, names), |names|) <==> NewSequencesFree(s, d)
  {
    if AllOk(SequencesOk(s, d, names), |names|) {
      forall n | n in s.sequences && n !in d.sequences
        ensures SequenceFree(s, d, n)
      {
        assert n in names;
        var i: nat :| i < |names| && names[i] == n;
        assert SequencesOk(s, d, names)(i);
      }
    }
  }

  /* ---- Dropping ---- */

  lemma UsedSequences(pg: Reader, s: Db, n: string)
    requires forall t <- s.tables :: TableSound(pg, s, s.tables[t])
    requires n !in s.sequences
    ensures !SequenceUsed(pg, s.tables, n)
  {
    forall t, c | t in s.tables && c in s.tables[t].columns
      ensures !ColumnUsesSequence(pg, s.tables[t].columns[c], n)
    {
      assert TableSound(pg, s, s.tables[t]);
      assert ColumnSound(pg, s, s.tables[t].columns[c]);
    }
  }

  ghost predicate Unused(pg: Reader, s: Db) {
    forall n :: n !in s.sequences ==> !SequenceUsed(pg, s.tables, n)
  }

  lemma DropOneSequence(pg: Reader, s: Db, db: Db, n: string)
    requires Unused(pg, s) && n !in s.sequences && n in db.sequences && db.tables == s.tables
    ensures Exec(pg, db, DropSequence(n)) == Some(db.(sequences := db.sequences - {n}))
  {
    assert !SequenceUsed(pg, s.tables, n);
  }

  lemma DropSequenceStep(pg: Reader, source: SchemaSnapshot, target: SchemaSnapshot, s: Db, d: Db, names: seq<string>,
                         i: nat)
    requires s.sequences == source.sequences && d.sequences == target.sequences
    requires Unused(pg, s) && Stage(s, d, 13).tables == s.tables
    requires i < |names| && Ascending(names)
    ensures Steps(pg, EntryPhase(DropSequences, SequencePart(source, target))(names[i]),
                  Mid(PutSequences(Stage(s, d, 13)), d.sequences + s.sequences, s.sequences, names), Always(), i)
  {
    hide Stage, EntryPhase, SequencePart, Steps, Unused, Run, Exec;
    var n := names[i];
    var script := SequencePhase(DropSequences, source, target, n);
    var before, after := d.sequences + s.sequences, s.sequences;
    var put := PutSequences(Stage(s, d, 13));
    SequenceByPhase(DropSequences, source, target, n);
    NewName(names, i);
    BlendStep(before, after, names, i);
    if n in d.sequences && n !in s.sequences {
      DropOneSequence(pg, s, put(Blend(before, after, names[..i])), n);
      BlendExec(pg, script, put, before, after, names, Always(), i);
    } else {
      BlendNoop(pg, script, put, before, after, names, Always(), i);
    }
  }

  lemma AfterDropSequences(s: Db, d: Db)
    ensures Stage(s, d, 13).(sequences := d.sequences + s.sequences) == Stage(s, d, 13)
    ensures Stage(s, d, 13).(sequences := s.sequences) == Stage(s, d, 14)
  {
    TablesStay(s, d, 13);
  }

  // No default uses a dropped sequence any more.
  lemma DropSequencesBlend(pg: Reader, source: SchemaSnapshot, target: SchemaSnapshot, s: Db, d: Db)
    requires s.sequences == source.sequences && d.sequences == target.sequences
    requires Unused(pg, s) && Stage(s, d, 13).tables == s.tables
    ensures Run(pg, Stage(s, d, 13), SequenceScript(DropSequences, source, target)) == Outcome(true, Stage(s, d, 14))
  {
    hide Run, Stage, Steps, Mid, Unused;
    var names := Sorted(source.sequences.Keys + target.sequences.Keys);
    var part := EntryPhase(DropSequences, SequencePart(source, target));
    var put := PutSequences(Stage(s, d, 13));
    var before, after := d.sequences + s.sequences, s.sequences;
    forall i: nat | i < |names|
      ensures Steps(pg, part(names[i]), Mid(put, before, after, names), Always(), i)
    {
      DropSequenceStep(pg, source, target, s, d, names, i);
    }
    AfterDropSequences(s, d);
    RunBlend(pg, names, part, put, before, after, Always());
  }

  lemma DropSequencesRun(pg: Reader, source: SchemaSnapshot, target: SchemaSnapshot, s: Db, d: Db)
    requires s.sequences == source.sequences && d.sequences == target.sequences
    requires Unused(pg, s) && Stage(s, d, 13).tables == s.tables
    ensures PhaseRuns(pg, source, target, s, d, 13, true)
  {
    hide *;
    PhaseNames();
    DropSequencesBlend(pg, source, target, s, d);
    SequencePhaseIs(pg, source, target, s, d, 13, true);
  }
}

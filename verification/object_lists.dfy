/** What each phase does to one sequence, view or routine. */
module ObjectLists {
  import opened Options
  import opened Gathering
  import opened Names
  import opened Snapshots
  import opened Statements
  import opened Diff
  import opened ScriptOrder
  import opened PhaseLists
  import opened TableLists

  function SequencePhase(phase: Phase, source: SchemaSnapshot, target: SchemaSnapshot, n: string): seq<Statement> {
    var from, to := Lookup(source.sequences, n), Lookup(target.sequences, n);
    if from.Some? && from != to then
      if phase == Sequences then [if to.None? then CreateSequence(n, from.value) else AlterSequence(n, from.value)]
        else []
    else if from.None? && to.Some? && phase == DropSequences then [DropSequence(n)]
    else []
  }

  lemma OnePhase(phase: Phase, tag: Phase, statement: Statement)
    ensures OfPhase(phase, [Tagged(tag, statement)]) == if phase == tag then [statement] else []
  {
    OfPhaseShort(phase, [Tagged(tag, statement)]);
  }

  lemma TwoPhases(phase: Phase, tag: Phase, first: Statement, other: Phase, second: Statement)
    requires tag != other
    ensures OfPhase(phase, [Tagged(tag, first), Tagged(other, second)]) ==
            if phase == tag then [first] else if phase == other then [second] else []
  {
    OfPhaseConcat(phase, [Tagged(tag, first)], [Tagged(other, second)]);
    OnePhase(phase, tag, first);
    OnePhase(phase, other, second);
    assert [Tagged(tag, first), Tagged(other, second)] == [Tagged(tag, first)] + [Tagged(other, second)];
  }

  lemma EntryPhaseOf(phase: Phase, kind: ObjectKind, name: string, status: Status, tagged: seq<Tagged>,
                     destructive: bool,
                     notes: seq<Note>)
    ensures Gather([MakeEntry(kind, name, status, tagged, destructive, notes)], PhaseOf(phase, TaggedPart())) ==
            OfPhase(phase, tagged)
  {
    GatherOne(MakeEntry(kind, name, status, tagged, destructive, notes), PhaseOf(phase, TaggedPart()));
  }

  lemma SequenceByPhase(phase: Phase, source: SchemaSnapshot, target: SchemaSnapshot, n: string)
    ensures EntryPhase(phase, SequencePart(source, target))(n) == SequencePhase(phase, source, target, n)
  {
    var from, to := Lookup(source.sequences, n), Lookup(target.sequences, n);
    if from.Some? && from != to {
      var create := if to.None? then CreateSequence(n, from.value) else AlterSequence(n, from.value);
      EntryPhaseOf(phase, SequenceObject, n, if to.None? then Added else Changed, [Tagged(Sequences, create)], false,
                   []);
      OnePhase(phase, Sequences, create);
    } else if from.None? && to.Some? {
      assert SequencePart(source, target)(n) ==
             [MakeEntry(SequenceObject, n, Removed, [Tagged(DropSequences, DropSequence(n))], true, [])];
      EntryPhaseOf(phase, SequenceObject, n, Removed, [Tagged(DropSequences, DropSequence(n))], true, []);
      OnePhase(phase, DropSequences, DropSequence(n));
    } else {
      assert SequencePart(source, target)(n) == [];
    }
  }

  function ViewPhase(phase: Phase, source: SchemaSnapshot, target: SchemaSnapshot, n: string): seq<Statement> {
    var from, to := Lookup(source.views, n), Lookup(target.views, n);
    if from.None? && to.None? then []
    else if to.None? then
      if phase == Views then [CreateView(n, from.value.materialized, false, NormalizeBody(from.value.definition))]
        else []
    else if from.None? then
      if phase == DropViews then [DropView(n, to.value.materialized)] else []
    else if !ViewChanged(from.value, to.value) then []
    else if from.value.materialized || to.value.materialized then
      if phase == DropViews then [DropView(n, to.value.materialized)]
      else if phase == Views then [CreateView(n, from.value.materialized, false, NormalizeBody(from.value.definition))]
      else []
    else if phase == Views then [CreateView(n, false, true, NormalizeBody(from.value.definition))]
    else []
  }

  lemma ViewByPhase(phase: Phase, source: SchemaSnapshot, target: SchemaSnapshot, n: string)
    ensures EntryPhase(phase, ViewPart(source, target))(n) == ViewPhase(phase, source, target, n)
  {
    hide OfPhase, NormalizeBody, Untagged;
    var from, to := Lookup(source.views, n), Lookup(target.views, n);
    EntryListPhase(phase, ViewEntry(source, target, n));
    if from.Some? && to.None? {
      OnePhase(phase, Views, CreateView(n, from.value.materialized, false, NormalizeBody(from.value.definition)));
    } else if from.None? && to.Some? {
      OnePhase(phase, DropViews, DropView(n, to.value.materialized));
    } else if from.Some? && to.Some? && ViewChanged(from.value, to.value) {
      if from.value.materialized || to.value.materialized {
        var drop := Tagged(DropViews, DropView(n, to.value.materialized));
        var create :=
          Tagged(Views, CreateView(n, from.value.materialized, false, NormalizeBody(from.value.definition)));
        TwoPhases(phase, DropViews, drop.statement, Views, create.statement);
      } else {
        OnePhase(phase, Views, CreateView(n, false, true, NormalizeBody(from.value.definition)));
      }
    }
  }

  function RoutinePhase(phase: Phase, source: SchemaSnapshot, target: SchemaSnapshot, n: string): seq<Statement> {
    var from, to := Lookup(source.routines, n), Lookup(target.routines, n);
    if from.Some? && (to.None? || NormalizeBody(from.value.definition) != NormalizeBody(to.value.definition)) then
      if phase == Routines then [CreateRoutineStatement(from.value)] else []
    else if from.None? && to.Some? && phase == DropRoutines then
      [DropRoutine(RoutineKey(to.value), to.value.procedure)]
    else []
  }

  lemma RoutineByPhase(phase: Phase, source: SchemaSnapshot, target: SchemaSnapshot, n: string)
    ensures EntryPhase(phase, RoutinePart(source, target))(n) == RoutinePhase(phase, source, target, n)
  {
    var from, to := Lookup(source.routines, n), Lookup(target.routines, n);
    EntryListPhase(phase, RoutineEntry(source, target, n));
    if from.Some? {
      OnePhase(phase, Routines, CreateRoutineStatement(from.value));
    } else if to.Some? {
      OnePhase(phase, DropRoutines, DropRoutine(RoutineKey(to.value), to.value.procedure));
    }
  }

  /* ---- Each phase concerns one kind of object ---- */

  predicate SequencesIn(phase: Phase) { phase == Sequences || phase == DropSequences }

  predicate ViewsIn(phase: Phase) { phase == Views || phase == DropViews }

  predicate RoutinesIn(phase: Phase) { phase == Routines || phase == DropRoutines }

  predicate TablesIn(phase: Phase) { !SequencesIn(phase) && !ViewsIn(phase) && !RoutinesIn(phase) }

  lemma NoSequences(phase: Phase, source: SchemaSnapshot, target: SchemaSnapshot)
    requires !SequencesIn(phase)
    ensures SequenceScript(phase, source, target) == []
  {
    var names := Sorted(source.sequences.Keys + target.sequences.Keys);
    forall n | n in names
      ensures EntryPhase(phase, SequencePart(source, target))(n) == []
    {
      SequenceByPhase(phase, source, target, n);
    }
    GatherEmpty(names, EntryPhase(phase, SequencePart(source, target)));
  }

  lemma NoViews(phase: Phase, source: SchemaSnapshot, target: SchemaSnapshot)
    requires !ViewsIn(phase)
    ensures ViewScript(phase, source, target) == []
  {
    var names := Sorted(source.views.Keys + target.views.Keys);
    forall n | n in names
      ensures EntryPhase(phase, ViewPart(source, target))(n) == []
    {
      ViewByPhase(phase, source, target, n);
    }
    GatherEmpty(names, EntryPhase(phase, ViewPart(source, target)));
  }

  lemma NoRoutines(phase: Phase, source: SchemaSnapshot, target: SchemaSnapshot)
    requires !RoutinesIn(phase)
    ensures RoutineScript(phase, source, target) == []
  {
    var names := Sorted(source.routines.Keys + target.routines.Keys);
    forall n | n in names
      ensures EntryPhase(phase, RoutinePart(source, target))(n) == []
    {
      RoutineByPhase(phase, source, target, n);
    }
    GatherEmpty(names, EntryPhase(phase, RoutinePart(source, target)));
  }

  lemma NothingAltered(phase: Phase, schema: string, n: string, from: TableSnapshot, to: TableSnapshot)
    requires !TablesIn(phase)
    ensures AlterPhase(phase, schema, n, from, to) == []
  {
    assert !ConstraintPhase(phase) && !IndexPhase(phase) && !TriggerPhase(phase) && phase != Tables;
  }

  lemma NothingCreated(phase: Phase, n: string, from: TableSnapshot)
    requires !TablesIn(phase)
    ensures CreatePhase(phase, n, from) == []
  {
    assert !IndexPhase(phase) && !TriggerPhase(phase) && phase != Tables && phase != ForeignKeys;
  }

  lemma NothingDropped(phase: Phase, n: string, to: TableSnapshot)
    requires !TablesIn(phase)
    ensures DropPhase(phase, n, to) == []
  {
    assert phase != DropForeignKeys && phase != DropTables;
  }

  lemma NoTablePhase(phase: Phase, source: SchemaSnapshot, target: SchemaSnapshot, n: string)
    requires !TablesIn(phase)
    ensures TablePhase(phase, source, target, n) == []
  {
    hide AlterPhase, CreatePhase, DropPhase, TablesIn;
    if n in source.tables && n in target.tables {
      NothingAltered(phase, target.schema, n, source.tables[n], target.tables[n]);
    } else if n in source.tables {
      NothingCreated(phase, n, source.tables[n]);
    } else if n in target.tables {
      NothingDropped(phase, n, target.tables[n]);
    }
  }

  lemma NoTables(phase: Phase, source: SchemaSnapshot, target: SchemaSnapshot)
    requires !TablesIn(phase)
    ensures TableScript(phase, source, target) == []
  {
    var names := Sorted(source.tables.Keys + target.tables.Keys);
    forall n | n in names
      ensures EntryPhase(phase, TablePart(source, target))(n) == []
    {
      TableByPhase(phase, source, target, n);
      NoTablePhase(phase, source, target, n);
    }
    GatherEmpty(names, EntryPhase(phase, TablePart(source, target)));
  }

  ghost function KindScript(phase: Phase, source: SchemaSnapshot, target: SchemaSnapshot): seq<Statement> {
    if SequencesIn(phase) then SequenceScript(phase, source, target)
    else if ViewsIn(phase) then ViewScript(phase, source, target)
    else if RoutinesIn(phase) then RoutineScript(phase, source, target)
    else TableScript(phase, source, target)
  }

  lemma OneOfFour(phase: Phase, a: seq<Statement>, b: seq<Statement>, c: seq<Statement>, d: seq<Statement>)
    requires SequencesIn(phase) || a == []
    requires TablesIn(phase) || b == []
    requires ViewsIn(phase) || c == []
    requires RoutinesIn(phase) || d == []
    ensures a + b + c + d ==
            if SequencesIn(phase) then a else if ViewsIn(phase) then c else if RoutinesIn(phase) then d else b
  {
    if SequencesIn(phase) {
      assert a + b + c + d == a;
    } else if ViewsIn(phase) {
      assert a + b + c + d == c;
    } else if RoutinesIn(phase) {
      assert a + b + c + d == d;
    } else {
      assert a + b + c + d == b;
    }
  }

  lemma OneKind(phase: Phase, source: SchemaSnapshot, target: SchemaSnapshot)
    ensures EntriesOfPhase(phase, Entries(source, target)) == KindScript(phase, source, target)
  {
    EntriesByKind(phase, source, target);
    OtherKinds(phase, source, target);
    OneOfFour(phase, SequenceScript(phase, source, target), TableScript(phase, source, target),
              ViewScript(phase, source, target), RoutineScript(phase, source, target));
  }

  lemma OtherKinds(phase: Phase, source: SchemaSnapshot, target: SchemaSnapshot)
    ensures !SequencesIn(phase) ==> SequenceScript(phase, source, target) == []
    ensures !ViewsIn(phase) ==> ViewScript(phase, source, target) == []
    ensures !RoutinesIn(phase) ==> RoutineScript(phase, source, target) == []
    ensures !TablesIn(phase) ==> TableScript(phase, source, target) == []
  {
    if !SequencesIn(phase) { NoSequences(phase, source, target); }
    if !ViewsIn(phase) { NoViews(phase, source, target); }
    if !RoutinesIn(phase) { NoRoutines(phase, source, target); }
    if !TablesIn(phase) { NoTables(phase, source, target); }
  }
}

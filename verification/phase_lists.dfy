/** The script, phase by phase: running the sorted script is running each phase's statements in turn. */
module PhaseLists {
  import opened Options
  import opened Gathering
  import opened Names
  import opened Snapshots
  import opened Statements
  import opened Diff
  import opened ScriptOrder
  import opened Database

  function PhaseOf<T>(phase: Phase, part: T -> seq<Tagged>): T -> seq<Statement> {
    x => OfPhase(phase, part(x))
  }

  function EntryPhase(phase: Phase, part: string -> seq<Entry>): string -> seq<Statement> {
    name => Gather(part(name), PhaseOf(phase, TaggedPart()))
  }

  lemma OfPhaseConcat(phase: Phase, left: seq<Tagged>, right: seq<Tagged>)
    ensures OfPhase(phase, left + right) == OfPhase(phase, left) + OfPhase(phase, right)
  {
    GatherConcat(left, right, PhaseStatements(phase));
  }

  lemma OfPhaseNone(phase: Phase)
    ensures OfPhase(phase, []) == []
  {
  }

  lemma OfPhaseGather<T>(phase: Phase, items: seq<T>, part: T -> seq<Tagged>)
    ensures OfPhase(phase, Gather(items, part)) == Gather(items, PhaseOf(phase, part))
  {
    GatherNested(items, part, PhaseStatements(phase), PhaseOf(phase, part));
  }

  // Lists of at most two statements.
  lemma OfPhaseShort(phase: Phase, tagged: seq<Tagged>)
    requires |tagged| <= 2
    ensures OfPhase(phase, tagged) ==
            (if |tagged| >= 1 && tagged[0].phase == phase then [tagged[0].statement] else []) +
            (if |tagged| == 2 && tagged[1].phase == phase then [tagged[1].statement] else [])
  {
    if |tagged| == 1 {
      GatherOne(tagged[0], PhaseStatements(phase));
      assert tagged == [tagged[0]];
    } else if |tagged| == 2 {
      GatherOne(tagged[0], PhaseStatements(phase));
      GatherOne(tagged[1], PhaseStatements(phase));
      GatherConcat([tagged[0]], [tagged[1]], PhaseStatements(phase));
      assert tagged == [tagged[0]] + [tagged[1]];
    }
  }

  lemma GatherOne<T, R>(item: T, part: T -> seq<R>)
    ensures Gather([item], part) == part(item)
  {
    assert [item][..0] == [];
  }

  lemma RunShort(pg: Reader, db: Db, script: seq<Statement>)
    requires |script| <= 2
    ensures Run(pg, db, script) ==
            if |script| == 0 then Some(db)
            else if |script| == 1 then Exec(pg, db, script[0])
            else if Exec(pg, db, script[0]).None? then None
            else Exec(pg, Exec(pg, db, script[0]).value, script[1])
  {
    if |script| == 2 {
      assert script[..1][..0] == [];
    }
  }

  ghost function Outcome(ok: bool, db: Db): Option<Db> {
    if ok then Some(db) else None
  }

  // One step of a loop: it succeeds exactly when `ok` says so, and then reaches the next state.
  ghost predicate Steps(pg: Reader, script: seq<Statement>, mid: nat -> Db, ok: nat -> bool, i: nat) {
    Run(pg, mid(i), script) == Outcome(ok(i), mid(i + 1))
  }

  function Always(): nat -> bool { (i: nat) => true }

  lemma StepNone(pg: Reader, script: seq<Statement>, mid: nat -> Db, ok: nat -> bool, i: nat)
    requires script == [] && ok(i) && mid(i + 1) == mid(i)
    ensures Steps(pg, script, mid, ok, i)
  {
  }

  lemma StepOne(pg: Reader, script: seq<Statement>, mid: nat -> Db, ok: nat -> bool, i: nat)
    requires |script| == 1 && Exec(pg, mid(i), script[0]) == Outcome(ok(i), mid(i + 1))
    ensures Steps(pg, script, mid, ok, i)
  {
    RunShort(pg, mid(i), script);
  }

  ghost predicate AllOk(ok: nat -> bool, n: nat) {
    forall i: nat :: i < n ==> ok(i)
  }

  lemma LastStep(pg: Reader, db: Db, front: seq<Statement>, last: seq<Statement>, mid: nat -> Db, ok: nat -> bool,
                 n: nat)
    requires Run(pg, db, front) == Outcome(AllOk(ok, n), mid(n))
    requires Steps(pg, last, mid, ok, n)
    ensures Run(pg, db, front + last) == Outcome(AllOk(ok, n + 1), mid(n + 1))
  {
    hide Run;
    RunConcat(pg, db, front, last);
    OneMoreOk(ok, n);
  }

  lemma OneMoreOk(ok: nat -> bool, n: nat)
    ensures AllOk(ok, n + 1) == (AllOk(ok, n) && ok(n))
  {
  }

  lemma {:induction false} RunGathered<T>(pg: Reader, items: seq<T>, part: T -> seq<Statement>, mid: nat -> Db,
                                          ok: nat -> bool)
    requires forall i: nat :: i < |items| ==> Steps(pg, part(items[i]), mid, ok, i)
    ensures Run(pg, mid(0), Gather(items, part)) == Outcome(AllOk(ok, |items|), mid(|items|))
  {
    if items != [] {
      var n := |items| - 1;
      forall i: nat | i < n
        ensures Steps(pg, part(items[..n][i]), mid, ok, i)
      {
        assert Steps(pg, part(items[i]), mid, ok, i);
      }
      RunGathered(pg, items[..n], part, mid, ok);
      LastStep(pg, mid(0), Gather(items[..n], part), part(items[n]), mid, ok, n);
    }
  }

  lemma RunLoop<T>(pg: Reader, items: seq<T>, part: T -> seq<Statement>, mid: nat -> Db, ok: nat -> bool,
                   first: Db, last: Db, all: bool)
    requires forall i: nat :: i < |items| ==> Steps(pg, part(items[i]), mid, ok, i)
    requires mid(0) == first && mid(|items|) == last && all == AllOk(ok, |items|)
    ensures Run(pg, first, Gather(items, part)) == Outcome(all, last)
  {
    RunGathered(pg, items, part, mid, ok);
  }

  lemma StepRun(pg: Reader, script: seq<Statement>, mid: nat -> Db, ok: nat -> bool, i: nat, here: Db, p: bool,
                next: Db)
    requires Run(pg, here, script) == Outcome(p, next)
    requires mid(i) == here && mid(i + 1) == next && ok(i) == p
    ensures Steps(pg, script, mid, ok, i)
  {
  }

  lemma RunThen(pg: Reader, db: Db, front: seq<Statement>, last: seq<Statement>, p: bool, mid: Db, q: bool, end: Db)
    requires Run(pg, db, front) == Outcome(p, mid)
    requires Run(pg, mid, last) == Outcome(q, end)
    ensures Run(pg, db, front + last) == Outcome(p && q, end)
  {
    RunConcat(pg, db, front, last);
  }

  /* ---- Splitting the sorted script ---- */

  function RankPart(rank: nat): Ordered -> seq<Statement> {
    (x: Ordered) => if Rank(x.phase) == rank then [x.statement] else []
  }

  // In a list ordered by rank, the statements of the later ranks come after those of the earlier ones.
  function UpTo(rank: nat, s: seq<Ordered>): seq<Statement> {
    if rank == 0 then [] else UpTo(rank - 1, s) + Gather(s, RankPart(rank - 1))
  }

  lemma {:induction false} UpToExtend(rank: nat, s: seq<Ordered>, x: Ordered)
    requires Rank(x.phase) >= rank
    ensures UpTo(rank, s + [x]) == UpTo(rank, s)
  {
    hide Rank;
    if rank > 0 {
      UpToExtend(rank - 1, s, x);
      GatherConcat(s, [x], RankPart(rank - 1));
      GatherOne(x, RankPart(rank - 1));
    }
  }

  lemma {:induction false} UpToLast(rank: nat, s: seq<Ordered>, x: Ordered)
    requires Rank(x.phase) < rank
    requires forall y <- s :: Rank(y.phase) <= Rank(x.phase)
    ensures UpTo(rank, s + [x]) == UpTo(rank, s) + [x.statement]
  {
    hide Rank;
    GatherConcat(s, [x], RankPart(rank - 1));
    GatherOne(x, RankPart(rank - 1));
    if Rank(x.phase) == rank - 1 {
      UpToExtend(rank - 1, s, x);
    } else {
      UpToLast(rank - 1, s, x);
      GatherEmpty(s, RankPart(rank - 1));
    }
  }

  function Texts(s: seq<Ordered>): seq<Statement> {
    seq(|s|, i requires 0 <= i < |s| => s[i].statement)
  }

  lemma TextsLast(s: seq<Ordered>)
    requires s != []
    ensures Texts(s) == Texts(s[..|s| - 1]) + [s[|s| - 1].statement]
  {
  }

  lemma LastRank(s: seq<Ordered>)
    requires InOrder(s) && s != []
    ensures InOrder(s[..|s| - 1])
    ensures forall y <- s[..|s| - 1] :: Rank(y.phase) <= Rank(s[|s| - 1].phase)
  {
    var n := |s| - 1;
    forall i | 0 <= i < n
      ensures Rank(s[..n][i].phase) <= Rank(s[n].phase)
    {
      assert !KeyLess(s[n], s[i]);
    }
  }

  lemma RankBound(phase: Phase)
    ensures Rank(phase) < 14
  {
  }

  lemma {:induction false} SortedByRank(s: seq<Ordered>)
    requires InOrder(s)
    ensures Texts(s) == UpTo(14, s)
  {
    hide UpTo, InOrder, Rank;
    if s == [] {
      EmptyUpTo(14);
    } else {
      var n := |s| - 1;
      LastRank(s);
      RankBound(s[n].phase);
      SortedByRank(s[..n]);
      UpToLast(14, s[..n], s[n]);
      TextsLast(s);
      assert s == s[..n] + [s[n]];
    }
  }

  lemma {:induction false} EmptyUpTo(rank: nat)
    ensures UpTo(rank, []) == []
  {
    if rank > 0 { EmptyUpTo(rank - 1); }
  }

  // Stability: sorting does not change the order inside a phase.
  lemma {:induction false} InsertKeepsRank(sorted: seq<Ordered>, x: Ordered, rank: nat)
    requires InOrder(sorted)
    requires forall y <- sorted :: y.index <= x.index
    ensures Gather(InsertStable(sorted, x), RankPart(rank)) == Gather(sorted, RankPart(rank)) + RankPart(rank)(x)
  {
    var part := RankPart(rank);
    var n := |sorted| - 1;
    if sorted != [] && KeyLess(x, sorted[n]) {
      assert sorted[n] in sorted;
      InsertKeepsRank(sorted[..n], x, rank);
      GatherConcat(InsertStable(sorted[..n], x), [sorted[n]], part);
      GatherOne(sorted[n], part);
    } else {
      GatherConcat(sorted, [x], part);
      GatherOne(x, part);
    }
  }

  ghost predicate IndexesAscend(s: seq<Ordered>) {
    forall i, j :: 0 <= i < j < |s| ==> s[i].index <= s[j].index
  }

  lemma {:induction false} SortKeepsRank(ordered: seq<Ordered>, rank: nat)
    requires IndexesAscend(ordered)
    ensures Gather(StableSort(ordered), RankPart(rank)) == Gather(ordered, RankPart(rank))
  {
    if ordered != [] {
      var n := |ordered| - 1;
      SortKeepsRank(ordered[..n], rank);
      StableSortSorts(ordered[..n]);
      forall y | y in StableSort(ordered[..n])
        ensures y.index <= ordered[n].index
      {
        assert y in multiset(StableSort(ordered[..n]));
        assert y in ordered[..n];
      }
      InsertKeepsRank(StableSort(ordered[..n]), ordered[n], rank);
    }
  }

  lemma {:induction false} OrderedEntriesAscend(entries: seq<Entry>)
    ensures IndexesAscend(OrderedEntries(entries))
    ensures forall x <- OrderedEntries(entries) :: x.index < |entries|
  {
    if entries != [] {
      OrderedEntriesAscend(entries[..|entries| - 1]);
      var front := OrderedEntries(entries[..|entries| - 1]);
      assert forall i :: 0 <= i < |front| ==> front[i] in front;
    }
  }

  lemma OrderedLast(phase: Phase, index: nat, tagged: seq<Tagged>)
    requires tagged != []
    ensures var n := |tagged| - 1;
      OrderedEntry(index, tagged) ==
        OrderedEntry(index, tagged[..n]) + [Ordered(tagged[n].phase, index, tagged[n].statement)]
  {
  }

  lemma OrderedNone(index: nat)
    ensures OrderedEntry(index, []) == []
  {
  }

  lemma SameRank(phase: Phase, index: nat, tagged: Tagged)
    ensures RankPart(Rank(phase))(Ordered(tagged.phase, index, tagged.statement)) == PhaseStatements(phase)(tagged)
  {
  }

  lemma {:induction false} OrderedEntryPhase(phase: Phase, index: nat, tagged: seq<Tagged>)
    ensures Gather(OrderedEntry(index, tagged), RankPart(Rank(phase))) == OfPhase(phase, tagged)
  {
    hide Rank, OrderedEntry;
    if tagged == [] {
      OrderedNone(index);
    } else {
      var n := |tagged| - 1;
      var last := Ordered(tagged[n].phase, index, tagged[n].statement);
      OrderedEntryPhase(phase, index, tagged[..n]);
      OrderedLast(phase, index, tagged);
      SameRank(phase, index, tagged[n]);
      GatherLast(OrderedEntry(index, tagged[..n]), last, RankPart(Rank(phase)));
      GatherLast(tagged[..n], tagged[n], PhaseStatements(phase));
      assert tagged == tagged[..n] + [tagged[n]];
    }
  }

  lemma {:induction false} OrderedEntriesPhase(phase: Phase, entries: seq<Entry>)
    ensures Gather(OrderedEntries(entries), RankPart(Rank(phase))) == Gather(entries, PhaseOf(phase, TaggedPart()))
  {
    if entries != [] {
      var n := |entries| - 1;
      OrderedEntriesPhase(phase, entries[..n]);
      OrderedEntryPhase(phase, n, entries[n].tagged);
      GatherConcat(OrderedEntries(entries[..n]), OrderedEntry(n, entries[n].tagged), RankPart(Rank(phase)));
    }
  }

  function EntriesOfPhase(phase: Phase, entries: seq<Entry>): seq<Statement> {
    Gather(entries, PhaseOf(phase, TaggedPart()))
  }

  function FirstPhases(count: nat, entries: seq<Entry>): seq<Statement>
    requires count <= PHASE_COUNT
  {
    if count == 0 then [] else FirstPhases(count - 1, entries) + EntriesOfPhase(PhaseAt(count - 1), entries)
  }

  lemma OnePhaseSorted(rank: nat, entries: seq<Entry>)
    requires rank < PHASE_COUNT
    ensures Gather(StableSort(OrderedEntries(entries)), RankPart(rank)) == EntriesOfPhase(PhaseAt(rank), entries)
  {
    OrderedEntriesAscend(entries);
    SortKeepsRank(OrderedEntries(entries), rank);
    OrderedEntriesPhase(PhaseAt(rank), entries);
  }

  lemma {:induction false} UpToPhases(count: nat, entries: seq<Entry>)
    requires count <= PHASE_COUNT
    ensures UpTo(count, StableSort(OrderedEntries(entries))) == FirstPhases(count, entries)
  {
    hide Rank, Gather, StableSort, OrderedEntries, EntriesOfPhase, PhaseAt;
    if count > 0 {
      UpToPhases(count - 1, entries);
      OnePhaseSorted(count - 1, entries);
    }
  }

  // The script is its fourteen phases, and inside a phase the objects keep their order.
  lemma ScriptByPhases(entries: seq<Entry>)
    ensures ScriptOf(entries) == FirstPhases(14, entries)
  {
    var sorted := StableSort(OrderedEntries(entries));
    StableSortSorts(OrderedEntries(entries));
    SortedByRank(sorted);
    UpToPhases(14, entries);
  }

  /* ---- The statements of one phase, by kind of object ---- */

  ghost function SequenceScript(phase: Phase, source: SchemaSnapshot, target: SchemaSnapshot): seq<Statement> {
    Gather(Sorted(source.sequences.Keys + target.sequences.Keys), EntryPhase(phase, SequencePart(source, target)))
  }

  ghost function TableScript(phase: Phase, source: SchemaSnapshot, target: SchemaSnapshot): seq<Statement> {
    Gather(Sorted(source.tables.Keys + target.tables.Keys), EntryPhase(phase, TablePart(source, target)))
  }

  ghost function ViewScript(phase: Phase, source: SchemaSnapshot, target: SchemaSnapshot): seq<Statement> {
    Gather(Sorted(source.views.Keys + target.views.Keys), EntryPhase(phase, ViewPart(source, target)))
  }

  ghost function RoutineScript(phase: Phase, source: SchemaSnapshot, target: SchemaSnapshot): seq<Statement> {
    Gather(Sorted(source.routines.Keys + target.routines.Keys), EntryPhase(phase, RoutinePart(source, target)))
  }

  lemma EntriesByKind(phase: Phase, source: SchemaSnapshot, target: SchemaSnapshot)
    ensures EntriesOfPhase(phase, Entries(source, target)) ==
      SequenceScript(phase, source, target) + TableScript(phase, source, target) +
      ViewScript(phase, source, target) + RoutineScript(phase, source, target)
  {
    var outer := PhaseOf(phase, TaggedPart());
    var a := Sorted(source.sequences.Keys + target.sequences.Keys);
    var b := Sorted(source.tables.Keys + target.tables.Keys);
    var c := Sorted(source.views.Keys + target.views.Keys);
    var d := Sorted(source.routines.Keys + target.routines.Keys);
    var (pa, pb, pc, pd) :=
      (SequencePart(source, target), TablePart(source, target), ViewPart(source, target), RoutinePart(source, target));
    GatherNested(a, pa, outer, EntryPhase(phase, pa));
    GatherNested(b, pb, outer, EntryPhase(phase, pb));
    GatherNested(c, pc, outer, EntryPhase(phase, pc));
    GatherNested(d, pd, outer, EntryPhase(phase, pd));
    GatherConcat(Gather(a, pa), Gather(b, pb), outer);
    GatherConcat(Gather(a, pa) + Gather(b, pb), Gather(c, pc), outer);
    GatherConcat(Gather(a, pa) + Gather(b, pb) + Gather(c, pc), Gather(d, pd), outer);
  }
}

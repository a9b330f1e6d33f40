/** The table editor's plan, from the first edit to the last. */
module AlterCorrect {
  import opened Options
  import opened Gathering
  import opened Text
  import opened TextCorrect
  import opened AlterPlanner
  import opened AlterPreview
  import opened AlterRun

  // What the preview lets through, as far as the plan depends on it.
  ghost predicate Checked(pg: Server, detail: TableDetail, edits: seq<ColumnEdit>) {
    Sound(pg, detail) && NamesKnown(detail, edits) && OriginalsDistinct(edits) && AllSupplied(detail, edits) &&
    ResultsDistinct(edits)
  }

  lemma FindDistinct(pg: Server, detail: TableDetail, c: DetailColumn)
    requires Sound(pg, detail) && c in detail.columns
    ensures Find(detail.columns, c.name) == Some(c)
  {
    FindKnown(detail.columns, c.name);
    var found := Find(detail.columns, c.name).value;
    var i: nat :| i < |detail.columns| && detail.columns[i] == found;
    var j: nat :| j < |detail.columns| && detail.columns[j] == c;
    assert i == j;
  }

  function Base(table: string, detail: TableDetail, edits: seq<ColumnEdit>): TableState {
    if KeyUnchanged(detail.columns, edits) then Start(table, detail) else Start(table, detail).(key := None)
  }

  function StateAt(t: TableState, edits: seq<ColumnEdit>, i: nat): TableState
    requires i <= |edits|
  {
    if i == 0 then t else After(StateAt(t, edits, i - 1), edits[i - 1])
  }

  /* ---- Half-way through the edits ---- */

  // The edits that are done have their columns.
  ghost predicate DoneColumns(edits: seq<ColumnEdit>, i: nat, t: TableState)
    requires i <= |edits|
  {
    forall j: nat :: j < i && !edits[j].removed ==>
      edits[j].name in t.columns && t.columns[edits[j].name] == WantedState(edits[j])
  }

  // The others still have theirs.
  ghost predicate WaitingColumns(detail: TableDetail, edits: seq<ColumnEdit>, i: nat, t: TableState) {
    forall k: nat :: i <= k < |edits| && edits[k].originalName.Some? ==>
      var original := edits[k].originalName.value;
      original in t.columns && Find(detail.columns, original).Some? &&
      t.columns[original] == StateOf(Find(detail.columns, original).value)
  }

  ghost predicate NoOtherColumns(edits: seq<ColumnEdit>, i: nat, t: TableState)
    requires i <= |edits|
  {
    forall n <- t.columns ::
      (exists j: nat :: j < i && !edits[j].removed && edits[j].name == n) ||
      (exists k: nat :: i <= k < |edits| && edits[k].originalName == Some(n))
  }

  ghost predicate Apart(edits: seq<ColumnEdit>, i: nat)
    requires i <= |edits|
  {
    forall j: nat, k: nat :: j < i <= k < |edits| && !edits[j].removed ==> edits[k].originalName != Some(edits[j].name)
  }

  // The first `i` columns are as wanted, the others as they were.
  ghost predicate Halfway(detail: TableDetail, edits: seq<ColumnEdit>, i: nat, t: TableState)
    requires i <= |edits|
  {
    DoneColumns(edits, i, t) && WaitingColumns(detail, edits, i, t) && NoOtherColumns(edits, i, t) && Apart(edits, i)
  }

  // The key follows its columns; `key` are the key columns before the edits.
  ghost predicate KeyHalfway(key: set<string>, edits: seq<ColumnEdit>, i: nat, t: TableState)
    requires i <= |edits|
  {
    KeyOf(t) <= t.columns.Keys &&
    (forall j: nat :: j < i && !edits[j].removed ==>
       (edits[j].name in KeyOf(t) <==> edits[j].originalName.Some? && edits[j].originalName.value in key)) &&
    (forall k: nat :: i <= k < |edits| && edits[k].originalName.Some? ==>
       (edits[k].originalName.value in KeyOf(t) <==> edits[k].originalName.value in key))
  }

  // No edit removes a key column.
  ghost predicate KeyKept(key: set<string>, edits: seq<ColumnEdit>) {
    forall e <- edits :: e.removed && e.originalName.Some? ==> e.originalName.value !in key
  }

  lemma HalfwayStart(pg: Server, table: string, detail: TableDetail, edits: seq<ColumnEdit>)
    requires Checked(pg, detail, edits)
    ensures Halfway(detail, edits, 0, Base(table, detail, edits))
  {
    var t := Base(table, detail, edits);
    forall k: nat | k < |edits| && edits[k].originalName.Some?
      ensures var original := edits[k].originalName.value;
        original in t.columns && Find(detail.columns, original).Some? &&
        t.columns[original] == StateOf(Find(detail.columns, original).value)
    {
      assert edits[k] in edits;
      FindKnown(detail.columns, edits[k].originalName.value);
    }
    forall n | n in t.columns
      ensures exists k: nat :: k < |edits| && edits[k].originalName == Some(n)
    {
      FindKnown(detail.columns, n);
      var e :| e in edits && e.originalName == Some(n);
      var k: nat :| k < |edits| && edits[k] == e;
    }
  }

  lemma ApartStep(detail: TableDetail, edits: seq<ColumnEdit>, i: nat, t: TableState)
    requires i < |edits| && WaitingColumns(detail, edits, i, t) && Apart(edits, i) && NameApplies(t, edits[i])
    requires OriginalsDistinct(edits)
    ensures Apart(edits, i + 1)
  {
    forall j: nat, k: nat | j < i + 1 <= k < |edits| && !edits[j].removed
      ensures edits[k].originalName != Some(edits[j].name)
    {
      if j == i {
        assert edits[i].originalName.Some? ==> edits[i].originalName != edits[k].originalName;
        assert edits[k].originalName.Some? ==> edits[k].originalName.value in t.columns;
      }
    }
  }

  lemma DoneStep(edits: seq<ColumnEdit>, i: nat, t: TableState)
    requires i < |edits| && DoneColumns(edits, i, t) && Apart(edits, i) && ResultsDistinct(edits)
    ensures DoneColumns(edits, i + 1, After(t, edits[i]))
  {
    forall j: nat | j < i && !edits[j].removed
      ensures var after := After(t, edits[i]);
        edits[j].name in after.columns && after.columns[edits[j].name] == WantedState(edits[j])
    {
      assert edits[i].originalName != Some(edits[j].name);
      assert !edits[i].removed ==> edits[i].name != edits[j].name;
    }
  }

  lemma WaitingStep(detail: TableDetail, edits: seq<ColumnEdit>, i: nat, t: TableState)
    requires i < |edits| && WaitingColumns(detail, edits, i, t) && Apart(edits, i + 1) && OriginalsDistinct(edits)
    ensures WaitingColumns(detail, edits, i + 1, After(t, edits[i]))
  {
    forall k: nat | i + 1 <= k < |edits| && edits[k].originalName.Some?
      ensures var original, after := edits[k].originalName.value, After(t, edits[i]);
        original in after.columns && Find(detail.columns, original).Some? &&
        after.columns[original] == StateOf(Find(detail.columns, original).value)
    {
      assert edits[i].originalName.Some? ==> edits[i].originalName != edits[k].originalName;
      assert !edits[i].removed ==> edits[k].originalName != Some(edits[i].name);
    }
  }

  lemma OthersStep(edits: seq<ColumnEdit>, i: nat, t: TableState)
    requires i < |edits| && NoOtherColumns(edits, i, t)
    ensures NoOtherColumns(edits, i + 1, After(t, edits[i]))
  {
    var edit, after := edits[i], After(t, edits[i]);
    forall n | n in after.columns
      ensures (exists j: nat :: j < i + 1 && !edits[j].removed && edits[j].name == n) ||
              (exists k: nat :: i + 1 <= k < |edits| && edits[k].originalName == Some(n))
    {
      if edit.removed || n != edit.name {
        assert n in t.columns && edit.originalName != Some(n);
        if j: nat :| j < i && !edits[j].removed && edits[j].name == n {
          assert j < i + 1;
        } else {
          var k: nat :| i <= k < |edits| && edits[k].originalName == Some(n);
          assert k != i;
        }
      }
    }
  }

  lemma HalfwayStep(detail: TableDetail, edits: seq<ColumnEdit>, i: nat, t: TableState)
    requires i < |edits| && Halfway(detail, edits, i, t) && NameApplies(t, edits[i])
    requires OriginalsDistinct(edits) && ResultsDistinct(edits)
    ensures Halfway(detail, edits, i + 1, After(t, edits[i]))
  {
    hide DoneColumns, WaitingColumns, NoOtherColumns, Apart, OriginalsDistinct, ResultsDistinct, NameApplies, After;
    ApartStep(detail, edits, i, t);
    DoneStep(edits, i, t);
    WaitingStep(detail, edits, i, t);
    OthersStep(edits, i, t);
  }

  // What an edit does to the key.
  lemma KeyAfter(t: TableState, edit: ColumnEdit)
    requires NameApplies(t, edit) && KeyOf(t) <= t.columns.Keys
    requires edit.originalName.Some? && edit.removed ==> edit.originalName.value !in KeyOf(t)
    ensures var after, original := After(t, edit), edit.originalName;
      KeyOf(after) <= after.columns.Keys &&
      KeyOf(after) ==
        if original.Some? && original.value in KeyOf(t) then KeyOf(t) - {original.value} + {edit.name} else KeyOf(t)
    ensures !edit.removed ==> edit.originalName == Some(edit.name) || edit.name !in KeyOf(t)
  {
  }

  lemma KeyStep(detail: TableDetail, key: set<string>, edits: seq<ColumnEdit>, i: nat, t: TableState)
    requires i < |edits| && Halfway(detail, edits, i, t) && KeyHalfway(key, edits, i, t) && NameApplies(t, edits[i])
    requires OriginalsDistinct(edits) && ResultsDistinct(edits) && KeyKept(key, edits)
    ensures KeyHalfway(key, edits, i + 1, After(t, edits[i]))
  {
    var edit, after := edits[i], After(t, edits[i]);
    assert edit in edits;
    KeyAfter(t, edit);
    ApartStep(detail, edits, i, t);
    hide After, NameApplies, DoneColumns, WaitingColumns, NoOtherColumns;
    KeyDone(key, edits, i, t, after);
    KeyWaiting(key, edits, i, t, after);
  }

  // The key after the edit `i`, by what it was before.
  ghost predicate KeyMoved(t: TableState, edit: ColumnEdit, after: TableState) {
    KeyOf(after) ==
    if edit.originalName.Some? && edit.originalName.value in KeyOf(t) then
      KeyOf(t) - {edit.originalName.value} + {edit.name}
    else KeyOf(t)
  }

  lemma KeyDone(key: set<string>, edits: seq<ColumnEdit>, i: nat, t: TableState, after: TableState)
    requires i < |edits| && KeyHalfway(key, edits, i, t) && KeyMoved(t, edits[i], after) && Apart(edits, i)
    requires !edits[i].removed ==> edits[i].originalName == Some(edits[i].name) || edits[i].name !in KeyOf(t)
    requires ResultsDistinct(edits) && KeyKept(key, edits)
    ensures forall j: nat :: j < i + 1 && !edits[j].removed ==>
      (edits[j].name in KeyOf(after) <==> edits[j].originalName.Some? && edits[j].originalName.value in key)
  {
    forall j: nat | j < i + 1 && !edits[j].removed
      ensures edits[j].name in KeyOf(after) <==> edits[j].originalName.Some? && edits[j].originalName.value in key
    {
      if j < i {
        assert edits[i].originalName != Some(edits[j].name);
        assert edits[i].removed && edits[i].originalName.Some? ==> edits[i].originalName.value !in key;
        assert !edits[i].removed ==> edits[j].name != edits[i].name;
      }
    }
  }

  lemma KeyWaiting(key: set<string>, edits: seq<ColumnEdit>, i: nat, t: TableState, after: TableState)
    requires i < |edits| && KeyHalfway(key, edits, i, t) && KeyMoved(t, edits[i], after) && Apart(edits, i + 1)
    requires OriginalsDistinct(edits) && KeyKept(key, edits)
    ensures forall k: nat :: i + 1 <= k < |edits| && edits[k].originalName.Some? ==>
      (edits[k].originalName.value in KeyOf(after) <==> edits[k].originalName.value in key)
  {
    forall k: nat | i + 1 <= k < |edits| && edits[k].originalName.Some?
      ensures edits[k].originalName.value in KeyOf(after) <==> edits[k].originalName.value in key
    {
      assert edits[i].originalName.Some? ==> edits[i].originalName != edits[k].originalName;
      assert edits[i].removed && edits[i].originalName.Some? ==> edits[i].originalName.value !in key;
      assert !edits[i].removed ==> edits[k].originalName != Some(edits[i].name);
    }
  }

  /* ---- Which edits PostgreSQL accepts ---- */

  ghost predicate FreshAt(edits: seq<ColumnEdit>, i: nat)
    requires i < |edits|
  {
    forall k: nat :: i < k < |edits| ==> edits[k].originalName != Some(edits[i].name)
  }

  function TypeAt(detail: TableDetail, edits: seq<ColumnEdit>, i: nat, j: nat): string
    requires j < |edits|
  {
    if j < i || edits[j].originalName.None? then edits[j].dataType
    else
      var current := Find(detail.columns, edits[j].originalName.value);
      if current.None? then "" else current.value.fullType
  }

  // The columns that were there, with their types, after the first `i` edits.
  function TypedAt(detail: TableDetail, edits: seq<ColumnEdit>, i: nat): set<(string, string)> {
    set j | 0 <= j < |edits| && edits[j].originalName.Some? && (j < i ==> !edits[j].removed) ::
      (edits[j].originalName.value, TypeAt(detail, edits, i, j))
  }

  // What depends on the columns makes sense after each edit that drops or retypes one.
  ghost predicate Fitting(pg: Server, detail: TableDetail, edits: seq<ColumnEdit>, i: nat)
    requires i < |edits|
  {
    edits[i].originalName.Some? && (edits[i].removed || TypeAt(detail, edits, i, i) != edits[i].dataType) ==>
      pg.fits(TypedAt(detail, edits, i + 1))
  }

  // What an edit asks for, apart from names other columns have and from what depends on the columns.
  predicate Allowed(pg: Server, detail: TableDetail, edit: ColumnEdit, inKey: bool) {
    NameAllowed(pg, edit) &&
    if edit.originalName.None? then pg.definable(edit.dataType, DefaultText(edit.default))
    else
      var current := Find(detail.columns, edit.originalName.value);
      current.Some? ==> ColumnApplies(pg, StateOf(current.value), edit, inKey)
  }

  function InKey(edit: ColumnEdit, key: set<string>): bool { edit.originalName.Some? && edit.originalName.value in key }

  ghost predicate Good(pg: Server, detail: TableDetail, key: set<string>, edits: seq<ColumnEdit>, i: nat)
    requires i < |edits|
  {
    Fitting(pg, detail, edits, i) &&
    (!edits[i].removed ==> FreshAt(edits, i) && Allowed(pg, detail, edits[i], InKey(edits[i], key)))
  }

  ghost predicate GoodUpTo(pg: Server, detail: TableDetail, key: set<string>, edits: seq<ColumnEdit>, i: nat)
    requires i <= |edits|
  {
    forall j: nat :: j < i ==> Good(pg, detail, key, edits, j)
  }

  lemma NameTaken(detail: TableDetail, edits: seq<ColumnEdit>, i: nat, t: TableState)
    requires i < |edits| && Halfway(detail, edits, i, t) && !edits[i].removed
    requires OriginalsDistinct(edits) && ResultsDistinct(edits)
    ensures FreshAt(edits, i) <==> edits[i].originalName == Some(edits[i].name) || edits[i].name !in t.columns
  {
    if edits[i].name in t.columns && edits[i].originalName != Some(edits[i].name) {
      var k: nat :| i <= k < |edits| && edits[k].originalName == Some(edits[i].name);
      assert i < k;
    }
  }

  // Half-way, the types are known.
  lemma TypedHalfway(detail: TableDetail, edits: seq<ColumnEdit>, i: nat, t: TableState)
    requires i <= |edits| && Halfway(detail, edits, i, t)
    ensures Typed(t.columns) == TypedAt(detail, edits, i)
  {
    hide Find;
    forall p | p in Typed(t.columns)
      ensures p in TypedAt(detail, edits, i)
    {
      var n :| n in t.columns && t.columns[n].origin.Some? && p == (t.columns[n].origin.value, t.columns[n].dataType);
      if j: nat :| j < i && !edits[j].removed && edits[j].name == n {
        assert t.columns[n] == WantedState(edits[j]);
      } else {
        var k: nat :| i <= k < |edits| && edits[k].originalName == Some(n);
        FindKnown(detail.columns, n);
      }
    }
    forall p | p in TypedAt(detail, edits, i)
      ensures p in Typed(t.columns)
    {
      var j :| 0 <= j < |edits| && edits[j].originalName.Some? && (j < i ==> !edits[j].removed) &&
               p == (edits[j].originalName.value, TypeAt(detail, edits, i, j));
      if j < i {
        assert t.columns[edits[j].name] == WantedState(edits[j]);
      } else {
        FindKnown(detail.columns, edits[j].originalName.value);
        assert t.columns[edits[j].originalName.value].origin == edits[j].originalName;
      }
    }
  }

  lemma FitsMeans(pg: Server, detail: TableDetail, edits: seq<ColumnEdit>, i: nat, t: TableState)
    requires i < |edits| && Halfway(detail, edits, i, t) && NameApplies(t, edits[i])
    requires OriginalsDistinct(edits) && ResultsDistinct(edits)
    ensures FitsAfter(pg, t, edits[i]) <==> Fitting(pg, detail, edits, i)
  {
    hide Typed, TypedAt, After, NameApplies, Apart, NoOtherColumns, DoneColumns, OriginalsDistinct, ResultsDistinct;
    HalfwayStep(detail, edits, i, t);
    TypedHalfway(detail, edits, i + 1, After(t, edits[i]));
  }

  lemma AppliesMeans(pg: Server, detail: TableDetail, key: set<string>, edits: seq<ColumnEdit>, i: nat, t: TableState)
    requires i < |edits| && Halfway(detail, edits, i, t) && KeyHalfway(key, edits, i, t)
    requires OriginalsDistinct(edits) && ResultsDistinct(edits)
    ensures Applies(pg, t, edits[i]) <==> Good(pg, detail, key, edits, i)
    ensures Good(pg, detail, key, edits, i) ==> NameApplies(t, edits[i])
  {
    hide ColumnApplies, FitsAfter, Fitting, FreshAt, DoneColumns, NoOtherColumns, Apart;
    if !edits[i].removed {
      NameTaken(detail, edits, i, t);
    }
    if NameApplies(t, edits[i]) {
      FitsMeans(pg, detail, edits, i, t);
    }
  }

  // The edits so far run exactly when each is good, and leave the table half-way.
  lemma {:induction false} Through(pg: Server, detail: TableDetail, key: set<string>, t: TableState,
                                   edits: seq<ColumnEdit>, i: nat)
    requires i <= |edits| && OriginalsDistinct(edits) && ResultsDistinct(edits) &&
      KeyKept(key, edits)
    requires Halfway(detail, edits, 0, t) && KeyHalfway(key, edits, 0, t)
    ensures Run(pg, t, Gather(edits[..i], EditPart(detail.columns))) ==
            Outcome(GoodUpTo(pg, detail, key, edits, i), StateAt(t, edits, i))
    ensures GoodUpTo(pg, detail, key, edits, i) ==> Halfway(detail, edits, i, StateAt(t, edits, i))
    ensures GoodUpTo(pg, detail, key, edits, i) ==> KeyHalfway(key, edits, i, StateAt(t, edits, i))
  {
    hide Run, EditStatements, Halfway, KeyHalfway, After, Good;
    if i == 0 {
      NothingRun(pg, t, detail.columns);
      assert edits[..0] == [];
    } else {
      Through(pg, detail, key, t, edits, i - 1);
      GatherStep(edits, i - 1, EditPart(detail.columns));
      var before := StateAt(t, edits, i - 1);
      RunConcat(pg, t, Gather(edits[..i - 1], EditPart(detail.columns)),
                EditStatements(detail.columns, edits[i - 1]));
      assert GoodUpTo(pg, detail, key, edits, i) <==>
        GoodUpTo(pg, detail, key, edits, i - 1) && Good(pg, detail, key, edits, i - 1);
      if GoodUpTo(pg, detail, key, edits, i - 1) {
        StepRun(pg, detail, key, before, edits, i - 1);
      }
    }
  }

  lemma NothingRun(pg: Server, t: TableState, columns: seq<DetailColumn>)
    ensures Run(pg, t, Gather([], EditPart(columns))) == Some(t)
  {
  }

  lemma StepRun(pg: Server, detail: TableDetail, key: set<string>, t: TableState, edits: seq<ColumnEdit>,
                i: nat)
    requires i < |edits| && Halfway(detail, edits, i, t) && KeyHalfway(key, edits, i, t)
    requires OriginalsDistinct(edits) && ResultsDistinct(edits) && KeyKept(key, edits)
    ensures Run(pg, t, EditStatements(detail.columns, edits[i])) ==
      Outcome(Good(pg, detail, key, edits, i), After(t, edits[i]))
    ensures Good(pg, detail, key, edits, i) ==>
      Halfway(detail, edits, i + 1, After(t, edits[i])) && KeyHalfway(key, edits, i + 1, After(t, edits[i]))
  {
    hide Run, EditStatements, After, Good, Applies, NameApplies;
    AppliesMeans(pg, detail, key, edits, i, t);
    EditRun(pg, t, detail.columns, edits[i]);
    if Good(pg, detail, key, edits, i) {
      HalfwayStep(detail, edits, i, t);
      KeyStep(detail, key, edits, i, t);
    }
  }

  /* ---- The primary key ---- */

  lemma KeyMembers(columns: seq<DetailColumn>, edits: seq<ColumnEdit>)
    ensures forall n :: n in OriginalKey(columns) <==> exists c <- columns :: c.primaryKey && c.name == n
    ensures forall n :: n in EditedKey(edits) <==> exists e <- edits :: e.primaryKey && !e.removed && e.name == n
  {
    forall n
      ensures n in OriginalKey(columns) <==> exists c <- columns :: c.primaryKey && c.name == n
      ensures n in EditedKey(edits) <==> exists e <- edits :: e.primaryKey && !e.removed && e.name == n
    {
      GatherMember(columns, KeyColumn(), n);
      GatherMember(edits, KeyEdit(), n);
    }
  }

  lemma SameEdit(edits: seq<ColumnEdit>, a: ColumnEdit, b: ColumnEdit)
    requires a in edits && b in edits && OriginalsDistinct(edits) && ResultsDistinct(edits)
    requires (a.originalName.Some? && a.originalName == b.originalName) ||
      (!a.removed && !b.removed && a.name == b.name)
    ensures a == b
  {
    var i: nat :| i < |edits| && edits[i] == a;
    var j: nat :| j < |edits| && edits[j] == b;
    if i < j {
      assert edits[i].originalName.Some? ==> edits[i].originalName != edits[j].originalName;
    }
  }

  // With the key unchanged, the edited key columns are the original ones under their edited names.
  lemma KeyMatches(columns: seq<DetailColumn>, edits: seq<ColumnEdit>, e: ColumnEdit)
    requires KeyUnchanged(columns, edits) && OriginalsDistinct(edits) && ResultsDistinct(edits) && e in edits
    ensures e.originalName.Some? && e.originalName.value in OriginalKey(columns) <==> e.primaryKey && !e.removed
  {
    var original, edited := OriginalKey(columns), EditedKey(edits);
    KeyMembers(columns, edits);
    if e.originalName.Some? && e.originalName.value in original {
      var i: nat :| i < |original| && original[i] == e.originalName.value;
      var carrier :| carrier in edits && carrier.originalName == Some(original[i]) && carrier.name == edited[i] &&
        !carrier.removed;
      SameEdit(edits, carrier, e);
      assert edited[i] in edited;
      var m :| m in edits && m.primaryKey && !m.removed && m.name == edited[i];
      SameEdit(edits, m, e);
    }
    if e.primaryKey && !e.removed {
      assert e.name in edited;
      var i: nat :| i < |edited| && edited[i] == e.name;
      var carrier :| carrier in edits && carrier.originalName == Some(original[i]) && carrier.name == edited[i] &&
        !carrier.removed;
      SameEdit(edits, carrier, e);
    }
  }

  lemma BaseKeyColumns(pg: Server, table: string, detail: TableDetail, edits: seq<ColumnEdit>)
    requires Sound(pg, detail)
    ensures KeyOf(Base(table, detail, edits)) ==
            if KeyUnchanged(detail.columns, edits) then set n <- OriginalKey(detail.columns) else {}
    ensures Base(table, detail, edits).columns == CurrentColumns(detail.columns)
  {
  }

  lemma BaseKeyKept(pg: Server, detail: TableDetail, edits: seq<ColumnEdit>)
    requires Checked(pg, detail, edits) && KeyUnchanged(detail.columns, edits)
    ensures KeyKept((set n <- OriginalKey(detail.columns)), edits)
  {
    hide KeyUnchanged;
    forall e | e in edits && e.removed && e.originalName.Some?
      ensures e.originalName.value !in OriginalKey(detail.columns)
    {
      KeyMatches(detail.columns, edits, e);
    }
  }

  lemma OriginalKeySound(pg: Server, detail: TableDetail, edits: seq<ColumnEdit>, n: string)
    requires Sound(pg, detail) && n in OriginalKey(detail.columns)
    ensures n in CurrentColumns(detail.columns)
  {
    KeyMembers(detail.columns, edits);
    var c :| c in detail.columns && c.primaryKey && c.name == n;
    FindDistinct(pg, detail, c);
  }

  lemma BaseKey(pg: Server, table: string, detail: TableDetail, edits: seq<ColumnEdit>)
    requires Checked(pg, detail, edits)
    ensures var base := Base(table, detail, edits);
      KeyKept(KeyOf(base), edits) && KeyHalfway(KeyOf(base), edits, 0, base)
  {
    hide Base, KeyUnchanged, OriginalKey, KeyOf, CurrentColumns, NamesKnown, OriginalsDistinct, AllSupplied,
      ResultsDistinct, Sound;
    BaseKeyColumns(pg, table, detail, edits);
    if KeyUnchanged(detail.columns, edits) {
      BaseKeyKept(pg, detail, edits);
      forall n | n in OriginalKey(detail.columns)
        ensures n in CurrentColumns(detail.columns)
      {
        OriginalKeySound(pg, detail, edits, n);
      }
    }
  }

  /* ---- The whole plan ---- */

  // Nothing rests on a key that is dropped.
  predicate KeyMayGo(pg: Server, detail: TableDetail, edits: seq<ColumnEdit>) {
    KeyUnchanged(detail.columns, edits) || detail.keyConstraint.None? || pg.keyFree
  }

  lemma DropKeyRun(pg: Server, table: string, detail: TableDetail, edits: seq<ColumnEdit>)
    requires Sound(pg, detail)
    ensures Run(pg, Start(table, detail), DropKeyStatements(detail, edits)) ==
            Outcome(KeyMayGo(pg, detail, edits), Base(table, detail, edits))
  {
    RunOptional(pg, Start(table, detail), DropKeyStatements(detail, edits), KeyMayGo(pg, detail, edits),
                Base(table, detail, edits));
  }

  // The table after the edits, with its key.
  function Keyed(detail: TableDetail, edits: seq<ColumnEdit>, t: TableState): TableState {
    if AddKeyStatements(detail, edits) == [] then t
    else t.(columns := NotNull(t.columns, EditedKey(edits)), key := Some(Key(None, set n <- EditedKey(edits))))
  }

  ghost predicate KeyTypes(pg: Server, edits: seq<ColumnEdit>) {
    forall e <- edits :: e.primaryKey && !e.removed ==> pg.keyable(e.dataType)
  }

  lemma KeyColumnsThere(pg: Server, detail: TableDetail, edits: seq<ColumnEdit>, t: TableState)
    requires Halfway(detail, edits, |edits|, t)
    ensures forall n <- EditedKey(edits) :: n in t.columns
    ensures (forall n <- EditedKey(edits) :: n in t.columns && pg.keyable(t.columns[n].dataType)) <==>
      KeyTypes(pg, edits)
  {
    KeyMembers(detail.columns, edits);
    forall e | e in edits && e.primaryKey && !e.removed
      ensures e.name in EditedKey(edits) && e.name in t.columns && t.columns[e.name].dataType == e.dataType
    {
      var j: nat :| j < |edits| && edits[j] == e;
    }
    forall n | n in EditedKey(edits)
      ensures exists e <- edits :: e.primaryKey && !e.removed && e.name == n
    {
    }
  }

  lemma AddKeyRun(pg: Server, detail: TableDetail, edits: seq<ColumnEdit>, t: TableState)
    requires Halfway(detail, edits, |edits|, t) && (!KeyUnchanged(detail.columns, edits) ==> t.key.None?)
    ensures Run(pg, t, AddKeyStatements(detail, edits)) ==
            Outcome(KeyUnchanged(detail.columns, edits) || KeyTypes(pg, edits), Keyed(detail, edits, t))
  {
    hide Halfway, KeyUnchanged, EditedKey;
    KeyColumnsThere(pg, detail, edits, t);
    if EditedKey(edits) == [] {
      NoKeyTypes(pg, detail, edits);
    }
    RunOptional(pg, t, AddKeyStatements(detail, edits), KeyUnchanged(detail.columns, edits) || KeyTypes(pg, edits),
                Keyed(detail, edits, t));
  }

  lemma NoKeyTypes(pg: Server, detail: TableDetail, edits: seq<ColumnEdit>)
    requires EditedKey(edits) == []
    ensures KeyTypes(pg, edits)
  {
    KeyMembers(detail.columns, edits);
    forall e | e in edits
      ensures !(e.primaryKey && !e.removed)
    {
      assert e.name !in EditedKey(edits);
    }
  }

  lemma {:induction false} KeyStaysNone(t: TableState, edits: seq<ColumnEdit>, i: nat)
    requires i <= |edits| && t.key.None?
    ensures StateAt(t, edits, i).key.None?
  {
    if i > 0 {
      KeyStaysNone(t, edits, i - 1);
    }
  }

  lemma {:induction false} NameStays(t: TableState, edits: seq<ColumnEdit>, i: nat)
    requires i <= |edits|
    ensures StateAt(t, edits, i).name == t.name
  {
    if i > 0 {
      NameStays(t, edits, i - 1);
    }
  }

  // The columns and the key, but not yet the name.
  ghost predicate Shaped(edits: seq<ColumnEdit>, t: TableState) {
    (forall e <- edits :: !e.removed ==> e.name in t.columns && t.columns[e.name] == WantedState(e)) &&
    (forall n <- t.columns :: exists e <- edits :: !e.removed && e.name == n) &&
    KeyOf(t) == set n <- EditedKey(edits)
  }

  lemma HalfwayColumns(detail: TableDetail, edits: seq<ColumnEdit>, t: TableState)
    requires Halfway(detail, edits, |edits|, t)
    ensures forall e <- edits :: !e.removed ==> e.name in t.columns && t.columns[e.name] == WantedState(e)
    ensures forall n <- t.columns :: exists e <- edits :: !e.removed && e.name == n
  {
    forall e | e in edits && !e.removed
      ensures e.name in t.columns && t.columns[e.name] == WantedState(e)
    {
      var j: nat :| j < |edits| && edits[j] == e;
    }
    forall n | n in t.columns
      ensures exists e <- edits :: !e.removed && e.name == n
    {
      var j: nat :| j < |edits| && !edits[j].removed && edits[j].name == n;
      assert edits[j] in edits;
    }
  }

  lemma KeyUnchangedShape(pg: Server, detail: TableDetail, edits: seq<ColumnEdit>, key: set<string>, t: TableState)
    requires Halfway(detail, edits, |edits|, t) && KeyHalfway(key, edits, |edits|, t) && Checked(pg, detail, edits)
    requires KeyUnchanged(detail.columns, edits) && key == set n <- OriginalKey(detail.columns)
    ensures Shaped(edits, Keyed(detail, edits, t))
  {
    HalfwayColumns(detail, edits, t);
    KeyMembers(detail.columns, edits);
    forall n
      ensures n in KeyOf(t) <==> n in EditedKey(edits)
    {
      forall e | e in edits && !e.removed
        ensures e.name in KeyOf(t) <==> e.primaryKey
      {
        var j: nat :| j < |edits| && edits[j] == e;
        KeyMatches(detail.columns, edits, e);
      }
    }
  }

  lemma KeyChangedShape(detail: TableDetail, edits: seq<ColumnEdit>, t: TableState)
    requires Halfway(detail, edits, |edits|, t) && t.key.None? && !KeyUnchanged(detail.columns, edits)
    requires ResultsDistinct(edits) && OriginalsDistinct(edits)
    ensures Shaped(edits, Keyed(detail, edits, t)) <==> KeyNotNull(edits)
  {
    hide Halfway, KeyUnchanged, EditedKey, OriginalsDistinct, ResultsDistinct;
    HalfwayColumns(detail, edits, t);
    var after := Keyed(detail, edits, t);
    assert after.columns.Keys == t.columns.Keys;
    forall e | e in edits
      ensures e.primaryKey && !e.removed ==> e.name in EditedKey(edits)
      ensures !e.removed && e.name in EditedKey(edits) ==> e.primaryKey
    {
      InEditedKey(detail, edits, e);
    }
    if EditedKey(edits) != [] {
      forall e | e in edits && !e.removed
        ensures after.columns[e.name] == WantedState(e) <==> (e.primaryKey ==> !e.nullable)
      {
      }
    }
  }

  lemma InEditedKey(detail: TableDetail, edits: seq<ColumnEdit>, e: ColumnEdit)
    requires ResultsDistinct(edits) && OriginalsDistinct(edits) && e in edits
    ensures e.primaryKey && !e.removed ==> e.name in EditedKey(edits)
    ensures !e.removed && e.name in EditedKey(edits) ==> e.primaryKey
  {
    hide EditedKey, OriginalsDistinct, ResultsDistinct;
    KeyMembers(detail.columns, edits);
    if !e.removed && e.name in EditedKey(edits) {
      var m :| m in edits && m.primaryKey && !m.removed && m.name == e.name;
      SameEdit(edits, m, e);
    }
  }

  // What the edits ask of PostgreSQL, whatever becomes of the key.
  ghost predicate EditsAllowed(pg: Server, detail: TableDetail, edits: seq<ColumnEdit>) {
    forall e <- edits :: !e.removed ==> Allowed(pg, detail, e, false)
  }

  ghost predicate FitsThroughout(pg: Server, detail: TableDetail, edits: seq<ColumnEdit>) {
    forall i: nat :: i < |edits| ==> Fitting(pg, detail, edits, i)
  }

  // A column in the key may not become nullable, nor get a type no key may have.
  lemma AllowedInKey(pg: Server, detail: TableDetail, edits: seq<ColumnEdit>, e: ColumnEdit)
    requires Checked(pg, detail, edits) && e in edits && e.originalName.Some?
    requires e.originalName.value in OriginalKey(detail.columns)
    ensures Allowed(pg, detail, e, true) <==> Allowed(pg, detail, e, false) && !e.nullable && pg.keyable(e.dataType)
  {
    hide ColumnApplies, OriginalKey, NamesKnown, OriginalsDistinct, AllSupplied, ResultsDistinct, Find;
    KeyMembers(detail.columns, edits);
    var c :| c in detail.columns && c.primaryKey && c.name == e.originalName.value;
    FindDistinct(pg, detail, c);
    AppliesInKey(pg, StateOf(c), e);
  }

  lemma AppliesInKey(pg: Server, c: ColumnState, edit: ColumnEdit)
    requires !c.nullable && pg.keyable(c.dataType)
    ensures ColumnApplies(pg, c, edit, true) <==>
            ColumnApplies(pg, c, edit, false) && !edit.nullable && pg.keyable(edit.dataType)
  {
  }

  // What decides whether one edit is good.
  lemma OneGood(pg: Server, detail: TableDetail, edits: seq<ColumnEdit>, table: string, i: nat)
    requires Checked(pg, detail, edits) && i < |edits|
    ensures var e, key := edits[i], KeyOf(Base(table, detail, edits));
      Good(pg, detail, key, edits, i) <==>
      Fitting(pg, detail, edits, i) && (!e.removed ==>
        FreshAt(edits, i) && Allowed(pg, detail, e, false) &&
        (KeyUnchanged(detail.columns, edits) && e.primaryKey ==> !e.nullable && pg.keyable(e.dataType)))
  {
    hide Fitting, FreshAt, Allowed, KeyUnchanged, Base, NamesKnown, AllSupplied, Sound, OriginalKey;
    var e := edits[i];
    BaseKeyColumns(pg, table, detail, edits);
    if !e.removed && KeyUnchanged(detail.columns, edits) {
      KeyMatches(detail.columns, edits, e);
      if e.primaryKey {
        AllowedInKey(pg, detail, edits, e);
      }
    }
  }

  // What decides whether all edits run.
  lemma GoodMeans(pg: Server, detail: TableDetail, edits: seq<ColumnEdit>, table: string)
    requires Checked(pg, detail, edits)
    ensures var key := KeyOf(Base(table, detail, edits));
      GoodUpTo(pg, detail, key, edits, |edits|) <==>
      Fresh(edits) && EditsAllowed(pg, detail, edits) && FitsThroughout(pg, detail, edits) &&
      (KeyUnchanged(detail.columns, edits) ==> KeyNotNull(edits) && KeyTypes(pg, edits))
  {
    hide Fitting, Allowed, KeyUnchanged, Base, Good, Checked;
    var key := KeyOf(Base(table, detail, edits));
    forall i: nat | i < |edits|
      ensures var e := edits[i];
        Good(pg, detail, key, edits, i) <==>
        Fitting(pg, detail, edits, i) && (!e.removed ==>
          FreshAt(edits, i) && Allowed(pg, detail, e, false) &&
          (KeyUnchanged(detail.columns, edits) && e.primaryKey ==> !e.nullable && pg.keyable(e.dataType)))
    {
      OneGood(pg, detail, edits, table, i);
    }
    if GoodUpTo(pg, detail, key, edits, |edits|) {
      forall e | e in edits && !e.removed
        ensures Allowed(pg, detail, e, false)
        ensures KeyUnchanged(detail.columns, edits) && e.primaryKey ==> !e.nullable && pg.keyable(e.dataType)
      {
        var i: nat :| i < |edits| && edits[i] == e;
        assert Good(pg, detail, key, edits, i);
      }
      forall i: nat | i < |edits| && !edits[i].removed
        ensures FreshAt(edits, i)
      {
        assert Good(pg, detail, key, edits, i);
      }
    } else {
      var i: nat :| i < |edits| && !Good(pg, detail, key, edits, i);
      assert edits[i] in edits;
    }
  }

  // The edits and the key together.
  lemma ShapeRun(pg: Server, table: string, detail: TableDetail, edits: seq<ColumnEdit>)
    requires Checked(pg, detail, edits)
    ensures var base := Base(table, detail, edits); var end := Keyed(detail, edits, StateAt(base, edits, |edits|));
      var script := Gather(edits, EditPart(detail.columns)) + AddKeyStatements(detail, edits);
      Run(pg, base, script) == Outcome(Runs(pg, table, detail, edits), end) && end.name == table
    ensures var base := Base(table, detail, edits); var end := Keyed(detail, edits, StateAt(base, edits, |edits|));
      Runs(pg, table, detail, edits) && Shaped(edits, end) <==>
      Fresh(edits) && KeyNotNull(edits) && KeyTypes(pg, edits) && EditsAllowed(pg, detail, edits) &&
      FitsThroughout(pg, detail, edits)
  {
    hide Run, EditPart, EditStatements, Halfway, KeyHalfway, After, Good, GoodUpTo, Shaped, Fresh, KeyNotNull,
      KeyUnchanged, Sound, NamesKnown, OriginalsDistinct, AllSupplied, ResultsDistinct, KeyKept, AddKeyStatements,
      Gather, KeyTypes, EditsAllowed, FitsThroughout;
    var base, n := Base(table, detail, edits), |edits|;
    var key, end := KeyOf(base), StateAt(base, edits, n);
    HalfwayStart(pg, table, detail, edits);
    BaseKey(pg, table, detail, edits);
    Through(pg, detail, key, base, edits, n);
    assert edits[..n] == edits;
    NameStays(base, edits, n);
    GoodMeans(pg, detail, edits, table);
    if !KeyUnchanged(detail.columns, edits) {
      KeyStaysNone(base, edits, n);
    }
    var addable := KeyUnchanged(detail.columns, edits) || KeyTypes(pg, edits);
    if GoodUpTo(pg, detail, key, edits, n) {
      AddKeyRun(pg, detail, edits, end);
      if KeyUnchanged(detail.columns, edits) {
        StartKey(pg, table, detail);
        KeyUnchangedShape(pg, detail, edits, key, end);
      } else {
        KeyChangedShape(detail, edits, end);
      }
    }
    RunThen(pg, base, Gather(edits, EditPart(detail.columns)), GoodUpTo(pg, detail, key, edits, n), end,
            AddKeyStatements(detail, edits), addable, Keyed(detail, edits, end));
  }

  // The edits run, and so does the new key.
  ghost predicate Runs(pg: Server, table: string, detail: TableDetail, edits: seq<ColumnEdit>) {
    GoodUpTo(pg, detail, KeyOf(Base(table, detail, edits)), edits, |edits|) &&
    (KeyUnchanged(detail.columns, edits) || KeyTypes(pg, edits))
  }

  lemma StartKey(pg: Server, table: string, detail: TableDetail)
    requires Sound(pg, detail)
    ensures KeyOf(Start(table, detail)) == set n <- OriginalKey(detail.columns)
  {
  }

  // When the plan does what the form asks for: no column takes a name a later edit still holds, no key column is
  // nullable or of a type that may not be in a key, a key that goes is free, what the edits ask for can be had, what
  // depends on the columns makes sense all along, and the table's new name is free.
  ghost predicate PlanApplies(pg: Server, table: string, newName: string, detail: TableDetail, edits: seq<ColumnEdit>) {
    Fresh(edits) && KeyNotNull(edits) && KeyTypes(pg, edits) && KeyMayGo(pg, detail, edits) &&
    EditsAllowed(pg, detail, edits) && FitsThroughout(pg, detail, edits) && NameFree(pg, table, newName)
  }

  // For every form the preview accepts, the plan leaves exactly the table the form asks for if and only if it applies.
  lemma PlanCorrect(check: Validators, pg: Server, table: string, newName: string, detail: TableDetail,
                    edits: seq<ColumnEdit>)
    requires Sound(pg, detail) && Accepted(check, detail, newName, edits)
    ensures var after := Run(pg, Start(table, detail), Plan(table, newName, detail, edits));
      after.Some? && IsWanted(newName, edits, after.value) <==> PlanApplies(pg, table, newName, detail, edits)
  {
    hide Run, EditPart, EditStatements, Runs, Fresh, KeyNotNull, KeyUnchanged, Keyed, StateAt, Gather, Base,
      DropKeyStatements, AddKeyStatements, KeyTypes, EditsAllowed, FitsThroughout, KeyMayGo, Sound;
    var start, base := Start(table, detail), Base(table, detail, edits);
    var end := Keyed(detail, edits, StateAt(base, edits, |edits|));
    var script := Gather(edits, EditPart(detail.columns)) + AddKeyStatements(detail, edits);
    var p, q := KeyMayGo(pg, detail, edits), Runs(pg, table, detail, edits);
    DropKeyRun(pg, table, detail, edits);
    ShapeRun(pg, table, detail, edits);
    RunThen(pg, start, DropKeyStatements(detail, edits), p, base, script, q, end);
    RunOptional(pg, end, RenameTableStatements(table, newName), NameFree(pg, table, newName),
                end.(name := Trim(newName)));
    RunThen(pg, start, DropKeyStatements(detail, edits) + script, p && q, end,
            RenameTableStatements(table, newName), NameFree(pg, table, newName), end.(name := Trim(newName)));
    assert DropKeyStatements(detail, edits) + script + RenameTableStatements(table, newName) ==
           Plan(table, newName, detail, edits);
    WantedMeans(newName, edits, end.(name := Trim(newName)));
  }

  lemma WantedMeans(newName: string, edits: seq<ColumnEdit>, t: TableState)
    ensures IsWanted(newName, edits, t) <==> t.name == Trim(newName) && Shaped(edits, t)
  {
    hide EditedKey, WantedState, Trims, AsAsked;
    TrimsOne(newName, t.name);
    KeyMembers([], edits);
    forall e | e in edits && e.name in t.columns
      ensures AsAsked(e, t.columns[e.name]) <==> t.columns[e.name] == WantedState(e)
    {
      AskedOne(e, t.columns[e.name]);
    }
  }

  /* ---- When the key is replaced ---- */

  function Filter<T>(items: seq<T>, keep: T -> bool): seq<T> {
    if items == [] then []
    else
      var front, last := Filter(items[..|items| - 1], keep), items[|items| - 1];
      if keep(last) then front + [last] else front
  }

  function InOldKey(): DetailColumn -> bool { (c: DetailColumn) => c.primaryKey }

  function InNewKey(): ColumnEdit -> bool { (e: ColumnEdit) => e.primaryKey && !e.removed }

  // The same columns in the same order, whatever they are called now.
  predicate SameKey(detail: TableDetail, edits: seq<ColumnEdit>) {
    var was, now := Filter(detail.columns, InOldKey()), Filter(edits, InNewKey());
    |was| == |now| && forall i :: 0 <= i < |was| ==> now[i].originalName == Some(was[i].name)
  }

  function Named(edits: seq<ColumnEdit>): seq<string> {
    seq(|edits|, i requires 0 <= i < |edits| => edits[i].name)
  }

  lemma {:induction false} OldKeyIs(columns: seq<DetailColumn>)
    ensures |OriginalKey(columns)| == |Filter(columns, InOldKey())|
    ensures forall i :: 0 <= i < |OriginalKey(columns)| ==>
      OriginalKey(columns)[i] == Filter(columns, InOldKey())[i].name
  {
    if columns != [] {
      OldKeyIs(columns[..|columns| - 1]);
    }
  }

  lemma {:induction false} NewKeyIs(edits: seq<ColumnEdit>)
    ensures EditedKey(edits) == Named(Filter(edits, InNewKey()))
    ensures forall e :: e in Filter(edits, InNewKey()) <==> e in edits && e.primaryKey && !e.removed
  {
    if edits != [] {
      var n := |edits| - 1;
      NewKeyIs(edits[..n]);
      assert edits == edits[..n] + [edits[n]];
    }
  }

  lemma KeyUnchangedMeans(detail: TableDetail, edits: seq<ColumnEdit>)
    requires OriginalsDistinct(edits) && ResultsDistinct(edits)
    ensures KeyUnchanged(detail.columns, edits) <==> SameKey(detail, edits)
  {
    var was, now := Filter(detail.columns, InOldKey()), Filter(edits, InNewKey());
    OldKeyIs(detail.columns);
    NewKeyIs(edits);
    hide OriginalsDistinct, ResultsDistinct, OriginalKey, EditedKey, Filter;
    forall i | 0 <= i < |was| && |was| == |now|
      ensures Carries(edits, was[i].name, now[i].name) <==> now[i].originalName == Some(was[i].name)
    {
      assert now[i] in now;
      if e :| e in edits && e.originalName == Some(was[i].name) && e.name == now[i].name && !e.removed {
        SameEdit(edits, e, now[i]);
      }
    }
  }

  // The key is dropped and added again exactly if its columns or their order change; it is added with the marked
  // columns in the order of the form.
  lemma KeyReplaced(table: string, newName: string, detail: TableDetail, edits: seq<ColumnEdit>, st: AlterStatement)
    requires OriginalsDistinct(edits) && ResultsDistinct(edits) && st in Plan(table, newName, detail, edits)
    ensures st.DropKey? ==> !SameKey(detail, edits) && detail.keyConstraint == Some(st.constraint)
    ensures st.AddKey? ==>
      !SameKey(detail, edits) && st.columns == Named(Filter(edits, InNewKey())) && st.columns != []
  {
    hide KeyUnchanged, EditedKey, Filter, OriginalsDistinct, ResultsDistinct, SameKey, EditStatements, Gather, Trim;
    KeyUnchangedMeans(detail, edits);
    NewKeyIs(edits);
    GatherMember(edits, EditPart(detail.columns), st);
    if e :| e in edits && st in EditPart(detail.columns)(e) {
      EditsNoKey(detail.columns, e, st);
    }
  }

  lemma EditsNoKey(columns: seq<DetailColumn>, e: ColumnEdit, st: AlterStatement)
    requires st in EditStatements(columns, e)
    ensures !st.DropKey? && !st.AddKey?
  {
    hide Find, DefaultText;
  }

  lemma KeyReplacedAgain(table: string, newName: string, detail: TableDetail, edits: seq<ColumnEdit>)
    requires OriginalsDistinct(edits) && ResultsDistinct(edits) && !SameKey(detail, edits)
    ensures var plan, key := Plan(table, newName, detail, edits), Named(Filter(edits, InNewKey()));
      (detail.keyConstraint.Some? ==> plan != [] && plan[0] == DropKey(detail.keyConstraint.value)) &&
      (key != [] ==> AddKey(key) in plan)
  {
    hide KeyUnchanged, EditedKey, Filter, OriginalsDistinct, ResultsDistinct, SameKey, Gather;
    KeyUnchangedMeans(detail, edits);
    NewKeyIs(edits);
    var key := Named(Filter(edits, InNewKey()));
    assert key != [] ==> AddKey(key) in AddKeyStatements(detail, edits);
  }

  /* ---- No statement is idle ---- */

  ghost predicate SameDefault(a: Option<string>, b: Option<string>) {
    exists text :: DefaultAsked(a, text) && DefaultAsked(b, text)
  }

  lemma SameDefaultMeans(a: Option<string>, b: Option<string>)
    ensures SameDefault(a, b) <==> DefaultText(a) == DefaultText(b)
  {
    hide DefaultText, DefaultAsked;
    DefaultOne(a, DefaultText(a));
    DefaultOne(b, DefaultText(a));
    if text :| DefaultAsked(a, text) && DefaultAsked(b, text) {
      DefaultOne(a, text);
      DefaultOne(b, text);
    }
  }

  // What a column has already is not set again.
  ghost predicate Changes(c: DetailColumn, e: ColumnEdit, st: AlterStatement) {
    match st
    case RenameColumn(from, to) => from == c.name && to == e.name != from
    case SetType(n, dataType) => n == e.name && dataType == e.dataType != c.fullType
    case SetNotNull(n) => n == e.name && c.nullable && !e.nullable
    case DropNotNull(n) => n == e.name && !c.nullable && e.nullable
    case SetDefault(n, value) =>
      n == e.name && DefaultAsked(e.default, value) && value != "" && !SameDefault(c.default, e.default)
    case DropDefault(n) => n == e.name && DefaultAsked(e.default, "") && !SameDefault(c.default, e.default)
    case _ => false
  }

  lemma NothingIdle(columns: seq<DetailColumn>, c: DetailColumn, e: ColumnEdit, st: AlterStatement)
    requires e.originalName == Some(c.name) && !e.removed && Find(columns, c.name) == Some(c)
    ensures st in EditStatements(columns, e) ==> Changes(c, e, st)
  {
    hide DefaultText, DefaultAsked, Find;
    SameDefaultMeans(c.default, e.default);
    DefaultOne(e.default, DefaultText(e.default));
  }

  // The table is renamed exactly if the form gives it another name.
  lemma RenamedExactly(table: string, newName: string)
    ensures if Trims(newName, table) then RenameTableStatements(table, newName) == []
            else exists to :: Trims(newName, to) && RenameTableStatements(table, newName) == [RenameTable(to)]
  {
    TrimsOne(newName, table);
    TrimExactly(newName);
  }

  /* ---- More about every plan ---- */

  // No edit drops a column that is in the primary key at that point.
  lemma NoKeyColumnDropped(pg: Server, table: string, detail: TableDetail, edits: seq<ColumnEdit>, i: nat,
                           t: TableState)
    requires Checked(pg, detail, edits) && i < |edits| && edits[i].removed && edits[i].originalName.Some?
    requires Run(pg, Start(table, detail),
                 DropKeyStatements(detail, edits) + Gather(edits[..i], EditPart(detail.columns))) == Some(t)
    ensures edits[i].originalName.value !in KeyOf(t)
  {
    hide Run, EditPart, Gather;
    var base := Base(table, detail, edits);
    HalfwayStart(pg, table, detail, edits);
    BaseKey(pg, table, detail, edits);
    Through(pg, detail, KeyOf(base), base, edits, i);
    DropKeyRun(pg, table, detail, edits);
    RunThen(pg, Start(table, detail), DropKeyStatements(detail, edits), KeyMayGo(pg, detail, edits), base,
            Gather(edits[..i], EditPart(detail.columns)), GoodUpTo(pg, detail, KeyOf(base), edits, i),
              StateAt(base, edits, i));
    assert edits[i] in edits;
  }

  // The form as it is first shown.
  predicate Untouched(detail: TableDetail, edits: seq<ColumnEdit>) {
    |edits| == |detail.columns| &&
    forall i :: 0 <= i < |edits| ==>
      var c, e := detail.columns[i], edits[i];
      e.originalName == Some(c.name) && e.name == c.name && e.dataType == c.fullType && e.nullable == c.nullable &&
      DefaultText(e.default) == DefaultText(c.default) && e.primaryKey == c.primaryKey && !e.removed
  }

  lemma {:induction false} UntouchedKey(columns: seq<DetailColumn>, edits: seq<ColumnEdit>)
    requires |edits| == |columns|
    requires forall i :: 0 <= i < |edits| ==>
      edits[i].name == columns[i].name && edits[i].primaryKey == columns[i].primaryKey && !edits[i].removed
    ensures OriginalKey(columns) == EditedKey(edits)
  {
    if columns != [] {
      UntouchedKey(columns[..|columns| - 1], edits[..|edits| - 1]);
    }
  }

  // An unchanged form has an empty plan.
  lemma UntouchedPlan(pg: Server, table: string, detail: TableDetail, edits: seq<ColumnEdit>)
    requires Sound(pg, detail) && Untouched(detail, edits) && Trim(table) == table
    ensures Plan(table, table, detail, edits) == []
  {
    UntouchedKey(detail.columns, edits);
    KeyMembers(detail.columns, edits);
    var original := OriginalKey(detail.columns);
    forall i | 0 <= i < |original|
      ensures Carries(edits, original[i], original[i])
    {
      assert original[i] in original;
      var c :| c in detail.columns && c.primaryKey && c.name == original[i];
      var k: nat :| k < |detail.columns| && detail.columns[k] == c;
      assert edits[k] in edits;
    }
    forall e | e in edits
      ensures EditPart(detail.columns)(e) == []
    {
      var k: nat :| k < |edits| && edits[k] == e;
      FindDistinct(pg, detail, detail.columns[k]);
    }
    GatherEmpty(edits, EditPart(detail.columns));
  }

  lemma UnchangedEdit(columns: seq<DetailColumn>, e: ColumnEdit, c: DetailColumn)
    requires e.originalName == Some(c.name) && !e.removed && Find(columns, c.name) == Some(c)
    requires EditStatements(columns, e) == []
    ensures e.dataType == c.fullType && e.nullable == c.nullable
  {
  }

  lemma EmptyPlanKey(pg: Server, detail: TableDetail, edits: seq<ColumnEdit>, e: ColumnEdit)
    requires Checked(pg, detail, edits) && KeyUnchanged(detail.columns, edits) && e in edits && e.primaryKey &&
      !e.removed
    requires EditStatements(detail.columns, e) == []
    ensures !e.nullable && pg.keyable(e.dataType)
  {
    hide EditStatements, KeyUnchanged, OriginalKey, EditedKey, NamesKnown, AllSupplied;
    KeyMatches(detail.columns, edits, e);
    KeyMembers(detail.columns, edits);
    var c :| c in detail.columns && c.primaryKey && c.name == e.originalName.value;
    FindDistinct(pg, detail, c);
    UnchangedEdit(detail.columns, e, c);
  }

  lemma EmptyPlanEdits(table: string, newName: string, detail: TableDetail, edits: seq<ColumnEdit>)
    requires Plan(table, newName, detail, edits) == []
    ensures forall e <- edits :: EditStatements(detail.columns, e) == []
    ensures Trim(newName) == table && (KeyUnchanged(detail.columns, edits) || EditedKey(edits) == [])
    ensures KeyUnchanged(detail.columns, edits) || detail.keyConstraint.None?
  {
    hide EditStatements;
    GatherEmpty(edits, EditPart(detail.columns));
    forall e | e in edits
      ensures EditStatements(detail.columns, e) == []
    {
      assert EditPart(detail.columns)(e) == [];
    }
  }

  lemma EmptyPlanFresh(pg: Server, detail: TableDetail, edits: seq<ColumnEdit>)
    requires Checked(pg, detail, edits) && forall e <- edits :: EditStatements(detail.columns, e) == []
    ensures Fresh(edits)
  {
    forall i, j | 0 <= i < j < |edits| && !edits[i].removed
      ensures edits[j].originalName != Some(edits[i].name)
    {
      assert edits[i] in edits && EditStatements(detail.columns, edits[i]) == [];
      FindKnown(detail.columns, edits[i].originalName.value);
    }
  }

  lemma EmptyPlanKeys(pg: Server, detail: TableDetail, edits: seq<ColumnEdit>)
    requires Checked(pg, detail, edits) && forall e <- edits :: EditStatements(detail.columns, e) == []
    requires KeyUnchanged(detail.columns, edits) || EditedKey(edits) == []
    ensures KeyNotNull(edits) && KeyTypes(pg, edits)
  {
    hide EditStatements, KeyUnchanged;
    forall e | e in edits && e.primaryKey && !e.removed
      ensures !e.nullable && pg.keyable(e.dataType)
    {
      KeyMembers(detail.columns, edits);
      assert e.name in EditedKey(edits);
      EmptyPlanKey(pg, detail, edits, e);
    }
  }

  // Nothing changes, so nothing is asked for.
  lemma EmptyPlanAllowed(pg: Server, detail: TableDetail, edits: seq<ColumnEdit>)
    requires Checked(pg, detail, edits) && forall e <- edits :: EditStatements(detail.columns, e) == []
    ensures EditsAllowed(pg, detail, edits) && FitsThroughout(pg, detail, edits)
  {
    forall e | e in edits && !e.removed
      ensures Allowed(pg, detail, e, false)
    {
      assert EditStatements(detail.columns, e) == [];
      FindKnown(detail.columns, e.originalName.value);
    }
    forall i: nat | i < |edits|
      ensures Fitting(pg, detail, edits, i)
    {
      assert edits[i] in edits && EditStatements(detail.columns, edits[i]) == [];
      if edits[i].originalName.Some? {
        FindKnown(detail.columns, edits[i].originalName.value);
      }
    }
  }

  // And an empty plan means that the table already is what the form asks for.
  lemma EmptyPlan(check: Validators, pg: Server, table: string, newName: string, detail: TableDetail,
                  edits: seq<ColumnEdit>)
    requires Sound(pg, detail) && Accepted(check, detail, newName, edits) && Plan(table, newName, detail, edits) == []
    ensures IsWanted(newName, edits, Start(table, detail))
  {
    hide EditStatements, KeyUnchanged, Plan, Fresh, KeyNotNull, KeyTypes, IsWanted, EditedKey, EditsAllowed,
      FitsThroughout, Sound;
    EmptyPlanEdits(table, newName, detail, edits);
    EmptyPlanAllowed(pg, detail, edits);
    EmptyPlanFresh(pg, detail, edits);
    EmptyPlanKeys(pg, detail, edits);
    PlanCorrect(check, pg, table, newName, detail, edits);
  }

  /* ---- A column whose default stands in the way of its new type ---- */

  function TextColumn(): TableDetail {
    TableDetail([DetailColumn("c", "text", true, Some("'x'::text"), false)], None)
  }

  function ToInteger(): ColumnEdit { ColumnEdit(Some("c"), "c", "integer", true, Some("1"), false, false) }

  // The type is changed before the default is, so a form that changes both is refused although what it asks for is
  // fine.
  lemma DefaultNotCast(check: Validators, pg: Server)
    requires check.tableName("t") && check.column(ToInteger()) && !pg.castable("'x'::text", "text", "integer")
    ensures Sound(pg, TextColumn()) && Accepted(check, TextColumn(), "t", [ToInteger()])
    ensures Fresh([ToInteger()]) && KeyNotNull([ToInteger()]) && NameFree(pg, "t", "t")
    ensures var after := Run(pg, Start("t", TextColumn()), Plan("t", "t", TextColumn(), [ToInteger()]));
      !(after.Some? && IsWanted("t", [ToInteger()], after.value))
  {
    hide Run, Plan, IsWanted;
    var detail, edits := TextColumn(), [ToInteger()];
    assert Find(detail.columns, "c") == Some(detail.columns[0]);
    assert edits[0] in edits && DefaultText(detail.columns[0].default) == "'x'::text";
    assert !Allowed(pg, detail, ToInteger(), false);
    assert OriginalKey(detail.columns) == [] by {
      assert detail.columns[..0] == [];
    }
    assert detail.columns[0].name == "c" && detail.columns[0] in detail.columns;
    PlanCorrect(check, pg, "t", "t", detail, edits);
  }
}

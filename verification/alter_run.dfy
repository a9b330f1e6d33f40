/** What PostgreSQL does with the table editor's statements. */
module AlterRun {
  import opened Options
  import opened Gathering
  import opened Text
  import opened TextCorrect
  import opened AlterPlanner
  import opened AlterPreview

  // `origin`: the name the column had when the form was opened, if it was there.
  datatype ColumnState = ColumnState(origin: Option<string>, dataType: string, nullable: bool, default: string)

  // The name of a key that PostgreSQL names itself is `None`.
  datatype Key = Key(constraint: Option<string>, columns: set<string>)

  datatype TableState = TableState(name: string, columns: map<string, ColumnState>, key: Option<Key>)

  // What PostgreSQL knows and the form does not show. Columns go by the names they had when the form was opened.
  datatype Server = Server(
    taken: set<string>,                      // the other relations of the schema, and its types
    reserved: set<string>,                   // the names no column may have, because every table has such a column
    definable: (string, string) -> bool,     // may a column of the type have the default, or none if that is empty?
    convertible: (string, string) -> bool,   // is there a cast from the first type to the second?
    // Can a default of a column of the first type be cast to the second type as in an assignment?
    castable: (string, string, string) -> bool,
    keyable: string -> bool,                 // may a column of the type be in a primary key?
    identity: set<string>,                   // the identity columns
    computed: set<string>,                   // the generated columns
    keyFree: bool,                           // does no foreign key and no view rest on the primary key?
    // Does what depends on the columns make sense when these are left, with these types: views, checks, indexes,
    // foreign keys, triggers, computed columns, identity?
    fits: set<(string, string)> -> bool)

  function KeyOf(t: TableState): set<string> { if t.key.None? then {} else t.key.value.columns }

  // The columns that were there, with their types.
  function Typed(columns: map<string, ColumnState>): set<(string, string)> {
    set n | n in columns && columns[n].origin.Some? :: (columns[n].origin.value, columns[n].dataType)
  }

  predicate OriginIn(c: ColumnState, names: set<string>) { c.origin.Some? && c.origin.value in names }

  // `None` when PostgreSQL refuses. Dropping a key column drops the key.
  function Exec(pg: Server, t: TableState, st: AlterStatement): Option<TableState> {
    match st
    case DropKey(k) =>
      if t.key.None? || t.key.value.constraint != Some(k) || !pg.keyFree then None else Some(t.(key := None))
    case AddColumn(n, dataType, nullable, default) =>
      if n in t.columns || n in pg.reserved || !pg.definable(dataType, DefaultText(default)) then None
      else Some(t.(columns := t.columns[n := ColumnState(None, dataType, nullable, DefaultText(default))]))
    case DropColumn(n) =>
      if n !in t.columns || !pg.fits(Typed(t.columns - {n})) then None else Some(WithoutColumn(t, n))
    case RenameColumn(from, to) =>
      if from !in t.columns || to in t.columns || to in pg.reserved then None else Some(Renamed(t, from, to))
    case SetType(n, dataType) => ExecSetType(pg, t, n, dataType)
    case SetNotNull(n) =>
      if n !in t.columns then None else Some(t.(columns := t.columns[n := t.columns[n].(nullable := false)]))
    case DropNotNull(n) =>
      if n !in t.columns || n in KeyOf(t) || OriginIn(t.columns[n], pg.identity) then None
      else Some(t.(columns := t.columns[n := t.columns[n].(nullable := true)]))
    case SetDefault(n, default) =>
      if n !in t.columns || OriginIn(t.columns[n], pg.identity + pg.computed) ||
         !pg.definable(t.columns[n].dataType, default) then None
      else Some(t.(columns := t.columns[n := t.columns[n].(default := default)]))
    case DropDefault(n) =>
      if n !in t.columns || OriginIn(t.columns[n], pg.identity + pg.computed) then None
      else Some(t.(columns := t.columns[n := t.columns[n].(default := "")]))
    case AddKey(names) =>
      if t.key.Some? || !(forall n <- names :: n in t.columns && pg.keyable(t.columns[n].dataType)) then None
      else Some(t.(columns := NotNull(t.columns, names), key := Some(Key(None, set n <- names))))
    case RenameTable(to) => if to in pg.taken then None else Some(t.(name := to))
  }

  // The values are cast as the statement says, and so is the default the column has, as in an assignment; a key column
  // stays in the index of its key.
  function ExecSetType(pg: Server, t: TableState, n: string, dataType: string): Option<TableState> {
    if n !in t.columns || !pg.definable(dataType, "") then None
    else
      var c, columns := t.columns[n], t.columns[n := t.columns[n].(dataType := dataType)];
      if !pg.convertible(c.dataType, dataType) ||
         (c.default != "" && !pg.castable(c.default, c.dataType, dataType)) ||
         (n in KeyOf(t) && !pg.keyable(dataType)) || !pg.fits(Typed(columns)) then None
      else Some(t.(columns := columns))
  }

  function WithoutColumn(t: TableState, n: string): TableState {
    t.(columns := t.columns - {n}, key := if n in KeyOf(t) then None else t.key)
  }

  function Renamed(t: TableState, from: string, to: string): TableState
    requires from in t.columns
  {
    t.(columns := (t.columns - {from})[to := t.columns[from]], key := RenamedKey(t.key, from, to))
  }

  function RenamedKey(key: Option<Key>, from: string, to: string): Option<Key> {
    if key.None? || from !in key.value.columns then key
    else Some(key.value.(columns := key.value.columns - {from} + {to}))
  }

  function Required(c: ColumnState): ColumnState { c.(nullable := false) }

  function NotNull(columns: map<string, ColumnState>, names: seq<string>): map<string, ColumnState> {
    map n | n in columns :: if n in names then Required(columns[n]) else columns[n]
  }

  function Run(pg: Server, t: TableState, script: seq<AlterStatement>): Option<TableState> {
    if script == [] then Some(t)
    else
      var before := Run(pg, t, script[..|script| - 1]);
      if before.None? then None else Exec(pg, before.value, script[|script| - 1])
  }

  lemma {:induction false} RunConcat(pg: Server, t: TableState, left: seq<AlterStatement>,
                                     right: seq<AlterStatement>)
    ensures Run(pg, t, left + right) ==
            if Run(pg, t, left).None? then None else Run(pg, Run(pg, t, left).value, right)
  {
    hide Exec;
    if right == [] {
      assert left + right == left;
    } else {
      var n := |right| - 1;
      assert (left + right)[..|left| + n] == left + right[..n];
      RunConcat(pg, t, left, right[..n]);
    }
  }

  function Outcome(ok: bool, t: TableState): Option<TableState> { if ok then Some(t) else None }

  lemma RunThen(pg: Server, t: TableState, left: seq<AlterStatement>, p: bool, mid: TableState,
                right: seq<AlterStatement>, q: bool, end: TableState)
    requires Run(pg, t, left) == Outcome(p, mid)
    requires p ==> Run(pg, mid, right) == Outcome(q, end)
    ensures Run(pg, t, left + right) == Outcome(p && q, end)
  {
    RunConcat(pg, t, left, right);
  }

  lemma RunShort(pg: Server, t: TableState, st: AlterStatement)
    ensures Run(pg, t, []) == Some(t) && Run(pg, t, [st]) == Exec(pg, t, st)
  {
    assert [st][..0] == [];
    assert Run(pg, t, [st][..0]) == Some(t);
  }

  /* ---- The table before and after ---- */

  function StateOf(column: DetailColumn): ColumnState {
    ColumnState(Some(column.name), column.fullType, column.nullable, DefaultText(column.default))
  }

  function WantedState(edit: ColumnEdit): ColumnState {
    ColumnState(edit.originalName, edit.dataType, edit.nullable, DefaultText(edit.default))
  }

  function CurrentColumns(columns: seq<DetailColumn>): map<string, ColumnState> {
    map n | n in (set c <- columns :: c.name) && Find(columns, n).Some? :: StateOf(Find(columns, n).value)
  }

  function Start(table: string, detail: TableDetail): TableState {
    TableState(table, CurrentColumns(detail.columns),
               if detail.keyConstraint.None? then None
               else Some(Key(detail.keyConstraint, set n <- OriginalKey(detail.columns))))
  }

  // What the catalog guarantees: names are distinct, a key has columns, and they are not nullable and of a type that
  // may be in one.
  ghost predicate Sound(pg: Server, detail: TableDetail) {
    (forall i, j :: 0 <= i < j < |detail.columns| ==> detail.columns[i].name != detail.columns[j].name) &&
    (detail.keyConstraint.Some? <==> OriginalKey(detail.columns) != []) &&
    (forall c <- detail.columns :: c.primaryKey ==> !c.nullable && pg.keyable(c.fullType))
  }

  // The default a field asks for: its text without the whitespace around it. An empty one asks for none.
  ghost predicate DefaultAsked(default: Option<string>, text: string) {
    if default.None? then text == "" else Trims(default.value, text)
  }

  lemma DefaultOne(default: Option<string>, text: string)
    ensures DefaultAsked(default, text) <==> text == DefaultText(default)
  {
    if default.Some? {
      TrimsOne(default.value, text);
    }
  }

  ghost predicate AsAsked(edit: ColumnEdit, c: ColumnState) {
    c.origin == edit.originalName && c.dataType == edit.dataType && c.nullable == edit.nullable &&
    DefaultAsked(edit.default, c.default)
  }

  lemma AskedOne(edit: ColumnEdit, c: ColumnState)
    ensures AsAsked(edit, c) <==> c == WantedState(edit)
  {
    DefaultOne(edit.default, c.default);
  }

  // The columns, key and name the form asks for; a column that is kept is still the same one.
  ghost predicate IsWanted(newName: string, edits: seq<ColumnEdit>, t: TableState) {
    Trims(newName, t.name) &&
    (forall e <- edits :: !e.removed ==> e.name in t.columns && AsAsked(e, t.columns[e.name])) &&
    (forall n <- t.columns :: exists e <- edits :: !e.removed && e.name == n) &&
    forall n :: n in KeyOf(t) <==> exists e <- edits :: e.primaryKey && !e.removed && e.name == n
  }

  // The table as it was read.
  lemma StartIs(table: string, detail: TableDetail, i: nat)
    requires i < |detail.columns| && forall j :: 0 <= j < |detail.columns| && j != i ==>
      detail.columns[j].name != detail.columns[i].name
    ensures var t, c := Start(table, detail), detail.columns[i];
      t.name == table && c.name in t.columns && t.columns[c.name].origin == Some(c.name) &&
      t.columns[c.name].dataType == c.fullType && t.columns[c.name].nullable == c.nullable &&
      DefaultAsked(c.default, t.columns[c.name].default)
  {
    var c := detail.columns[i];
    FindKnown(detail.columns, c.name);
    DefaultOne(c.default, DefaultText(c.default));
  }

  // No column takes a name that a later edit has yet to give up.
  ghost predicate Fresh(edits: seq<ColumnEdit>) {
    forall i, j :: 0 <= i < j < |edits| && !edits[i].removed ==> edits[j].originalName != Some(edits[i].name)
  }

  ghost predicate KeyNotNull(edits: seq<ColumnEdit>) {
    forall e <- edits :: e.primaryKey && !e.removed ==> !e.nullable
  }

  ghost predicate NameFree(pg: Server, table: string, newName: string) {
    Trim(newName) == table || Trim(newName) !in pg.taken
  }

  /* ---- One edit ---- */

  // The table after an edit that PostgreSQL accepts.
  function After(t: TableState, edit: ColumnEdit): TableState {
    if edit.originalName.None? then
      if edit.removed then t else t.(columns := t.columns[edit.name := WantedState(edit)])
    else
      var original := edit.originalName.value;
      if edit.removed then WithoutColumn(t, original)
      else t.(columns := (t.columns - {original})[edit.name := WantedState(edit)],
              key := RenamedKey(t.key, original, edit.name))
  }

  predicate NameApplies(t: TableState, edit: ColumnEdit) {
    edit.removed || edit.originalName == Some(edit.name) || edit.name !in t.columns
  }

  // A new or changed name is one a column may have.
  predicate NameAllowed(pg: Server, edit: ColumnEdit) {
    edit.removed || edit.originalName == Some(edit.name) || edit.name !in pg.reserved
  }

  // A new type can be had, the values and the default can be cast to it, and it may be in the key.
  predicate TypeApplies(pg: Server, c: ColumnState, edit: ColumnEdit, inKey: bool) {
    c.dataType != edit.dataType ==>
      pg.definable(edit.dataType, "") && pg.convertible(c.dataType, edit.dataType) &&
      (c.default != "" ==> pg.castable(c.default, c.dataType, edit.dataType)) &&
      (inKey ==> pg.keyable(edit.dataType))
  }

  predicate NullApplies(pg: Server, c: ColumnState, edit: ColumnEdit, inKey: bool) {
    !c.nullable && edit.nullable ==> !inKey && !OriginIn(c, pg.identity)
  }

  predicate DefaultApplies(pg: Server, c: ColumnState, edit: ColumnEdit) {
    var wanted := DefaultText(edit.default);
    c.default != wanted ==>
      !OriginIn(c, pg.identity + pg.computed) && (wanted != "" ==> pg.definable(edit.dataType, wanted))
  }

  predicate ColumnApplies(pg: Server, c: ColumnState, edit: ColumnEdit, inKey: bool) {
    TypeApplies(pg, c, edit, inKey) && NullApplies(pg, c, edit, inKey) && DefaultApplies(pg, c, edit)
  }

  // What depends on the columns is left with a column less, or with another type.
  predicate FitsAfter(pg: Server, t: TableState, edit: ColumnEdit) {
    var original := edit.originalName;
    original.Some? && original.value in t.columns &&
      (edit.removed || t.columns[original.value].dataType != edit.dataType) ==>
      pg.fits(Typed(After(t, edit).columns))
  }

  predicate Applies(pg: Server, t: TableState, edit: ColumnEdit) {
    NameApplies(t, edit) && NameAllowed(pg, edit) && FitsAfter(pg, t, edit) &&
    (!edit.removed ==>
       if edit.originalName.None? then pg.definable(edit.dataType, DefaultText(edit.default))
       else
         var original := edit.originalName.value;
         original in t.columns ==> ColumnApplies(pg, t.columns[original], edit, original in KeyOf(t)))
  }

  // A list of at most one statement.
  lemma RunOptional(pg: Server, t: TableState, script: seq<AlterStatement>, ok: bool, end: TableState)
    requires |script| <= 1
    requires script == [] ==> ok && end == t
    requires script != [] ==> Exec(pg, t, script[0]) == Outcome(ok, end)
    ensures Run(pg, t, script) == Outcome(ok, end)
  {
    if script != [] {
      assert script == [script[0]];
      RunShort(pg, t, script[0]);
    }
  }

  function Put(t: TableState, n: string, c: ColumnState): TableState { t.(columns := t.columns[n := c]) }

  lemma RenameRun(pg: Server, t: TableState, original: string, edit: ColumnEdit, mid: TableState)
    requires original in t.columns
    requires mid == t.(columns := (t.columns - {original})[edit.name := t.columns[original]],
                       key := RenamedKey(t.key, original, edit.name))
    ensures Run(pg, t, RenameStatements(original, edit)) ==
            Outcome(edit.name == original || edit.name !in t.columns.Keys + pg.reserved, mid)
  {
    if edit.name == original {
      assert mid.columns == t.columns;
      if t.key.Some? && original in t.key.value.columns {
        assert t.key.value.columns - {original} + {original} == t.key.value.columns;
      }
    }
    RunOptional(pg, t, RenameStatements(original, edit),
                edit.name == original || edit.name !in t.columns.Keys + pg.reserved, mid);
  }

  // The column has its new name; its type, nullability and default change.
  lemma TypeRun(pg: Server, t: TableState, current: DetailColumn, edit: ColumnEdit)
    requires edit.name in t.columns && t.columns[edit.name] == StateOf(current)
    ensures var typed := Put(t, edit.name, t.columns[edit.name].(dataType := edit.dataType));
      Run(pg, t, TypeStatements(current, edit)) ==
      Outcome(TypeApplies(pg, t.columns[edit.name], edit, edit.name in KeyOf(t)) &&
              (current.fullType != edit.dataType ==> pg.fits(Typed(typed.columns))), typed)
  {
    var n, c := edit.name, t.columns[edit.name];
    var typed := Put(t, n, c.(dataType := edit.dataType));
    PutSame(t, n);
    RunOptional(pg, t, TypeStatements(current, edit),
                TypeApplies(pg, c, edit, n in KeyOf(t)) &&
                (current.fullType != edit.dataType ==> pg.fits(Typed(typed.columns))), typed);
  }

  lemma NullRun(pg: Server, t: TableState, current: DetailColumn, edit: ColumnEdit)
    requires edit.name in t.columns && t.columns[edit.name] == StateOf(current).(dataType := edit.dataType)
    ensures Run(pg, t, NullStatements(current, edit)) ==
            Outcome(NullApplies(pg, StateOf(current), edit, edit.name in KeyOf(t)),
                    Put(t, edit.name, t.columns[edit.name].(nullable := edit.nullable)))
  {
    PutSame(t, edit.name);
    RunOptional(pg, t, NullStatements(current, edit), NullApplies(pg, StateOf(current), edit, edit.name in KeyOf(t)),
                Put(t, edit.name, t.columns[edit.name].(nullable := edit.nullable)));
  }

  lemma DefaultRun(pg: Server, t: TableState, current: DetailColumn, edit: ColumnEdit)
    requires edit.originalName == Some(current.name) && edit.name in t.columns
    requires t.columns[edit.name] == StateOf(current).(dataType := edit.dataType, nullable := edit.nullable)
    ensures Run(pg, t, DefaultStatements(current, edit)) ==
            Outcome(DefaultApplies(pg, StateOf(current), edit), Put(t, edit.name, WantedState(edit)))
  {
    PutSame(t, edit.name);
    RunOptional(pg, t, DefaultStatements(current, edit), DefaultApplies(pg, StateOf(current), edit),
                Put(t, edit.name, WantedState(edit)));
  }

  lemma ChangeRun(pg: Server, t: TableState, current: DetailColumn, edit: ColumnEdit)
    requires edit.originalName == Some(current.name)
    requires edit.name in t.columns && t.columns[edit.name] == StateOf(current)
    ensures var end := Put(t, edit.name, WantedState(edit));
      Run(pg, t, TypeStatements(current, edit) + NullStatements(current, edit) + DefaultStatements(current, edit)) ==
      Outcome(ColumnApplies(pg, StateOf(current), edit, edit.name in KeyOf(t)) &&
              (current.fullType != edit.dataType ==> pg.fits(Typed(end.columns))), end)
  {
    hide Run, TypeStatements, NullStatements, DefaultStatements, TypeApplies, NullApplies, DefaultApplies, Typed;
    var n, c := edit.name, t.columns[edit.name];
    var typed := Put(t, n, c.(dataType := edit.dataType));
    var nulled := Put(t, n, c.(dataType := edit.dataType, nullable := edit.nullable));
    var end := Put(t, n, WantedState(edit));
    var p := TypeApplies(pg, c, edit, n in KeyOf(t)) &&
             (current.fullType != edit.dataType ==> pg.fits(Typed(typed.columns)));
    var q, r := NullApplies(pg, c, edit, n in KeyOf(t)), DefaultApplies(pg, c, edit);
    PutTwice(t, n, c.(dataType := edit.dataType), c.(dataType := edit.dataType, nullable := edit.nullable));
    PutTwice(t, n, c.(dataType := edit.dataType, nullable := edit.nullable), WantedState(edit));
    TypeRun(pg, t, current, edit);
    NullRun(pg, typed, current, edit);
    DefaultRun(pg, nulled, current, edit);
    RunThen(pg, t, TypeStatements(current, edit), p, typed, NullStatements(current, edit), q, nulled);
    RunThen(pg, t, TypeStatements(current, edit) + NullStatements(current, edit), p && q, nulled,
            DefaultStatements(current, edit), r, end);
    TypedAlike(t, n, c.(dataType := edit.dataType), WantedState(edit));
  }

  // Only origins and types count.
  lemma TypedAlike(t: TableState, n: string, a: ColumnState, b: ColumnState)
    requires a.origin == b.origin && a.dataType == b.dataType
    ensures Typed(Put(t, n, a).columns) == Typed(Put(t, n, b).columns)
  {
    var x, y := Put(t, n, a).columns, Put(t, n, b).columns;
    assert x.Keys == y.Keys;
    forall m | m in x
      ensures x[m].origin == y[m].origin && x[m].dataType == y[m].dataType
    {
    }
  }

  lemma PutSame(t: TableState, n: string)
    requires n in t.columns
    ensures Put(t, n, t.columns[n]) == t
  {
    assert t.columns[n := t.columns[n]] == t.columns;
  }

  lemma PutTwice(t: TableState, n: string, a: ColumnState, b: ColumnState)
    ensures Put(Put(t, n, a), n, b) == Put(t, n, b)
  {
    assert t.columns[n := a][n := b] == t.columns[n := b];
  }

  lemma EditRun(pg: Server, t: TableState, columns: seq<DetailColumn>, edit: ColumnEdit)
    requires edit.originalName.Some? ==>
      Find(columns, edit.originalName.value).Some? && edit.originalName.value in t.columns &&
      t.columns[edit.originalName.value] == StateOf(Find(columns, edit.originalName.value).value)
    requires KeyOf(t) <= t.columns.Keys
    ensures Run(pg, t, EditStatements(columns, edit)) == Outcome(Applies(pg, t, edit), After(t, edit))
  {
    hide ColumnApplies, Typed;
    if edit.originalName.None? || edit.removed {
      RunOptional(pg, t, EditStatements(columns, edit), Applies(pg, t, edit), After(t, edit));
    } else {
      FindKnown(columns, edit.originalName.value);
      var current := Find(columns, edit.originalName.value).value;
      KeptRun(pg, t, current, edit);
      assert EditStatements(columns, edit) ==
        RenameStatements(edit.originalName.value, edit) +
        (TypeStatements(current, edit) + NullStatements(current, edit) + DefaultStatements(current, edit));
    }
  }

  lemma KeptRun(pg: Server, t: TableState, current: DetailColumn, edit: ColumnEdit)
    requires edit.originalName == Some(current.name) && !edit.removed && current.name in t.columns
    requires t.columns[current.name] == StateOf(current) && KeyOf(t) <= t.columns.Keys
    ensures Run(pg, t, RenameStatements(current.name, edit) +
                       (TypeStatements(current, edit) + NullStatements(current, edit) +
                        DefaultStatements(current, edit))) ==
            Outcome(Applies(pg, t, edit), After(t, edit))
  {
    hide Run, ColumnApplies, Typed, RenameStatements, TypeStatements, NullStatements, DefaultStatements;
    var original, end := current.name, After(t, edit);
    var mid := t.(columns := (t.columns - {original})[edit.name := t.columns[original]],
                  key := RenamedKey(t.key, original, edit.name));
    var free := edit.name == original || edit.name !in t.columns.Keys + pg.reserved;
    var ok := ColumnApplies(pg, StateOf(current), edit, edit.name in KeyOf(mid)) &&
              (current.fullType != edit.dataType ==> pg.fits(Typed(end.columns)));
    RenameRun(pg, t, original, edit, mid);
    ChangeRun(pg, mid, current, edit);
    assert Put(mid, edit.name, WantedState(edit)).columns == end.columns;
    RunThen(pg, t, RenameStatements(original, edit), free, mid,
            TypeStatements(current, edit) + NullStatements(current, edit) + DefaultStatements(current, edit), ok, end);
    if free {
      KeyMoves(t, original, edit.name);
    }
  }

  // A renamed column is in the key exactly when it was, if no key column had the new name already.
  lemma KeyMoves(t: TableState, from: string, to: string)
    requires to == from || to !in KeyOf(t)
    ensures to in KeyOf(t.(key := RenamedKey(t.key, from, to))) <==> from in KeyOf(t)
  {
  }
}

/** The table editor: the statements that turn a table into its edited form. */
module AlterPlanner {
  import opened Options
  import opened Gathering
  import opened Text

  /* ---- What the editor knows ---- */

  // A column as read from the catalog.
  datatype DetailColumn = DetailColumn(
    name: string, fullType: string, nullable: bool, default: Option<string>, primaryKey: bool)

  // A table as read from the catalog, with the name of its primary key constraint.
  datatype TableDetail = TableDetail(columns: seq<DetailColumn>, keyConstraint: Option<string>)

  // One column of the form. A column added in this session has no original name.
  datatype ColumnEdit = ColumnEdit(
    originalName: Option<string>, name: string, dataType: string, nullable: bool, default: Option<string>,
    primaryKey: bool, removed: bool)

  datatype AlterStatement =
    | DropKey(constraint: string)
    | AddColumn(name: string, dataType: string, nullable: bool, default: Option<string>)
    | DropColumn(name: string)
    | RenameColumn(from: string, to: string)
    | SetType(name: string, dataType: string)
    | SetNotNull(name: string)
    | DropNotNull(name: string)
    | SetDefault(name: string, value: string)
    | DropDefault(name: string)
    | AddKey(columns: seq<string>)
    | RenameTable(to: string)

  // `as_deref().unwrap_or("").trim()`
  function DefaultText(default: Option<string>): string {
    if default.None? then "" else Trim(default.value)
  }

  /* ---- The plan ---- */

  function KeyColumn(): DetailColumn -> seq<string> {
    (column: DetailColumn) => if column.primaryKey then [column.name] else []
  }

  function KeyEdit(): ColumnEdit -> seq<string> {
    (edit: ColumnEdit) => if edit.primaryKey && !edit.removed then [edit.name] else []
  }

  function OriginalKey(columns: seq<DetailColumn>): seq<string> { Gather(columns, KeyColumn()) }

  function EditedKey(edits: seq<ColumnEdit>): seq<string> { Gather(edits, KeyEdit()) }

  // Some edit keeps the original key column under the edited name.
  predicate Carries(edits: seq<ColumnEdit>, original: string, name: string) {
    exists edit <- edits :: edit.originalName == Some(original) && edit.name == name && !edit.removed
  }

  predicate KeyUnchanged(columns: seq<DetailColumn>, edits: seq<ColumnEdit>) {
    var original, edited := OriginalKey(columns), EditedKey(edits);
    |original| == |edited| && forall i :: 0 <= i < |original| ==> Carries(edits, original[i], edited[i])
  }

  // The first column of that name.
  function Find(columns: seq<DetailColumn>, name: string): Option<DetailColumn> {
    if columns == [] then None
    else if columns[0].name == name then Some(columns[0])
    else Find(columns[1..], name)
  }

  lemma {:induction false} FindKnown(columns: seq<DetailColumn>, name: string)
    ensures Find(columns, name).Some? <==> exists c <- columns :: c.name == name
    ensures Find(columns, name).Some? ==> Find(columns, name).value in columns && Find(columns, name).value.name == name
  {
    if columns != [] && columns[0].name != name {
      FindKnown(columns[1..], name);
      assert columns == [columns[0]] + columns[1..];
    }
  }

  function AddStatement(edit: ColumnEdit): AlterStatement {
    AddColumn(edit.name, edit.dataType, edit.nullable, if DefaultText(edit.default) == "" then None else edit.default)
  }

  function RenameStatements(original: string, edit: ColumnEdit): seq<AlterStatement> {
    if edit.name != original then [RenameColumn(original, edit.name)] else []
  }

  function TypeStatements(current: DetailColumn, edit: ColumnEdit): seq<AlterStatement> {
    if current.fullType != edit.dataType then [SetType(edit.name, edit.dataType)] else []
  }

  function NullStatements(current: DetailColumn, edit: ColumnEdit): seq<AlterStatement> {
    if current.nullable != edit.nullable then [if edit.nullable then DropNotNull(edit.name) else SetNotNull(edit.name)]
      else []
  }

  function DefaultStatements(current: DetailColumn, edit: ColumnEdit): seq<AlterStatement> {
    var wanted := DefaultText(edit.default);
    if DefaultText(current.default) == wanted then []
    else if wanted == "" then [DropDefault(edit.name)]
    else [SetDefault(edit.name, wanted)]
  }

  function EditStatements(columns: seq<DetailColumn>, edit: ColumnEdit): seq<AlterStatement> {
    if edit.originalName.None? then if edit.removed then [] else [AddStatement(edit)]
    else if edit.removed then [DropColumn(edit.originalName.value)]
    else
      var current := Find(columns, edit.originalName.value);
      if current.None? then []
      else RenameStatements(edit.originalName.value, edit) + TypeStatements(current.value, edit) +
           NullStatements(current.value, edit) + DefaultStatements(current.value, edit)
  }

  function EditPart(columns: seq<DetailColumn>): ColumnEdit -> seq<AlterStatement> {
    edit => EditStatements(columns, edit)
  }

  function DropKeyStatements(detail: TableDetail, edits: seq<ColumnEdit>): seq<AlterStatement> {
    if !KeyUnchanged(detail.columns, edits) && detail.keyConstraint.Some? then [DropKey(detail.keyConstraint.value)]
      else []
  }

  function AddKeyStatements(detail: TableDetail, edits: seq<ColumnEdit>): seq<AlterStatement> {
    if !KeyUnchanged(detail.columns, edits) && EditedKey(edits) != [] then [AddKey(EditedKey(edits))] else []
  }

  function RenameTableStatements(table: string, newName: string): seq<AlterStatement> {
    if Trim(newName) != table then [RenameTable(Trim(newName))] else []
  }

  function Plan(table: string, newName: string, detail: TableDetail, edits: seq<ColumnEdit>): seq<AlterStatement> {
    DropKeyStatements(detail, edits) + Gather(edits, EditPart(detail.columns)) + AddKeyStatements(detail, edits) +
    RenameTableStatements(table, newName)
  }

  /* ---- The loops ---- */

  method FindColumn(columns: seq<DetailColumn>, name: string) returns (found: Option<DetailColumn>)
    ensures found == Find(columns, name)
  {
    for i := 0 to |columns|
      invariant Find(columns, name) == Find(columns[i..], name)
    {
      assert columns[i..][1..] == columns[i + 1..];
      if columns[i].name == name {
        return Some(columns[i]);
      }
    }
    return None;
  }

  method KeyColumns(columns: seq<DetailColumn>) returns (names: seq<string>)
    ensures names == OriginalKey(columns)
  {
    names := [];
    for i := 0 to |columns|
      invariant names == OriginalKey(columns[..i])
    {
      GatherStep(columns, i, KeyColumn());
      if columns[i].primaryKey {
        names := names + [columns[i].name];
      }
    }
    assert columns[..|columns|] == columns;
  }

  method EditedKeyColumns(edits: seq<ColumnEdit>) returns (names: seq<string>)
    ensures names == EditedKey(edits)
  {
    names := [];
    for i := 0 to |edits|
      invariant names == EditedKey(edits[..i])
    {
      GatherStep(edits, i, KeyEdit());
      if edits[i].primaryKey && !edits[i].removed {
        names := names + [edits[i].name];
      }
    }
    assert edits[..|edits|] == edits;
  }

  method CheckKeyUnchanged(columns: seq<DetailColumn>, edits: seq<ColumnEdit>) returns (sameKey: bool)
    ensures sameKey == KeyUnchanged(columns, edits)
  {
    var original := KeyColumns(columns);
    var edited := EditedKeyColumns(edits);
    if |original| != |edited| {
      return false;
    }
    for i := 0 to |original|
      invariant forall k :: 0 <= k < i ==> Carries(edits, original[k], edited[k])
    {
      if !Carries(edits, original[i], edited[i]) {
        return false;
      }
    }
    return true;
  }

  // The statements of one edit, in order: rename, type, nullability, default.
  method BuildEdit(columns: seq<DetailColumn>, edit: ColumnEdit) returns (statements: seq<AlterStatement>)
    ensures statements == EditStatements(columns, edit)
  {
    if edit.originalName.None? {
      if edit.removed {
        return [];
      }
      return [AddStatement(edit)];
    }
    var original := edit.originalName.value;
    if edit.removed {
      return [DropColumn(original)];
    }
    var current := FindColumn(columns, original);
    if current.None? {
      return [];
    }
    statements := [];
    if edit.name != original {
      statements := statements + [RenameColumn(original, edit.name)];
    }
    if current.value.fullType != edit.dataType {
      statements := statements + [SetType(edit.name, edit.dataType)];
    }
    if current.value.nullable != edit.nullable {
      statements := statements + [if edit.nullable then DropNotNull(edit.name) else SetNotNull(edit.name)];
    }
    var wanted := DefaultText(edit.default);
    if DefaultText(current.value.default) != wanted {
      statements := statements + [if wanted == "" then DropDefault(edit.name) else SetDefault(edit.name, wanted)];
    }
  }

  method BuildEdits(columns: seq<DetailColumn>, edits: seq<ColumnEdit>, before: seq<AlterStatement>)
      returns (statements: seq<AlterStatement>)
    ensures statements == before + Gather(edits, EditPart(columns))
  {
    hide EditStatements;
    statements := before;
    for i := 0 to |edits|
      invariant statements == before + Gather(edits[..i], EditPart(columns))
    {
      GatherStep(edits, i, EditPart(columns));
      var more := BuildEdit(columns, edits[i]);
      statements := statements + more;
    }
    assert edits[..|edits|] == edits;
  }

  method BuildAlterTableStatements(table: string, newName: string, detail: TableDetail, edits: seq<ColumnEdit>)
      returns (statements: seq<AlterStatement>)
    ensures statements == Plan(table, newName, detail, edits)
  {
    hide Gather, EditPart, KeyUnchanged, EditedKey, Trim;
    var edited := EditedKeyColumns(edits);
    var sameKey := CheckKeyUnchanged(detail.columns, edits);
    statements := [];
    if !sameKey && detail.keyConstraint.Some? {
      statements := statements + [DropKey(detail.keyConstraint.value)];
    }
    statements := BuildEdits(detail.columns, edits, statements);
    if !sameKey && edited != [] {
      statements := statements + [AddKey(edited)];
    }
    if Trim(newName) != table {
      statements := statements + [RenameTable(Trim(newName))];
    }
  }
}

/** The checks on an edited form before it is planned. */
module AlterPreview {
  import opened Options
  import opened AlterPlanner

  datatype PreviewError =
    | InvalidTableName | ColumnCount | ColumnsDoNotMatch | InvalidDefinition | DuplicateColumns | MissingColumns

  // The name and definition validators, which look at one value each.
  datatype Validators = Validators(tableName: string -> bool, column: ColumnEdit -> bool)

  ghost predicate NamesKnown(detail: TableDetail, edits: seq<ColumnEdit>) {
    forall e <- edits :: e.originalName.Some? ==> exists c <- detail.columns :: c.name == e.originalName.value
  }

  ghost predicate OriginalsDistinct(edits: seq<ColumnEdit>) {
    forall i, j ::
      0 <= i < j < |edits| && edits[i].originalName.Some? ==> edits[i].originalName != edits[j].originalName
  }

  ghost predicate AllSupplied(detail: TableDetail, edits: seq<ColumnEdit>) {
    forall c <- detail.columns :: exists e <- edits :: e.originalName == Some(c.name)
  }

  ghost predicate DefinitionsValid(check: Validators, edits: seq<ColumnEdit>) {
    forall e <- edits :: !e.removed ==> check.column(e)
  }

  ghost predicate ResultsDistinct(edits: seq<ColumnEdit>) {
    forall i, j :: 0 <= i < j < |edits| && !edits[i].removed && !edits[j].removed ==> edits[i].name != edits[j].name
  }

  ghost predicate Accepted(check: Validators, detail: TableDetail, newName: string, edits: seq<ColumnEdit>) {
    check.tableName(newName) && 1 <= |edits| <= 512 && NamesKnown(detail, edits) && OriginalsDistinct(edits) &&
    AllSupplied(detail, edits) && DefinitionsValid(check, edits) && ResultsDistinct(edits)
  }

  // Each error names a check that fails.
  ghost predicate Explains(error: PreviewError, check: Validators, detail: TableDetail, newName: string,
                           edits: seq<ColumnEdit>) {
    match error
    case InvalidTableName => !check.tableName(newName)
    case ColumnCount => edits == [] || |edits| > 512
    case ColumnsDoNotMatch => !NamesKnown(detail, edits) || !OriginalsDistinct(edits)
    case InvalidDefinition => !DefinitionsValid(check, edits)
    case DuplicateColumns => !ResultsDistinct(edits)
    case MissingColumns => !AllSupplied(detail, edits)
  }

  ghost function Originals(edits: seq<ColumnEdit>): set<string> {
    set i | 0 <= i < |edits| && edits[i].originalName.Some? :: edits[i].originalName.value
  }

  ghost function Results(edits: seq<ColumnEdit>): set<string> {
    set i | 0 <= i < |edits| && !edits[i].removed :: edits[i].name
  }

  // What the next edit adds to each check.
  lemma OneMoreOriginal(detail: TableDetail, edits: seq<ColumnEdit>, i: nat)
    requires i < |edits|
    ensures var before, after, original := edits[..i], edits[..i + 1], edits[i].originalName;
      Originals(after) == Originals(before) + (if original.Some? then {original.value} else {}) &&
      (NamesKnown(detail, after) <==>
         NamesKnown(detail, before) && (original.Some? ==> exists c <- detail.columns :: c.name == original.value)) &&
      (OriginalsDistinct(after) <==>
        OriginalsDistinct(before) && (original.Some? ==> original.value !in Originals(before)))
  {
    var before, after := edits[..i], edits[..i + 1];
    assert after == before + [edits[i]];
    assert forall k :: 0 <= k < i ==> after[k] == before[k];
    assert after[i] == edits[i];
    if OriginalsDistinct(before) &&
      (edits[i].originalName.Some? ==> edits[i].originalName.value !in Originals(before)) {
      forall k, j | 0 <= k < j < |after| && after[k].originalName.Some?
        ensures after[k].originalName != after[j].originalName
      {
        assert j == i ==> before[k].originalName.value in Originals(before);
      }
    }
  }

  lemma OneMoreResult(check: Validators, edits: seq<ColumnEdit>, i: nat)
    requires i < |edits|
    ensures var before, after, edit := edits[..i], edits[..i + 1], edits[i];
      Results(after) == Results(before) + (if edit.removed then {} else {edit.name}) &&
      (DefinitionsValid(check, after) <==> DefinitionsValid(check, before) && (!edit.removed ==> check.column(edit))) &&
      (ResultsDistinct(after) <==> ResultsDistinct(before) && (!edit.removed ==> edit.name !in Results(before)))
  {
    var before, after := edits[..i], edits[..i + 1];
    assert after == before + [edits[i]];
    assert forall k :: 0 <= k < i ==> after[k] == before[k];
    assert after[i] == edits[i];
    if ResultsDistinct(before) && (!edits[i].removed ==> edits[i].name !in Results(before)) {
      forall k, j | 0 <= k < j < |after| && !after[k].removed && !after[j].removed
        ensures after[k].name != after[j].name
      {
        assert j == i ==> before[k].name in Results(before);
      }
    }
  }

  // A check that fails for the first edits fails.
  lemma FailsEarly(check: Validators, detail: TableDetail, edits: seq<ColumnEdit>, i: nat)
    requires i <= |edits|
    ensures NamesKnown(detail, edits) ==> NamesKnown(detail, edits[..i])
    ensures OriginalsDistinct(edits) ==> OriginalsDistinct(edits[..i])
    ensures DefinitionsValid(check, edits) ==> DefinitionsValid(check, edits[..i])
    ensures ResultsDistinct(edits) ==> ResultsDistinct(edits[..i])
  {
    assert forall e <- edits[..i] :: e in edits;
  }

  method BuildAlterTablePreview(check: Validators, table: string, newName: string, detail: TableDetail,
                                edits: seq<ColumnEdit>)
      returns (preview: Result<seq<AlterStatement>, PreviewError>)
    ensures preview.Ok? <==> Accepted(check, detail, newName, edits)
    ensures preview.Ok? ==> preview.value == Plan(table, newName, detail, edits)
    ensures preview.Err? ==> Explains(preview.error, check, detail, newName, edits)
  {
    hide Plan, NamesKnown, OriginalsDistinct, DefinitionsValid, ResultsDistinct, AllSupplied, Originals, Results;
    if !check.tableName(newName) {
      return Err(InvalidTableName);
    }
    if edits == [] || |edits| > 512 {
      return Err(ColumnCount);
    }
    var originalNames := set c <- detail.columns :: c.name;
    var supplied: set<string>, resulting: set<string> := {}, {};
    NothingYet(check, detail, edits);
    for i := 0 to |edits|
      invariant supplied == Originals(edits[..i]) && resulting == Results(edits[..i])
      invariant NamesKnown(detail, edits[..i]) && OriginalsDistinct(edits[..i])
      invariant DefinitionsValid(check, edits[..i]) && ResultsDistinct(edits[..i])
    {
      OneMoreOriginal(detail, edits, i);
      OneMoreResult(check, edits, i);
      FailsEarly(check, detail, edits, i + 1);
      var column := edits[i];
      if column.originalName.Some? {
        if column.originalName.value !in originalNames || column.originalName.value in supplied {
          return Err(ColumnsDoNotMatch);
        }
        supplied := supplied + {column.originalName.value};
      }
      if !column.removed {
        if !check.column(column) {
          return Err(InvalidDefinition);
        }
        if column.name in resulting {
          return Err(DuplicateColumns);
        }
        resulting := resulting + {column.name};
      }
    }
    assert edits[..|edits|] == edits;
    SuppliedMeans(detail, edits, originalNames);
    if supplied != originalNames {
      return Err(MissingColumns);
    }
    var statements := BuildAlterTableStatements(table, newName, detail, edits);
    return Ok(statements);
  }

  lemma NothingYet(check: Validators, detail: TableDetail, edits: seq<ColumnEdit>)
    ensures Originals(edits[..0]) == {} && Results(edits[..0]) == {}
    ensures NamesKnown(detail, edits[..0]) && OriginalsDistinct(edits[..0])
    ensures DefinitionsValid(check, edits[..0]) && ResultsDistinct(edits[..0])
  {
  }

  lemma SuppliedMeans(detail: TableDetail, edits: seq<ColumnEdit>, names: set<string>)
    requires NamesKnown(detail, edits) && names == set c <- detail.columns :: c.name
    ensures Originals(edits) == names <==> AllSupplied(detail, edits)
  {
    assert forall e <- edits :: e.originalName.Some? ==> e.originalName.value in names;
    forall n
      ensures n in Originals(edits) <==> exists e <- edits :: e.originalName == Some(n)
    {
      if e :| e in edits && e.originalName == Some(n) {
        var i: nat :| i < |edits| && edits[i] == e;
      }
    }
    if Originals(edits) == names {
      forall c | c in detail.columns
        ensures exists e <- edits :: e.originalName == Some(c.name)
      {
        assert c.name in names;
      }
    }
  }
}

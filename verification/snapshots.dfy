/** What one side of a comparison looks like: a schema as read from the catalog. */
module Snapshots {
  import opened Options

  datatype Column = Column(
    name: string, dataType: string, notNull: bool,
    default: Option<string>, identity: Option<char>, generated: Option<string>)

  datatype Constraint = Constraint(kind: char, definition: string)

  datatype TableSnapshot = TableSnapshot(
    columns: seq<Column>, partitionKey: Option<string>, constraints: map<string, Constraint>,
    indexes: map<string, string>, triggers: map<string, string>)

  datatype ViewSnapshot = ViewSnapshot(materialized: bool, definition: string)

  datatype RoutineSnapshot = RoutineSnapshot(
    name: string, identityArguments: string, procedure: bool, definition: string)

  datatype Sequence = Sequence(
    dataType: string, start: string, increment: string, min: string, max: string, cache: string, cycle: bool)

  datatype SchemaSnapshot = SchemaSnapshot(
    schema: string, tables: map<string, TableSnapshot>, views: map<string, ViewSnapshot>,
    routines: map<string, RoutineSnapshot>, sequences: map<string, Sequence>)

  const FOREIGN_KEY := 'f'
  const PRIMARY_KEY := 'p'
  const UNIQUE := 'u'
  const EXCLUSION := 'x'

  // Snapshots key a routine by `name(identity arguments)`.
  function RoutineKey(routine: RoutineSnapshot): string {
    routine.name + "(" + routine.identityArguments + ")"
  }

  // `collect::<BTreeMap>` over the columns by name: the last one of a name wins.
  function ColumnMap(columns: seq<Column>): (named: map<string, Column>)
    ensures forall n :: n in named ==> named[n] in columns && named[n].name == n
    ensures forall c <- columns :: c.name in named
  {
    if columns == [] then map[]
    else
      var last := columns[|columns| - 1];
      ColumnMap(columns[..|columns| - 1])[last.name := last]
  }

  ghost predicate DistinctColumns(columns: seq<Column>) {
    forall i, j :: 0 <= i < j < |columns| ==> columns[i].name != columns[j].name
  }

  lemma {:induction false} ColumnMapAt(columns: seq<Column>, i: nat)
    requires DistinctColumns(columns) && i < |columns|
    ensures ColumnMap(columns)[columns[i].name] == columns[i]
  {
    var found := ColumnMap(columns)[columns[i].name];
    var j :| 0 <= j < |columns| && columns[j] == found;
    assert i == j;
  }

  lemma ColumnMapPrefix(columns: seq<Column>, i: nat)
    requires i < |columns|
    ensures ColumnMap(columns[..i + 1]) == ColumnMap(columns[..i])[columns[i].name := columns[i]]
  {
    assert columns[..i + 1][..i] == columns[..i];
  }
}

/** Which snapshots PostgreSQL can hold, and when the comparison's script can be run. */
module Applies {
  import opened Options
  import opened Names
  import opened Snapshots
  import opened Diff
  import opened Database

  /* ---- What the catalog guarantees ---- */

  predicate ColumnShape(c: Column) {
    (c.identity.Some? ==>
       c.notNull && c.default.None? && c.generated.None? && (c.identity.value == 'a' || c.identity.value == 'd')) &&
    (c.generated.Some? ==> c.default.None?)
  }

  ghost predicate ColumnSound(pg: Reader, db: Db, c: Column) {
    ColumnShape(c) && (c.identity.Some? ==> pg.identityType(c.dataType)) &&
    OptionAvailable(pg, db, c.default) && OptionAvailable(pg, db, c.generated)
  }

  ghost predicate ConstraintSound(pg: Reader, db: Db, columns: map<string, Column>, c: Constraint) {
    pg.columns(c.definition) <= columns.Keys &&
    Available(pg, db, c.definition) &&
    (IsKey(c) ==> forall n <- pg.columns(c.definition) :: columns[n].notNull) &&
    (IsForeign(c) && pg.references(c.definition).Some? ==> pg.references(c.definition).value in db.tables)
  }

  ghost predicate OneKey(constraints: map<string, Constraint>) {
    forall a, b :: a in constraints && b in constraints && IsKey(constraints[a]) && IsKey(constraints[b]) ==> a == b
  }

  ghost predicate PartitionSound(pg: Reader, db: Db, columns: map<string, Column>, partitionKey: string) {
    pg.columns(partitionKey) <= columns.Keys && pg.routines(partitionKey) <= Signatures(pg, db.routines)
  }

  ghost predicate TableSound(pg: Reader, db: Db, t: Table) {
    (forall n <- t.columns :: t.columns[n].name == n && ColumnSound(pg, db, t.columns[n])) &&
    (forall k <- t.constraints :: ConstraintSound(pg, db, t.columns, t.constraints[k])) &&
    OneKey(t.constraints) && Complete(pg, t.columns) &&
    (t.partitionKey.Some? ==> PartitionSound(pg, db, t.columns, t.partitionKey.value)) &&
    (forall g <- t.triggers ::
      pg.routines(t.triggers[g]) <= Signatures(pg, db.routines) && pg.columns(t.triggers[g]) <= t.columns.Keys)
  }

  ghost predicate IndexSound(pg: Reader, db: Db, i: Index) {
    i.table in db.tables && pg.columns(i.text) <= db.tables[i.table].columns.Keys &&
    pg.routines(i.text) <= Signatures(pg, db.routines)
  }

  ghost predicate ViewSound(pg: Reader, db: Db, name: string, v: View) {
    name !in pg.relations(v.body) && pg.relations(v.body) <= db.tables.Keys + db.views.Keys &&
    pg.routines(v.body) <= Signatures(pg, db.routines) &&
    (forall p <- pg.viewColumns(v.body) :: ColumnThere(pg, db, p.0, p.1) && p.0 in pg.relations(v.body))
  }

  ghost predicate RoutineSound(pg: Reader, db: Db, r: Routine) {
    pg.relations(r.body) <= db.tables.Keys + db.views.Keys && pg.routines(r.body) <= Signatures(pg, db.routines)
  }

  ghost predicate BackedOnce(tables: map<string, Table>) {
    forall t <- tables, u <- tables, k <- BackedNames(tables[t].constraints) ::
      k in BackedNames(tables[u].constraints) ==> t == u
  }

  ghost predicate NamesDisjoint(db: Db) {
    db.sequences.Keys !! db.tables.Keys !! db.indexes.Keys !! db.views.Keys !! Backing(db.tables) &&
      BackedOnce(db.tables)
  }

  ghost predicate DistinctSignatures(pg: Reader, routines: map<string, Routine>) {
    forall a <- routines, b <- routines :: pg.signature(a) == pg.signature(b) ==> a == b
  }

  // No definition refers to something that is not there, and names are used once.
  ghost predicate Consistent(pg: Reader, db: Db) {
    (forall t <- db.tables :: TableSound(pg, db, db.tables[t])) &&
    (forall i <- db.indexes :: IndexSound(pg, db, db.indexes[i])) &&
    (forall v <- db.views :: ViewSound(pg, db, v, db.views[v])) &&
    (forall k <- db.routines :: RoutineSound(pg, db, db.routines[k])) &&
    NamesDisjoint(db) && DistinctSignatures(pg, db.routines)
  }

  // Routines are stored by their name and arguments.
  ghost predicate Keyed(s: SchemaSnapshot) { forall k <- s.routines :: RoutineKey(s.routines[k]) == k }

  // A routine's definition declares the name, the arguments and the kind the snapshot holds beside it.
  ghost predicate FieldsAgree(pg: Reader, s: SchemaSnapshot) {
    forall k <- s.routines ::
      RoutineKey(s.routines[k]) == pg.routineKey(NormalizeBody(s.routines[k].definition)) &&
      s.routines[k].procedure == pg.isProcedure(NormalizeBody(s.routines[k].definition))
  }

  ghost predicate Valid(pg: Reader, s: SchemaSnapshot) {
    DistinctIndexes(s) && Keyed(s) && FieldsAgree(pg, s) &&
    (forall t <- s.tables :: DistinctColumns(s.tables[t].columns)) &&
    Consistent(pg, DbOf(s))
  }

  // The reader knows this schema: its name, and which of its columns own which of its sequences.
  ghost predicate Describes(pg: Reader, target: SchemaSnapshot) {
    pg.schema == target.schema &&
    forall q :: pg.owner(q).Some? ==>
      q in target.sequences && pg.owner(q).value.0 in target.tables &&
      pg.owner(q).value.1 in ColumnMap(target.tables[pg.owner(q).value.0].columns)
  }

  /* ---- When the script applies: `s` is the wanted schema, `d` the schema it is run on ---- */

  predicate Same<V(==)>(a: map<string, V>, b: map<string, V>, name: string) {
    name in a && name in b && a[name] == b[name]
  }

  // A changed view is dropped only if one of its sides is materialized.
  predicate ViewDropped(s: Db, d: Db, v: string)
    requires v in d.views
  {
    v !in s.views || (d.views[v] != s.views[v] && (d.views[v].materialized || s.views[v].materialized))
  }

  function KeptViews(s: Db, d: Db): map<string, View> {
    d.views - set v | v in d.views && ViewDropped(s, d, v)
  }

  // The target's tables that the source lacks.
  function RemovedTables(s: Db, d: Db): map<string, Table> { d.tables - s.tables.Keys }

  // Relations of the target that the script drops only at its end.
  function DroppedLate(s: Db, d: Db): set<string> {
    (d.sequences.Keys - s.sequences.Keys) + RemovedTables(s, d).Keys + Backing(RemovedTables(s, d)) +
    set i | i in d.indexes && d.indexes[i].table !in s.tables
  }

  predicate OptionCalls(pg: Reader, d: Db, text: Option<string>) {
    text.Some? ==> pg.routines(text.value) <= Signatures(pg, d.routines)
  }

  // The script can rewrite no partition key and no generation expression.
  predicate Expressible(f: Table, t: Table) {
    f.partitionKey == t.partitionKey &&
    forall n <- f.columns :: n in t.columns ==> f.columns[n].generated == t.columns[n].generated
  }

  predicate NewColumnApplies(pg: Reader, d: Db, c: Column) {
    OptionCalls(pg, d, c.default) && OptionComputable(pg, d.routines, c.generated)
  }

  // The entries both sides agree on.
  function Common<V(==)>(f: map<string, V>, t: map<string, V>): map<string, V> {
    f - set n | n in f && !Same(f, t, n)
  }

  // A retyped column is not computed and read by no view that stays; it is held by no partition key and no trigger that
  // stays; there is a cast for its values and one for its default, and an identity column gets an integer type.
  predicate TypeApplies(pg: Reader, s: Db, d: Db, table: string, c: Column, existing: Column)
    requires table in s.tables && table in d.tables
  {
    existing.generated.None? && (existing.identity.Some? ==> pg.identityType(c.dataType)) &&
    pg.convertible(existing.dataType, c.dataType) &&
    (existing.default.Some? ==> pg.castable(existing.default.value, existing.dataType, c.dataType)) &&
    !ReadByView(pg, KeptViews(s, d), table, c.name) &&
    !HoldsColumn(pg, d.tables[table].partitionKey, Common(s.tables[table].triggers, d.tables[table].triggers), c.name)
  }

  // A new default calls no new routine, and a column that loses NOT NULL is in no primary key.
  predicate ColumnApplies(pg: Reader, s: Db, d: Db, table: string, c: Column, existing: Column)
    requires table in s.tables && table in d.tables
  {
    (existing.dataType != c.dataType ==> TypeApplies(pg, s, d, table, c, existing)) &&
    (existing.default != c.default ==> OptionCalls(pg, d, c.default)) &&
    (existing.notNull && !c.notNull ==> !InKey(pg, d.tables[table].constraints, c.name))
  }

  // A foreign key of both sides, which is never dropped, rests on the key.
  predicate RestedThroughout(pg: Reader, s: Db, d: Db, table: string, key: string) {
    exists t <- d.tables, k <- d.tables[t].constraints ::
      t in s.tables && IsForeign(d.tables[t].constraints[k]) &&
      Same(s.tables[t].constraints, d.tables[t].constraints, k) &&
      pg.key(t, k) == Some((table, key))
  }

  // Columns are dropped before changed constraints are, so such a constraint must not name a dropped column; nor can it
  // be dropped under a foreign key or a view that stays.
  predicate DroppedConstraintsApply(pg: Reader, s: Db, d: Db, table: string)
    requires table in s.tables && table in d.tables
  {
    var f, t := s.tables[table], d.tables[table];
    forall k <- t.constraints ::
      !IsForeign(t.constraints[k]) && !Same(f.constraints, t.constraints, k) ==>
        pg.columns(t.constraints[k].definition) <= f.columns.Keys && !RestedThroughout(pg, s, d, table, k) &&
        !Grouped(pg, KeptViews(s, d), table, k)
  }

  // Tables are changed in name order: the name of a created relation must not be that of a constraint still to be
  // dropped.
  predicate FreeInTurn(s: Db, d: Db, table: string, name: string) {
    name !in DroppedLate(s, d) &&
    forall u <- d.tables :: u in s.tables && Less(table, u) ==> name !in BackedNames(d.tables[u].constraints)
  }

  // Constraints are replaced in name order, so a renamed primary key must sort after the one it replaces.
  predicate NewConstraintApplies(pg: Reader, s: Db, d: Db, table: string, present: map<string, Constraint>,
                                 name: string, c: Constraint) {
    pg.routines(c.definition) <= Signatures(pg, d.routines) && (IsBacked(c) ==> FreeInTurn(s, d, table, name)) &&
    (IsKey(c) ==> forall b <- present :: IsKey(present[b]) && b != name ==> Less(b, name))
  }

  predicate NewConstraintsApply(pg: Reader, s: Db, d: Db, table: string, wanted: map<string, Constraint>,
                                present: map<string, Constraint>) {
    forall k <- wanted ::
      !IsForeign(wanted[k]) && !Same(wanted, present, k) ==>
        NewConstraintApplies(pg, s, d, table, present, k, wanted[k])
  }

  // The columns of a table when the wanted column `i` has its turn.
  function ColumnsSoFar(t: map<string, Column>, wanted: seq<Column>, i: nat): map<string, Column> {
    t + ColumnMap(if i <= |wanted| then wanted[..i] else wanted)
  }

  // What becomes of the changed foreign keys before any column changes.
  function WithoutChangedForeign(f: map<string, Constraint>, t: map<string, Constraint>): map<string, Constraint> {
    t - set k | k in t && IsForeign(t[k]) && !Same(f, t, k)
  }

  function KeptIndexes(s: Db, d: Db): map<string, Index> {
    d.indexes - set i | i in d.indexes && d.indexes[i].table in s.tables && !Same(s.indexes, d.indexes, i)
  }

  // The target's tables when a table has its turn with these columns: the ones before it have the source's columns, and
  // the foreign keys that change are gone.
  function TableInTurn(s: Db, d: Db, table: string, columns: map<string, Column>, u: string): Table
    requires u in d.tables
  {
    var t, wanted := d.tables[u], if u in s.tables then s.tables[u].constraints else map[];
    t.(columns := if u == table then columns
                  else if u in s.tables && Less(u, table) then s.tables[u].columns
                  else t.columns,
       constraints := WithoutChangedForeign(wanted, t.constraints))
  }

  function TablesInTurn(s: Db, d: Db, table: string, columns: map<string, Column>): map<string, Table> {
    map u | u in d.tables :: TableInTurn(s, d, table, columns, u)
  }

  // A retyped column feeds no computed column, and what names it makes sense for its new type, at its turn.
  predicate TypeFits(pg: Reader, s: Db, d: Db, table: string, c: Column, existing: Column, here: map<string, Column>)
    requires table in d.tables
  {
    !FeedsColumn(pg, here, c.name) &&
    TypesSound(pg, TablesInTurn(s, d, table, here[c.name := existing.(dataType := c.dataType)]), KeptIndexes(s, d),
               table)
  }

  // A new computed column needs its columns at its turn.
  predicate WantedColumnApplies(pg: Reader, s: Db, d: Db, table: string, wanted: seq<Column>, i: nat)
    requires table in s.tables && table in d.tables && i < |wanted|
  {
    var c, t, here := wanted[i], d.tables[table].columns, ColumnsSoFar(d.tables[table].columns, wanted, i);
    if c.name in t then
      ColumnApplies(pg, s, d, table, c, t[c.name]) &&
      (t[c.name].dataType != c.dataType ==> TypeFits(pg, s, d, table, c, t[c.name], here))
    else NewColumnApplies(pg, d, c) && (c.generated.Some? ==> pg.columns(c.generated.value) <= here.Keys)
  }

  function DroppedNames(columns: seq<Column>, f: map<string, Column>): set<string> {
    set c | c in columns && c.name !in f :: c.name
  }

  // A dropped column is read by no view that stays and feeds no computed column that is still there.
  predicate UnwantedColumnApplies(pg: Reader, s: Db, d: Db, table: string, present: seq<Column>, i: nat)
    requires table in s.tables && table in d.tables && i < |present|
  {
    var f, t, c := s.tables[table].columns, d.tables[table].columns, present[i].name;
    c !in f ==>
      !ReadByView(pg, KeptViews(s, d), table, c) &&
      !FeedsColumn(pg, t + f - DroppedNames(present[..i], f) - {c}, c)
  }

  ghost predicate ColumnsApply(pg: Reader, s: Db, d: Db, table: string, wanted: seq<Column>, present: seq<Column>)
    requires table in s.tables && table in d.tables
  {
    (forall i: nat :: i < |wanted| ==> WantedColumnApplies(pg, s, d, table, wanted, i)) &&
    (forall i: nat :: i < |present| ==> UnwantedColumnApplies(pg, s, d, table, present, i))
  }

  ghost predicate KeptTableApplies(pg: Reader, s: Db, d: Db, table: string, from: TableSnapshot, to: TableSnapshot)
    requires table in s.tables && table in d.tables
  {
    ColumnsApply(pg, s, d, table, from.columns, to.columns) && DroppedConstraintsApply(pg, s, d, table) &&
    NewConstraintsApply(pg, s, d, table, from.constraints, to.constraints)
  }

  predicate NewTableApplies(pg: Reader, s: Db, d: Db, table: string, f: Table) {
    FreeInTurn(s, d, table, table) &&
    OptionComputable(pg, d.routines, f.partitionKey) &&
    (forall n <- f.columns :: NewColumnApplies(pg, d, f.columns[n])) &&
    NewConstraintsApply(pg, s, d, table, f.constraints, map[])
  }

  ghost predicate TablesApply(pg: Reader, source: SchemaSnapshot, target: SchemaSnapshot, s: Db, d: Db)
    requires s.tables.Keys == source.tables.Keys && d.tables.Keys == target.tables.Keys
  {
    forall n <- s.tables ::
      if n in d.tables then
        Expressible(s.tables[n], d.tables[n]) && KeptTableApplies(pg, s, d, n, source.tables[n], target.tables[n])
      else NewTableApplies(pg, s, d, n, s.tables[n])
  }

  // A sequence is created before any constraint is dropped.
  predicate NewSequencesFree(s: Db, d: Db) {
    forall n <- s.sequences :: n !in d.sequences ==> n !in DroppedLate(s, d) && n !in Backing(d.tables)
  }

  // A relation the script creates after the tables may not be called like one it drops later.
  predicate Free(s: Db, d: Db, name: string) { name !in DroppedLate(s, d) }

  // Nor may an index call a routine that is not immutable.
  predicate IndexApplies(pg: Reader, s: Db, d: Db, i: string)
    requires i in s.indexes
  {
    Free(s, d, i) && Computable(pg, s.routines, s.indexes[i].text)
  }

  predicate NewIndexesApply(pg: Reader, s: Db, d: Db) {
    forall i <- s.indexes :: !Same(s.indexes, d.indexes, i) ==> IndexApplies(pg, s, d, i)
  }

  // The index of a table with a dot in its name is dropped from a schema that is not there, and a foreign key keeps its
  // key.
  predicate IndexDropsApply(pg: Reader, s: Db, d: Db) {
    forall i <- d.indexes :: d.indexes[i].table in s.tables && !Same(s.indexes, d.indexes, i) ==>
      '.' !in d.indexes[i].table && !RestedThroughout(pg, s, d, d.indexes[i].table, i)
  }

  // Views are dropped in name order, so those that read a dropped one must come before it.
  predicate ReadersGone(pg: Reader, s: Db, d: Db, v: string) {
    forall w <- d.views :: w != v && v in pg.relations(d.views[w].body) ==> ViewDropped(s, d, w) && Less(w, v)
  }

  // No routine is dropped before a view is.
  predicate ViewDropsApply(pg: Reader, s: Db, d: Db) {
    forall v <- d.views :: ViewDropped(s, d, v) ==> !RowsTaken(pg, d.routines, v) && ReadersGone(pg, s, d, v)
  }

  // A new view needs a free name, and a replaced one keeps its columns.
  predicate ViewNamesApply(pg: Reader, s: Db, d: Db) {
    forall v <- s.views ::
      if v in KeptViews(s, d) then
        s.views[v] != d.views[v] ==> pg.outputs(d.views[v].body) <= pg.outputs(s.views[v].body)
      else Free(s, d, v)
  }

  // The view reads no column of the other one that it lacks as it stands in the target.
  predicate ReadsOld(pg: Reader, s: Db, d: Db, v: string, w: string)
    requires v in s.views && w in d.views
  {
    forall p <- pg.viewColumns(s.views[v].body) :: p.0 == w ==> p.1 in OutputNames(pg.outputs(d.views[w].body))
  }

  // A view that is read by an earlier one must be there with the columns that one reads.
  predicate ViewCreatesApply(pg: Reader, s: Db, d: Db) {
    forall v <- s.views, w <- s.views ::
      !Same(s.views, d.views, v) && w in pg.relations(s.views[v].body) ==>
        Less(w, v) || (w in KeptViews(s, d) && ReadsOld(pg, s, d, v, w))
  }

  // A new routine, or one that is replaced, takes and returns no rows of a view that is created only later, and its
  // arguments' defaults call no routine that is.
  predicate RoutineFinds(pg: Reader, s: Db, d: Db, k: string)
    requires k in s.routines
  {
    pg.relations(s.routines[k].body) <= s.tables.Keys + d.tables.Keys + KeptViews(s, d).Keys &&
    forall j <- s.routines :: pg.signature(j) in pg.routines(s.routines[k].body) ==> j in d.routines || Less(j, k)
  }

  // A replaced routine keeps its kind, its return type and the names of its arguments.
  predicate RoutinesApply(pg: Reader, s: Db, d: Db) {
    forall k <- s.routines :: k !in d.routines || s.routines[k].body != d.routines[k].body ==>
      RoutineFinds(pg, s, d, k) &&
      (k in d.routines ==>
         s.routines[k].procedure == d.routines[k].procedure && pg.mayReplace(d.routines[k].body, s.routines[k].body))
  }

  // A routine whose arguments only change names has another key: the script replaces it, and then drops it again.
  predicate SignaturesStay(pg: Reader, s: Db, d: Db) {
    forall k <- s.routines, j <- d.routines :: pg.signature(k) == pg.signature(j) ==> k == j
  }

  // Routines are dropped before tables, so no dropped table uses a dropped routine.
  predicate DroppedRoutineFree(pg: Reader, s: Db, d: Db, signature: string) {
    (forall t <- d.tables :: t !in s.tables ==> !TableUsesRoutine(pg, DropForeign(d.tables[t]), signature)) &&
    (forall i <- d.indexes :: d.indexes[i].table !in s.tables ==> signature !in pg.routines(d.indexes[i].text))
  }

  // And they are dropped in the order of their keys, so one whose argument defaults call another must come before it.
  predicate CallersGone(pg: Reader, s: Db, d: Db, k: string) {
    forall j <- d.routines ::
      j !in s.routines && j != k && pg.signature(k) in pg.routines(d.routines[j].body) ==> Less(j, k)
  }

  predicate RoutineDropsApply(pg: Reader, s: Db, d: Db) {
    forall k <- d.routines :: k !in s.routines ==>
      DroppedRoutineFree(pg, s, d, pg.signature(k)) && CallersGone(pg, s, d, k)
  }

  // Dropping a column takes the sequences it owns with it, so neither can the script keep such a sequence nor drop it.
  predicate OwnersStay(pg: Reader, s: Db, d: Db) {
    forall q <- d.sequences :: pg.owner(q).Some? ==>
      pg.owner(q).value.0 in s.tables && pg.owner(q).value.1 in s.tables[pg.owner(q).value.0].columns
  }

  function NonForeign(constraints: map<string, Constraint>): map<string, Constraint> {
    constraints - set k | k in constraints && IsForeign(constraints[k])
  }

  function DropForeign(t: Table): Table {
    t.(constraints := NonForeign(t.constraints))
  }

  ghost predicate ScriptApplies(pg: Reader, source: SchemaSnapshot, target: SchemaSnapshot)
    requires DistinctIndexes(source) && DistinctIndexes(target)
  {
    var s, d := DbOf(source), DbOf(target);
    OwnersStay(pg, s, d) && SignaturesStay(pg, s, d) && IndexDropsApply(pg, s, d) && NewSequencesFree(s, d) &&
    TablesApply(pg, source, target, s, d) && RoutinesApply(pg, s, d) &&
    ViewDropsApply(pg, s, d) && ViewNamesApply(pg, s, d) && ViewCreatesApply(pg, s, d) &&
    NewIndexesApply(pg, s, d) && RoutineDropsApply(pg, s, d)
  }
}

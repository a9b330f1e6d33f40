/**
 A schema inside PostgreSQL and the statements that change it. `Exec` is `None` when PostgreSQL refuses the
 statement. What PostgreSQL reads inside a definition text is a parameter, so every result holds for all of them.
 */
module Database {
  import opened Options
  import opened Text
  import opened Identifiers
  import opened Snapshots
  import opened Statements
  import opened Diff

  datatype Table = Table(
    columns: map<string, Column>, partitionKey: Option<string>, constraints: map<string, Constraint>,
    triggers: map<string, string>)

  datatype Index = Index(table: string, text: string)

  datatype View = View(materialized: bool, body: string)

  datatype Routine = Routine(procedure: bool, body: string)

  datatype Db = Db(
    sequences: map<string, Sequence>, tables: map<string, Table>, indexes: map<string, Index>,
    views: map<string, View>, routines: map<string, Routine>)

  /**
   What PostgreSQL knows and a snapshot does not spell out: what it reads in a definition text, limited to objects of
   the schema, and which types, owners and keys there are.
   */
  datatype Reader = Reader(
    schema: string,                               // the name of the schema the script runs on
    columns: string -> set<string>,               // columns of its own table a definition names
    sequences: string -> set<string>,             // sequences a default calls `nextval` on
    // Signatures of the routines a text calls; of a routine's own definition, those its argument defaults call.
    routines: string -> set<string>,
    references: string -> Option<string>,         // the table a foreign key points at
    // The tables and views a view reads, or whose rows a routine takes or returns.
    relations: string -> set<string>,
    viewColumns: string -> set<(string, string)>, // the columns of tables and views a view reads
    outputs: string -> seq<(string, string)>,     // the names and types of a view's own columns
    isProcedure: string -> bool,                  // does a routine's definition declare a procedure?
    routineKey: string -> string,                 // the name and arguments a routine's definition declares
    signature: string -> string,                  // what tells routines apart: a key without the names of arguments
    // Has the second routine the first one's return type and argument names, and no default less?
    mayReplace: (string, string) -> bool,
    immutable: string -> bool,                    // does a routine's definition declare it immutable?
    identityType: string -> bool,                 // may a column of the type be an identity column?
    convertible: (string, string) -> bool,        // is there a cast from the first type to the second?
    // Can a default of a column of the first type be cast to the second type as in an assignment?
    castable: (string, string, string) -> bool,
    fits: (string, map<string, string>) -> bool,  // makes a definition sense for columns of these types?
    // ... and a foreign key, for the columns of its own and of the other table?
    joins: (string, map<string, string>, map<string, string>) -> bool,
    owner: string -> Option<(string, string)>,    // the table and column a sequence belongs to
    // The table and key a foreign key rests on, given its table and name.
    key: (string, string) -> Option<(string, string)>,
    viewKeys: string -> set<(string, string)>)    // the tables and primary keys a view's grouping relies on

  predicate IsKey(c: Constraint) { c.kind == PRIMARY_KEY }

  predicate IsForeign(c: Constraint) { c.kind == FOREIGN_KEY }

  // Primary keys, unique and exclusion constraints have an index of their name.
  predicate IsBacked(c: Constraint) { c.kind == PRIMARY_KEY || c.kind == UNIQUE || c.kind == EXCLUSION }

  function BackedNames(constraints: map<string, Constraint>): set<string> {
    set k | k in constraints && IsBacked(constraints[k])
  }

  function Backing(tables: map<string, Table>): set<string> {
    set t, k | t in tables && k in BackedNames(tables[t].constraints) :: k
  }

  // Tables, views, sequences and indexes, those of constraints included, share one name space.
  function RelationNames(db: Db): set<string> {
    db.sequences.Keys + db.tables.Keys + db.indexes.Keys + db.views.Keys + Backing(db.tables)
  }

  // The names taken for a constraint of the table: all but those of the table's own constraints.
  function OtherNames(db: Db, table: string): set<string> {
    db.sequences.Keys + db.tables.Keys + db.indexes.Keys + db.views.Keys + Backing(db.tables - {table})
  }

  function Signatures(pg: Reader, routines: map<string, Routine>): set<string> {
    set k | k in routines :: pg.signature(k)
  }

  // The routines PostgreSQL takes the key for.
  function Alike(pg: Reader, routines: map<string, Routine>, key: string): set<string> {
    set k | k in routines && pg.signature(k) == pg.signature(key)
  }

  function Immutables(pg: Reader, routines: map<string, Routine>): map<string, Routine> {
    routines - set k | k in routines && !pg.immutable(routines[k].body)
  }

  // Calls the text immutable routines only, as generation expressions, indexes and partition keys have to?
  predicate Computable(pg: Reader, routines: map<string, Routine>, text: string) {
    pg.routines(text) <= Signatures(pg, Immutables(pg, routines))
  }

  predicate OptionComputable(pg: Reader, routines: map<string, Routine>, text: Option<string>) {
    text.Some? ==> Computable(pg, routines, text.value)
  }

  predicate Available(pg: Reader, db: Db, text: string) {
    pg.sequences(text) <= db.sequences.Keys && pg.routines(text) <= Signatures(pg, db.routines)
  }

  predicate OptionAvailable(pg: Reader, db: Db, text: Option<string>) {
    text.Some? ==> Available(pg, db, text.value)
  }

  // Is the column part of a primary key?
  predicate InKey(pg: Reader, constraints: map<string, Constraint>, column: string) {
    exists k <- constraints :: IsKey(constraints[k]) && column in pg.columns(constraints[k].definition)
  }

  predicate ReadByView(pg: Reader, views: map<string, View>, table: string, column: string) {
    exists v <- views :: (table, column) in pg.viewColumns(views[v].body)
  }

  // The column a definition declares.
  function DeclaredColumn(d: ColumnDefinition): Column {
    match d.rule
    case GeneratedAs(e) => Column(d.name, d.dataType, d.notNull, None, None, Some(e))
    case IdentityColumn(always) => Column(d.name, d.dataType, true, None, Some(if always then 'a' else 'd'), None)
    case DefaultTo(v) => Column(d.name, d.dataType, d.notNull, Some(v), None, None)
    case NoRule => Column(d.name, d.dataType, d.notNull, None, None, None)
  }

  // Is the column computed from the other one?
  predicate ComputedFrom(pg: Reader, c: Column, column: string) {
    c.generated.Some? && column in pg.columns(c.generated.value)
  }

  predicate FeedsColumn(pg: Reader, columns: map<string, Column>, column: string) {
    exists x <- columns :: ComputedFrom(pg, columns[x], column)
  }

  // The partition key and the triggers of a table hold on to the columns they name.
  predicate HoldsColumn(pg: Reader, partitionKey: Option<string>, triggers: map<string, string>, column: string) {
    (partitionKey.Some? && column in pg.columns(partitionKey.value)) ||
    exists g <- triggers :: column in pg.columns(triggers[g])
  }

  function Types(columns: map<string, Column>): map<string, string> {
    map n | n in columns :: TypeOf(columns[n])
  }

  function TypeOf(c: Column): string { c.dataType }

  function TypesIn(tables: map<string, Table>, table: Option<string>): map<string, string> {
    if table.Some? && table.value in tables then Types(tables[table.value].columns) else map[]
  }

  // Do the table's constraints and indexes, and the foreign keys from and to it, make sense for the types of its
  // columns?
  predicate TypesSound(pg: Reader, tables: map<string, Table>, indexes: map<string, Index>, table: string)
    requires table in tables
  {
    (forall k <- tables[table].constraints :: !IsForeign(tables[table].constraints[k]) ==>
       pg.fits(tables[table].constraints[k].definition, Types(tables[table].columns))) &&
    (forall i <- indexes :: indexes[i].table == table ==> pg.fits(indexes[i].text, Types(tables[table].columns))) &&
    forall t <- tables, k <- tables[t].constraints :: IsForeign(tables[t].constraints[k]) ==>
      JoinSound(pg, tables, t, tables[t].constraints[k].definition, table)
  }

  predicate JoinSound(pg: Reader, tables: map<string, Table>, t: string, definition: string, table: string) {
    t == table || pg.references(definition) == Some(table) ==>
      pg.joins(definition, TypesIn(tables, Some(t)), TypesIn(tables, pg.references(definition)))
  }

  function WithColumnIn(tables: map<string, Table>, table: string, c: Column): map<string, Table>
    requires table in tables
  {
    tables[table := tables[table].(columns := tables[table].columns[c.name := c])]
  }

  // The statement names a USING expression, which a generated column may not have.
  predicate Retypes(pg: Reader, db: Db, table: string, c: Column, dataType: string)
    requires table in db.tables
  {
    c.generated.None? && (c.identity.Some? ==> pg.identityType(dataType)) &&
    pg.convertible(c.dataType, dataType) &&
    (c.default.Some? ==> pg.castable(c.default.value, c.dataType, dataType)) &&
    !ReadByView(pg, db.views, table, c.name) && !FeedsColumn(pg, db.tables[table].columns, c.name) &&
    !HoldsColumn(pg, db.tables[table].partitionKey, db.tables[table].triggers, c.name) &&
    TypesSound(pg, WithColumnIn(db.tables, table, c.(dataType := dataType)), db.indexes, table)
  }

  function ChangeColumn(pg: Reader, db: Db, table: string, c: Column, change: ColumnChange): Option<Column>
    requires table in db.tables
  {
    match change
    case SetType(t) => if Retypes(pg, db, table, c, t) then Some(c.(dataType := t)) else None
    case DropIdentity => if c.identity.None? then None else Some(c.(identity := None))
    case SetDefault(v) =>
      if c.identity.Some? || c.generated.Some? || !Available(pg, db, v) then None else Some(c.(default := Some(v)))
    case DropDefault => if c.identity.Some? || c.generated.Some? then None else Some(c.(default := None))
    case SetNotNull => Some(c.(notNull := true))
    case DropNotNull =>
      if c.identity.Some? || InKey(pg, db.tables[table].constraints, c.name) then None else Some(c.(notNull := false))
    case AddIdentity(always) =>
      if c.identity.Some? || c.default.Some? || c.generated.Some? || !c.notNull || !pg.identityType(c.dataType) then
        None
      else Some(c.(identity := Some(if always then 'a' else 'd')))
    case SetIdentity(always) =>
      if c.identity.None? then None else Some(c.(identity := Some(if always then 'a' else 'd')))
  }

  function PutTable(db: Db, name: string, table: Table): Db {
    db.(tables := db.tables[name := table])
  }

  lemma PutTwice(db: Db, name: string, first: Table, second: Table)
    ensures PutTable(PutTable(db, name, first), name, second) == PutTable(db, name, second)
  {
    assert db.tables[name := first][name := second] == db.tables[name := second];
  }

  lemma PutSame(db: Db, name: string)
    requires name in db.tables
    ensures PutTable(db, name, db.tables[name]) == db
  {
    assert db.tables[name := db.tables[name]] == db.tables;
  }

  // In `CREATE TABLE`, where the order of the columns does not matter.
  function ExecDeclareColumn(pg: Reader, db: Db, table: string, d: ColumnDefinition): Option<Db> {
    var c := DeclaredColumn(d);
    if table !in db.tables || d.name in db.tables[table].columns ||
       !OptionAvailable(pg, db, c.default) || !OptionAvailable(pg, db, c.generated) ||
       !OptionComputable(pg, db.routines, c.generated) || (c.identity.Some? && !pg.identityType(c.dataType)) then None
    else
      var t := db.tables[table];
      Some(PutTable(db, table, t.(columns := t.columns[d.name := c])))
  }

  // An added column can be computed from columns that are already there.
  function ExecAddColumn(pg: Reader, db: Db, table: string, d: ColumnDefinition): Option<Db> {
    var c := DeclaredColumn(d);
    if table in db.tables && c.generated.Some? && !(pg.columns(c.generated.value) <= db.tables[table].columns.Keys) then
      None
    else ExecDeclareColumn(pg, db, table, d)
  }

  predicate Complete(pg: Reader, columns: map<string, Column>) {
    forall n <- columns :: columns[n].generated.Some? ==> pg.columns(columns[n].generated.value) <= columns.Keys
  }

  function WithoutColumn(pg: Reader, constraints: map<string, Constraint>, column: string): map<string, Constraint> {
    constraints - set k | k in constraints && column in pg.columns(constraints[k].definition)
  }

  function IndexesWithoutColumn(pg: Reader, indexes: map<string, Index>, table: string,
                                column: string): map<string, Index> {
    indexes - set i | i in indexes && indexes[i].table == table && column in pg.columns(indexes[i].text)
  }

  function OwnedBy(pg: Reader, sequences: map<string, Sequence>, table: string, column: string): set<string> {
    set n | n in sequences && pg.owner(n) == Some((table, column))
  }

  // The table's own constraints and indexes on the column go with it, and so do the sequences it owns.
  function ExecDropColumn(pg: Reader, db: Db, table: string, column: string): Option<Db> {
    if table !in db.tables || column !in db.tables[table].columns || ReadByView(pg, db.views, table, column) ||
       FeedsColumn(pg, db.tables[table].columns - {column}, column) ||
       HoldsColumn(pg, db.tables[table].partitionKey, db.tables[table].triggers, column) then None
    else
      var t := db.tables[table];
      var owned := OwnedBy(pg, db.sequences, table, column);
      var tables := db.tables[table := t.(columns := t.columns - {column},
                                          constraints := WithoutColumn(pg, t.constraints, column))];
      if exists n <- owned :: SequenceUsed(pg, tables, n) then None
      else Some(db.(tables := tables, sequences := db.sequences - owned,
                    indexes := IndexesWithoutColumn(pg, db.indexes, table, column)))
  }

  function WithNotNull(c: Column): Column { c.(notNull := true) }

  function RequireNotNull(columns: map<string, Column>, names: set<string>): map<string, Column> {
    map n | n in columns :: if n in names then WithNotNull(columns[n]) else columns[n]
  }

  // A primary key is the only one of its table and makes its columns NOT NULL.
  function ExecAddConstraint(pg: Reader, db: Db, table: string, name: string, c: Constraint): Option<Db> {
    if table !in db.tables then None
    else
      var t := db.tables[table];
      if name in t.constraints || !(pg.columns(c.definition) <= t.columns.Keys) || !Available(pg, db, c.definition) then
        None
      else if IsBacked(c) && name in OtherNames(db, table) then None
      else if IsForeign(c) && pg.references(c.definition).Some? && pg.references(c.definition).value !in db.tables then
        None
      else if IsKey(c) && exists k <- t.constraints :: IsKey(t.constraints[k]) then None
      else
        var columns := if IsKey(c) then RequireNotNull(t.columns, pg.columns(c.definition)) else t.columns;
        Some(PutTable(db, table, t.(columns := columns, constraints := t.constraints[name := c])))
  }

  function ExecAddColumns(pg: Reader, db: Db, table: string, columns: seq<ColumnDefinition>): Option<Db> {
    if columns == [] then Some(db)
    else
      var before := ExecAddColumns(pg, db, table, columns[..|columns| - 1]);
      if before.None? then None else ExecDeclareColumn(pg, before.value, table, columns[|columns| - 1])
  }

  function ExecAddConstraints(pg: Reader, db: Db, table: string, constraints: seq<(string, Constraint)>): Option<Db> {
    if constraints == [] then Some(db)
    else
      var before := ExecAddConstraints(pg, db, table, constraints[..|constraints| - 1]);
      var last := constraints[|constraints| - 1];
      if before.None? then None else ExecAddConstraint(pg, before.value, table, last.0, last.1)
  }

  // `CREATE TABLE` declares its columns, then its constraints; it has an effect only if all are accepted.
  function ExecCreateTable(pg: Reader, db: Db, table: string, columns: seq<ColumnDefinition>,
                           constraints: seq<(string, Constraint)>, partitionKey: Option<string>): Option<Db> {
    if table in RelationNames(db) || !OptionComputable(pg, db.routines, partitionKey) then None
    else
      var withColumns :=
        ExecAddColumns(pg, PutTable(db, table, Table(map[], partitionKey, map[], map[])), table, columns);
      if withColumns.None? || table !in withColumns.value.tables ||
         !Complete(pg, withColumns.value.tables[table].columns) ||
         (partitionKey.Some? && !(pg.columns(partitionKey.value) <= withColumns.value.tables[table].columns.Keys)) then
        None
      else ExecAddConstraints(pg, withColumns.value, table, constraints)
  }

  function IndexesOn(indexes: map<string, Index>, table: string): set<string> {
    set i | i in indexes && indexes[i].table == table
  }

  // Is there a foreign key on another table that points at this one?
  predicate Referenced(pg: Reader, tables: map<string, Table>, table: string) {
    exists t <- tables, k <- tables[t].constraints ::
      t != table && IsForeign(tables[t].constraints[k]) &&
      pg.references(tables[t].constraints[k].definition) == Some(table)
  }

  // Is there a routine that takes or returns rows of the relation?
  predicate RowsTaken(pg: Reader, routines: map<string, Routine>, relation: string) {
    exists k <- routines :: relation in pg.relations(routines[k].body)
  }

  predicate ReadRelation(pg: Reader, views: map<string, View>, relation: string) {
    exists v <- views :: v != relation && relation in pg.relations(views[v].body)
  }

  // Is there a foreign key that rests on the key?
  predicate Rested(pg: Reader, tables: map<string, Table>, table: string, key: string) {
    exists t <- tables, k <- tables[t].constraints ::
      IsForeign(tables[t].constraints[k]) && pg.key(t, k) == Some((table, key))
  }

  predicate Grouped(pg: Reader, views: map<string, View>, table: string, key: string) {
    exists v <- views :: (table, key) in pg.viewKeys(views[v].body)
  }

  // Nothing rests on a foreign key.
  predicate KeyNeeded(pg: Reader, db: Db, table: string, name: string)
    requires table in db.tables && name in db.tables[table].constraints
  {
    !IsForeign(db.tables[table].constraints[name]) &&
      (Rested(pg, db.tables, table, name) || Grouped(pg, db.views, table, name))
  }

  function OwnedByTable(pg: Reader, sequences: map<string, Sequence>, table: string): set<string> {
    set n | n in sequences && pg.owner(n).Some? && pg.owner(n).value.0 == table
  }

  // The indexes of the table and the sequences its columns own go with it.
  function ExecDropTable(pg: Reader, db: Db, table: string): Option<Db> {
    if table !in db.tables || Referenced(pg, db.tables, table) || ReadRelation(pg, db.views, table) ||
       RowsTaken(pg, db.routines, table) then None
    else
      var owned := OwnedByTable(pg, db.sequences, table);
      if exists n <- owned :: SequenceUsed(pg, db.tables - {table}, n) then None
      else Some(db.(tables := db.tables - {table}, sequences := db.sequences - owned,
                    indexes := db.indexes - IndexesOn(db.indexes, table)))
  }

  predicate ColumnUsesSequence(pg: Reader, c: Column, sequence: string) {
    (c.default.Some? && sequence in pg.sequences(c.default.value)) ||
    (c.generated.Some? && sequence in pg.sequences(c.generated.value))
  }

  predicate SequenceUsed(pg: Reader, tables: map<string, Table>, sequence: string) {
    exists t <- tables, c <- tables[t].columns :: ColumnUsesSequence(pg, tables[t].columns[c], sequence)
  }

  predicate ColumnUsesRoutine(pg: Reader, c: Column, signature: string) {
    (c.default.Some? && signature in pg.routines(c.default.value)) ||
    (c.generated.Some? && signature in pg.routines(c.generated.value))
  }

  predicate TableUsesRoutine(pg: Reader, t: Table, signature: string) {
    (exists c <- t.columns :: ColumnUsesRoutine(pg, t.columns[c], signature)) ||
    (t.partitionKey.Some? && signature in pg.routines(t.partitionKey.value)) ||
    (exists k <- t.constraints :: signature in pg.routines(t.constraints[k].definition)) ||
    (exists g <- t.triggers :: signature in pg.routines(t.triggers[g]))
  }

  predicate RoutineUsed(pg: Reader, tables: map<string, Table>, indexes: map<string, Index>, views: map<string, View>,
                        signature: string) {
    (exists t <- tables :: TableUsesRoutine(pg, tables[t], signature)) ||
    (exists i <- indexes :: signature in pg.routines(indexes[i].text)) ||
    (exists v <- views :: signature in pg.routines(views[v].body))
  }

  // Is there a routine one of whose argument defaults calls the routine?
  predicate RoutineCalled(pg: Reader, routines: map<string, Routine>, signature: string) {
    exists k <- routines :: signature in pg.routines(routines[k].body)
  }

  function ExecCreateIndex(pg: Reader, db: Db, index: string, table: string, text: string): Option<Db> {
    if index in RelationNames(db) || table !in db.tables || !(pg.columns(text) <= db.tables[table].columns.Keys) ||
       !Computable(pg, db.routines, text) then None
    else Some(db.(indexes := db.indexes[index := Index(table, text)]))
  }

  // The qualifier is the schema's name as SQL, or the statement names nothing.
  function ExecDropIndex(pg: Reader, db: Db, qualifier: string, index: string): Option<Db> {
    if qualifier != QuoteIdent(pg.schema) || index !in db.indexes ||
       Rested(pg, db.tables, db.indexes[index].table, index) then None
    else Some(db.(indexes := db.indexes - {index}))
  }

  function OutputNames(outputs: seq<(string, string)>): set<string> { set o | o in outputs :: o.0 }

  predicate ColumnThere(pg: Reader, db: Db, relation: string, column: string) {
    (relation in db.tables && column in db.tables[relation].columns) ||
    (relation in db.views && column in OutputNames(pg.outputs(db.views[relation].body)))
  }

  // Is everything there that the view reads?
  predicate Readable(pg: Reader, db: Db, body: string) {
    pg.relations(body) <= db.tables.Keys + db.views.Keys && pg.routines(body) <= Signatures(pg, db.routines) &&
    forall p <- pg.viewColumns(body) :: ColumnThere(pg, db, p.0, p.1)
  }

  // `OR REPLACE` keeps the name of a plain view, and its columns, to which it may add; otherwise the name must be free.
  function ExecCreateView(pg: Reader, db: Db, view: string, materialized: bool, replace: bool,
                          body: string): Option<Db> {
    if replace && view in db.views &&
       (db.views[view].materialized || !(pg.outputs(db.views[view].body) <= pg.outputs(body))) then None
    else if !(replace && view in db.views) && view in RelationNames(db) then None
    else if !Readable(pg, db, body) then None
    else Some(db.(views := db.views[view := View(materialized, body)]))
  }

  // `OR REPLACE` takes the place of a routine of the same signature, whose kind, return type, argument names and
  // argument defaults it keeps.
  function ExecCreateRoutine(pg: Reader, db: Db, key: string, procedure: bool, body: string): Option<Db> {
    var alike := Alike(pg, db.routines, key);
    if exists k <- alike :: db.routines[k].procedure != procedure || !pg.mayReplace(db.routines[k].body, body) then None
    else if !(pg.relations(body) <= db.tables.Keys + db.views.Keys) ||
            !(pg.routines(body) <= Signatures(pg, db.routines)) then None
    else Some(db.(routines := (db.routines - alike)[key := Routine(procedure, body)]))
  }

  function ExecDropRoutine(pg: Reader, db: Db, key: string, procedure: bool): Option<Db> {
    var alike := Alike(pg, db.routines, key);
    if alike == {} || (exists k <- alike :: db.routines[k].procedure != procedure) ||
       RoutineUsed(pg, db.tables, db.indexes, db.views, pg.signature(key)) ||
       RoutineCalled(pg, db.routines - alike, pg.signature(key)) then None
    else Some(db.(routines := db.routines - alike))
  }

  function Exec(pg: Reader, db: Db, s: Statement): Option<Db> {
    match s
    case CreateSequence(n, options) =>
      if n in RelationNames(db) then None else Some(db.(sequences := db.sequences[n := options]))
    case AlterSequence(n, options) =>
      if n !in db.sequences then None else Some(db.(sequences := db.sequences[n := options]))
    case DropSequence(n) =>
      if n !in db.sequences || SequenceUsed(pg, db.tables, n) then None else Some(db.(sequences := db.sequences - {n}))
    case CreateTable(t, columns, constraints, partitionKey) =>
      ExecCreateTable(pg, db, t, columns, constraints, partitionKey)
    case AddColumn(t, d) => ExecAddColumn(pg, db, t, d)
    case AlterColumn(t, n, change) =>
      if t !in db.tables || n !in db.tables[t].columns then None
      else
        var changed := ChangeColumn(pg, db, t, db.tables[t].columns[n], change);
        if changed.None? then None
        else Some(PutTable(db, t, db.tables[t].(columns := db.tables[t].columns[n := changed.value])))
    case DropColumn(t, n) => ExecDropColumn(pg, db, t, n)
    case AddConstraint(t, n, c) => ExecAddConstraint(pg, db, t, n, c)
    case DropConstraint(t, n) =>
      if t !in db.tables || n !in db.tables[t].constraints || KeyNeeded(pg, db, t, n) then None
      else Some(PutTable(db, t, db.tables[t].(constraints := db.tables[t].constraints - {n})))
    case DropTable(t) => ExecDropTable(pg, db, t)
    case CreateIndex(i, t, text) => ExecCreateIndex(pg, db, i, t, text)
    case DropIndex(qualifier, i) => ExecDropIndex(pg, db, qualifier, i)
    case CreateTrigger(g, t, text) =>
      if t !in db.tables || g in db.tables[t].triggers || !(pg.routines(text) <= Signatures(pg, db.routines)) ||
         !(pg.columns(text) <= db.tables[t].columns.Keys) then None
      else Some(PutTable(db, t, db.tables[t].(triggers := db.tables[t].triggers[g := text])))
    case DropTrigger(g, t) =>
      if t !in db.tables || g !in db.tables[t].triggers then None
      else Some(PutTable(db, t, db.tables[t].(triggers := db.tables[t].triggers - {g})))
    case CreateView(v, materialized, replace, body) => ExecCreateView(pg, db, v, materialized, replace, body)
    case DropView(v, materialized) =>
      if v !in db.views || db.views[v].materialized != materialized || ReadRelation(pg, db.views, v) ||
         RowsTaken(pg, db.routines, v) then None
      else Some(db.(views := db.views - {v}))
    case CreateRoutine(key, procedure, text) => ExecCreateRoutine(pg, db, key, procedure, NormalizeBody(text))
    case DropRoutine(key, procedure) => ExecDropRoutine(pg, db, key, procedure)
  }

  lemma CreateTableIs(pg: Reader, db: Db, t: string, columns: seq<ColumnDefinition>,
                      constraints: seq<(string, Constraint)>, p: Option<string>)
    ensures Exec(pg, db, CreateTable(t, columns, constraints, p)) ==
            ExecCreateTable(pg, db, t, columns, constraints, p)
  {
  }

  lemma AddColumnIs(pg: Reader, db: Db, t: string, d: ColumnDefinition)
    ensures Exec(pg, db, AddColumn(t, d)) == ExecAddColumn(pg, db, t, d)
  {
  }

  lemma AddConstraintIs(pg: Reader, db: Db, t: string, k: string, c: Constraint)
    ensures Exec(pg, db, AddConstraint(t, k, c)) == ExecAddConstraint(pg, db, t, k, c)
  {
  }

  lemma DropsAre(pg: Reader, db: Db, t: string, n: string)
    ensures Exec(pg, db, DropTable(t)) == ExecDropTable(pg, db, t)
    ensures Exec(pg, db, DropColumn(t, n)) == ExecDropColumn(pg, db, t, n)
  {
  }

  lemma AlterColumnIs(pg: Reader, db: Db, t: string, n: string, change: ColumnChange)
    requires t in db.tables && n in db.tables[t].columns
    ensures var changed := ChangeColumn(pg, db, t, db.tables[t].columns[n], change);
      Exec(pg, db, AlterColumn(t, n, change)) ==
      if changed.None? then None
      else Some(PutTable(db, t, db.tables[t].(columns := db.tables[t].columns[n := changed.value])))
  {
    hide ChangeColumn;
  }

  // A script runs as one transaction: it fails as a whole when a statement does.
  function Run(pg: Reader, db: Db, script: seq<Statement>): Option<Db> {
    if script == [] then Some(db)
    else
      var before := Run(pg, db, script[..|script| - 1]);
      if before.None? then None else Exec(pg, before.value, script[|script| - 1])
  }

  function RunFrom(pg: Reader, db: Option<Db>, script: seq<Statement>): Option<Db> {
    if db.None? then None else Run(pg, db.value, script)
  }

  lemma {:induction false} RunConcat(pg: Reader, db: Db, left: seq<Statement>, right: seq<Statement>)
    ensures Run(pg, db, left + right) == RunFrom(pg, Run(pg, db, left), right)
  {
    hide Exec;
    if right == [] {
      assert left + right == left;
    } else {
      var n := |right| - 1;
      assert (left + right)[..|left| + n] == left + right[..n];
      RunConcat(pg, db, left, right[..n]);
    }
  }

  /* ---- The schema a snapshot describes ---- */

  // Index names are unique in a schema, not only in a table.
  ghost predicate DistinctIndexes(s: SchemaSnapshot) {
    forall t, u, i :: t in s.tables && u in s.tables && i in s.tables[t].indexes && i in s.tables[u].indexes ==> t == u
  }

  function TableOf(t: TableSnapshot): Table {
    Table(ColumnMap(t.columns), t.partitionKey, t.constraints, t.triggers)
  }

  function IndexAt(s: SchemaSnapshot, t: string, i: string): Index
    requires t in s.tables && i in s.tables[t].indexes
  {
    Index(t, s.tables[t].indexes[i])
  }

  ghost function IndexesOf(s: SchemaSnapshot): map<string, Index>
    requires DistinctIndexes(s)
  {
    map t, i | t in s.tables && i in s.tables[t].indexes :: i := IndexAt(s, t, i)
  }

  function ViewOf(v: ViewSnapshot): View { View(v.materialized, NormalizeBody(v.definition)) }

  function RoutineOf(r: RoutineSnapshot): Routine { Routine(r.procedure, NormalizeBody(r.definition)) }

  // Columns as a map, bodies normalised: what the comparison compares.
  ghost function DbOf(s: SchemaSnapshot): Db
    requires DistinctIndexes(s)
  {
    Db(s.sequences,
       map t | t in s.tables :: TableOf(s.tables[t]),
       IndexesOf(s),
       map v | v in s.views :: ViewOf(s.views[v]),
       map k | k in s.routines :: RoutineOf(s.routines[k]))
  }
}

/** Snapshots PostgreSQL can hold for which the script does not reach the source. */
module Counterexamples {
  import opened Options
  import opened Names
  import opened Text
  import opened Snapshots
  import opened Statements
  import opened Diff
  import opened ScriptOrder
  import opened Database
  import opened Applies
  import opened Gathering
  import opened PhaseLists
  import opened Reordering
  import opened ObjectOrder
  import opened Inexpressible

  // A reader that reads nothing in any text.
  function BlindReader(): Reader {
    Reader("s", text => {}, text => {}, text => {}, text => None, text => {}, text => {}, text => [], text => false,
           text => "f()", key => key, (was, wanted) => true, text => true, dataType => dataType == "integer",
           (was, wanted) => true, (default, was, wanted) => true,
           (text, types) => true, (text, types, others) => true, q => None, (table, name) => None, text => {})
  }

  // The script, run on the target, fails or ends elsewhere.
  ghost predicate Misses(pg: Reader, source: SchemaSnapshot, target: SchemaSnapshot) {
    Valid(pg, source) && Valid(pg, target) && Describes(pg, target) &&
    Run(pg, DbOf(target), ScriptOf(Entries(source, target))) != Some(DbOf(source))
  }

  lemma NotApplied(pg: Reader, source: SchemaSnapshot, target: SchemaSnapshot)
    requires Valid(pg, source) && Valid(pg, target) && Describes(pg, target) && !ScriptApplies(pg, source, target)
    ensures Misses(pg, source, target)
  {
    Converges(pg, source, target);
  }

  /* ---- Schemas of one table ---- */

  function Holding(name: string, t: TableSnapshot): SchemaSnapshot {
    SchemaSnapshot("s", map[name := t], map[], map[], map[])
  }

  lemma HoldingIs(name: string, t: TableSnapshot)
    ensures var s := Holding(name, t);
      DistinctIndexes(s) && s.schema == "s" && s.tables == map[name := t] && s.routines == map[] &&
      DbOf(s).tables == map[name := TableOf(t)] && DbOf(s).sequences == map[] && DbOf(s).views == map[] &&
      DbOf(s).routines == map[] && DbOf(s).indexes.Keys == t.indexes.Keys &&
      (forall i <- t.indexes :: DbOf(s).indexes[i] == Index(name, t.indexes[i]))
  {
    hide TableOf;
    var s := Holding(name, t);
    assert s.tables.Keys == {name};
    forall i | i in t.indexes
      ensures i in DbOf(s).indexes && DbOf(s).indexes[i] == Index(name, t.indexes[i])
    {
      assert name in s.tables && i in s.tables[name].indexes && IndexAt(s, name, i) == Index(name, t.indexes[i]);
    }
  }

  // Whatever else the schema holds, if it has no sequences and no routines.
  ghost predicate Alone(db: Db, name: string, t: TableSnapshot) {
    db.tables == map[name := TableOf(t)] && db.sequences == map[] && db.views == map[] && db.routines == map[]
  }

  lemma AloneIs(name: string, t: TableSnapshot)
    ensures DistinctIndexes(Holding(name, t)) && Alone(DbOf(Holding(name, t)), name, t)
  {
    hide DbOf, TableOf;
    HoldingIs(name, t);
  }

  lemma AloneConsistent(pg: Reader, db: Db, name: string, t: TableSnapshot)
    requires Alone(db, name, t) && TableSound(pg, db, TableOf(t))
    requires name !in t.indexes && name !in t.constraints && t.constraints.Keys !! t.indexes.Keys
    requires db.indexes.Keys == t.indexes.Keys && forall i <- t.indexes :: db.indexes[i] == Index(name, t.indexes[i])
    requires forall i <- t.indexes ::
      pg.columns(t.indexes[i]) <= ColumnMap(t.columns).Keys && pg.routines(t.indexes[i]) == {}
    ensures Consistent(pg, db)
  {
    hide TableSound, ColumnMap;
    assert Backing(db.tables) <= t.constraints.Keys;
  }

  lemma HoldingValid(pg: Reader, name: string, t: TableSnapshot)
    requires DistinctColumns(t.columns) && pg.schema == "s" && forall q :: pg.owner(q) == None
    requires forall db :: Alone(db, name, t) ==> TableSound(pg, db, TableOf(t))
    requires name !in t.indexes && name !in t.constraints && t.constraints.Keys !! t.indexes.Keys
    requires forall i <- t.indexes ::
      pg.columns(t.indexes[i]) <= ColumnMap(t.columns).Keys && pg.routines(t.indexes[i]) == {}
    ensures Valid(pg, Holding(name, t)) && Describes(pg, Holding(name, t))
  {
    hide DbOf, TableSound, ColumnMap, DistinctColumns, TableOf, Consistent;
    HoldingIs(name, t);
    AloneIs(name, t);
    AloneConsistent(pg, DbOf(Holding(name, t)), name, t);
  }

  ghost predicate TableFails(pg: Reader, name: string, from: TableSnapshot, to: TableSnapshot) {
    forall s, d :: Alone(s, name, from) && Alone(d, name, to) ==>
      !Expressible(s.tables[name], d.tables[name]) || !KeptTableApplies(pg, s, d, name, from, to)
  }

  lemma KeptFails(pg: Reader, source: SchemaSnapshot, target: SchemaSnapshot, n: string)
    requires DistinctIndexes(source) && DistinctIndexes(target) && n in source.tables && n in target.tables
    requires var s, d := DbOf(source), DbOf(target);
      n in s.tables && n in d.tables &&
      (!Expressible(s.tables[n], d.tables[n]) || !KeptTableApplies(pg, s, d, n, source.tables[n], target.tables[n]))
    ensures !ScriptApplies(pg, source, target)
  {
    hide IndexesOf, Expressible, KeptTableApplies, NewTableApplies, OwnersStay, IndexDropsApply, NewSequencesFree,
      RoutinesApply, ViewDropsApply, ViewNamesApply, ViewCreatesApply, NewIndexesApply, RoutineDropsApply;
  }

  lemma TableMisses(pg: Reader, name: string, from: TableSnapshot, to: TableSnapshot)
    requires Valid(pg, Holding(name, from)) && Valid(pg, Holding(name, to)) && Describes(pg, Holding(name, to))
    requires TableFails(pg, name, from, to)
    ensures Misses(pg, Holding(name, from), Holding(name, to))
  {
    hide DbOf, Consistent, Expressible, KeptTableApplies, Describes, Misses, ScriptApplies, Keyed, FieldsAgree,
      DistinctColumns;
    HoldingIs(name, from);
    HoldingIs(name, to);
    AloneIs(name, from);
    AloneIs(name, to);
    KeptFails(pg, Holding(name, from), Holding(name, to), name);
    NotApplied(pg, Holding(name, from), Holding(name, to));
  }

  /* ---- Primary and partition keys ---- */

  const KEY_ON_C := "PRIMARY KEY (c)"

  function KeyReader(): Reader { BlindReader().(columns := text => if text == KEY_ON_C then {"c"} else {}) }

  function Plain(notNull: bool): Column { Column("c", "integer", notNull, None, None, None) }

  function KeyNamed(name: string): map<string, Constraint> { map[name := Constraint(PRIMARY_KEY, KEY_ON_C)] }

  function Keyless(notNull: bool, partitionKey: Option<string>): TableSnapshot {
    TableSnapshot([Plain(notNull)], partitionKey, map[], map[], map[])
  }

  function WithKey(name: string): TableSnapshot { TableSnapshot([Plain(true)], None, KeyNamed(name), map[], map[]) }

  lemma OneColumn(column: Column)
    ensures ColumnMap([column]) == map[column.name := column] && DistinctColumns([column])
  {
    assert [column][..0] == [];
    assert ColumnMap([column][..0]) == map[];
  }

  lemma KeylessValid(notNull: bool, partitionKey: Option<string>)
    requires partitionKey.Some? ==> partitionKey.value != KEY_ON_C
    ensures Valid(KeyReader(), Holding("t", Keyless(notNull, partitionKey)))
    ensures Describes(KeyReader(), Holding("t", Keyless(notNull, partitionKey)))
  {
    hide Valid, Holding;
    OneColumn(Plain(notNull));
    HoldingValid(KeyReader(), "t", Keyless(notNull, partitionKey));
  }

  lemma WithKeyValid(name: string)
    requires name != "t"
    ensures Valid(KeyReader(), Holding("t", WithKey(name))) && Describes(KeyReader(), Holding("t", WithKey(name)))
  {
    hide Valid, Holding, TableSound, Describes;
    OneColumn(Plain(true));
    forall db | Alone(db, "t", WithKey(name))
      ensures TableSound(KeyReader(), db, TableOf(WithKey(name)))
    {
      WithKeySound(db, name);
    }
    HoldingValid(KeyReader(), "t", WithKey(name));
  }

  lemma WithKeySound(db: Db, name: string)
    requires Alone(db, "t", WithKey(name))
    ensures TableSound(KeyReader(), db, TableOf(WithKey(name)))
  {
    OneColumn(Plain(true));
  }

  lemma NullableFails()
    ensures TableFails(KeyReader(), "t", Keyless(false, None), WithKey("t_pkey"))
  {
    OneColumn(Plain(false));
    OneColumn(Plain(true));
    var pg, from, to := KeyReader(), Keyless(false, None), WithKey("t_pkey");
    forall s, d | Alone(s, "t", from) && Alone(d, "t", to)
      ensures !KeptTableApplies(pg, s, d, "t", from, to)
    {
      assert "t_pkey" in d.tables["t"].constraints;
      assert InKey(pg, d.tables["t"].constraints, "c");
      assert !WantedColumnApplies(pg, s, d, "t", from.columns, 0);
    }
  }

  // A key column that leaves the key and becomes nullable: NOT NULL is dropped before the key is.
  lemma KeyColumnBecomesNullable()
    ensures Misses(KeyReader(), Holding("t", Keyless(false, None)), Holding("t", WithKey("t_pkey")))
  {
    hide Valid, Holding, Describes, Misses, TableFails;
    KeylessValid(false, None);
    WithKeyValid("t_pkey");
    NullableFails();
    TableMisses(KeyReader(), "t", Keyless(false, None), WithKey("t_pkey"));
  }

  lemma BackwardsFails()
    ensures TableFails(KeyReader(), "t", WithKey("a"), WithKey("b"))
  {
    hide ColumnsApply, DroppedConstraintsApply, FreeInTurn;
    var pg, f, t := KeyReader(), KeyNamed("a"), KeyNamed("b");
    forall s, d | Alone(s, "t", WithKey("a")) && Alone(d, "t", WithKey("b"))
      ensures !KeptTableApplies(pg, s, d, "t", WithKey("a"), WithKey("b"))
    {
      assert "b" in t && IsKey(t["b"]) && !Less("b", "a");
      assert !NewConstraintApplies(pg, s, d, "t", t, "a", f["a"]);
      assert !Same(f, t, "a");
    }
  }

  // A primary key renamed to a name that sorts first: the new key is added while the old one is still there.
  lemma KeyRenamedBackwards()
    ensures Misses(KeyReader(), Holding("t", WithKey("a")), Holding("t", WithKey("b")))
  {
    hide Valid, Holding, Describes, Misses, TableFails;
    WithKeyValid("a");
    WithKeyValid("b");
    BackwardsFails();
    TableMisses(KeyReader(), "t", WithKey("a"), WithKey("b"));
  }

  // A partition key can only be noted.
  lemma PartitionKeyDiffers()
    ensures Misses(KeyReader(), Holding("t", Keyless(true, Some("RANGE (c)"))), Holding("t", Keyless(true, None)))
  {
    hide Valid, Holding, Describes, Misses, KeptTableApplies;
    KeylessValid(true, Some("RANGE (c)"));
    KeylessValid(true, None);
    TableMisses(KeyReader(), "t", Keyless(true, Some("RANGE (c)")), Keyless(true, None));
  }

  /* ---- Columns ---- */

  const TWICE_B := "b * 2"

  function ColumnReader(): Reader { BlindReader().(columns := text => if text == TWICE_B then {"b"} else {}) }

  function Simple(name: string): Column { Column(name, "integer", false, None, None, None) }

  function Doubling(): Column { Column("g", "integer", false, None, None, Some(TWICE_B)) }

  function Identity(): Column { Column("c", "integer", true, None, Some('a'), None) }

  function Textual(): Column { Column("c", "text", true, None, None, None) }

  function Columns(columns: seq<Column>): TableSnapshot { TableSnapshot(columns, None, map[], map[], map[]) }

  predicate Sample(columns: seq<Column>, c: Column) {
    c == Simple(c.name) || c == Identity() || c == Textual() || (c == Doubling() && "b" in ColumnMap(columns))
  }

  lemma ColumnsValid(columns: seq<Column>)
    requires DistinctColumns(columns) && forall c <- columns :: Sample(columns, c)
    ensures Valid(ColumnReader(), Holding("t", Columns(columns))) &&
      Describes(ColumnReader(), Holding("t", Columns(columns)))
  {
    hide Valid, Holding, Describes, DistinctColumns, ColumnMap;
    var pg := ColumnReader();
    forall db | Alone(db, "t", Columns(columns))
      ensures TableSound(pg, db, TableOf(Columns(columns)))
    {
      forall n | n in ColumnMap(columns)
        ensures ColumnSound(pg, db, ColumnMap(columns)[n]) && ColumnMap(columns)[n].name == n
      {
        assert Sample(columns, ColumnMap(columns)[n]);
      }
    }
    HoldingValid(pg, "t", Columns(columns));
  }

  lemma TextFails()
    ensures TableFails(ColumnReader(), "t", Columns([Textual()]), Columns([Identity()]))
  {
    OneColumn(Textual());
    OneColumn(Identity());
    var pg, from, to := ColumnReader(), Columns([Textual()]), Columns([Identity()]);
    forall s, d | Alone(s, "t", from) && Alone(d, "t", to)
      ensures !KeptTableApplies(pg, s, d, "t", from, to)
    {
      assert !TypeApplies(pg, s, d, "t", Textual(), Identity());
      assert !WantedColumnApplies(pg, s, d, "t", from.columns, 0);
    }
  }

  // The type of an identity column is changed before its identity is dropped.
  lemma IdentityBecomesText()
    ensures Misses(ColumnReader(), Holding("t", Columns([Textual()])), Holding("t", Columns([Identity()])))
  {
    hide Valid, Holding, Describes, Misses, TableFails, ColumnMap;
    OneColumn(Textual());
    OneColumn(Identity());
    ColumnsValid([Textual()]);
    ColumnsValid([Identity()]);
    TextFails();
    TableMisses(ColumnReader(), "t", Columns([Textual()]), Columns([Identity()]));
  }

  lemma TwoColumns(a: Column, b: Column)
    requires a.name != b.name
    ensures ColumnMap([a, b]) == map[a.name := a, b.name := b] && DistinctColumns([a, b])
  {
    OneColumn(a);
    assert [a, b][..1] == [a];
    assert ColumnMap([a, b]) == ColumnMap([a, b][..1])[b.name := b];
  }

  lemma ThreeColumns(a: Column, b: Column, c: Column)
    requires a.name != b.name && b.name != c.name && a.name != c.name
    ensures ColumnMap([a, b, c]) == map[a.name := a, b.name := b, c.name := c] && DistinctColumns([a, b, c])
  {
    TwoColumns(a, b);
    assert [a, b, c][..2] == [a, b];
    assert ColumnMap([a, b, c]) == ColumnMap([a, b, c][..2])[c.name := c];
  }

  function Early(): seq<Column> { [Simple("a"), Doubling(), Simple("b")] }

  function Late(): seq<Column> { [Simple("a"), Simple("b"), Doubling()] }

  lemma ThreeValid()
    ensures Valid(ColumnReader(), Holding("t", Columns(Early()))) &&
      Valid(ColumnReader(), Holding("t", Columns(Late())))
    ensures Describes(ColumnReader(), Holding("t", Columns(Late())))
    ensures Valid(ColumnReader(), Holding("t", Columns([Simple("a")]))) &&
      Describes(ColumnReader(), Holding("t", Columns([Simple("a")])))
  {
    hide Valid, Holding, Describes, ColumnMap, DistinctColumns, ColumnReader, Columns;
    OneColumn(Simple("a"));
    ThreeColumns(Simple("a"), Doubling(), Simple("b"));
    ThreeColumns(Simple("a"), Simple("b"), Doubling());
    ColumnsValid([Simple("a")]);
    ColumnsValid(Early());
    ColumnsValid(Late());
  }

  lemma EarlyFails()
    ensures TableFails(ColumnReader(), "t", Columns(Early()), Columns([Simple("a")]))
  {
    hide ColumnMap, NewConstraintsApply, DroppedConstraintsApply, UnwantedColumnApplies, TypeFits, TypeApplies;
    OneColumn(Simple("a"));
    ThreeColumns(Simple("a"), Doubling(), Simple("b"));
    var pg, from, to := ColumnReader(), Columns(Early()), Columns([Simple("a")]);
    forall s, d | Alone(s, "t", from) && Alone(d, "t", to)
      ensures !KeptTableApplies(pg, s, d, "t", from, to)
    {
      assert Early()[..1] == [Simple("a")];
      assert ColumnsSoFar(d.tables["t"].columns, Early(), 1).Keys == {"a"};
      assert "b" in pg.columns(TWICE_B);
      assert !WantedColumnApplies(pg, s, d, "t", Early(), 1);
    }
  }

  // A computed column is added before the column it is computed from.
  lemma ComputedColumnFirst()
    ensures Misses(ColumnReader(), Holding("t", Columns(Early())), Holding("t", Columns([Simple("a")])))
  {
    hide Valid, Holding, Describes, Misses, TableFails;
    ThreeValid();
    EarlyFails();
    TableMisses(ColumnReader(), "t", Columns(Early()), Columns([Simple("a")]));
  }

  lemma LateBad(s: Db, d: Db)
    requires Alone(s, "t", Columns([Simple("a")])) && Alone(d, "t", Columns(Late()))
    ensures !UnwantedColumnApplies(ColumnReader(), s, d, "t", Late(), 1)
  {
    hide ColumnMap, ReadByView;
    OneColumn(Simple("a"));
    ThreeColumns(Simple("a"), Simple("b"), Doubling());
    var f, t := s.tables["t"].columns, d.tables["t"].columns;
    assert Late()[..1] == [Simple("a")];
    assert DroppedNames(Late()[..1], f) == {};
    assert "g" in t + f - {} - {"b"} && ComputedFrom(ColumnReader(), (t + f - {} - {"b"})["g"], "b");
  }

  lemma LateFails()
    ensures TableFails(ColumnReader(), "t", Columns([Simple("a")]), Columns(Late()))
  {
    hide ColumnMap, NewConstraintsApply, DroppedConstraintsApply, WantedColumnApplies, UnwantedColumnApplies;
    var pg, from, to := ColumnReader(), Columns([Simple("a")]), Columns(Late());
    forall s, d | Alone(s, "t", from) && Alone(d, "t", to)
      ensures !KeptTableApplies(pg, s, d, "t", from, to)
    {
      LateBad(s, d);
    }
  }

  // A column is dropped before the column computed from it.
  lemma ComputedColumnLast()
    ensures Misses(ColumnReader(), Holding("t", Columns([Simple("a")])), Holding("t", Columns(Late())))
  {
    hide Valid, Holding, Describes, Misses, TableFails;
    ThreeValid();
    LateFails();
    TableMisses(ColumnReader(), "t", Columns([Simple("a")]), Columns(Late()));
  }

  const POSITIVE_C := "CHECK (c > 0)"

  function CheckReader(): Reader {
    BlindReader().(fits := (text, types) => text == POSITIVE_C ==> "c" in types && types["c"] == "integer")
  }

  function Checked(): TableSnapshot {
    TableSnapshot([Plain(true)], None, map["positive" := Constraint('c', POSITIVE_C)], map[], map[])
  }

  lemma CheckSound(db: Db)
    requires Alone(db, "t", Checked())
    ensures TableSound(CheckReader(), db, TableOf(Checked()))
  {
    OneColumn(Plain(true));
    assert ConstraintSound(CheckReader(), db, ColumnMap([Plain(true)]), Constraint('c', POSITIVE_C));
  }

  lemma TextSound(db: Db)
    requires Alone(db, "t", Columns([Textual()]))
    ensures TableSound(CheckReader(), db, TableOf(Columns([Textual()])))
  {
    OneColumn(Textual());
  }

  lemma CheckValid()
    ensures Valid(CheckReader(), Holding("t", Checked())) && Describes(CheckReader(), Holding("t", Checked()))
    ensures Valid(CheckReader(), Holding("t", Columns([Textual()])))
  {
    hide Valid, Holding, Describes, TableSound, TableOf, Alone, ColumnMap;
    OneColumn(Plain(true));
    OneColumn(Textual());
    forall db
      ensures Alone(db, "t", Checked()) ==> TableSound(CheckReader(), db, TableOf(Checked()))
      ensures Alone(db, "t", Columns([Textual()])) ==> TableSound(CheckReader(), db, TableOf(Columns([Textual()])))
    {
      if Alone(db, "t", Checked()) { CheckSound(db); }
      if Alone(db, "t", Columns([Textual()])) { TextSound(db); }
    }
    HoldingValid(CheckReader(), "t", Checked());
    HoldingValid(CheckReader(), "t", Columns([Textual()]));
  }

  lemma CheckFails()
    ensures TableFails(CheckReader(), "t", Columns([Textual()]), Checked())
  {
    hide ColumnMap, NewConstraintsApply, DroppedConstraintsApply, UnwantedColumnApplies, FeedsColumn, JoinSound,
      KeptIndexes, TypeApplies;
    OneColumn(Plain(true));
    OneColumn(Textual());
    var pg, from, to := CheckReader(), Columns([Textual()]), Checked();
    forall s, d | Alone(s, "t", from) && Alone(d, "t", to)
      ensures !KeptTableApplies(pg, s, d, "t", from, to)
    {
      var here := ColumnsSoFar(d.tables["t"].columns, from.columns, 0);
      var tables := TablesInTurn(s, d, "t", here["c" := Textual()]);
      assert "positive" in tables["t"].constraints && Types(tables["t"].columns)["c"] == "text";
      assert !TypesSound(pg, tables, KeptIndexes(s, d), "t");
      assert Plain(true).(dataType := "text") == Textual();
      assert !WantedColumnApplies(pg, s, d, "t", from.columns, 0);
    }
  }

  // A column is retyped while a CHECK constraint that only its old type meets is still there.
  lemma CheckedColumnRetyped()
    ensures Misses(CheckReader(), Holding("t", Columns([Textual()])), Holding("t", Checked()))
  {
    hide Valid, Holding, Describes, Misses, TableFails;
    CheckValid();
    CheckFails();
    TableMisses(CheckReader(), "t", Columns([Textual()]), Checked());
  }

  /* ---- Indexes ---- */

  const INDEX_ON_C := "CREATE INDEX i ON s.\"a.b\" (c)"

  function Indexed(): TableSnapshot { TableSnapshot([Simple("c")], None, map[], map["i" := INDEX_ON_C], map[]) }

  lemma IndexedValid()
    ensures Valid(ColumnReader(), Holding("a.b", Indexed())) && Describes(ColumnReader(), Holding("a.b", Indexed()))
    ensures Valid(ColumnReader(), Holding("a.b", Columns([Simple("c")])))
  {
    hide Valid, Holding, Describes;
    OneColumn(Simple("c"));
    assert |INDEX_ON_C| != |TWICE_B|;
    HoldingValid(ColumnReader(), "a.b", Columns([Simple("c")]));
    HoldingValid(ColumnReader(), "a.b", Indexed());
  }

  // The schema of a dropped index is cut off the table's qualified name at its last dot.
  lemma DottedTable()
    ensures Misses(ColumnReader(), Holding("a.b", Columns([Simple("c")])), Holding("a.b", Indexed()))
  {
    hide Valid, Holding, Describes, Misses, DbOf, TableOf;
    var pg, source, target := ColumnReader(), Holding("a.b", Columns([Simple("c")])), Holding("a.b", Indexed());
    IndexedValid();
    HoldingIs("a.b", Columns([Simple("c")]));
    HoldingIs("a.b", Indexed());
    var s, d := DbOf(source), DbOf(target);
    assert "i" in d.indexes && d.indexes["i"].table in s.tables && !Same(s.indexes, d.indexes, "i");
    assert d.indexes["i"].table[1] == '.';
    assert !IndexDropsApply(pg, s, d);
    IndexFails(pg, source, target);
  }

  lemma IndexFails(pg: Reader, source: SchemaSnapshot, target: SchemaSnapshot)
    requires Valid(pg, source) && Valid(pg, target) && Describes(pg, target) &&
      !IndexDropsApply(pg, DbOf(source), DbOf(target))
    ensures Misses(pg, source, target)
  {
    hide DbOf, Consistent, Describes, Misses, IndexDropsApply, TablesApply;
    NotApplied(pg, source, target);
  }

  /* ---- Sequences ---- */

  const NEXT_C := "nextval('t_c_seq')"

  function SerialReader(): Reader {
    BlindReader().(sequences := text => if text == NEXT_C then {"t_c_seq"} else {},
                   owner := q => if q == "t_c_seq" then Some(("t", "c")) else None)
  }

  function Serial(): Column { Column("c", "integer", true, Some(NEXT_C), None, None) }

  function SerialTable(): SchemaSnapshot {
    Holding("t", Columns([Serial()])).(
      sequences := map["t_c_seq" := Sequence("integer", "1", "1", "1", "2147483647", "1", false)])
  }

  function Nothing(): SchemaSnapshot { SchemaSnapshot("s", map[], map[], map[], map[]) }

  lemma NothingIs()
    ensures DistinctIndexes(Nothing()) && DbOf(Nothing()) == Db(map[], map[], map[], map[], map[])
  {
  }

  lemma NothingValid(pg: Reader)
    ensures Valid(pg, Nothing())
  {
    NothingIs();
  }

  lemma SerialTableIs()
    ensures var s := SerialTable();
      DistinctIndexes(s) && DbOf(s).tables == map["t" := Table(map["c" := Serial()], None, map[], map[])] &&
      DbOf(s).sequences == s.sequences && DbOf(s).views == map[] && DbOf(s).routines == map[] &&
        DbOf(s).indexes == map[]
  {
    var s := SerialTable();
    OneColumn(Serial());
    assert s.tables.Keys == {"t"};
    assert TableOf(s.tables["t"]) == Table(map["c" := Serial()], None, map[], map[]);
  }

  lemma SerialConsistent(db: Db)
    requires db.tables == map["t" := Table(map["c" := Serial()], None, map[], map[])] &&
      db.sequences.Keys == {"t_c_seq"}
    requires db.views == map[] && db.routines == map[] && db.indexes == map[]
    ensures Consistent(SerialReader(), db)
  {
    var pg := SerialReader();
    assert ColumnSound(pg, db, Serial());
    assert TableSound(pg, db, db.tables["t"]);
    assert Backing(db.tables) == {};
    assert |"t"| != |"t_c_seq"|;
  }

  lemma SerialValid()
    ensures Valid(SerialReader(), SerialTable()) && Describes(SerialReader(), SerialTable())
  {
    hide DbOf, Consistent;
    SerialTableIs();
    OneColumn(Serial());
    SerialConsistent(DbOf(SerialTable()));
  }

  // Dropping a table takes along the sequence of its serial column, and then that sequence cannot be dropped.
  lemma SerialTableDropped()
    ensures Misses(SerialReader(), Nothing(), SerialTable())
  {
    var pg, source, target := SerialReader(), Nothing(), SerialTable();
    hide DbOf, Valid, Misses, Describes;
    SerialValid();
    NothingValid(pg);
    NothingIs();
    SerialTableIs();
    assert "t_c_seq" in DbOf(target).sequences && pg.owner("t_c_seq") == Some(("t", "c"));
    assert !OwnersStay(pg, DbOf(source), DbOf(target));
    NotApplied(pg, source, target);
  }

  /* ---- Views and routines ---- */

  function OneView(body: string): SchemaSnapshot {
    SchemaSnapshot("s", map[], map["v" := ViewSnapshot(false, body)], map[], map[])
  }

  const ONE := "SELECT 1 AS one"
  const ONE_AND_TWO := "SELECT 1 AS one, 2 AS two"

  function ViewReader(): Reader {
    BlindReader().(outputs := text =>
      if text == ONE then [("one", "integer")] else [("one", "integer"), ("two", "integer")])
  }

  lemma Normal(body: string)
    requires body != "" && !IsWhitespace(body[0]) && !IsWhitespace(body[|body| - 1]) && body[|body| - 1] != ';'
    ensures NormalizeBody(body) == body
  {
  }

  lemma OneViewIs(body: string)
    requires NormalizeBody(body) == body
    ensures var s := OneView(body);
      DistinctIndexes(s) && DbOf(s) == Db(map[], map[], map[], map["v" := View(false, body)], map[])
  {
    var s := OneView(body);
    assert s.views.Keys == {"v"};
    assert ViewOf(s.views["v"]) == View(false, body);
  }

  lemma OneViewConsistent(body: string)
    ensures Consistent(ViewReader(), Db(map[], map[], map[], map["v" := View(false, body)], map[]))
  {
    assert ViewSound(ViewReader(), Db(map[], map[], map[], map["v" := View(false, body)], map[]), "v",
                     View(false, body));
  }

  lemma OneViewValid(body: string)
    requires NormalizeBody(body) == body
    ensures Valid(ViewReader(), OneView(body)) && Describes(ViewReader(), OneView(body))
  {
    hide DbOf, Consistent, NormalizeBody;
    OneViewIs(body);
    OneViewConsistent(body);
  }

  // A view that loses a column cannot be replaced.
  lemma ViewLosesColumn()
    ensures Misses(ViewReader(), OneView(ONE), OneView(ONE_AND_TWO))
  {
    var pg, source, target := ViewReader(), OneView(ONE), OneView(ONE_AND_TWO);
    Normal(ONE);
    Normal(ONE_AND_TWO);
    OneViewIs(ONE);
    OneViewIs(ONE_AND_TWO);
    OneViewValid(ONE);
    OneViewValid(ONE_AND_TWO);
    hide DbOf, Valid, Misses, Describes;
    var s, d := DbOf(source), DbOf(target);
    assert |ONE| < |ONE_AND_TWO|;
    assert "v" in KeptViews(s, d) && |pg.outputs(d.views["v"].body)| > |pg.outputs(s.views["v"].body)|;
    assert !ViewNamesApply(pg, s, d);
    NotApplied(pg, source, target);
  }

  const JUST_A := "SELECT 1 AS a"
  const A_AND_B := "SELECT 1 AS a, 2 AS b"
  const READS_B := "SELECT w.b FROM s.w"

  function ChainReader(): Reader {
    BlindReader().(relations := text => if text == READS_B then {"w"} else {},
                   viewColumns := text => if text == READS_B then {("w", "b")} else {},
                   outputs := text =>
                     if text == JUST_A then [("a", "integer")]
                     else if text == A_AND_B then [("a", "integer"), ("b", "integer")]
                     else [("b", "integer")])
  }

  function Narrow(): SchemaSnapshot {
    SchemaSnapshot("s", map[], map["w" := ViewSnapshot(false, JUST_A)], map[], map[])
  }

  function Wide(): SchemaSnapshot {
    SchemaSnapshot("s", map[], map["v" := ViewSnapshot(false, READS_B), "w" := ViewSnapshot(false, A_AND_B)], map[],
                   map[])
  }

  lemma ChainIs()
    ensures DistinctIndexes(Narrow()) &&
      DbOf(Narrow()) == Db(map[], map[], map[], map["w" := View(false, JUST_A)], map[])
    ensures DistinctIndexes(Wide()) &&
      DbOf(Wide()) == Db(map[], map[], map[], map["v" := View(false, READS_B), "w" := View(false, A_AND_B)], map[])
  {
    hide NormalizeBody;
    Normal(JUST_A);
    Normal(A_AND_B);
    Normal(READS_B);
    assert Narrow().views.Keys == {"w"} && Wide().views.Keys == {"v", "w"};
    assert ViewOf(Narrow().views["w"]) == View(false, JUST_A);
    assert ViewOf(Wide().views["v"]) == View(false, READS_B) && ViewOf(Wide().views["w"]) == View(false, A_AND_B);
  }

  lemma ChainReads()
    ensures var pg := ChainReader();
      pg.relations(JUST_A) == {} && pg.viewColumns(JUST_A) == {} && OutputNames(pg.outputs(JUST_A)) == {"a"} &&
      pg.relations(A_AND_B) == {} && pg.viewColumns(A_AND_B) == {} && "b" in OutputNames(pg.outputs(A_AND_B)) &&
      pg.relations(READS_B) == {"w"} && pg.viewColumns(READS_B) == {("w", "b")}
  {
    var pg, outputs := ChainReader(), [("a", "integer"), ("b", "integer")];
    assert |JUST_A| != |A_AND_B| && |JUST_A| != |READS_B| && |A_AND_B| != |READS_B|;
    assert pg.outputs(A_AND_B) == outputs && outputs[1].0 == "b" && outputs[1] in outputs;
  }

  lemma ChainCalls()
    ensures var pg := ChainReader();
      pg.schema == "s" && (forall q :: pg.owner(q) == None) && forall text :: pg.routines(text) == {}
  {
  }

  lemma ChainSound()
    ensures ViewSound(ChainReader(), DbOf(Narrow()), "w", View(false, JUST_A))
    ensures ViewSound(ChainReader(), DbOf(Wide()), "v", View(false, READS_B))
    ensures ViewSound(ChainReader(), DbOf(Wide()), "w", View(false, A_AND_B))
  {
    hide DbOf, ChainReader, OutputNames;
    ChainIs();
    ChainReads();
    ChainCalls();
  }

  lemma ChainValid()
    ensures Valid(ChainReader(), Narrow()) && Describes(ChainReader(), Narrow()) && Valid(ChainReader(), Wide())
  {
    hide DbOf, ViewSound, NormalizeBody, ChainReader;
    ChainIs();
    ChainSound();
    ChainCalls();
  }

  lemma VBeforeW()
    ensures !Less("w", "v")
  {
  }

  // A view is created before another one of a later name gains the column it reads.
  lemma ViewReadsNewColumn()
    ensures Misses(ChainReader(), Wide(), Narrow())
  {
    hide DbOf, Valid, Misses, Describes, ChainReader, OutputNames, Less, ViewDropsApply, ViewNamesApply,
      RoutinesApply, TablesApply, RoutineDropsApply, IndexDropsApply;
    var pg := ChainReader();
    ChainIs();
    ChainReads();
    ChainValid();
    var s, d := DbOf(Wide()), DbOf(Narrow());
    VBeforeW();
    assert "v" in s.views && "w" in s.views && "w" in d.views && "v" !in d.views;
    assert ("w", "b") in pg.viewColumns(s.views["v"].body) && OutputNames(pg.outputs(d.views["w"].body)) == {"a"};
    assert !ReadsOld(pg, s, d, "v", "w");
    assert !ViewCreatesApply(pg, s, d);
    NotApplied(pg, Wide(), Narrow());
  }

  const SELECTS := "SELECT 1 AS a"
  const REPLACE_F := "CREATE OR REPLACE FUNCTION s.f() RETURNS "
  const RETURNS_ROWS := REPLACE_F + "SETOF s.v RETURN 1"

  function RowReader(): Reader { BlindReader().(relations := text => if text == RETURNS_ROWS then {"v"} else {}) }

  function RowsOfView(): SchemaSnapshot {
    SchemaSnapshot("s", map[], map["v" := ViewSnapshot(false, SELECTS)],
                   map["f()" := RoutineSnapshot("f", "", false, RETURNS_ROWS)], map[])
  }

  lemma RowsOfViewIs()
    ensures var s := RowsOfView();
      DistinctIndexes(s) &&
      DbOf(s) == Db(map[], map[], map[], map["v" := View(false, SELECTS)], map["f()" := Routine(false, RETURNS_ROWS)])
  {
    hide NormalizeBody;
    var s := RowsOfView();
    Normal(SELECTS);
    Normal(RETURNS_ROWS);
    assert s.views.Keys == {"v"} && s.routines.Keys == {"f()"};
    assert ViewOf(s.views["v"]) == View(false, SELECTS);
    assert RoutineOf(s.routines["f()"]) == Routine(false, RETURNS_ROWS);
  }

  lemma RowsOfViewSound(db: Db)
    requires db == Db(map[], map[], map[], map["v" := View(false, SELECTS)], map["f()" := Routine(false, RETURNS_ROWS)])
    ensures Consistent(RowReader(), db)
  {
    assert |SELECTS| != |RETURNS_ROWS|;
    assert ViewSound(RowReader(), db, "v", View(false, SELECTS));
    assert RoutineSound(RowReader(), db, Routine(false, RETURNS_ROWS));
  }

  lemma RowsOfViewValid()
    ensures Valid(RowReader(), RowsOfView()) && Describes(RowReader(), RowsOfView())
  {
    hide DbOf, NormalizeBody, Consistent;
    RowsOfViewIs();
    RowsOfViewSound(DbOf(RowsOfView()));
    assert RowsOfView().routines.Keys == {"f()"} && RoutineKey(RowsOfView().routines["f()"]) == "f()";
  }

  // A function is created before the view whose rows it returns.
  lemma RoutineReturnsNewView()
    ensures Misses(RowReader(), RowsOfView(), Nothing())
  {
    hide DbOf, Valid, Misses, Describes;
    var pg := RowReader();
    NothingIs();
    RowsOfViewIs();
    RowsOfViewValid();
    NothingValid(pg);
    var s, d := DbOf(RowsOfView()), DbOf(Nothing());
    assert "f()" in s.routines && "f()" !in d.routines && "v" in pg.relations(s.routines["f()"].body);
    assert !RoutineFinds(pg, s, d, "f()");
    assert !RoutinesApply(pg, s, d);
    NotApplied(pg, RowsOfView(), Nothing());
  }

  // A view is dropped before the function that returns its rows.
  lemma ViewDroppedUnderRoutine()
    ensures Misses(RowReader(), Nothing(), RowsOfView())
  {
    hide DbOf, Valid, Misses, Describes;
    var pg := RowReader();
    NothingIs();
    RowsOfViewIs();
    RowsOfViewValid();
    NothingValid(pg);
    var s, d := DbOf(Nothing()), DbOf(RowsOfView());
    assert "v" in d.views && ViewDropped(s, d, "v") && RowsTaken(pg, d.routines, "v") by {
      assert "f()" in d.routines && "v" in pg.relations(d.routines["f()"].body);
    }
    assert !ViewDropsApply(pg, s, d);
    NotApplied(pg, Nothing(), RowsOfView());
  }

  function OneRoutine(body: string): SchemaSnapshot {
    SchemaSnapshot("s", map[], map[], map["f()" := RoutineSnapshot("f", "", false, body)], map[])
  }

  const RETURNS_INTEGER := REPLACE_F + "integer RETURN 1"
  const RETURNS_TEXT := REPLACE_F + "text RETURN 1"

  function RoutineReader(): Reader { BlindReader().(mayReplace := (was, wanted) => was == wanted) }

  lemma OneRoutineIs(body: string)
    requires NormalizeBody(body) == body
    ensures var s := OneRoutine(body);
      DistinctIndexes(s) && DbOf(s) == Db(map[], map[], map[], map[], map["f()" := Routine(false, body)])
  {
    var s := OneRoutine(body);
    assert s.routines.Keys == {"f()"};
    assert RoutineOf(s.routines["f()"]) == Routine(false, body);
  }

  lemma OneRoutineValid(pg: Reader, body: string)
    requires NormalizeBody(body) == body && pg.schema == "s" && forall q :: pg.owner(q) == None
    requires pg.routineKey(body) == "f()" && !pg.isProcedure(body) && pg.relations(body) == {} &&
      pg.routines(body) == {}
    ensures Valid(pg, OneRoutine(body)) && Describes(pg, OneRoutine(body))
  {
    hide DbOf, NormalizeBody;
    OneRoutineIs(body);
    KeyOfF(body);
  }

  lemma KeyOfF(body: string)
    ensures RoutineKey(RoutineSnapshot("f", "", false, body)) == "f()"
  {
  }

  // A function with another return type cannot be replaced.
  lemma RoutineReturnsOther()
    ensures Misses(RoutineReader(), OneRoutine(RETURNS_TEXT), OneRoutine(RETURNS_INTEGER))
  {
    hide DbOf, Valid, Misses, Describes, NormalizeBody;
    var pg, source, target := RoutineReader(), OneRoutine(RETURNS_TEXT), OneRoutine(RETURNS_INTEGER);
    Normal(RETURNS_TEXT);
    Normal(RETURNS_INTEGER);
    OneRoutineIs(RETURNS_TEXT);
    OneRoutineIs(RETURNS_INTEGER);
    OneRoutineValid(pg, RETURNS_TEXT);
    OneRoutineValid(pg, RETURNS_INTEGER);
    var s, d := DbOf(source), DbOf(target);
    assert |RETURNS_TEXT| < |RETURNS_INTEGER|;
    assert "f()" in s.routines && "f()" in d.routines && s.routines["f()"].body != d.routines["f()"].body;
    assert !RoutinesApply(pg, s, d);
    NotApplied(pg, source, target);
  }

  /* ---- A function that becomes immutable ---- */

  const VOLATILE := REPLACE_F + "integer VOLATILE RETURN 1"
  const IMMUTABLE := REPLACE_F + "integer IMMUTABLE RETURN 1"
  const CALLS_F := "f()"

  function ComputeReader(): Reader {
    BlindReader().(routines := text => if text == CALLS_F then {CALLS_F} else {}, immutable := text =>
      text == IMMUTABLE)
  }

  function Computed(): Column { Column("c", "integer", false, None, None, Some(CALLS_F)) }

  function Computing(): SchemaSnapshot {
    OneRoutine(IMMUTABLE).(tables := map["t" := Columns([Computed()])])
  }

  lemma ComputingIs()
    ensures var s := Computing();
      DistinctIndexes(s) && DbOf(s) ==
      Db(map[], map["t" := Table(map["c" := Computed()], None, map[], map[])], map[], map[],
         map["f()" := Routine(false, IMMUTABLE)])
  {
    hide NormalizeBody;
    var s := Computing();
    Normal(IMMUTABLE);
    OneColumn(Computed());
    assert s.tables.Keys == {"t"} && TableOf(s.tables["t"]) == Table(map["c" := Computed()], None, map[], map[]);
    assert s.routines.Keys == {"f()"} && RoutineOf(s.routines["f()"]) == Routine(false, IMMUTABLE);
  }

  lemma ComputedSound(db: Db)
    requires "f()" in db.routines
    ensures TableSound(ComputeReader(), db, Table(map["c" := Computed()], None, map[], map[]))
  {
    assert ComputeReader().signature("f()") == "f()";
  }

  lemma ComputedConsistent(db: Db)
    requires db == Db(map[], map["t" := Table(map["c" := Computed()], None, map[], map[])], map[], map[],
                      map["f()" := Routine(false, IMMUTABLE)])
    ensures Consistent(ComputeReader(), db)
  {
    hide TableSound;
    ComputedSound(db);
    assert |IMMUTABLE| != |CALLS_F|;
    assert RoutineSound(ComputeReader(), db, Routine(false, IMMUTABLE));
  }

  lemma ComputingValid()
    ensures Valid(ComputeReader(), Computing())
  {
    hide DbOf, NormalizeBody, Consistent, DistinctColumns, ColumnMap;
    ComputingIs();
    OneColumn(Computed());
    ComputedConsistent(DbOf(Computing()));
    KeyOfF(IMMUTABLE);
    Normal(IMMUTABLE);
  }

  lemma NotYetImmutable()
    ensures !Computable(ComputeReader(), map["f()" := Routine(false, VOLATILE)], CALLS_F)
  {
    assert |VOLATILE| != |IMMUTABLE|;
  }

  // A computed column is added before the function it calls becomes immutable.
  lemma ComputedTooEarly()
    ensures Misses(ComputeReader(), Computing(), OneRoutine(VOLATILE))
  {
    hide DbOf, Valid, Misses, Describes, NormalizeBody, Computable, NewConstraintsApply, FreeInTurn;
    var pg, source, target := ComputeReader(), Computing(), OneRoutine(VOLATILE);
    Normal(VOLATILE);
    OneRoutineIs(VOLATILE);
    assert |VOLATILE| != |CALLS_F|;
    OneRoutineValid(pg, VOLATILE);
    ComputingIs();
    ComputingValid();
    NotYetImmutable();
    var s, d := DbOf(source), DbOf(target);
    assert "t" in s.tables && "t" !in d.tables && s.tables["t"].columns["c"] == Computed();
    assert !NewTableApplies(pg, s, d, "t", s.tables["t"]);
    assert !TablesApply(pg, source, target, s, d);
    NotApplied(pg, source, target);
  }

  /* ---- A function whose argument changes its name ---- */

  const UNNAMED := "f(integer)"
  const NAMED := "f(x integer)"

  // The bodies stand for the two definitions.
  function NameReader(): Reader {
    BlindReader().(signature := key => UNNAMED, routineKey := body => if body == "A" then UNNAMED else NAMED)
  }

  function Taking(arguments: string, body: string): SchemaSnapshot {
    SchemaSnapshot("s", map[], map[], map["f(" + arguments + ")" := RoutineSnapshot("f", arguments, false, body)],
                   map[])
  }

  lemma TakingIs(arguments: string, body: string)
    requires NormalizeBody(body) == body
    ensures var s := Taking(arguments, body); var k := "f(" + arguments + ")";
      DistinctIndexes(s) && Keyed(s) && DbOf(s) == Db(map[], map[], map[], map[], map[k := Routine(false, body)])
  {
    var s, k := Taking(arguments, body), "f(" + arguments + ")";
    assert s.routines.Keys == {k};
    assert RoutineKey(s.routines[k]) == k;
    assert RoutineOf(s.routines[k]) == Routine(false, body);
  }

  lemma TakingValid(arguments: string, body: string)
    requires NormalizeBody(body) == body && NameReader().routineKey(body) == "f(" + arguments + ")"
    ensures Valid(NameReader(), Taking(arguments, body)) && Describes(NameReader(), Taking(arguments, body))
  {
    hide DbOf, NormalizeBody, Keyed;
    var s, k := Taking(arguments, body), "f(" + arguments + ")";
    TakingIs(arguments, body);
    assert FieldsAgree(NameReader(), s) by {
      assert s.routines.Keys == {k};
      assert RoutineKey(s.routines[k]) == k;
    }
    assert DistinctSignatures(NameReader(), DbOf(s).routines);
  }

  lemma BothTaken()
    ensures Valid(NameReader(), Taking("x integer", "B")) && Valid(NameReader(), Taking("integer", "A"))
    ensures Describes(NameReader(), Taking("integer", "A"))
  {
    hide Valid, Describes, Taking, NormalizeBody;
    Normal("A");
    Normal("B");
    assert "f(" + "integer" + ")" == UNNAMED && "f(" + "x integer" + ")" == NAMED && |UNNAMED| != |NAMED|;
    TakingValid("x integer", "B");
    TakingValid("integer", "A");
  }

  // The script replaces the function, and drops it again under its old name.
  lemma ArgumentNamed()
    ensures Misses(NameReader(), Taking("x integer", "B"), Taking("integer", "A"))
  {
    hide DbOf, Valid, Misses, Describes, Taking, NormalizeBody;
    var pg, source, target := NameReader(), Taking("x integer", "B"), Taking("integer", "A");
    Normal("A");
    Normal("B");
    BothTaken();
    TakingIs("x integer", "B");
    TakingIs("integer", "A");
    var s, d, k, j := DbOf(source), DbOf(target), "f(" + "x integer" + ")", "f(" + "integer" + ")";
    assert k in s.routines && j in d.routines && pg.signature(k) == pg.signature(j) && |k| != |j|;
    assert !SignaturesStay(pg, s, d);
    NotApplied(pg, source, target);
  }

  lemma SortedTwo(a: string, b: string)
    requires Less(a, b)
    ensures Sorted({a, b}) == [a, b]
  {
    LessTotal(a, b);
    ListedOnce(Sorted({a, b}), [a, b]);
  }

  lemma SortedNone()
    ensures Sorted({}) == []
  {
    ListedOnce(Sorted({}), []);
  }

  lemma OneStatement(e: Entry, x: Tagged)
    requires e.tagged == [x]
    ensures ObjectPhases()(e) == [x.statement]
  {
    ScriptByPhases([e]);
    var ordered := OrderedEntries([e]);
    assert [e][..0] == [] && OrderedEntries([e][..0]) == [];
    assert OrderedEntry(0, [x]) == [Ordered(x.phase, 0, x.statement)];
    assert ordered == OrderedEntries([e][..0]) + OrderedEntry(0, e.tagged);
    assert ordered == [Ordered(x.phase, 0, x.statement)];
    assert ordered[..0] == [];
    assert StableSort(ordered) == ordered;
  }

  lemma NamesOrdered()
    ensures "f(" + "integer" + ")" == UNNAMED && "f(" + "x integer" + ")" == NAMED && Less(UNNAMED, NAMED)
  {
    assert Less(UNNAMED[2..], NAMED[2..]) && Less(UNNAMED[1..], NAMED[1..]);
  }

  function Dropping(): Tagged { Tagged(DropRoutines, DropRoutine(UNNAMED, false)) }

  function Creating(): Tagged { Tagged(Routines, CreateRoutine(NAMED, false, TrimEnd("B"))) }

  function DroppingEntry(): Entry { MakeEntry(FunctionObject, UNNAMED, Removed, [Dropping()], false, []) }

  function CreatingEntry(): Entry { MakeEntry(FunctionObject, NAMED, Added, [Creating()], false, []) }

  lemma BothRoutines(source: SchemaSnapshot, target: SchemaSnapshot)
    requires source == Taking("x integer", "B") && target == Taking("integer", "A")
    ensures source.routines.Keys + target.routines.Keys == {UNNAMED, NAMED}
    ensures RoutineEntry(source, target, UNNAMED) == [DroppingEntry()]
    ensures RoutineEntry(source, target, NAMED) == [CreatingEntry()]
  {
    hide NormalizeBody, TrimEnd, Less;
    NamesOrdered();
    assert |UNNAMED| != |NAMED|;
    assert source.routines == map[NAMED := RoutineSnapshot("f", "x integer", false, "B")];
    assert target.routines == map[UNNAMED := RoutineSnapshot("f", "integer", false, "A")];
    assert RoutineKey(source.routines[NAMED]) == NAMED && RoutineKey(target.routines[UNNAMED]) == UNNAMED;
  }

  lemma OnlyRoutines(source: SchemaSnapshot, target: SchemaSnapshot)
    requires source == Taking("x integer", "B") && target == Taking("integer", "A")
    ensures Entries(source, target) ==
      Gather(Sorted(source.routines.Keys + target.routines.Keys), RoutinePart(source, target))
  {
    hide RoutinePart, NormalizeBody;
    SortedNone();
    assert source.tables.Keys + target.tables.Keys == {} && source.views.Keys + target.views.Keys == {} &&
           source.sequences.Keys + target.sequences.Keys == {};
  }

  lemma BothEntries(source: SchemaSnapshot, target: SchemaSnapshot)
    requires source == Taking("x integer", "B") && target == Taking("integer", "A")
    ensures ObjectByObject(Entries(source, target)) ==
            [DropRoutine(UNNAMED, false), CreateRoutine(NAMED, false, TrimEnd("B"))]
  {
    hide Taking, Entries, Gather, RoutineEntry, ObjectPhases, TrimEnd, Less, MakeEntry, Sorted;
    NamesOrdered();
    SortedTwo(UNNAMED, NAMED);
    BothRoutines(source, target);
    OnlyRoutines(source, target);
    TwoGathered(UNNAMED, NAMED, RoutinePart(source, target));
    assert Entries(source, target) == [DroppingEntry(), CreatingEntry()];
    EntryStatements();
    TwoGathered(DroppingEntry(), CreatingEntry(), ObjectPhases());
  }

  lemma EntryStatements()
    ensures ObjectPhases()(DroppingEntry()) == [Dropping().statement] &&
      ObjectPhases()(CreatingEntry()) == [Creating().statement]
  {
    hide ObjectPhases;
    OneStatement(DroppingEntry(), Dropping());
    OneStatement(CreatingEntry(), Creating());
  }

  lemma TwoGathered<T, R>(a: T, b: T, part: T -> seq<R>)
    ensures Gather([a, b], part) == part(a) + part(b)
  {
    GatherOne(a, part);
    GatherLast([a], b, part);
    assert [a] + [b] == [a, b];
  }

  lemma DropsUnnamed(db: Db)
    requires db == Db(map[], map[], map[], map[], map[UNNAMED := Routine(false, "A")])
    ensures ExecDropRoutine(NameReader(), db, UNNAMED, false) == Some(Db(map[], map[], map[], map[], map[]))
  {
    assert Alike(NameReader(), db.routines, UNNAMED) == {UNNAMED};
    assert db.routines - {UNNAMED} == map[];
  }

  lemma CreatesNamed(db: Db, body: string)
    requires db == Db(map[], map[], map[], map[], map[])
    ensures ExecCreateRoutine(NameReader(), db, NAMED, false, body) ==
            Some(Db(map[], map[], map[], map[], map[NAMED := Routine(false, body)]))
  {
    assert Alike(NameReader(), db.routines, NAMED) == {};
    assert db.routines - {} == map[];
  }

  lemma DropThenCreate(db: Db)
    requires db == Db(map[], map[], map[], map[], map[UNNAMED := Routine(false, "A")])
    ensures Run(NameReader(), db, [DropRoutine(UNNAMED, false), CreateRoutine(NAMED, false, TrimEnd("B"))]) ==
            Some(Db(map[], map[], map[], map[], map[NAMED := Routine(false, NormalizeBody("B"))]))
  {
    hide NormalizeBody, TrimEnd, ExecDropRoutine, ExecCreateRoutine;
    NormalizeTrimmed("B");
    DropsUnnamed(db);
    CreatesNamed(Db(map[], map[], map[], map[], map[]), NormalizeBody("B"));
    RunShort(NameReader(), db, [DropRoutine(UNNAMED, false), CreateRoutine(NAMED, false, TrimEnd("B"))]);
  }

  // Here the phases do matter: one object at a time, the old function is dropped before the new one is created.
  lemma RoutineOrderMatters()
    ensures var source, target := Taking("x integer", "B"), Taking("integer", "A");
      Misses(NameReader(), source, target) &&
      Run(NameReader(), DbOf(target), ObjectByObject(Entries(source, target))) == Some(DbOf(source))
  {
    hide DbOf, Misses, Taking, NormalizeBody, Entries, ObjectByObject, Run, TrimEnd;
    var source, target := Taking("x integer", "B"), Taking("integer", "A");
    Normal("A");
    Normal("B");
    TakingIs("x integer", "B");
    TakingIs("integer", "A");
    assert "f(" + "integer" + ")" == UNNAMED && "f(" + "x integer" + ")" == NAMED;
    ArgumentNamed();
    BothEntries(source, target);
    DropThenCreate(DbOf(target));
  }
}

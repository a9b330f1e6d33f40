# Draco's pure core, modelled and proved

Draco is a PostgreSQL client. This project models the parts of it that are algorithms over unbounded data, in Dafny, and
proves what they promise:

- the **schema comparison** as a compiler: two snapshots in, a migration script out, proved against an executor for the
  statements (`snapshots`, `statements`, `diff`, `builder`, `comparison`, `database`, `applies`, `stages`, the `*_phase*`
  files, `convergence`, `keeping`, `owned_sequences`, `renamed_arguments`, `inexpressible`, `cross_schema`, `completeness`,
  `counterexamples`, `dependency_order`, `reorder`, `object_order`, `reports`);
- the **table editor**, a second, smaller compiler with renames and primary key replacement (`alter_planner`, `alter_run`,
  `alter_correct`);
- the **import pipeline** from CSV or JSON to the chunks of one `COPY` (`csv`, `json_import`, `copy_text`, `import`);
- **readers and printers that undo each other**: identifiers, schema qualifiers, connection URLs, password files, and
  comment stripping (`identifiers`, `requalify`, `connection_url`, `url_correct`, `url_round_trip`, `pgpass`, `schema_comments`);
- the smaller **stateful pieces**: the connection lifecycle, the script result and batched inserts (`lifecycle`,
  `script_result`, `row_insert`).

Code that works by changing state is a class or a loop with invariants whose postcondition ties it to a specification
function; what the code is for is then proved about that function. Readers are also described without it: by a grammar that
every text has a place in, with what each place means.

## How PostgreSQL enters

`Database.Exec` runs one statement on a schema and is `None` when PostgreSQL refuses it: a missing or taken name (tables,
views, sequences, indexes and the indexes behind constraints share one name space), a drop that something still depends on,
a reference to something that is not there, a second primary key, SET DEFAULT on an identity column, ADD IDENTITY on a
nullable or defaulted column or one of another type than an integer, DROP NOT NULL in a primary key, and a TYPE that a view,
a computed column, a trigger or the partition key stands in the way of, to which the column or its default has no cast, or
for which a constraint, an index or a foreign key makes no sense. A view needs the relations, columns and routines it reads;
a routine needs the relations whose rows it takes or returns and the routines its argument defaults call, and none of them
can be dropped under it; an index, a generation expression and a partition key may call immutable routines only.
`CREATE OR REPLACE` keeps a view's columns, and a routine's kind, return type, argument names and argument defaults.
Dropping a column takes its constraints, indexes and sequences along. PostgreSQL tells routines apart by their signatures,
in which arguments have no names. A script is one transaction.

What PostgreSQL reads inside a definition text, and what it knows of types, owners and keys, is the parameter `Reader`,
so the results hold for every reading. The table editor's statements have an executor of their own, `AlterRun.Exec`, and
what PostgreSQL knows about the edited table is its parameter `Server`. `Applies.Valid` says what the catalog guarantees
of a snapshot: identity implies an integer type, NOT NULL, no default and not generated; generated implies no default;
names and signatures are distinct; nothing refers to what is not there; a routine is keyed by its name and arguments.
`Applies.Describes` says that the reader knows the target: its name, and which of its columns own which of its
sequences.

`Inexpressible.Converges` is about a source that is already written for the target schema. `CrossSchema.DiffConverges` is
about what `diff_schemas` does with a source of another schema: it requalifies first, as `Requalification` says.

## When the script reaches the source

`Applies.ScriptApplies` is checked on the two snapshots before anything runs. It fails, and the script with it, exactly when

- a partition key or a generation expression differs (the code notes both), or
- a column or table that owns a sequence (`serial`) is dropped: the sequence goes with it, so it can neither stay nor be
  dropped by its own statement, or
- a routine's arguments only change names, so that its old and new key are one routine to PostgreSQL, or
- an index of a kept table changes or goes, and the table has a dot in its name (the code then names a schema that is not
  there) or a foreign key that stays rests on the index, or
- a created relation, or the index of a created constraint, is called like a relation that is dropped only at the end or, at
  its turn, like a constraint that is still to be dropped, or
- a column is retyped or dropped that a view which stays reads, or
- a column is retyped that is computed, held by the partition key or by a trigger that stays, is an identity column and gets
  no integer type, has no cast to the new type or a default without one, feeds a computed column at its turn, or is named
  by a constraint, an index or a foreign key that makes no sense for the types at its turn (changed checks are dropped only
  after the columns), or
- a computed column is added before a column it reads, or dropped after one, or
- a column loses NOT NULL while it is in the target's primary key, or
- a changed constraint that is no foreign key mentions a dropped column, or a foreign key or the grouping of a view that stays
  rests on it, or
- a primary key gets a name that sorts before the one it replaces, or
- a new default, check, generation expression or partition key calls a routine the target lacks, or a generation expression
  or partition key calls one that is not yet immutable, or a new index one that is not immutable, or
- a dropped view is read by a view that is kept or dropped later by name, or its rows are taken or returned by a routine, or
- a created or replaced view reads a view that comes only later by name, or a column that such a view lacks until then, or
- a replaced view does not keep its columns, or
- a new or replaced routine takes or returns rows of a view that is created only later, or an argument's default calls a
  routine the target lacks whose key sorts after its own, or
- a routine changes between function and procedure, or changes its return type or the names of its arguments, or loses an
  argument's default, or
- a dropped routine is used by a removed table or its indexes, or called by an argument's default of a dropped routine whose
  key sorts after its own.

Where the code and its documentation differ: the comment that dependencies exist before they are used
(draco-core/src/schema_diff.rs:124) does not hold in the cases above; `normalize_body` is not idempotent on bodies such as
`a ; ;`, so bodies are compared after one normalisation; a zero-column result of a script is shown as `rows_affected` 0
(draco-core/src/postgres/queries/function_editor.rs:259-267).

## Model

| member | source | states |
|---|---|---|
| Inexpressible.Converges | draco-core/src/schema_diff.rs:161-390 | the script, run on the target as one transaction, leaves exactly the source (columns as a map, bodies normalised) if and only if `ScriptApplies`, a condition read off both snapshots beforehand; for all snapshots PostgreSQL can hold and every reading of definition texts |
| Convergence.ExpressibleOutcome | draco-core/src/schema_diff.rs:128-145 | when partition keys and generation expressions agree, sequence owners stay and no routine only renames arguments, running the script fails exactly when `ScriptApplies` fails, and otherwise ends in the source: there is no third outcome |
| Convergence.Through | draco-core/src/schema_diff.rs:128-145 | after each of the 14 phases the schema is the stage written down for it, or the script failed in a phase whose condition does not hold |
| Inexpressible.StillDiffers | draco-core/src/schema_diff.rs:506-510 | a partition key or generation expression that differs is only noted, and no run of the script makes it agree |
| OwnedSequences.SequenceLost | draco-core/src/schema_diff.rs:195-199 | if a column or table that owns a sequence has to go, no run of the script ends in the source |
| RenamedArguments.RoutineLost | draco-core/src/schema_diff.rs:306-327 | if a routine of the source is to PostgreSQL the same as one the target has under another key, no run of the script ends in the source |
| CrossSchema.DiffConverges | draco-core/src/schema_diff.rs:161-183 | for two schemas of any names: the script of the report, run on the target, leaves exactly the requalified source if and only if `ScriptApplies` and the requalified routines still have their own keys |
| CrossSchema.KeyedExactly | draco-core/src/schema_diff.rs:779-792 | for plain names, requalified routines keep their own keys exactly when no argument list mentions the source's schema |
| CrossSchema.RowFunctionMoves | draco-core/src/schema_diff.rs:779-792 | a function that takes a row of the source's schema is not carried over, whatever the target |
| Completeness.NothingReported | draco-core/src/schema_diff.rs:186-354 | no object is reported exactly when both sides are the same schema |
| Completeness.AppliedOnce | draco-core/tests/live_postgres.rs:519-614 | comparing again after the script ran reports nothing, exactly when the script applies |
| Counterexamples.KeyColumnBecomesNullable | draco-core/src/schema_diff.rs:594-604 | a key column that leaves the key and becomes nullable: the script never reaches the source |
| Counterexamples.KeyRenamedBackwards | draco-core/src/schema_diff.rs:619-648 | a primary key renamed to a name that sorts first: the script never reaches the source |
| Counterexamples.PartitionKeyDiffers | draco-core/src/schema_diff.rs:506-510 | two partition keys: the script never reaches the source |
| Counterexamples.IdentityBecomesText | draco-core/src/schema_diff.rs:540-558 | an identity column that becomes text: its type is changed before its identity is dropped |
| Counterexamples.ComputedColumnFirst | draco-core/src/schema_diff.rs:521-531 | a computed column listed before the column it reads is added too early |
| Counterexamples.ComputedColumnLast | draco-core/src/schema_diff.rs:606-617 | a column listed before the column computed from it is dropped too early |
| Counterexamples.CheckedColumnRetyped | draco-core/src/schema_diff.rs:540-549 | a column is retyped while the check that needs its old type is still there |
| Counterexamples.DottedTable | draco-core/src/schema_diff.rs:650-670 | an index of a table with a dot in its name cannot be dropped |
| Counterexamples.SerialTableDropped | draco-core/src/schema_diff.rs:195-240 | a table with a serial column cannot be removed |
| Counterexamples.ViewLosesColumn | draco-core/src/schema_diff.rs:282-287 | a view that loses a column cannot be replaced |
| Counterexamples.ViewReadsNewColumn | draco-core/src/schema_diff.rs:261-292 | a new view reads a column that a view of a later name gains only after it |
| Counterexamples.RoutineReturnsNewView | draco-core/src/schema_diff.rs:128-145 | a new function returns rows of a new view, which is created after it |
| Counterexamples.ViewDroppedUnderRoutine | draco-core/src/schema_diff.rs:128-145 | a view is removed together with the function that returns its rows, and dropped before it |
| Counterexamples.ComputedTooEarly | draco-core/src/schema_diff.rs:128-145 | a new table has a column computed by a function that becomes immutable only afterwards |
| Counterexamples.RoutineReturnsOther | draco-core/src/schema_diff.rs:329-337 | a function with another return type cannot be replaced |
| Counterexamples.ArgumentNamed | draco-core/src/schema_diff.rs:306-327 | a function whose unnamed argument gets a name is replaced and then dropped |
| Counterexamples.RoutineOrderMatters | draco-core/src/schema_diff.rs:356-362 | for that function running one object at a time ends in the source while the script does not |
| TablePhases.DropTriggersRun | draco-core/src/schema_diff.rs:671-685 | changed and removed triggers of kept tables are dropped, and this phase never fails |
| TablePhases.DropForeignRun | draco-core/src/schema_diff.rs:226-236 | every changed or removed foreign key is dropped before any column changes, and this phase never fails |
| ViewPhases.DropViewsRun | draco-core/src/schema_diff.rs:274-291 | exactly the removed and the changed materialized views are dropped; the phase fails exactly when a view that stays, or is dropped later by name, reads one of them, or a routine takes or returns its rows |
| IndexPhases.DropIndexesRun | draco-core/src/schema_diff.rs:650-670 | changed and removed indexes of kept tables are dropped; the phase fails exactly when one is on a table with a dot in its name or under a foreign key that stays |
| IndexPhases.QualifierIs | draco-core/src/schema_diff.rs:650-653 | the part of a qualified table name before its last dot is the schema exactly when the table's own name has no dot |
| SequencePhases.SequencesRun | draco-core/src/schema_diff.rs:186-216 | every wanted sequence is there with its options; the phase fails exactly when a new one takes the name of a relation dropped later or of a constraint of the target |
| ReshapePhase.ReshapeRun | draco-core/src/schema_diff.rs:465-648 | every table the source has gets its columns and its own constraints; the phase fails exactly when a kept table does not meet `KeptTableApplies` or a new one `NewTableApplies`, names and types taken as they are at the table's turn |
| KeptTables.AlterRun | draco-core/src/schema_diff.rs:505-648 | altering one kept table gives it exactly the wanted columns and constraints but foreign keys, and fails exactly when its columns or constraints do not apply |
| KeptTables.ColumnsRun | draco-core/src/schema_diff.rs:521-617 | the column statements of one table, in list order, turn the target columns into the source columns, dropping what hangs on dropped columns; they fail exactly when a column does not apply at its turn (`ColumnsApply`) |
| ColumnPhases.ColumnConverges | draco-core/src/schema_diff.rs:533-604 | for every pair of column states, the TYPE / DROP IDENTITY / DEFAULT / SET NOT NULL / ADD IDENTITY / NOT NULL steps succeed in order and end in the wanted column exactly when its type, default and nullability apply |
| NewTables.CreateRun | draco-core/src/schema_diff.rs:465-485 | CREATE TABLE declares exactly the columns and the constraints that are no foreign keys, and fails exactly when a name is taken, a routine is missing or one that has to be immutable is not |
| RoutinePhases.RoutinesRun | draco-core/src/schema_diff.rs:306-334 | every wanted routine has its body; the phase fails exactly when one changes its kind, return type or argument names or loses a default, takes or returns rows of a view created later, or has an argument default that calls a routine created later |
| ViewPhases.ViewsRun | draco-core/src/schema_diff.rs:261-292 | every wanted view has its body; the phase fails exactly when a new one is not free, a replaced one loses or retypes a column, or one reads a view created later by name or a column that a later one gains |
| IndexPhases.CreateIndexesRun | draco-core/src/schema_diff.rs:495-498 | every wanted index is there; the phase fails exactly when the name of a new one is taken by a relation dropped later or it calls a routine that is not immutable |
| TablePhases.AddForeignRun | draco-core/src/schema_diff.rs:486-494 | every wanted foreign key is added and finds its table: the phase never fails |
| TablePhases.CreateTriggersRun | draco-core/src/schema_diff.rs:499-501 | every wanted trigger is created and finds its routine: the phase never fails |
| RoutinePhases.DropRoutinesRun | draco-core/src/schema_diff.rs:313-327 | unwanted routines are dropped; the phase fails exactly when a table or index dropped later still uses one, or an argument default of a routine dropped later calls it |
| ReshapePhase.DropTablesRun | draco-core/src/schema_diff.rs:225-240 | where no sequence goes with them, unwanted tables are dropped with their indexes; nothing refers to them and no routine takes their rows any more, so the phase never fails |
| SequencePhases.DropSequencesRun | draco-core/src/schema_diff.rs:195-199 | unwanted sequences are dropped; no default uses them any more, so the phase never fails once the phases before it ran |
| ScriptOrder.StableSortSorts | draco-core/src/schema_diff.rs:356-362 | the sort by phase and object is ordered, a permutation, and keeps the order in which statements of one key were pushed |
| PhaseLists.ScriptByPhases | draco-core/src/schema_diff.rs:356-362 | the script is its fourteen phases one after the other, objects in their order inside each |
| DependencyOrder.ScriptInPhases | draco-core/src/schema_diff.rs:128-145 | any two statements of the script stand in the order of the phases their kinds belong to |
| DependencyOrder.DropsBeforeColumns | draco-core/src/schema_diff.rs:655-670 | every trigger, index, view and foreign key drop stands before every column change and column drop |
| DependencyOrder.DependenciesMet | draco-core/src/schema_diff.rs:128-145 | however far the script gets, the next statement is accepted and finds what it needs if it drops a trigger, foreign key, table or sequence or adds a foreign key or trigger; nothing is asked of the rest of the script |
| Reordering.OthersUntouched | draco-core/src/schema_diff.rs:128-145 | an accepted statement changes its own object and leaves the share of every other object as it was, but for sequences of a dropped column and a routine taken for its own |
| Reordering.ChangedAlike | draco-core/src/schema_diff.rs:128-145 | what an accepted statement does to its object depends on that object alone |
| Reordering.SameOwnOrder | draco-core/src/schema_diff.rs:128-145 | two scripts that order each object's statements alike and both succeed leave the same schema |
| ObjectOrder.EntriesApart | draco-core/src/schema_diff.rs:161-354 | every object has at most one entry, and all the entry's statements are about it |
| ObjectOrder.PhaseOrderPreserves | draco-core/src/schema_diff.rs:356-362 | sorting all statements by phase and running one object at a time, if both succeed, leave the same schema (no index name moves between tables, no routine only renames arguments) |
| ObjectOrder.ObjectOrderReaches | draco-core/src/schema_diff.rs:356-362 | where the script applies, running one object at a time cannot end anywhere but in the source |
| ObjectOrder.ForwardReferenceFails | draco-core/src/schema_diff.rs:486-494 | running one object at a time fails whenever a new table refers to a new table of a later name: commuting holds only where both orders succeed |
| Destruction.DestructiveExactly | draco-core/src/schema_diff.rs:111-113 | a comparison is destructive exactly when its script drops a table, column or sequence or retypes a column |
| Destruction.ScriptMember | draco-core/src/schema_diff.rs:356-361 | a statement is in the script exactly when some object brings it |
| Builders.Builder.AlterTable | draco-core/src/schema_diff.rs:505-686 | pushes exactly the specified statements and notes and sets the destructive flag exactly for retyped or dropped columns |
| Builders.Builder.AlterExisting | draco-core/src/schema_diff.rs:540-604 | pushes the changes of one column in order, for every combination of old and new state |
| Builders.Builder.CreateTable | draco-core/src/schema_diff.rs:465-503 | pushes the table, then its foreign keys, indexes and triggers |
| Builders.Builder.DropTable | draco-core/src/schema_diff.rs:225-240 | pushes the foreign key drops and the table drop and is destructive |
| Comparison.DiffSchemas | draco-core/src/schema_diff.rs:161-390 | the four loops, the numbering and the sort return the report the lemmas are about, on the requalified source |
| Reports.ObjectsRight | draco-core/src/schema_diff.rs:186-354 | each reported object is added, removed or changed as only the source, only the target or both have its name; views and routines are called what the source, or else the target, has them as; and it has exactly the notes that the two sides give reason for |
| Reports.ReportedExactly | draco-core/src/schema_diff.rs:186-354 | an object of each of the four kinds is reported exactly when the two sides differ in it, bodies compared without outer whitespace and final semicolons, and columns as a set |
| Reports.ObjectsInOrder | draco-core/src/schema_diff.rs:186-354 | objects are listed by kind and then by name, each once |
| Reports.StatementsRight | draco-core/src/schema_diff.rs:161-183 | the statements of an object are exactly those of the script that are about it |
| Reports.StatementsInOrder | draco-core/src/schema_diff.rs:356-362 | in every phase an object's statements stand in the script in the order the object lists them |
| Reports.ScriptOfObjects | draco-core/src/schema_diff.rs:356-362 | the script is the statements of all objects in another order, each as often as they list it |
| Reports.ObjectDestructive | draco-core/src/schema_diff.rs:161-183 | an object is called destructive exactly when one of its statements drops a table, column or sequence or retypes a column |
| Reports.NotesListed | draco-core/src/schema_diff.rs:363-368 | the notes of the report are those of its objects, each under the name of its object |
| Reports.TableWritten | draco-core/src/schema_diff.rs:465-485 | a new table is declared with the source's columns in their order, each as the source has it, its constraints but the foreign keys by name, and its partition key |
| Reports.ColumnsAdded | draco-core/src/schema_diff.rs:521-531 | a changed table gets exactly the columns it lacks, in the order the source has them |
| Reports.NormalizedOne | draco-core/src/schema_diff.rs:704-708 | a compared body is the one text left of a definition without its outer whitespace, its final semicolons and the whitespace before them |
| Names.SortNames | draco-core/src/schema_diff.rs:392-397 | the union of two key sets, each name once, in byte order |
| Names.ListedOnce | draco-core/src/schema_diff.rs:392-397 | iteration order is a function of the keys |
| Names.LessExactly | draco-core/src/schema_diff.rs:392-397 | names are compared at the first character in which they differ, or by length |
| Diff.NormalizeTrimmed | draco-core/src/schema_diff.rs:309-311 | trimming the end of a definition before normalising it makes no difference |
| Requalification.Requalify | draco-core/src/schema_diff.rs:800-820 | the find-and-copy loop computes the character-by-character rewrite |
| Requalification.RequalifiedExactly | draco-core/src/schema_diff.rs:794-820 | for any text and any two names: the leftmost old qualifiers that do not overlap are replaced, but for those that go on with another name |
| Requalification.RequalifiedToItself | draco-core/src/schema_diff.rs:800-820 | requalifying a name to itself is the identity on any text |
| Requalification.RequalifiedBack | draco-core/src/schema_diff.rs:800-820 | for plain names, there and back gives the text exactly when it did not mention the new schema before |
| Requalification.RequalifiedAway | draco-core/src/schema_diff.rs:794-799 | after the rewrite no qualifier of the old schema starts a name |
| Requalification.RequalifiedSame | draco-core/src/schema_diff.rs:800-820 | for plain names, the rewrite changes nothing exactly when the text does not mention the old schema |
| Requalification.SnapshotBack | draco-core/src/schema_diff.rs:710-792 | a whole snapshot rewritten for another schema and back is the same exactly when no text of it mentions that schema |
| Identifiers.ReadPrintedQualified | draco-app/src/lib.rs:2963-2978 | a qualified name printed by either printer is read back exactly, and reading stops at the text after it |
| Identifiers.ReadPrintedName | draco-app/src/lib.rs:2963-2978 | an unqualified printed name is read back unless the text goes on with a dot |
| Identifiers.ReadPrinted | draco-core/src/schema_diff.rs:823-840 | each printed identifier is read back, bare or quoted, for all identifiers |
| Identifiers.ReadDoubled | draco-core/src/postgres/queries/helpers.rs:26-28 | doubling quotes is undone by the quoted reader |
| Identifiers.PrintedApart | draco-core/src/schema_diff.rs:823-840 | no two qualified names are printed alike |
| Identifiers.DdlCursor.SkipWhitespace | draco-app/src/lib.rs:2896-2903 | advances exactly past the leading whitespace |
| Identifiers.DdlCursor.Identifier | draco-app/src/lib.rs:2925-2961 | returns and advances as the specified reader does, also on unterminated quotes |
| Identifiers.DdlCursor.QualifiedName | draco-app/src/lib.rs:2963-2978 | returns and advances as the specified reader does |
| IdentifierReading.IdentifierExactly | draco-app/src/lib.rs:2925-2961 | on any text: after whitespace, a closed quoted identifier stands for itself with its quotes halved, the longest bare name for its small letters, and anything else for none |
| IdentifierReading.QualifiedExactly | draco-app/src/lib.rs:2963-2978 | on any text: one identifier, or two with a dot between them and whitespace around it |
| IdentifierReading.BareExactly | draco-core/src/schema_diff.rs:823-840 | an identifier is printed bare exactly when it is a small name that is no key word |
| AlterPlanner.BuildAlterTableStatements | draco-core/src/postgres/queries/alter_table.rs:179-310 | the loops build the specified plan |
| AlterPreview.BuildAlterTablePreview | draco-app/src/lib.rs:2793-2866 | accepts exactly the forms that pass every check and returns their plan; each error names a check that fails |
| AlterCorrect.PlanCorrect | draco-core/src/postgres/queries/alter_table.rs:179-310 | for every accepted form the plan leaves exactly the edited columns, key and name (types and nullability as given, default and table name the given texts without outer whitespace) if and only if it applies: no column takes a name a later edit still holds, no key column is nullable or of a type no key may have, nothing rests on a key that is replaced, every edit is one PostgreSQL allows (its name, its new type with a cast for the column and for its default, its default, its nullability), what depends on the columns fits after each edit, and the new table name is free |
| AlterCorrect.ShapeRun | draco-core/src/postgres/queries/alter_table.rs:219-300 | the edits and the new key run, and leave the wanted columns and key, exactly when names are free at their turn, each edit is allowed and fits, and the key columns are neither nullable nor of a type no key may have |
| AlterCorrect.Through | draco-core/src/postgres/queries/alter_table.rs:219-290 | after every prefix of the edits the table is half-way, done columns as wanted and the others as they were; and the prefix runs exactly when each of its edits is good |
| AlterCorrect.KeyMatches | draco-core/src/postgres/queries/alter_table.rs:190-209 | an unchanged key means that the edited key columns are the original ones under their edited names |
| AlterCorrect.KeyUnchangedMeans | draco-core/src/postgres/queries/alter_table.rs:190-209 | the key counts as unchanged exactly when the marked columns are the old key columns in their order, whatever they are called now |
| AlterCorrect.KeyReplaced | draco-core/src/postgres/queries/alter_table.rs:210-217 | the key is dropped only when it changes, and added with exactly the marked columns in the order of the form |
| AlterCorrect.KeyReplacedAgain | draco-core/src/postgres/queries/alter_table.rs:210-217 | when it changes, the old key is dropped first of all and the new one added |
| AlterCorrect.NothingIdle | draco-core/src/postgres/queries/alter_table.rs:250-289 | no statement sets what the column has already, and each sets what the form asks for |
| AlterCorrect.RenamedExactly | draco-core/src/postgres/queries/alter_table.rs:302-307 | the table is renamed exactly when the form gives it another name |
| AlterCorrect.DefaultNotCast | draco-core/src/postgres/queries/alter_table.rs:260-289 | a text column with a default that becomes an integer with another default: the type is changed first, and the old default stands in its way |
| AlterCorrect.NoKeyColumnDropped | draco-core/src/postgres/queries/alter_table.rs:210-217 | no plan drops a column that is in the primary key at that point |
| AlterCorrect.UntouchedPlan | draco-core/src/postgres/queries/alter_table.rs:405-412 | an unchanged form has an empty plan |
| AlterCorrect.EmptyPlan | draco-core/src/postgres/queries/alter_table.rs:179-310 | an empty plan means that the table already is what the form asks for |
| AlterRun.EditRun | draco-core/src/postgres/queries/alter_table.rs:219-290 | the statements of one edit run exactly when its name is free, its type can be reached from the column and its default, its default and nullability are allowed and what depends on the columns fits, and do exactly what the edit says |
| AlterRun.StartIs | draco-core/src/postgres/queries/alter_table.rs:179-189 | the columns the plan starts from are those of the catalog, defaults without outer whitespace |
| AlterRun.DefaultOne | draco-core/src/postgres/queries/alter_table.rs:278-279 | the default of a field is the one text left of it without outer whitespace, and nothing for an empty field |
| Csv.ScanRecords | draco-core/src/table_import.rs:128-190 | the character loop computes the specified records and errors with their lines |
| Csv.ParseCsv | draco-core/src/table_import.rs:124-234 | returns the specified table or error, in the order the checks are made |
| Csv.RejectDuplicateColumns | draco-core/src/table_import.rs:352-362 | finds the first repeated name |
| CsvCorrect.AcceptedIsTable | draco-core/src/table_import.rs:38-45 | every accepted file has distinct, non-empty column names and rows of exactly that width |
| CsvCorrect.CsvRoundTrip | draco-core/src/table_import.rs:122-234 | a file of one width is read as its records, columns numbered: fields bare, quoted or quoted with more text, lines ended in any of three ways, the last one perhaps not at all |
| CsvCorrect.CsvRoundTripExactly | draco-core/src/table_import.rs:122-234 | what is written comes back cell by cell exactly when something is written and no line is empty |
| CsvCorrect.CsvHeaderRoundTrip | draco-core/src/table_import.rs:193-207 | under a header the records come back with its names, trimmed, or numbered where it has none |
| CsvCorrect.RecordsBack | draco-core/src/table_import.rs:124-190 | every written file is read as exactly its records: bare text as it stands, quoted text without its quotes, NULL only for an empty bare field, each record with the number of the line it starts on |
| CsvCorrect.UnclosedRefused | draco-core/src/table_import.rs:186-190 | a field whose quotes are never closed is refused with the line they open on |
| CsvCorrect.EveryText | draco-core/src/table_import.rs:124-190 | every text is a written file or ends in such a field, so the two results above say what becomes of any text |
| CsvCorrect.RecordsExactly | draco-core/src/table_import.rs:124-190 | a text is read as these records exactly when it is a file that holds them |
| CsvCorrect.ParsedExactly | draco-core/src/table_import.rs:192-234 | every file is read as the table its records make under their names, or refused for the first record of another width or the first repeated name |
| CsvCorrect.ScanRow | draco-core/src/table_import.rs:146-184 | scanning a written line adds exactly its record, or nothing if the line is empty |
| Numbers.DecimalApart | draco-core/src/table_import.rs:225-229 | numbered columns are distinct |
| Numbers.DecimalPlaces | draco-core/src/table_import.rs:225-229 | numbers are printed with the highest place first and no zero before it |
| JsonImport.VisitMap | draco-core/src/table_import.rs:299-310 | each key once, where it was first seen, with its last value |
| JsonImport.ParseJson | draco-core/src/table_import.rs:239-280 | returns the specified table or error |
| JsonImport.AcceptedJson | draco-core/src/table_import.rs:236-280 | columns are exactly the keys, each once; one row an object; each cell the text of the last value of its key, NULL if it has none |
| JsonImport.JsonExactly | draco-core/src/table_import.rs:236-280 | what becomes of any decoded file: columns in the order keys are first seen, each cell as its last value is spelled, or the error and where |
| JsonImport.ColumnsExactly | draco-core/src/table_import.rs:239-260 | the columns are the keys, each once, in the order they are first seen |
| CopyText.PushCopyTextRow | draco-core/src/table_import.rs:366-387 | appends exactly the encoded row to the caller's buffer |
| CopyCorrect.CopyRoundTrip | draco-core/src/table_import.rs:364-387 | a decoder for COPY's text format, for which carriage returns end lines too, returns exactly the rows, over all bytes |
| CopyCorrect.NullApart | draco-core/src/table_import.rs:371-384 | a value that spells `\N` is encoded differently from NULL |
| CopyCorrect.NeverEndOfData | draco-core/src/table_import.rs:364-387 | no encoded row is the end-of-data marker |
| CopyCorrect.DecodeJoined | draco-core/src/table_import.rs:366-387 | one encoded line decodes to its values |
| Import.ValidateMapping | draco-app/src/table_import.rs:300-358 | accepts exactly the mappings that match the file and the table, use no table column twice and leave no required one; each error says what is wrong |
| Import.EncodeRows | draco-app/src/table_import.rs:360-379 | never reads outside a row; chunks join to the encoded rows, end at row boundaries, and all but the last reach the chunk size with no row more than needed |
| Import.PrepareImport | draco-app/src/table_import.rs:165-187 | imports exactly accepted files with rows and an accepted mapping; PostgreSQL then reads exactly the mapped cells, row for row, NULL apart from empty; each error says what is wrong |
| Import.ImportCsv | draco-app/src/table_import.rs:234-263 | for every CSV text, mapping and table: succeeds exactly when the file, the mapping and the rows allow, and what is sent is read by PostgreSQL as exactly the mapped cells |
| Import.ImportJson | draco-app/src/table_import.rs:234-263 | the same for every decoded JSON file |
| Import.DelimiterOf | draco-app/src/table_import.rs:235-248 | nothing and the empty text mean a comma, a spelled tab means a tab, one character means itself, and it refuses exactly what is not one character other than a quote or line break |
| ConnectionUrl.ParseConnectionUrl | draco-core/src/connection_import.rs:62-151 | the parameter loop and the rest compute the specified connection or error |
| Percent.DecodePercent | draco-core/src/connection_import.rs:201-221 | the byte loop computes the specified decoding |
| Percent.PercentRoundTrip | draco-core/src/connection_import.rs:201-221 | decoding undoes percent-encoding for all text without NUL, and refuses text with it |
| PercentCorrect.PercentExactly | draco-core/src/connection_import.rs:201-221 | a text stands for a value exactly when its bytes, plain or as two hex digits of either case, spell UTF-8 without NUL for it |
| UrlRoundTrip.UrlRoundTripped | draco-core/src/connection_import.rs:62-151 | every printed URL is read back as its fields with the defaults for what was empty, TLS used for require, verify-ca and verify-full; NUL and socket hosts are refused |
| UrlRoundTrip.UrlFieldsBack | draco-core/src/connection_import.rs:62-151 | with nothing left empty, exactly the printed fields come back, TLS and the downgrade as the mode says, if and only if none holds a NUL and the host names no socket |
| UrlRoundTrip.ParameterUrlBack | draco-core/src/connection_import.rs:100-137 | a URL that carries its fields as parameters names the same connection, exactly when none holds a NUL, the host is no list and names no socket |
| UrlCorrect.UrlExactly | draco-core/src/connection_import.rs:62-151 | for every URL, by its parts: it is accepted as a connection exactly when its parts and parameters, decoded, describe that connection; the last value of a parameter counts, and an address only where no host is given |
| UrlCorrect.UrlRefused | draco-core/src/connection_import.rs:62-151 | every refusal names something that is wrong, and among parameters the first that is |
| UrlCorrect.EveryUrl | draco-core/src/connection_import.rs:62-81 | every URL with one of the two schemes has parts, and every other one is refused for its scheme |
| UrlCorrect.PortExactly | draco-core/src/connection_import.rs:187-189 | a port is a number from 1 to 65535, perhaps with zeros and a plus sign before it |
| UrlCorrect.ModeExactly | draco-core/src/connection_import.rs:192-199 | TLS is used for require, verify-ca and verify-full, verification is given up for the last two, and there are three more modes |
| UrlRoundTrip.HostBack | draco-core/src/connection_import.rs:159-185 | a printed host, plain or in brackets, and its port are split again |
| UrlRoundTrip.AuthorityBack | draco-core/src/connection_import.rs:77-81 | the last `@` ends the user part |
| Pgpass.ParsePgpass | draco-core/src/connection_import.rs:266-297 | the line and character loops compute the specified entries |
| Pgpass.PgpassConnections | draco-core/src/connection_import.rs:316-360 | distinct targets in file order, one for every eligible line's target, each from its earliest line |
| Pgpass.LookupAgrees | draco-core/src/connection_import.rs:299-312 | without wildcards and with canonical ports, each connection has the password the lookup finds for it |
| PgpassRoundTrip.PgpassBack | draco-core/src/connection_import.rs:266-297 | a printed file is read back without lines that look like comments and without carriage returns at the end of a password |
| PgpassRoundTrip.PgpassBackExactly | draco-core/src/connection_import.rs:266-297 | exactly the files without such lines and passwords come back as they were |
| PgpassCorrect.FileExactly | draco-core/src/connection_import.rs:266-297 | every file is read as the entries of its lines, but for lines that say nothing or have fewer than five fields |
| PgpassCorrect.EntryExactly | draco-core/src/connection_import.rs:274-295 | a line is read as an entry exactly when it spells its five fields: characters plain or behind a backslash, colons only in the last |
| PgpassCorrect.SkippedMeans | draco-core/src/connection_import.rs:266-270 | skipped are the lines with only whitespace, or a hash sign after whitespace |
| PgpassCorrect.LookupExactly | draco-core/src/connection_import.rs:299-312 | a lookup finds the password of the first entry that fits, where a star fits everything |
| PgpassCorrect.TargetExactly | draco-core/src/connection_import.rs:316-345 | the target an entry names, with 5432 and `postgres` for stars |
| PgpassCorrect.ConnectionExactly | draco-core/src/connection_import.rs:345-360 | each connection is the one its entry names, not encrypted, with the entry's password if it has one, and no earlier entry names it |
| PgpassCorrect.EveryTarget | draco-core/src/connection_import.rs:316-360 | every target an entry names has its connection |
| SchemaComments.StripComments | draco-core/src/parser/schema.rs:50-89 | the index loop computes the token-by-token result and stays in bounds |
| SchemaComments.StrippedClean | draco-core/src/parser/schema.rs:50-89 | the result has no comment opener outside a string literal, keeps every literal, and stripping it again changes nothing; on every input |
| SchemaComments.StrippedSame | draco-core/src/parser/schema.rs:50-89 | exactly the texts without comments are left as they are |
| SchemaTokens.StrippedTokens | draco-core/src/parser/schema.rs:50-89 | stripping removes the comments of a text, line breaks after them excepted, and keeps every other character |
| SchemaTokens.StrippedExactly | draco-core/src/parser/schema.rs:50-89 | on any text: the result is what the text's tokens leave without its comments |
| Lifecycle.ConnectionManager.SyncConnections | draco-core/src/manager.rs:38-68 | exactly the stored connections stay or appear, each as it was stored last; only a change of the read-only flag closes the session |
| Lifecycle.ConnectionManager.Connect | draco-core/src/manager.rs:85-125 | every way an attempt can end, given up half-way included, with its status, session and error; nothing else changes |
| Lifecycle.ConnectionManager.Disconnect | draco-core/src/manager.rs:127-137 | drops the session and the error |
| Lifecycle.RunKeeps | draco-core/src/manager.rs:25-137 | after any run: keys are the stored ids, connected means a session and no error, disconnected means neither, and each session has the read-only flag its connection has now |
| Lifecycle.SyncedReflects | draco-core/src/manager.rs:38-68 | after a sync exactly the stored connections are held, each as it was stored last; a session, its status and its error stay exactly as long as the read-only flag does |
| Lifecycle.RunHoldsStored | draco-core/src/manager.rs:38-68 | after any run the connection under each id is the one of the last sync |
| Lifecycle.SessionFound | draco-app/src/lib.rs:2496-2508 | the second lookup of a session never fails; the lookup gives the session and title that are held, or says why not |
| Lifecycle.SyncedAgain | draco-core/src/manager.rs:209-216 | storing the same connections again changes nothing |
| ScriptResult.FoldMessages | draco-core/src/postgres/queries/function_editor.rs:217-336 | the loop returns the outcome of the last completed statement: its rows if it described columns, else the count |
| ScriptResult.OnlyLastStatement | draco-core/src/postgres/queries/function_editor.rs:209-216 | the result depends on the messages of the last completed statement alone: no row of another one shows |
| ScriptResult.OutcomeExactly | draco-core/src/postgres/queries/function_editor.rs:217-279 | the last completed statement is shown with the columns of its last description and one row for each row message after it, NULL apart from text; without columns a count is shown |
| ScriptResult.NothingCompleted | draco-core/src/postgres/queries/function_editor.rs:259-267 | without a completed statement nothing is affected |
| RowInsert.ImportTableRows | draco-core/src/postgres/queries/column_stats.rs:47-92 | sends one numbered statement a chunk and returns the number of rows |
| RowInsert.ChunkSizes | draco-core/src/postgres/queries/column_stats.rs:65-67 | chunks join to the rows, none is empty, and all but the last have 500 |
| RowInsert.PlaceholderBinds | draco-core/src/postgres/queries/column_stats.rs:68-85 | placeholder (r, c) is bound to cell (r, c) of its chunk when rows are as wide as the columns |
| RowInsert.PlaceholdersCount | draco-core/src/postgres/queries/column_stats.rs:68-78 | in print order the placeholders are $1 to the last, each once |

## Left out

- Rendering of the comparison's statements as SQL text, the comment lines of the notes, and the display definitions of each side: statements are values, and only identifiers, qualifiers and bodies are modelled as text.
- Inexpressible.Converges: assumes that PostgreSQL refuses nothing, and does nothing else, for what is not in a text it reads for one of the purposes `Reader` lists. This leaves out: the rows stored (NOT NULL on existing NULLs, checks, unique keys, a mandatory column without a default, values a cast refuses) and where sequences stand; what a routine's body calls and reads, whether it is parsed when the routine is created or tracked as a dependency; columns whose type is the row type of a relation, and texts that name a relation as a type or as a `regclass` constant other than the sequence of a default; the table after FROM in a constraint trigger; names PostgreSQL chooses itself (sequences of identity columns); the query a materialized view is filled with; objects the comparison does not list (types, policies, rules, aggregates, partitions, inheritance, publications, extensions, triggers and indexes of views), and objects of other schemas that depend on this one.
- Database.ExecDropColumn: does not ask whether a foreign key or a view rests on a constraint that goes with the column, because the constraint's own drop fails afterwards anyway.
- ObjectOrder.PhaseOrderPreserves: an index name that moves from one table to another is not covered, although both orders may succeed; when the run one object at a time succeeds is not characterised beyond ForwardReferenceFails.
- CrossSchema.DiffConverges: that the requalified source is a schema PostgreSQL can hold is assumed, as far as its routines keep their own keys.
- AlterRun.Exec: key columns are a set, because the catalog view the editor works from does not show their order inside the key; the rows stored, and the columns a partitioned table asks of its primary key, are not modelled.
- AlterPreview.BuildAlterTablePreview: the one-value checks of names, types and defaults are parameters, and the substring test for destructive plans is not modelled.
- build_create_table_statement, parse_pg_service and service_connections: single passes like the ones modelled, which would add only easy members.
- Requalification.RequalifiedBack: stated for plain names, as a quoted name can hold dots and quotes that overlap a qualifier.
- Requalification.Requalify: what `char::is_alphanumeric` says is a parameter; the round trips ask of it only that it holds of ASCII letters and digits and of no quote, dot, underscore, dollar sign or whitespace.
- Identifiers.DdlCursor.QualifiedName: offsets count characters, not bytes, and the keyword scanner beside it is not modelled.
- ConnectionUrl.ParseConnectionUrl: UTF-8 is a parameter with its laws (encoding is undone by decoding, respects concatenation, and is the identity on ASCII); ports are natural numbers up to 65535.
- UrlCorrect.UrlRefused: of several things wrong before the parameters, it does not say which one is reported.
- JsonImport.ParseJson: starts from the decoded array; numbers and nested values are given by their JSON spelling.
- Import.EncodeRows: the UTF-8 encoder is a parameter, and buffer capacity is not modelled.
- Import.ImportCsv: reading the file, its size limit and its decoding to text come before, sending the chunks comes after.
- Lifecycle.ConnectionManager.Connect: opening a session is an event with three outcomes; the manager is held until it ends, as the source holds its lock, and closing a session cannot be interrupted because nothing in it waits.
- RowInsert.PlaceholderBinds: rows of another width than the column list, which the function does not refuse, are not covered.
- All I/O: sockets, tunnels, pools, catalog queries, secrets, the shell and the interface.
- Memory layout and aliasing: vectors and maps are values held in fields and locals.

/** The SQL the comparison writes, one constructor for each statement text it formats. */
module Statements {
  import opened Options
  import opened Snapshots

  // What follows the type in a column definition.
  datatype ColumnRule =
    | GeneratedAs(expression: string) | IdentityColumn(always: bool) | DefaultTo(value: string) | NoRule

  datatype ColumnDefinition = ColumnDefinition(name: string, dataType: string, rule: ColumnRule, notNull: bool)

  // `ALTER COLUMN name …`
  datatype ColumnChange =
    | SetType(dataType: string)
    | DropIdentity
    | SetDefault(value: string)
    | DropDefault
    | SetNotNull
    | DropNotNull
    | AddIdentity(always: bool)
    | SetIdentity(always: bool)

  datatype Statement =
    | CreateSequence(sequence: string, options: Sequence)
    | AlterSequence(sequence: string, options: Sequence)
    | DropSequence(sequence: string)
    | CreateTable(table: string, columns: seq<ColumnDefinition>, constraints: seq<(string, Constraint)>,
                  partitionKey: Option<string>)
    | AddColumn(table: string, definition: ColumnDefinition)
    | AlterColumn(table: string, column: string, change: ColumnChange)
    | DropColumn(table: string, column: string)
    | AddConstraint(table: string, name: string, constraint: Constraint)
    | DropConstraint(table: string, name: string)
    | DropTable(table: string)
    | CreateIndex(index: string, table: string, text: string)
    | DropIndex(qualifier: string, index: string)
    | CreateTrigger(trigger: string, table: string, text: string)
    | DropTrigger(trigger: string, table: string)
    | CreateView(view: string, materialized: bool, replace: bool, body: string)
    | DropView(view: string, materialized: bool)
    | CreateRoutine(key: string, procedure: bool, text: string)
    | DropRoutine(key: string, procedure: bool)

  // The position of a statement in the script.
  datatype Phase =
    | DropTriggers | DropForeignKeys | DropViews | DropIndexes | Sequences | Tables | Routines
    | Views | Indexes | ForeignKeys | Triggers | DropRoutines | DropTables | DropSequences

  function Rank(phase: Phase): nat {
    match phase
    case DropTriggers => 0
    case DropForeignKeys => 1
    case DropViews => 2
    case DropIndexes => 3
    case Sequences => 4
    case Tables => 5
    case Routines => 6
    case Views => 7
    case Indexes => 8
    case ForeignKeys => 9
    case Triggers => 10
    case DropRoutines => 11
    case DropTables => 12
    case DropSequences => 13
  }

  datatype Tagged = Tagged(phase: Phase, statement: Statement)
}

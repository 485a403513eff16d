/**
 * The records the plugin passes around: tasks and subtasks produced by the
 * scanner, the filter expression tree, and the board configuration.
 */
module Types {

  datatype Option<+T> = None | Some(value: T)

  datatype Result<+T> = Ok(value: T) | Err(message: string)

  datatype Subtask = Subtask(
    text: string,
    isComplete: bool,
    tags: seq<string>,
    lineNumber: nat)

  /** A card: one top-level checkbox line with what is nested under it.
      `id` is `filepath + ":" + lineNumber`. */
  datatype Task = Task(
    id: string,
    filepath: string,
    lineNumber: nat,
    text: string,
    isComplete: bool,
    tags: seq<string>,
    subtasks: seq<Subtask>,
    notes: seq<string>,
    dueDate: Option<string>,
    scheduledDate: Option<string>,
    createdDate: Option<string>,
    completedDate: Option<string>)

  /** The filter tree. `And`, `Or` and `Not` carry their children in order;
      `Not` uses only its first child. */
  datatype FilterExpr =
    | And(children: seq<FilterExpr>)
    | Or(children: seq<FilterExpr>)
    | Not(children: seq<FilterExpr>)
    | Tag(value: string)
    | Empty

  /** The match-all expression `{ type: 'or', children: [] }`. */
  const MatchAll: FilterExpr := Or([])

  datatype ColumnType = Filtered | Completed

  datatype SortKey = Due | Scheduled | Created | CompletedOn | Title

  datatype Direction = Asc | Desc

  datatype SortSpec = SortSpec(key: SortKey, direction: Direction)

  datatype Column = Column(
    id: string,
    name: string,
    filter: FilterExpr,
    colType: ColumnType,
    statusTag: Option<string>,
    showCompleted: Option<bool>,
    sort: Option<SortSpec>)

  datatype ShowDates = ShowDates(due: bool, scheduled: bool, created: bool, completed: bool)

  datatype Board = Board(
    id: string,
    name: string,
    filter: FilterExpr,
    columns: seq<Column>,
    hideFilterTags: seq<string>,
    showDates: ShowDates)
}

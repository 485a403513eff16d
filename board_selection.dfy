/**
 * Choosing the board to show: the first configured board, a built-in
 * fallback board when none is configured, and the remembered current
 * board, which falls back to the first board when it is unset or unknown.
 */
module BoardSelection {
  import opened Types
  import opened Text
  import opened FilterEval
  import opened FilterParser
  import opened FilterLexerProps
  import opened FilterParserProps

  /** The ids of a column list, in order. */
  function ColumnIds(cols: seq<Column>): (r: seq<string>)
    ensures |r| == |cols|
    ensures forall i :: 0 <= i < |cols| ==> r[i] == cols[i].id
  {
    if cols == [] then [] else [cols[0].id] + ColumnIds(cols[1..])
  }

  /** Every filter of the board can be handed to the evaluator. */
  predicate Evaluable(b: Board) {
    NotsHaveChild(b.filter) && forall i :: 0 <= i < |b.columns| ==> NotsHaveChild(b.columns[i].filter)
  }

  /** A status column, filtered on its own status tag. The plugin builds
      the filter by parsing the tag; the parsed query is written here, and
      StatusColumnParsed proves it is what the parser returns. */
  function StatusColumn(id: string, name: string, tag: string): Column {
    Column(id, name, Tag(tag), Filtered, Some(tag), None, None)
  }

  /** The board used when none is configured. Its board filter is the parse
      of the blank query (BoardQueryParsed). */
  function FallbackBoard(): Board {
    Board(
      "default", "Default", MatchAll,
      [ Column("all", "All", Or([]), Filtered, None, None, None),
        StatusColumn("backlog", "Backlog", "#in/backlog"),
        StatusColumn("wip", "WIP", "#in/wip"),
        StatusColumn("blocked", "Blocked", "#in/blocked") ],
      ["#todo"],
      ShowDates(true, true, true, true))
  }

  /** A query made of one tag literal parses to that tag. */
  lemma ParseSingleTag(v: string)
    requires TagLiteral(v)
    ensures ParseFilterString(v) == Tag(v)
  {
    var ts := Tokens(Tag(v));
    assert seq(|ts|, i requires 0 <= i < |ts| => TokenText(ts[i])) == [v];
    ParsePrint(Tag(v));
  }

  /** Each status tag of the fallback board is a single tag literal. */
  lemma FallbackTagLiteral(tag: string)
    requires tag == "#in/backlog" || tag == "#in/wip" || tag == "#in/blocked"
    ensures TagLiteral(tag)
  {
    forall m | 1 <= m < |tag| ensures IsTagChar(tag[m]) {
      assert m == 3 || IsAsciiLetter(tag[m]);
    }
  }

  /** The filter of a status column is the parse of its status tag. */
  lemma StatusColumnParsed(id: string, name: string, tag: string)
    requires tag == "#in/backlog" || tag == "#in/wip" || tag == "#in/blocked"
    ensures ParseFilterString(tag) == StatusColumn(id, name, tag).filter
    ensures StatusColumn(id, name, tag).filter == Tag(tag)
  {
    FallbackTagLiteral(tag);
    ParseSingleTag(tag);
  }

  /** The fallback board's own filter is the parse of the blank query. */
  lemma BoardQueryParsed(q: string)
    requires q == ""
    ensures ParseFilterString(q) == FallbackBoard().filter
  {
    BlankIsMatchAll(q);
  }

  lemma FallbackIds()
    ensures ColumnIds(FallbackBoard().columns) == ["all", "backlog", "wip", "blocked"]
  {
    var cs := FallbackBoard().columns;
    assert ColumnIds(cs) == [cs[0].id, cs[1].id, cs[2].id, cs[3].id];
  }

  /** A four-column board whose five filters can each be evaluated. */
  lemma FourColumnsEvaluable(b: Board)
    requires |b.columns| == 4 && NotsHaveChild(b.filter)
    requires NotsHaveChild(b.columns[0].filter) && NotsHaveChild(b.columns[1].filter)
    requires NotsHaveChild(b.columns[2].filter) && NotsHaveChild(b.columns[3].filter)
    ensures Evaluable(b)
  {
    forall i | 0 <= i < 4 ensures NotsHaveChild(b.columns[i].filter) {
      assert i == 0 || i == 1 || i == 2 || i == 3;
    }
  }

  /** The fallback board matches every task, shows an "All" column that
      matches every task and one column per status tag filtered on exactly
      that tag, and every filter of it can be evaluated. */
  lemma FallbackBoardShape()
    ensures FallbackBoard().filter == MatchAll
    ensures ColumnIds(FallbackBoard().columns) == ["all", "backlog", "wip", "blocked"]
    ensures FallbackBoard().columns[0].filter == MatchAll
    ensures FallbackBoard().columns[1].statusTag == Some("#in/backlog")
    ensures FallbackBoard().columns[1].filter == Tag("#in/backlog")
    ensures FallbackBoard().columns[2].statusTag == Some("#in/wip")
    ensures FallbackBoard().columns[2].filter == Tag("#in/wip")
    ensures FallbackBoard().columns[3].statusTag == Some("#in/blocked")
    ensures FallbackBoard().columns[3].filter == Tag("#in/blocked")
    ensures Evaluable(FallbackBoard())
  {
    FallbackIds();
    FourColumnsEvaluable(FallbackBoard());
  }

  /** `getDefaultBoard`: the first configured board, or the fallback. */
  function GetDefaultBoard(boards: seq<Board>): (b: Board)
    ensures boards != [] ==> b == boards[0]
    ensures boards == [] ==> b.id == "default" && b.filter == MatchAll && Evaluable(b)
    ensures boards == [] ==> ColumnIds(b.columns) == ["all", "backlog", "wip", "blocked"]
  {
    if |boards| > 0 then boards[0] else FallbackBoardShape(); FallbackBoard()
  }

  /** `Array.prototype.find` on the board ids: the first board with `id`. */
  function FindBoard(boards: seq<Board>, id: string): (r: Option<nat>)
    ensures r.Some? ==> r.value < |boards| && boards[r.value].id == id
    ensures r.Some? ==> forall j :: 0 <= j < r.value ==> boards[j].id != id
    ensures r.None? ==> forall j :: 0 <= j < |boards| ==> boards[j].id != id
  {
    if boards == [] then None
    else if boards[0].id == id then Some(0)
    else match FindBoard(boards[1..], id)
      case Some(j) => Some(j + 1)
      case None => None
  }

  /** A JavaScript string is truthy unless it is missing or empty. */
  predicate Truthy(s: Option<string>) {
    s.Some? && s.value != ""
  }

  /** The board `getCurrentBoard` answers and the id it leaves remembered. */
  datatype Selection = Selection(board: Board, current: Option<string>)

  function Select(boards: seq<Board>, current: Option<string>): (r: Selection)
    ensures boards == [] ==> r == Selection(GetDefaultBoard(boards), current)
    ensures boards != [] ==> r.board in boards && r.current == Some(r.board.id)
    ensures boards != [] && Truthy(current) && FindBoard(boards, current.value).Some? ==>
      r.board == boards[FindBoard(boards, current.value).value] && r.current == current
    ensures boards != [] && !(Truthy(current) && FindBoard(boards, current.value).Some?) ==>
      r.board == boards[0]
  {
    if |boards| == 0 then Selection(GetDefaultBoard(boards), current)
    else if Truthy(current) && FindBoard(boards, current.value).Some? then
      Selection(boards[FindBoard(boards, current.value).value], current)
    else Selection(boards[0], Some(boards[0].id))
  }

  /** Asking again for the current board gives the same board and leaves
      the remembered id as it is. */
  lemma SelectStable(boards: seq<Board>, current: Option<string>)
    ensures Select(boards, Select(boards, current).current) == Select(boards, current)
  {
    var r := Select(boards, current);
    if boards != [] && !(Truthy(current) && FindBoard(boards, current.value).Some?) {
      if Truthy(r.current) {
        assert FindBoard(boards, r.current.value) == Some(0);
      }
    }
  }

  /** The plugin's board settings and the remembered current board. */
  class BoardView {
    var boards: seq<Board>
    var currentBoardId: Option<string>

    constructor (bs: seq<Board>)
      ensures boards == bs && currentBoardId == None
    {
      boards := bs;
      currentBoardId := None;
    }

    /** `getCurrentBoard`. */
    method GetCurrentBoard() returns (b: Board)
      modifies this
      ensures Selection(b, currentBoardId) == Select(old(boards), old(currentBoardId))
      ensures boards == old(boards)
    {
      if |boards| == 0 {
        b := GetDefaultBoard(boards);
        return;
      }
      if currentBoardId.Some? && currentBoardId.value != "" {
        var found := FindBoard(boards, currentBoardId.value);
        if found.Some? {
          b := boards[found.value];
          return;
        }
      }
      currentBoardId := Some(boards[0].id);
      b := boards[0];
    }
  }
}

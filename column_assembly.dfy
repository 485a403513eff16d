/**
 * Assembling a board's columns: each column takes the stored tasks that
 * pass the board's filter, its own filter and its completion rule, sorted
 * when the column asks for a sort key.
 */
module ColumnAssembly {
  import opened Types
  import opened Text
  import opened FilterEval
  import opened BoardSelection

  /** A column of type `completed`, or one with `showCompleted` set, shows
      only completed tasks; any other column shows only open ones. */
  predicate ShowsCompleted(col: Column) {
    col.showCompleted == Some(true) || col.colType == Completed
  }

  /** Whether a task belongs in a column of the board. */
  predicate Admits(board: Board, col: Column, t: Task)
    requires NotsHaveChild(board.filter) && NotsHaveChild(col.filter)
  {
    && EvaluateFilter(t, board.filter)
    && EvaluateFilter(t, col.filter)
    && (if ShowsCompleted(col) then t.isComplete else !t.isComplete)
  }

  /** The three `Array.prototype.filter` passes, as one. */
  function FilterTasks(ts: seq<Task>, board: Board, col: Column): (r: seq<Task>)
    requires NotsHaveChild(board.filter) && NotsHaveChild(col.filter)
    ensures forall t :: t in r <==> t in ts && Admits(board, col, t)
  {
    if ts == [] then []
    else
      assert forall t :: t in ts[1..] ==> t in ts;
      (if Admits(board, col, ts[0]) then [ts[0]] else []) + FilterTasks(ts[1..], board, col)
  }

  /** Filtering keeps the tasks' relative order: it distributes over
      concatenation. */
  lemma {:induction false} FilterAppend(a: seq<Task>, b: seq<Task>, board: Board, col: Column)
    requires NotsHaveChild(board.filter) && NotsHaveChild(col.filter)
    ensures FilterTasks(a + b, board, col) == FilterTasks(a, board, col) + FilterTasks(b, board, col)
  {
    if a == [] {
      assert a + b == b;
    } else {
      var h := if Admits(board, col, a[0]) then [a[0]] else [];
      assert (a + b)[0] == a[0];
      assert (a + b)[1..] == a[1..] + b;
      assert FilterTasks(a + b, board, col) == h + FilterTasks(a[1..] + b, board, col);
      FilterAppend(a[1..], b, board, col);
      assert FilterTasks(a, board, col) == h + FilterTasks(a[1..], board, col);
    }
  }

  /** A list every task of which is admitted passes through unchanged. */
  lemma {:induction false} FilterKeepsAdmitted(ts: seq<Task>, board: Board, col: Column)
    requires NotsHaveChild(board.filter) && NotsHaveChild(col.filter)
    requires forall i :: 0 <= i < |ts| ==> Admits(board, col, ts[i])
    ensures FilterTasks(ts, board, col) == ts
  {
    if ts != [] {
      FilterKeepsAdmitted(ts[1..], board, col);
    }
  }

  /** The date a sort key reads; the title key reads none. */
  function DateOf(t: Task, key: SortKey): Option<string> {
    match key
    case Due => t.dueDate
    case Scheduled => t.scheduledDate
    case Created => t.createdDate
    case CompletedOn => t.completedDate
    case Title => None
  }

  /** A date counts only when present and non-empty. */
  predicate HasDate(d: Option<string>) {
    d.Some? && d.value != ""
  }

  /** `n * dir`, with `dir` being 1 ascending and -1 descending. */
  function Directed(n: int, dir: Direction): int {
    if dir == Desc then -n else n
  }

  /** The column comparator. `titleCmp` stands for comparing the lower-cased
      texts with `localeCompare`. The title key compares titles in the
      column's direction. A date key compares two dates as strings in the
      column's direction, puts a dated task before an undated one whatever
      the direction, and compares two undated tasks by title ascending. */
  function Cmp(a: Task, b: Task, key: SortKey, dir: Direction, titleCmp: (string, string) -> int): int {
    if key == Title then Directed(titleCmp(a.text, b.text), dir)
    else
      var ad := DateOf(a, key);
      var bd := DateOf(b, key);
      if HasDate(ad) && HasDate(bd) then Directed(StrCompare(ad.value, bd.value), dir)
      else if HasDate(ad) then -1
      else if HasDate(bd) then 1
      else titleCmp(a.text, b.text)
  }

  /** What `localeCompare` guarantees: its sign flips with its arguments, and
      "not after" is transitive. */
  ghost predicate TitleOrder(titleCmp: (string, string) -> int) {
    && (forall x, y :: titleCmp(x, y) < 0 <==> titleCmp(y, x) > 0)
    && (forall x, y, z :: titleCmp(x, y) <= 0 && titleCmp(y, z) <= 0 ==> titleCmp(x, z) <= 0)
  }

  /** The comparator's "not after" relation. */
  predicate Le(a: Task, b: Task, key: SortKey, dir: Direction, titleCmp: (string, string) -> int) {
    Cmp(a, b, key, dir, titleCmp) <= 0
  }

  lemma TitleOrderFlip(titleCmp: (string, string) -> int, x: string, y: string, z: string)
    requires TitleOrder(titleCmp)
    ensures titleCmp(x, y) <= 0 || titleCmp(y, x) <= 0
    ensures titleCmp(x, y) >= 0 && titleCmp(y, z) >= 0 ==> titleCmp(x, z) >= 0
  {
    assert titleCmp(x, y) < 0 <==> titleCmp(y, x) > 0;
    assert titleCmp(y, x) < 0 <==> titleCmp(x, y) > 0;
    assert titleCmp(z, y) <= 0 && titleCmp(y, x) <= 0 ==> titleCmp(z, x) <= 0;
    assert titleCmp(x, z) < 0 <==> titleCmp(z, x) > 0;
    assert titleCmp(z, y) < 0 <==> titleCmp(y, z) > 0;
  }

  /** Any two tasks are ordered one way or the other. */
  lemma CmpTotal(a: Task, b: Task, key: SortKey, dir: Direction, titleCmp: (string, string) -> int)
    requires TitleOrder(titleCmp)
    ensures Le(a, b, key, dir, titleCmp) || Le(b, a, key, dir, titleCmp)
  {
    TitleOrderFlip(titleCmp, a.text, b.text, b.text);
    var ad := DateOf(a, key);
    var bd := DateOf(b, key);
    if HasDate(ad) && HasDate(bd) {
      StrCompareOrder(ad.value, bd.value, bd.value);
    }
  }

  lemma TitleCmpTransitive(a: Task, b: Task, c: Task, dir: Direction, titleCmp: (string, string) -> int)
    requires TitleOrder(titleCmp)
    requires Le(a, b, Title, dir, titleCmp) && Le(b, c, Title, dir, titleCmp)
    ensures Le(a, c, Title, dir, titleCmp)
  {
    TitleOrderFlip(titleCmp, a.text, b.text, c.text);
  }

  lemma DateCmpTransitive(a: Task, b: Task, c: Task, key: SortKey, dir: Direction, titleCmp: (string, string) -> int)
    requires TitleOrder(titleCmp) && key != Title
    requires Le(a, b, key, dir, titleCmp) && Le(b, c, key, dir, titleCmp)
    ensures Le(a, c, key, dir, titleCmp)
  {
    var ad, bd, cd := DateOf(a, key), DateOf(b, key), DateOf(c, key);
    if HasDate(ad) && HasDate(bd) && HasDate(cd) {
      StrCompareOrder(ad.value, bd.value, cd.value);
      StrCompareOrder(cd.value, bd.value, ad.value);
      StrCompareOrder(ad.value, cd.value, bd.value);
    } else if !HasDate(ad) && !HasDate(bd) && !HasDate(cd) {
      TitleOrderFlip(titleCmp, a.text, b.text, c.text);
    }
  }

  /** "Not after" is transitive. */
  lemma CmpTransitive(a: Task, b: Task, c: Task, key: SortKey, dir: Direction, titleCmp: (string, string) -> int)
    requires TitleOrder(titleCmp)
    requires Le(a, b, key, dir, titleCmp) && Le(b, c, key, dir, titleCmp)
    ensures Le(a, c, key, dir, titleCmp)
  {
    if key == Title {
      TitleCmpTransitive(a, b, c, dir, titleCmp);
    } else {
      DateCmpTransitive(a, b, c, key, dir, titleCmp);
    }
  }

  /** Every earlier task is not after every later one. */
  predicate Sorted(ts: seq<Task>, key: SortKey, dir: Direction, titleCmp: (string, string) -> int) {
    forall i, j :: 0 <= i < j < |ts| ==> Le(ts[i], ts[j], key, dir, titleCmp)
  }

  /** Inserts `x` just after the last task of `s` that is not after it. */
  function Insert(s: seq<Task>, x: Task, key: SortKey, dir: Direction, titleCmp: (string, string) -> int): (r: seq<Task>)
    ensures multiset(r) == multiset(s) + multiset{x}
  {
    if s == [] then [x]
    else
      var last := s[|s| - 1];
      var init := s[..|s| - 1];
      assert s == init + [last];
      if Le(last, x, key, dir, titleCmp) then s + [x]
      else Insert(init, x, key, dir, titleCmp) + [last]
  }

  /** `Array.prototype.sort` with the column comparator. That sort is
      stable; this insertion sort is too (`SortStable`), and it orders the
      tasks (`SortSorted`). */
  function SortTasks(ts: seq<Task>, key: SortKey, dir: Direction, titleCmp: (string, string) -> int): (r: seq<Task>)
    ensures multiset(r) == multiset(ts)
  {
    if ts == [] then []
    else
      var init := ts[..|ts| - 1];
      assert ts == init + [ts[|ts| - 1]];
      Insert(SortTasks(init, key, dir, titleCmp), ts[|ts| - 1], key, dir, titleCmp)
  }

  lemma {:induction false} InsertSorted(s: seq<Task>, x: Task, key: SortKey, dir: Direction, titleCmp: (string, string) -> int)
    requires TitleOrder(titleCmp) && Sorted(s, key, dir, titleCmp)
    ensures Sorted(Insert(s, x, key, dir, titleCmp), key, dir, titleCmp)
  {
    if s == [] {
      assert Insert(s, x, key, dir, titleCmp) == [x];
    } else {
      var last := s[|s| - 1];
      var init := s[..|s| - 1];
      if Le(last, x, key, dir, titleCmp) {
        forall i | 0 <= i < |s| ensures Le(s[i], x, key, dir, titleCmp) {
          if i < |s| - 1 {
            CmpTransitive(s[i], last, x, key, dir, titleCmp);
          }
        }
        SortedAppend(s, x, key, dir, titleCmp);
      } else {
        CmpTotal(last, x, key, dir, titleCmp);
        assert Sorted(init, key, dir, titleCmp);
        InsertSorted(init, x, key, dir, titleCmp);
        var r0 := Insert(init, x, key, dir, titleCmp);
        LastAfterInsert(s, x, key, dir, titleCmp);
        assert Insert(s, x, key, dir, titleCmp) == r0 + [last];
      }
    }
  }

  /** Inserting before the last task leaves every other task not after it,
      so the last task can follow them. */
  lemma LastAfterInsert(s: seq<Task>, x: Task, key: SortKey, dir: Direction, titleCmp: (string, string) -> int)
    requires s != [] && Sorted(s, key, dir, titleCmp) && Le(x, s[|s| - 1], key, dir, titleCmp)
    requires Sorted(Insert(s[..|s| - 1], x, key, dir, titleCmp), key, dir, titleCmp)
    ensures Sorted(Insert(s[..|s| - 1], x, key, dir, titleCmp) + [s[|s| - 1]], key, dir, titleCmp)
  {
    var init := s[..|s| - 1];
    var last := s[|s| - 1];
    var r0 := Insert(init, x, key, dir, titleCmp);
    forall i | 0 <= i < |r0| ensures Le(r0[i], last, key, dir, titleCmp) {
      assert r0[i] in multiset(init) + multiset{x};
      if r0[i] != x {
        assert r0[i] in init;
        var k :| 0 <= k < |init| && init[k] == r0[i];
        assert s[k] == r0[i];
      }
    }
    SortedAppend(r0, last, key, dir, titleCmp);
  }

  /** A task not before any of a sorted list's tasks can follow them. */
  lemma SortedAppend(s: seq<Task>, x: Task, key: SortKey, dir: Direction, titleCmp: (string, string) -> int)
    requires Sorted(s, key, dir, titleCmp)
    requires forall i :: 0 <= i < |s| ==> Le(s[i], x, key, dir, titleCmp)
    ensures Sorted(s + [x], key, dir, titleCmp)
  {
    var r := s + [x];
    forall i, j | 0 <= i < j < |r| ensures Le(r[i], r[j], key, dir, titleCmp) {
      assert r[i] == s[i];
      if j < |s| {
        assert r[j] == s[j];
      }
    }
  }

  /** Sorting orders the tasks by the comparator. */
  lemma {:induction false} SortSorted(ts: seq<Task>, key: SortKey, dir: Direction, titleCmp: (string, string) -> int)
    requires TitleOrder(titleCmp)
    ensures Sorted(SortTasks(ts, key, dir, titleCmp), key, dir, titleCmp)
  {
    if ts != [] {
      var init := ts[..|ts| - 1];
      SortSorted(init, key, dir, titleCmp);
      InsertSorted(SortTasks(init, key, dir, titleCmp), ts[|ts| - 1], key, dir, titleCmp);
    }
  }

  /** Sorting a list already in order changes nothing: tasks the comparator
      ties keep their order. */
  lemma {:induction false} SortKeepsSorted(ts: seq<Task>, key: SortKey, dir: Direction, titleCmp: (string, string) -> int)
    requires Sorted(ts, key, dir, titleCmp)
    ensures SortTasks(ts, key, dir, titleCmp) == ts
  {
    if ts != [] {
      var init := ts[..|ts| - 1];
      assert Sorted(init, key, dir, titleCmp);
      SortKeepsSorted(init, key, dir, titleCmp);
      if |init| > 0 {
        assert Le(init[|init| - 1], ts[|ts| - 1], key, dir, titleCmp);
      }
      assert init + [ts[|ts| - 1]] == ts;
    }
  }

  /** The comparator puts neither task after the other. */
  predicate Tied(a: Task, b: Task, key: SortKey, dir: Direction, titleCmp: (string, string) -> int) {
    Le(a, b, key, dir, titleCmp) && Le(b, a, key, dir, titleCmp)
  }

  /** The tasks of `s` tied with `x`, in the order `s` has them. */
  function Ties(s: seq<Task>, x: Task, key: SortKey, dir: Direction, titleCmp: (string, string) -> int): (r: seq<Task>)
    ensures |r| <= |s|
    ensures forall i :: 0 <= i < |r| ==> r[i] in s && Tied(r[i], x, key, dir, titleCmp)
  {
    if s == [] then []
    else
      var init := s[..|s| - 1];
      var last := s[|s| - 1];
      Ties(init, x, key, dir, titleCmp) + (if Tied(last, x, key, dir, titleCmp) then [last] else [])
  }

  /** The ties of a list with one more task at the end. */
  lemma TiesSnoc(s: seq<Task>, y: Task, x: Task, key: SortKey, dir: Direction, titleCmp: (string, string) -> int)
    ensures Ties(s + [y], x, key, dir, titleCmp) ==
      Ties(s, x, key, dir, titleCmp) + (if Tied(y, x, key, dir, titleCmp) then [y] else [])
  {
    assert (s + [y])[..|s|] == s;
  }

  /** Inserting a task adds it after the tasks it ties with. */
  lemma {:induction false} InsertTies(s: seq<Task>, y: Task, x: Task, key: SortKey, dir: Direction,
                                      titleCmp: (string, string) -> int)
    requires TitleOrder(titleCmp)
    ensures Ties(Insert(s, y, key, dir, titleCmp), x, key, dir, titleCmp) ==
      Ties(s, x, key, dir, titleCmp) + (if Tied(y, x, key, dir, titleCmp) then [y] else [])
    decreases |s|, 1
  {
    if s == [] {
      TiesSnoc([], y, x, key, dir, titleCmp);
      assert [] + [y] == [y];
    } else if Le(s[|s| - 1], y, key, dir, titleCmp) {
      TiesSnoc(s, y, x, key, dir, titleCmp);
    } else {
      InsertBeforeLast(s, y, x, key, dir, titleCmp);
    }
  }

  /** A task placed before the last one cannot tie with `x` as the last one
      does, or the last one would not be after it. */
  lemma {:induction false} InsertBeforeLast(s: seq<Task>, y: Task, x: Task, key: SortKey, dir: Direction,
                                            titleCmp: (string, string) -> int)
    requires TitleOrder(titleCmp) && s != [] && !Le(s[|s| - 1], y, key, dir, titleCmp)
    ensures Ties(Insert(s, y, key, dir, titleCmp), x, key, dir, titleCmp) ==
      Ties(s, x, key, dir, titleCmp) + (if Tied(y, x, key, dir, titleCmp) then [y] else [])
    decreases |s|, 0
  {
    var last := s[|s| - 1];
    var init := s[..|s| - 1];
    var r0 := Insert(init, y, key, dir, titleCmp);
    assert Insert(s, y, key, dir, titleCmp) == r0 + [last];
    InsertTies(init, y, x, key, dir, titleCmp);
    TiesSnoc(r0, last, x, key, dir, titleCmp);
    var t := Ties(init, x, key, dir, titleCmp);
    var ys: seq<Task> := if Tied(y, x, key, dir, titleCmp) then [y] else [];
    var ls: seq<Task> := if Tied(last, x, key, dir, titleCmp) then [last] else [];
    if Tied(y, x, key, dir, titleCmp) && Tied(last, x, key, dir, titleCmp) {
      CmpTransitive(last, x, y, key, dir, titleCmp);
      assert false;
    }
    SwapEmpty(t, ys, ls);
  }

  lemma SwapEmpty(t: seq<Task>, ys: seq<Task>, ls: seq<Task>)
    requires ys == [] || ls == []
    ensures (t + ys) + ls == (t + ls) + ys
  {
    if ys == [] {
      assert t + ys == t;
    } else {
      assert t + ls == t;
    }
  }

  /** The sort is stable: the tasks tied with any task keep the order they
      had in the input. */
  lemma {:induction false} SortStable(ts: seq<Task>, x: Task, key: SortKey, dir: Direction,
                                      titleCmp: (string, string) -> int)
    requires TitleOrder(titleCmp)
    ensures Ties(SortTasks(ts, key, dir, titleCmp), x, key, dir, titleCmp) == Ties(ts, x, key, dir, titleCmp)
  {
    if ts != [] {
      var init := ts[..|ts| - 1];
      SortStable(init, x, key, dir, titleCmp);
      InsertTies(SortTasks(init, key, dir, titleCmp), ts[|ts| - 1], x, key, dir, titleCmp);
    }
  }

  /** Under a date key, a column in comparator order lists every task with
      that date before every task without it, whichever the direction. */
  lemma DatedBeforeUndated(ts: seq<Task>, key: SortKey, dir: Direction, titleCmp: (string, string) -> int,
                           i: nat, j: nat)
    requires key != Title && Sorted(ts, key, dir, titleCmp)
    requires i < j < |ts|
    ensures HasDate(DateOf(ts[j], key)) ==> HasDate(DateOf(ts[i], key))
  {
    assert Le(ts[i], ts[j], key, dir, titleCmp);
  }

  /** Under a date key, two dated tasks of a column in comparator order
      follow their dates: ascending for `asc`, descending for `desc`. */
  lemma DatedInDateOrder(ts: seq<Task>, key: SortKey, dir: Direction, titleCmp: (string, string) -> int,
                         i: nat, j: nat)
    requires key != Title && Sorted(ts, key, dir, titleCmp)
    requires i < j < |ts| && HasDate(DateOf(ts[i], key)) && HasDate(DateOf(ts[j], key))
    ensures var di, dj := DateOf(ts[i], key).value, DateOf(ts[j], key).value;
      if dir == Asc then !StrLess(dj, di) else !StrLess(di, dj)
  {
    var di, dj := DateOf(ts[i], key).value, DateOf(ts[j], key).value;
    assert Le(ts[i], ts[j], key, dir, titleCmp);
    StrCompareOrder(di, dj, dj);
    StrLessAsymmetric(di, dj);
  }

  /** Under a date key, two undated tasks of a column in comparator order
      follow their titles ascending, whichever the direction. */
  lemma UndatedInTitleOrder(ts: seq<Task>, key: SortKey, dir: Direction, titleCmp: (string, string) -> int,
                            i: nat, j: nat)
    requires key != Title && Sorted(ts, key, dir, titleCmp)
    requires i < j < |ts| && !HasDate(DateOf(ts[i], key)) && !HasDate(DateOf(ts[j], key))
    ensures titleCmp(ts[i].text, ts[j].text) <= 0
  {
    assert Le(ts[i], ts[j], key, dir, titleCmp);
  }

  /** Under the title key, a column in comparator order follows the titles
      in the column's direction. */
  lemma TitlesInDirection(ts: seq<Task>, dir: Direction, titleCmp: (string, string) -> int, i: nat, j: nat)
    requires Sorted(ts, Title, dir, titleCmp) && i < j < |ts|
    ensures if dir == Asc then titleCmp(ts[i].text, ts[j].text) <= 0 else titleCmp(ts[i].text, ts[j].text) >= 0
  {
    assert Le(ts[i], ts[j], Title, dir, titleCmp);
  }

  /** The tasks one column shows. */
  function ColumnTasks(board: Board, col: Column, all: seq<Task>, titleCmp: (string, string) -> int): seq<Task>
    requires NotsHaveChild(board.filter) && NotsHaveChild(col.filter)
  {
    var tasks := FilterTasks(all, board, col);
    match col.sort
    case Some(s) => SortTasks(tasks, s.key, s.direction, titleCmp)
    case None => tasks
  }

  /** A column shows exactly the stored tasks that pass both filters and
      its completion rule, each as often as it is stored. */
  lemma ColumnContents(board: Board, col: Column, all: seq<Task>, titleCmp: (string, string) -> int)
    requires NotsHaveChild(board.filter) && NotsHaveChild(col.filter)
    ensures multiset(ColumnTasks(board, col, all, titleCmp)) == multiset(FilterTasks(all, board, col))
    ensures forall t :: t in ColumnTasks(board, col, all, titleCmp) <==> t in all && Admits(board, col, t)
  {
    var r := ColumnTasks(board, col, all, titleCmp);
    assert forall t :: t in r <==> t in multiset(r);
  }

  /** A column with a sort key is in comparator order; one without keeps the
      store's order. */
  lemma ColumnOrder(board: Board, col: Column, all: seq<Task>, titleCmp: (string, string) -> int)
    requires NotsHaveChild(board.filter) && NotsHaveChild(col.filter)
    requires TitleOrder(titleCmp)
    ensures col.sort.Some? ==>
      Sorted(ColumnTasks(board, col, all, titleCmp), col.sort.value.key, col.sort.value.direction, titleCmp)
    ensures col.sort.None? ==> forall a, b ::
      ColumnTasks(board, col, a + b, titleCmp) ==
      ColumnTasks(board, col, a, titleCmp) + ColumnTasks(board, col, b, titleCmp)
  {
    match col.sort
    case Some(s) =>
      SortSorted(FilterTasks(all, board, col), s.key, s.direction, titleCmp);
    case None =>
      forall a, b ensures FilterTasks(a + b, board, col) == FilterTasks(a, board, col) + FilterTasks(b, board, col) {
        FilterAppend(a, b, board, col);
      }
  }

  /** A column that, like the fallback board's "All" column, has no sort
      and match-all filters on a match-all board shows the open tasks, and
      a list of open tasks in the store's order unchanged. */
  lemma MatchAllColumn(board: Board, col: Column, all: seq<Task>, titleCmp: (string, string) -> int)
    requires board.filter == MatchAll && col.filter == MatchAll
    requires col.sort == None && !ShowsCompleted(col)
    ensures forall t :: Admits(board, col, t) <==> !t.isComplete
    ensures (forall i :: 0 <= i < |all| ==> !all[i].isComplete) ==> ColumnTasks(board, col, all, titleCmp) == all
  {
    if forall i :: 0 <= i < |all| ==> !all[i].isComplete {
      FilterKeepsAdmitted(all, board, col);
    }
  }

  /** The fallback board's "All" column shows exactly the open tasks, and
      a list of open tasks unchanged. */
  lemma FallbackAllColumn(all: seq<Task>, titleCmp: (string, string) -> int)
    ensures forall t :: Admits(FallbackBoard(), FallbackBoard().columns[0], t) <==> !t.isComplete
    ensures (forall i :: 0 <= i < |all| ==> !all[i].isComplete) ==>
      ColumnTasks(FallbackBoard(), FallbackBoard().columns[0], all, titleCmp) == all
  {
    MatchAllColumn(FallbackBoard(), FallbackBoard().columns[0], all, titleCmp);
  }

  /** Whether no column after `j` and before `i` shares its id. */
  predicate LastBefore(cols: seq<Column>, j: nat, i: nat)
    requires j < i <= |cols|
  {
    forall l :: j < l < i ==> cols[l].id != cols[j].id
  }

  /** Whether column `j` is the last of the list with its id. */
  predicate LastWithId(cols: seq<Column>, j: nat)
    requires j < |cols|
  {
    LastBefore(cols, j, |cols|)
  }

  /** The map holds one entry per id among the first `i` columns, the entry
      of the last of them with each id being that column's value in `vs`. */
  ghost predicate BuiltUpTo(m: map<string, seq<Task>>, cols: seq<Column>, vs: seq<seq<Task>>, i: nat)
    requires i <= |cols| == |vs|
  {
    && (forall k :: k in m <==> exists j :: 0 <= j < i && cols[j].id == k)
    && (forall j :: 0 <= j < i && LastBefore(cols, j, i) ==> m[cols[j].id] == vs[j])
  }

  lemma BuiltStep(m: map<string, seq<Task>>, cols: seq<Column>, vs: seq<seq<Task>>, i: nat)
    requires i < |cols| == |vs| && BuiltUpTo(m, cols, vs, i)
    ensures BuiltUpTo(m[cols[i].id := vs[i]], cols, vs, i + 1)
  {
    var m' := m[cols[i].id := vs[i]];
    forall j | 0 <= j < i + 1 && LastBefore(cols, j, i + 1)
      ensures m'[cols[j].id] == vs[j]
    {
      if j < i {
        assert LastBefore(cols, j, i);
      }
    }
  }

  lemma BuiltAll(m: map<string, seq<Task>>, cols: seq<Column>, vs: seq<seq<Task>>)
    requires |cols| == |vs| && BuiltUpTo(m, cols, vs, |cols|)
    ensures forall k :: k in m <==> k in ColumnIds(cols)
    ensures forall j :: 0 <= j < |cols| && LastWithId(cols, j) ==> m[cols[j].id] == vs[j]
  {
    var ids := ColumnIds(cols);
    forall k ensures k in ids <==> exists j :: 0 <= j < |cols| && cols[j].id == k {
      if k in ids {
        var j :| 0 <= j < |ids| && ids[j] == k;
        assert cols[j].id == k;
      }
    }
  }

  /** `computeTasksByColumn`: one entry per column id; when two columns
      share an id the later one's tasks win. */
  method ComputeTasksByColumn(board: Board, all: seq<Task>, titleCmp: (string, string) -> int)
    returns (m: map<string, seq<Task>>)
    requires Evaluable(board)
    ensures forall k :: k in m <==> k in ColumnIds(board.columns)
    ensures forall j :: 0 <= j < |board.columns| && LastWithId(board.columns, j) ==>
      m[board.columns[j].id] == ColumnTasks(board, board.columns[j], all, titleCmp)
  {
    var cols := board.columns;
    ghost var vs := seq(|cols|, j requires 0 <= j < |cols| => ColumnTasks(board, cols[j], all, titleCmp));
    m := map[];
    for i := 0 to |cols|
      invariant BuiltUpTo(m, cols, vs, i)
    {
      var col := cols[i];
      var tasks := ColumnTasks(board, col, all, titleCmp);
      BuiltStep(m, cols, vs, i);
      m := m[col.id := tasks];
    }
    BuiltAll(m, cols, vs);
  }

}

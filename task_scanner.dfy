/**
 * `parseTasksFromContent`: the lines of a note become cards.
 *
 * A checkbox line `- [ ]`, `- [x]` or `- [X]`, followed by whitespace and
 * text, is a card when no open card is less indented than it, and a subtask
 * of the open card otherwise. Any other line that is more indented than the
 * open card is a note on it (a leading bullet is dropped); a line that is
 * not more indented closes the card. Only one level is kept: subtasks never
 * open a card of their own, so the stack of open cards never holds more than
 * one entry.
 */
module TaskScanner {
  import opened Types
  import opened Text
  import opened ScannerTags
  import opened ScannerDates

  // ---------------------------------------------------------------------------
  // The two line patterns.

  /** End of the maximal run of spaces and tabs from `i`: `[ \t]*`. */
  function IndentRunEnd(s: string, i: nat): (j: nat)
    requires i <= |s|
    ensures i <= j <= |s|
    ensures forall k :: i <= k < j ==> s[k] == ' ' || s[k] == '\t'
    ensures j == |s| || (s[j] != ' ' && s[j] != '\t')
    decreases |s| - i
  {
    if i < |s| && (s[i] == ' ' || s[i] == '\t') then IndentRunEnd(s, i + 1) else i
  }

  /** `indentOf`: the length once every tab is replaced by two spaces. */
  function IndentWidth(s: string): (n: nat)
    ensures n >= |s|
  {
    if s == [] then 0 else (if s[0] == '\t' then 2 else 1) + IndentWidth(s[1..])
  }

  /** What `^([ \t]*)- \[( |x|X)\]\s+(.*)$` captures: the indent width,
      whether the box is ticked, and the text after the whitespace. */
  datatype Checkbox = Checkbox(indent: nat, isComplete: bool, tail: string)

  /** The checkbox pattern. Giving back indent cannot help (the '-' must come
      right after it), and giving back whitespace before the text cannot help
      either, since the text must then still reach the end of the line
      without a line terminator; so the match, when there is one, takes the
      maximal runs. */
  function CheckboxMatch(line: string): (r: Option<Checkbox>)
    ensures r.Some? ==> NoLineTerminator(r.value.tail) && NoLeadingSpace(r.value.tail)
  {
    var i0 := IndentRunEnd(line, 0);
    if i0 + 5 <= |line| && line[i0] == '-' && line[i0 + 1] == ' ' && line[i0 + 2] == '[' &&
       (line[i0 + 3] == ' ' || line[i0 + 3] == 'x' || line[i0 + 3] == 'X') && line[i0 + 4] == ']'
    then
      var j := SpaceRunEnd(line, i0 + 5);
      if j > i0 + 5 && NoLineTerminator(line[j..]) then
        Some(Checkbox(IndentWidth(line[..i0]), line[i0 + 3] == 'x' || line[i0 + 3] == 'X', line[j..]))
      else None
    else None
  }

  /** The other pattern, `^([ \t]*)(.*)$`: the indent width and the rest. It
      fails exactly on a line holding a line terminator ('\r' left over from a
      lone carriage return, U+2028, U+2029). */
  function PlainMatch(line: string): (r: Option<(nat, string)>)
    ensures r.None? <==> !NoLineTerminator(line)
    ensures r.Some? ==> |r.value.1| <= |line| && r.value.1 == line[|line| - |r.value.1|..]
  {
    var i0 := IndentRunEnd(line, 0);
    if NoLineTerminator(line[i0..]) then Some((IndentWidth(line[..i0]), line[i0..])) else None
  }

  /** `replace(/^[-*+]\s+/, '')`. */
  function StripBullet(s: string): (r: string)
    ensures |r| <= |s|
  {
    if |s| >= 2 && (s[0] == '-' || s[0] == '*' || s[0] == '+') && IsSpace(s[1])
    then s[SpaceRunEnd(s, 1)..]
    else s
  }

  /** The note made of the text after the indent. */
  function NoteText(content: string): (r: string)
    ensures NoLeadingSpace(r) && NoTrailingSpace(r)
  {
    TrimmedIsTrimmed(StripBullet(TrimEnd(content)));
    Trim(StripBullet(TrimEnd(content)))
  }

  /** An indent: spaces and tabs only. */
  predicate IsIndent(ws: string) {
    forall k :: 0 <= k < |ws| ==> ws[k] == ' ' || ws[k] == '\t'
  }

  /** A checkbox line: the indent, the box holding `box`, the whitespace gap
      and the text. */
  function CheckboxLine(ws: string, box: char, gap: string, tail: string): string {
    ws + "- [" + [box] + "]" + gap + tail
  }

  lemma {:induction false} IndentRunFrom(s: string, i: nat, n: nat)
    requires i <= n <= |s| && forall k :: i <= k < n ==> s[k] == ' ' || s[k] == '\t'
    requires n == |s| || (s[n] != ' ' && s[n] != '\t')
    ensures IndentRunEnd(s, i) == n
    decreases n - i
  {
    if i < n {
      IndentRunFrom(s, i + 1, n);
    }
  }

  /** Every line of that shape, whatever its indent (tabs included), its box
      (' ', 'x' or 'X') and its gap, is matched with the indent's width, the
      box read as ticked exactly when it holds 'x' or 'X', and the text. */
  lemma CheckboxRoundTrip(ws: string, box: char, gap: string, tail: string)
    requires IsIndent(ws)
    requires box == ' ' || box == 'x' || box == 'X'
    requires gap != [] && AllSpace(gap)
    requires NoLineTerminator(tail) && NoLeadingSpace(tail)
    ensures CheckboxMatch(CheckboxLine(ws, box, gap, tail)) ==
      Some(Checkbox(IndentWidth(ws), box == 'x' || box == 'X', tail))
  {
    var line := CheckboxLine(ws, box, gap, tail);
    var n := |ws|;
    var e := n + 5 + |gap|;
    assert line[n] == '-';
    IndentRunFrom(line, 0, n);
    assert line[..n] == ws;
    assert line[n + 1] == ' ' && line[n + 2] == '[' && line[n + 3] == box && line[n + 4] == ']';
    assert forall k :: n + 5 <= k < e ==> line[k] == gap[k - n - 5];
    assert e == |line| || line[e] == tail[0];
    assert SpaceRunEnd(line, n + 5) == e;
    assert line[e..] == tail;
  }

  /** Conversely, every line the pattern accepts has that shape. */
  lemma CheckboxMatchShape(line: string) returns (ws: string, box: char, gap: string)
    requires CheckboxMatch(line).Some?
    ensures IsIndent(ws) && (box == ' ' || box == 'x' || box == 'X') && gap != [] && AllSpace(gap)
    ensures line == CheckboxLine(ws, box, gap, CheckboxMatch(line).value.tail)
    ensures CheckboxMatch(line).value.indent == IndentWidth(ws)
    ensures CheckboxMatch(line).value.isComplete <==> box == 'x' || box == 'X'
  {
    var i0 := IndentRunEnd(line, 0);
    var j := SpaceRunEnd(line, i0 + 5);
    ws, box, gap := line[..i0], line[i0 + 3], line[i0 + 5..j];
    assert CheckboxMatch(line).value == Checkbox(IndentWidth(ws), box == 'x' || box == 'X', line[j..]);
    assert forall k :: 0 <= k < |gap| ==> gap[k] == line[i0 + 5 + k];
    CheckboxLineSplit(line, i0, j);
  }

  lemma CheckboxLineSplit(line: string, i0: nat, j: nat)
    requires i0 + 5 <= j <= |line|
    requires line[i0] == '-' && line[i0 + 1] == ' ' && line[i0 + 2] == '[' && line[i0 + 4] == ']'
    ensures line == CheckboxLine(line[..i0], line[i0 + 3], line[i0 + 5..j], line[j..])
  {
    assert line[i0..i0 + 5] == "- [" + [line[i0 + 3]] + "]";
    assert line == line[..i0] + line[i0..i0 + 5] + line[i0 + 5..j] + line[j..];
  }

  /** A tab counts two columns, and the box may hold 'X' and the gap a tab. */
  lemma TabIndentExample()
    ensures CheckboxMatch("\t- [X]\tShip") == Some(Checkbox(2, true, "Ship"))
  {
    TabIndentLine();
    CheckboxRoundTrip("\t", 'X', "\t", "Ship");
  }

  lemma TabIndentLine()
    ensures CheckboxLine("\t", 'X', "\t", "Ship") == "\t- [X]\tShip"
    ensures IndentWidth("\t") == 2
  {
  }

  lemma MixedIndentExample()
    ensures CheckboxMatch(" \t- [ ] Ship") == Some(Checkbox(3, false, "Ship"))
  {
    MixedIndentLine();
    CheckboxRoundTrip(" \t", ' ', " ", "Ship");
  }

  lemma MixedIndentLine()
    ensures CheckboxLine(" \t", ' ', " ", "Ship") == " \t- [ ] Ship"
    ensures IndentWidth(" \t") == 3
  {
    assert " \t"[1..] == "\t";
  }

  /** A box without the whitespace after it is no checkbox. */
  lemma NoGapExample()
    ensures CheckboxMatch("- [ ]Ship") == None
  {
    var line := "- [ ]Ship";
    assert IndentRunEnd(line, 0) == 0;
    assert SpaceRunEnd(line, 5) == 5;
  }

  /** Nor is a box holding another character. */
  lemma OtherBoxExample()
    ensures CheckboxMatch("- [y] Ship") == None
  {
    assert IndentRunEnd("- [y] Ship", 0) == 0;
  }

  // ---------------------------------------------------------------------------
  // The scanner's state and one step of it.

  /** An entry of the stack of open cards: its indent and the index of its
      card in the task list. A card that the tag filter left out has no
      index; only the corrected scanner below keeps such entries. */
  datatype Frame = Frame(indent: nat, owner: Option<nat>)

  datatype ScanState = ScanState(tasks: seq<Task>, stack: seq<Frame>)

  /** At most one card is open, and it is the last card. */
  predicate StackOk(st: ScanState) {
    |st.stack| <= 1 &&
    (|st.stack| == 1 && st.stack[0].owner.Some? ==>
      |st.tasks| >= 1 && st.stack[0].owner.value == |st.tasks| - 1)
  }

  /** Every open entry has a card. */
  predicate Owned(st: ScanState) {
    forall k :: 0 <= k < |st.stack| ==> st.stack[k].owner.Some?
  }

  /** The unwinding loop: pop entries at least as indented as `indent`. */
  function Unwind(stack: seq<Frame>, indent: nat): (r: seq<Frame>)
    ensures |r| <= |stack| && r == stack[..|r|]
    ensures r == [] || indent > r[|r| - 1].indent
    ensures forall k :: |r| <= k < |stack| ==> indent <= stack[k].indent
    ensures |stack| > 0 && indent > stack[|stack| - 1].indent ==> r == stack
    decreases |stack|
  {
    if |stack| > 0 && indent <= stack[|stack| - 1].indent then Unwind(stack[..|stack| - 1], indent)
    else stack
  }

  /** `includeTags.some((t) => tagSet.has(t))`. */
  predicate AnyIncluded(includeTags: seq<string>, tags: seq<string>) {
    exists k :: 0 <= k < |includeTags| && includeTags[k] in tags
  }

  /** The card for a checkbox on line `i` (counted from 0). */
  function NewTask(cb: Checkbox, tags: seq<string>, i: nat, path: string): Task {
    var d := DatesOf(StripTags(cb.tail));
    Task(path + ":" + NatToString(i + 1), path, i + 1, d.text, cb.isComplete, tags, [], [],
         d.dueDate, d.scheduledDate, d.createdDate, d.completedDate)
  }

  /** The subtask for a checkbox on line `i`; its dates are dropped. */
  function NewSubtask(cb: Checkbox, i: nat): Subtask {
    Subtask(DatesOf(StripTags(cb.tail)).text, cb.isComplete, TagsOf(cb.tail), i + 1)
  }

  function AddSubtask(tasks: seq<Task>, owner: Option<nat>, sub: Subtask): (r: seq<Task>)
    requires owner.Some? ==> owner.value < |tasks|
    ensures |r| == |tasks|
  {
    if owner.Some? then
      tasks[owner.value := tasks[owner.value].(subtasks := tasks[owner.value].subtasks + [sub])]
    else tasks
  }

  function AddNote(tasks: seq<Task>, owner: Option<nat>, note: string): (r: seq<Task>)
    requires owner.Some? ==> owner.value < |tasks|
    ensures |r| == |tasks|
  {
    if owner.Some? then
      tasks[owner.value := tasks[owner.value].(notes := tasks[owner.value].notes + [note])]
    else tasks
  }

  /** With at most one entry, unwinding keeps it exactly when the new line is
      more indented. */
  lemma UnwindShallow(stack: seq<Frame>, indent: nat)
    requires |stack| <= 1
    ensures Unwind(stack, indent) == (if |stack| == 1 && indent > stack[0].indent then stack else [])
  {
  }

  /** A checkbox line: the stack is unwound to the entries less indented than
      the box; if none is left the box is a new card (unless the tag filter
      rejects it), otherwise it is a subtask of the open card. */
  function CheckboxStep(st: ScanState, cb: Checkbox, i: nat, path: string,
                        includeTags: seq<string>, keepSkipped: bool): (r: ScanState)
    requires StackOk(st)
    ensures StackOk(r)
    ensures !keepSkipped && Owned(st) ==> Owned(r)
    ensures |st.tasks| <= |r.tasks| <= |st.tasks| + 1
  {
    var stack := Unwind(st.stack, cb.indent);
    if stack == [] then
      var tags := TagsOf(cb.tail);
      if |includeTags| > 0 && !AnyIncluded(includeTags, tags) then
        ScanState(st.tasks, if keepSkipped then [Frame(cb.indent, None)] else [])
      else
        ScanState(st.tasks + [NewTask(cb, tags, i, path)], [Frame(cb.indent, Some(|st.tasks|))])
    else
      ScanState(AddSubtask(st.tasks, stack[0].owner, NewSubtask(cb, i)), stack)
  }

  // How a checkbox is classified by its indent against the open card.

  /** Not deeper than the open card, and rejected by the tag filter: the
      open card is closed and nothing is added. */
  lemma CheckboxSkipCase(st: ScanState, cb: Checkbox, i: nat, path: string, includeTags: seq<string>,
                         keepSkipped: bool)
    requires StackOk(st) && !(|st.stack| == 1 && cb.indent > st.stack[0].indent)
    requires |includeTags| > 0 && !AnyIncluded(includeTags, TagsOf(cb.tail))
    ensures CheckboxStep(st, cb, i, path, includeTags, keepSkipped) ==
      ScanState(st.tasks, if keepSkipped then [Frame(cb.indent, None)] else [])
  {
    UnwindShallow(st.stack, cb.indent);
  }

  /** Not deeper than the open card, and kept by the filter: the open card
      is closed and a new card, numbered from line `i + 1`, opens at the
      box's indent. */
  lemma CheckboxCardCase(st: ScanState, cb: Checkbox, i: nat, path: string, includeTags: seq<string>,
                         keepSkipped: bool)
    requires StackOk(st) && !(|st.stack| == 1 && cb.indent > st.stack[0].indent)
    requires |includeTags| == 0 || AnyIncluded(includeTags, TagsOf(cb.tail))
    ensures CheckboxStep(st, cb, i, path, includeTags, keepSkipped) ==
      ScanState(st.tasks + [NewTask(cb, TagsOf(cb.tail), i, path)], [Frame(cb.indent, Some(|st.tasks|))])
  {
    UnwindShallow(st.stack, cb.indent);
  }

  /** Deeper than the open card: a subtask of that card, which stays open;
      the filter plays no part. */
  lemma CheckboxSubtaskCase(st: ScanState, cb: Checkbox, i: nat, path: string, includeTags: seq<string>,
                            keepSkipped: bool)
    requires StackOk(st) && |st.stack| == 1 && cb.indent > st.stack[0].indent
    ensures CheckboxStep(st, cb, i, path, includeTags, keepSkipped) ==
      ScanState(AddSubtask(st.tasks, st.stack[0].owner, NewSubtask(cb, i)), st.stack)
  {
    UnwindShallow(st.stack, cb.indent);
  }

  /** One iteration of the loop over the lines, for line `i`. With
      `keepSkipped` false this is the code as written: a card the tag filter
      rejects leaves the stack empty. With `keepSkipped` true it is the
      corrected scanner, which keeps an entry without a card so that the
      lines under a rejected card are dropped with it. */
  function Step(st: ScanState, line: string, i: nat, path: string, includeTags: seq<string>,
                keepSkipped: bool): (r: ScanState)
    requires StackOk(st)
    ensures StackOk(r)
    ensures !keepSkipped && Owned(st) ==> Owned(r)
    ensures |st.tasks| <= |r.tasks| <= |st.tasks| + 1
  {
    match CheckboxMatch(line)
    case Some(cb) => CheckboxStep(st, cb, i, path, includeTags, keepSkipped)
    case None =>
      match PlainMatch(line)
      case None => st
      case Some((indent, content)) => PlainStep(st, indent, content)
  }

  /** Any other line: a note of the open card when indented under it,
      otherwise it closes the entries it is not indented under. */
  function PlainStep(st: ScanState, indent: nat, content: string): (r: ScanState)
    requires StackOk(st)
    ensures StackOk(r)
    ensures Owned(st) ==> Owned(r)
    ensures |r.tasks| == |st.tasks|
    // Deeper than the open card: its note, when the note is not empty.
    ensures |st.stack| == 1 && indent > st.stack[0].indent ==>
      r.stack == st.stack &&
      r.tasks == (if NoteText(content) == [] then st.tasks
                  else AddNote(st.tasks, st.stack[0].owner, NoteText(content)))
    // Any other line, a blank one included, closes the open card.
    ensures !(|st.stack| == 1 && indent > st.stack[0].indent) ==> r == ScanState(st.tasks, [])
  {
    if |st.stack| > 0 && indent > st.stack[0].indent then
      var note := NoteText(content);
      if |note| > 0 then ScanState(AddNote(st.tasks, st.stack[0].owner, note), st.stack) else st
    else
      ScanState(st.tasks, Unwind(st.stack, indent))
  }

  /** A blank line is never deeper than the open card, so it closes it. */
  lemma BlankLineCloses(st: ScanState, i: nat, path: string, includeTags: seq<string>, keepSkipped: bool)
    requires StackOk(st)
    ensures Step(st, "", i, path, includeTags, keepSkipped) == ScanState(st.tasks, [])
  {
    assert CheckboxMatch("") == None;
    assert PlainMatch("") == Some((0, ""));
  }

  /** The state after the first `n` lines. */
  function Scan(lines: seq<string>, n: nat, path: string, includeTags: seq<string>,
                keepSkipped: bool): (r: ScanState)
    requires n <= |lines|
    ensures StackOk(r)
    ensures !keepSkipped ==> Owned(r)
    decreases n
  {
    if n == 0 then ScanState([], [])
    else Step(Scan(lines, n - 1, path, includeTags, keepSkipped), lines[n - 1], n - 1, path,
              includeTags, keepSkipped)
  }

  function ScanLines(lines: seq<string>, path: string, includeTags: seq<string>,
                     keepSkipped: bool): seq<Task> {
    Scan(lines, |lines|, path, includeTags, keepSkipped).tasks
  }

  /** `parseTasksFromContent` as written. */
  function ParseTasks(content: string, path: string, includeTags: seq<string>): seq<Task> {
    ScanLines(SplitLines(content), path, includeTags, false)
  }

  /** The scanner with the tag filter dropping a rejected card's nested
      lines along with it. */
  function ParseTasksIntended(content: string, path: string, includeTags: seq<string>): seq<Task> {
    ScanLines(SplitLines(content), path, includeTags, true)
  }

  /** `parseTasksFromContent`: the loop over the lines with its stack. */
  method ParseTasksFromContent(content: string, path: string, includeTags: seq<string>)
    returns (tasks: seq<Task>)
    ensures tasks == ParseTasks(content, path, includeTags)
  {
    var lines := SplitLines(content);
    tasks := [];
    var stack: seq<Frame> := [];
    for i := 0 to |lines|
      invariant ScanState(tasks, stack) == Scan(lines, i, path, includeTags, false)
    {
      tasks, stack := ScanLine(tasks, stack, lines[i], i, path, includeTags);
    }
  }

  /** The body of the loop for line `i`. */
  method ScanLine(tasks: seq<Task>, stack: seq<Frame>, line: string, i: nat, path: string,
                  includeTags: seq<string>)
    returns (tasks': seq<Task>, stack': seq<Frame>)
    requires StackOk(ScanState(tasks, stack)) && Owned(ScanState(tasks, stack))
    ensures ScanState(tasks', stack') == Step(ScanState(tasks, stack), line, i, path, includeTags, false)
  {
    var taskMatch := CheckboxMatch(line);
    if taskMatch.Some? {
      tasks', stack' := CheckboxLineStep(tasks, stack, taskMatch.value, i, path, includeTags);
      return;
    }
    tasks', stack' := tasks, stack;
    var m := PlainMatch(line);
    if m.Some? {
      var indent := m.value.0;
      var contentText := TrimEnd(m.value.1);
      if |stack'| > 0 && indent > stack'[|stack'| - 1].indent {
        var parent := stack'[|stack'| - 1].owner.value;
        var note := Trim(StripBullet(contentText));
        if |note| > 0 {
          tasks' := tasks'[parent := tasks'[parent].(notes := tasks'[parent].notes + [note])];
        }
        return;
      }
      stack' := UnwindStack(stack', indent);
    }
  }

  /** The `while (stack.length && indent <= top.indent) stack.pop()` loop. */
  method UnwindStack(stack: seq<Frame>, indent: nat) returns (s: seq<Frame>)
    ensures s == Unwind(stack, indent)
  {
    s := stack;
    while |s| > 0 && indent <= s[|s| - 1].indent
      invariant Unwind(s, indent) == Unwind(stack, indent)
    {
      s := s[..|s| - 1];
    }
  }

  /** The card for a top-level checkbox on line `i`, with its tags. */
  method BuildTask(cb: Checkbox, tags: seq<string>, i: nat, path: string) returns (task: Task)
    ensures task == NewTask(cb, tags, i, path)
  {
    var stripped := StripTags(cb.tail);
    var dates := ExtractAndStripDates(stripped);
    task := Task(path + ":" + NatToString(i + 1), path, i + 1, dates.text, cb.isComplete,
                 tags, [], [], dates.dueDate, dates.scheduledDate, dates.createdDate,
                 dates.completedDate);
  }

  /** The subtask for a nested checkbox on line `i`. */
  method BuildSubtask(cb: Checkbox, i: nat) returns (sub: Subtask)
    ensures sub == NewSubtask(cb, i)
  {
    var subTags := ExtractTags(cb.tail);
    var subStripped := StripTags(cb.tail);
    var clean := ExtractAndStripDates(subStripped);
    sub := Subtask(clean.text, cb.isComplete, subTags, i + 1);
  }

  /** A checkbox line: unwind, then a new card or a subtask of the open one. */
  method CheckboxLineStep(tasks: seq<Task>, stack: seq<Frame>, cb: Checkbox, i: nat, path: string,
                          includeTags: seq<string>)
    returns (tasks': seq<Task>, stack': seq<Frame>)
    requires StackOk(ScanState(tasks, stack)) && Owned(ScanState(tasks, stack))
    ensures ScanState(tasks', stack') ==
      CheckboxStep(ScanState(tasks, stack), cb, i, path, includeTags, false)
  {
    var unwound := UnwindStack(stack, cb.indent);
    if |unwound| == 0 {
      tasks', stack' := TopLevelCheckbox(tasks, stack, cb, i, path, includeTags);
    } else {
      tasks', stack' := NestedCheckbox(tasks, stack, cb, i, path, includeTags);
    }
  }

  /** A checkbox with nothing open above it: a new card unless the tag
      filter rejects it, and either way it closes the open entries. */
  method TopLevelCheckbox(tasks: seq<Task>, stack: seq<Frame>, cb: Checkbox, i: nat, path: string,
                          includeTags: seq<string>)
    returns (tasks': seq<Task>, stack': seq<Frame>)
    requires StackOk(ScanState(tasks, stack)) && Unwind(stack, cb.indent) == []
    ensures ScanState(tasks', stack') ==
      CheckboxStep(ScanState(tasks, stack), cb, i, path, includeTags, false)
  {
    var tags := ExtractTags(cb.tail);
    if |includeTags| > 0 && !AnyIncluded(includeTags, tags) {
      UnwindShallow(stack, cb.indent);
      CheckboxSkipCase(ScanState(tasks, stack), cb, i, path, includeTags, false);
      tasks', stack' := tasks, [];
    } else {
      tasks', stack' := AddCard(tasks, stack, cb, tags, i, path, includeTags);
    }
  }

  /** Pushes the new card and opens it on the stack. */
  method AddCard(tasks: seq<Task>, stack: seq<Frame>, cb: Checkbox, tags: seq<string>, i: nat, path: string,
                 includeTags: seq<string>)
    returns (tasks': seq<Task>, stack': seq<Frame>)
    requires StackOk(ScanState(tasks, stack)) && Unwind(stack, cb.indent) == []
    requires tags == TagsOf(cb.tail) && !(|includeTags| > 0 && !AnyIncluded(includeTags, tags))
    ensures ScanState(tasks', stack') ==
      CheckboxStep(ScanState(tasks, stack), cb, i, path, includeTags, false)
  {
    UnwindShallow(stack, cb.indent);
    CheckboxCardCase(ScanState(tasks, stack), cb, i, path, includeTags, false);
    var task := BuildTask(cb, tags, i, path);
    tasks' := tasks + [task];
    stack' := [Frame(cb.indent, Some(|tasks|))];
  }

  /** A checkbox under the open card: a subtask of that card. */
  method NestedCheckbox(tasks: seq<Task>, stack: seq<Frame>, cb: Checkbox, i: nat, path: string,
                        includeTags: seq<string>)
    returns (tasks': seq<Task>, stack': seq<Frame>)
    requires StackOk(ScanState(tasks, stack)) && Owned(ScanState(tasks, stack))
    requires Unwind(stack, cb.indent) != []
    ensures ScanState(tasks', stack') ==
      CheckboxStep(ScanState(tasks, stack), cb, i, path, includeTags, false)
  {
    tasks', stack' := tasks, stack;
    UnwindShallow(stack, cb.indent);
    assert stack[0].owner.Some?;
    var sub := BuildSubtask(cb, i);
    CheckboxSubtaskCase(ScanState(tasks, stack), cb, i, path, includeTags, false);
    var parent := stack'[|stack'| - 1].owner.value;
    tasks' := tasks'[parent := tasks'[parent].(subtasks := tasks'[parent].subtasks + [sub])];
  }
}

/**
 * What the task scanner guarantees about the cards it returns.
 */
module TaskScannerProps {
  import opened Types
  import opened Text
  import opened ScannerTags
  import opened ScannerDates
  import opened TaskScanner

  function WithSubtask(t: Task, sub: Subtask): Task {
    t.(subtasks := t.subtasks + [sub])
  }

  function WithNote(t: Task, note: string): Task {
    t.(notes := t.notes + [note])
  }

  /** What one line does to the card list: nothing, a new card at the end,
      or a subtask or note added to the last card. */
  datatype Effect = NoChange | Appended(task: Task) | SubAdded(sub: Subtask) | NoteAdded(note: string)

  function Apply(ts: seq<Task>, e: Effect): seq<Task> {
    match e
    case NoChange => ts
    case Appended(t) => ts + [t]
    case SubAdded(sub) => if ts == [] then ts else ts[|ts| - 1 := WithSubtask(ts[|ts| - 1], sub)]
    case NoteAdded(n) => if ts == [] then ts else ts[|ts| - 1 := WithNote(ts[|ts| - 1], n)]
  }

  /** What the scanner promises about each effect of line `i`. */
  predicate EffectOk(e: Effect, i: nat, path: string, includeTags: seq<string>) {
    match e
    case NoChange => true
    case Appended(t) =>
      t.filepath == path && t.lineNumber == i + 1 && t.id == path + ":" + NatToString(i + 1) &&
      t.subtasks == [] && t.notes == [] && TaskClean(t) && Selected(t, includeTags)
    case SubAdded(sub) => sub.lineNumber == i + 1 && CleanText(sub.text) && TagList(sub.tags)
    case NoteAdded(n) => n != "" && NoLeadingSpace(n) && NoTrailingSpace(n)
  }

  lemma StepEffect(st: ScanState, line: string, i: nat, path: string, includeTags: seq<string>,
                   keepSkipped: bool)
    returns (e: Effect)
    requires StackOk(st)
    ensures EffectOk(e, i, path, includeTags)
    ensures Step(st, line, i, path, includeTags, keepSkipped).tasks == Apply(st.tasks, e)
  {
    var cb := CheckboxMatch(line);
    if cb.Some? {
      assert Step(st, line, i, path, includeTags, keepSkipped) ==
        CheckboxStep(st, cb.value, i, path, includeTags, keepSkipped);
      e := CheckboxEffect(st, cb.value, i, path, includeTags, keepSkipped);
    } else if PlainMatch(line).None? {
      e := NoChange;
    } else {
      var pm := PlainMatch(line).value;
      assert Step(st, line, i, path, includeTags, keepSkipped) == PlainStep(st, pm.0, pm.1);
      e := PlainEffect(st, pm.0, pm.1, i, path, includeTags);
    }
  }

  lemma CheckboxEffect(st: ScanState, cb: Checkbox, i: nat, path: string,
                       includeTags: seq<string>, keepSkipped: bool)
    returns (e: Effect)
    requires StackOk(st)
    ensures EffectOk(e, i, path, includeTags)
    ensures CheckboxStep(st, cb, i, path, includeTags, keepSkipped).tasks == Apply(st.tasks, e)
  {
    var after := CheckboxStep(st, cb, i, path, includeTags, keepSkipped).tasks;
    var u := Unwind(st.stack, cb.indent);
    var ts := st.tasks;
    if u == [] {
      var tags := TagsOf(cb.tail);
      if |includeTags| > 0 && !AnyIncluded(includeTags, tags) {
        e := NoChange;
      } else {
        e := Appended(NewTask(cb, tags, i, path));
        NewTaskClean(cb, i, path);
      }
    } else {
      assert u == st.stack;
      if u[0].owner.Some? {
        e := SubAdded(NewSubtask(cb, i));
        NewSubtaskClean(cb, i);
      } else {
        e := NoChange;
      }
    }
  }

  lemma PlainEffect(st: ScanState, indent: nat, content: string, i: nat, path: string,
                    includeTags: seq<string>)
    returns (e: Effect)
    requires StackOk(st)
    ensures EffectOk(e, i, path, includeTags)
    ensures PlainStep(st, indent, content).tasks == Apply(st.tasks, e)
    // A line deeper than the open card keeps it open; any other closes it
    // and changes no card.
    ensures PlainStep(st, indent, content).stack ==
      (if |st.stack| == 1 && indent > st.stack[0].indent then st.stack else [])
    ensures !(|st.stack| == 1 && indent > st.stack[0].indent) ==> e == NoChange
  {
    e := NoChange;
    if |st.stack| > 0 && indent > st.stack[0].indent {
      var note := NoteText(content);
      if |note| > 0 && st.stack[0].owner.Some? {
        e := NoteAdded(note);
      }
    }
  }

  // ---------------------------------------------------------------------------
  // Line numbers and identifiers.

  /** A card of file `path` found among the first `n` lines: its id is
      `path:line`, and its subtasks come after it, in order. */
  predicate TaskOk(t: Task, n: nat, path: string) {
    t.filepath == path && t.id == path + ":" + NatToString(t.lineNumber) &&
    1 <= t.lineNumber <= n &&
    (forall j :: 0 <= j < |t.subtasks| ==> t.lineNumber < t.subtasks[j].lineNumber <= n) &&
    (forall j, k :: 0 <= j < k < |t.subtasks| ==> t.subtasks[j].lineNumber < t.subtasks[k].lineNumber)
  }

  /** Cards in line order. */
  predicate WellFormed(tasks: seq<Task>, n: nat, path: string) {
    (forall k :: 0 <= k < |tasks| ==> TaskOk(tasks[k], n, path)) &&
    (forall j, k :: 0 <= j < k < |tasks| ==> tasks[j].lineNumber < tasks[k].lineNumber)
  }

  lemma StepWellFormed(st: ScanState, line: string, i: nat, path: string, includeTags: seq<string>,
                       keepSkipped: bool)
    requires StackOk(st)
    requires WellFormed(st.tasks, i, path)
    ensures WellFormed(Step(st, line, i, path, includeTags, keepSkipped).tasks, i + 1, path)
  {
    var e := StepEffect(st, line, i, path, includeTags, keepSkipped);
    EffectWellFormed(st.tasks, e, i, path, includeTags);
  }

  lemma EffectWellFormed(ts: seq<Task>, e: Effect, i: nat, path: string, includeTags: seq<string>)
    requires EffectOk(e, i, path, includeTags)
    requires WellFormed(ts, i, path)
    ensures WellFormed(Apply(ts, e), i + 1, path)
  {
    match e
    case NoChange => WellFormedLater(ts, i, path);
    case Appended(t) => AppendWellFormed(ts, t, i, path);
    case SubAdded(sub) => SubAddedWellFormed(ts, sub, i, path);
    case NoteAdded(n) => NoteAddedWellFormed(ts, n, i, path);
  }

  lemma SubAddedWellFormed(ts: seq<Task>, sub: Subtask, i: nat, path: string)
    requires WellFormed(ts, i, path) && sub.lineNumber == i + 1
    ensures WellFormed(Apply(ts, SubAdded(sub)), i + 1, path)
  {
    if ts != [] {
      WellFormedLater(ts, i, path);
      var t := WithSubtask(ts[|ts| - 1], sub);
      assert TaskOk(ts[|ts| - 1], i, path);
      assert TaskOk(t, i + 1, path);
      UpdateLastWellFormed(ts, t, i + 1, path);
    }
  }

  lemma NoteAddedWellFormed(ts: seq<Task>, n: string, i: nat, path: string)
    requires WellFormed(ts, i, path)
    ensures WellFormed(Apply(ts, NoteAdded(n)), i + 1, path)
  {
    if ts != [] {
      WellFormedLater(ts, i, path);
      var t := WithNote(ts[|ts| - 1], n);
      assert TaskOk(t, i + 1, path);
      UpdateLastWellFormed(ts, t, i + 1, path);
    }
  }

  lemma WellFormedLater(ts: seq<Task>, i: nat, path: string)
    requires WellFormed(ts, i, path)
    ensures WellFormed(ts, i + 1, path)
  {
    assert forall k :: 0 <= k < |ts| ==> TaskOk(ts[k], i + 1, path);
  }

  lemma AppendWellFormed(ts: seq<Task>, t: Task, i: nat, path: string)
    requires WellFormed(ts, i, path)
    requires t.filepath == path && t.lineNumber == i + 1 && t.id == path + ":" + NatToString(i + 1)
    requires t.subtasks == []
    ensures WellFormed(ts + [t], i + 1, path)
  {
    WellFormedLater(ts, i, path);
    var after := ts + [t];
    assert forall k :: 0 <= k < |ts| ==> after[k] == ts[k];
    assert TaskOk(t, i + 1, path);
  }

  /** Replacing the last card by one with the same line number whose
      subtasks are still in order keeps the list in order. */
  lemma UpdateLastWellFormed(ts: seq<Task>, t: Task, n: nat, path: string)
    requires ts != [] && WellFormed(ts, n, path)
    requires t.lineNumber == ts[|ts| - 1].lineNumber && TaskOk(t, n, path)
    ensures WellFormed(ts[|ts| - 1 := t], n, path)
  {
  }

  lemma ScanWellFormed(lines: seq<string>, n: nat, path: string, includeTags: seq<string>,
                        keepSkipped: bool)
    requires n <= |lines|
    ensures WellFormed(Scan(lines, n, path, includeTags, keepSkipped).tasks, n, path)
  {
    var k := 0;
    while k < n
      invariant k <= n
      invariant WellFormed(Scan(lines, k, path, includeTags, keepSkipped).tasks, k, path)
    {
      StepWellFormed(Scan(lines, k, path, includeTags, keepSkipped), lines[k], k, path,
                     includeTags, keepSkipped);
      ScanUnfold(lines, k, path, includeTags, keepSkipped);
      k := k + 1;
    }
    assert k == n;
  }

  /** One more line is one more step. */
  lemma ScanUnfold(lines: seq<string>, k: nat, path: string, includeTags: seq<string>,
                   keepSkipped: bool)
    requires k < |lines|
    ensures Scan(lines, k + 1, path, includeTags, keepSkipped) ==
      Step(Scan(lines, k, path, includeTags, keepSkipped), lines[k], k, path, includeTags, keepSkipped)
  {
  }

  /** Two cards of one file never share an id. */
  lemma IdsDistinct(tasks: seq<Task>, n: nat, path: string)
    requires WellFormed(tasks, n, path)
    ensures forall j, k :: 0 <= j < k < |tasks| ==> tasks[j].id != tasks[k].id
  {
    forall j, k | 0 <= j < k < |tasks| ensures tasks[j].id != tasks[k].id {
      var a := NatToString(tasks[j].lineNumber);
      var b := NatToString(tasks[k].lineNumber);
      if tasks[j].id == tasks[k].id {
        var pre := path + ":";
        assert (pre + a)[|pre|..] == a;
        assert (pre + b)[|pre|..] == b;
        NatToStringInjective(tasks[j].lineNumber, tasks[k].lineNumber);
      }
    }
  }

  /** Every card of `parseTasksFromContent` is line-numbered, identified by
      `path:line`, in line order, with distinct ids. */
  lemma ParseTasksWellFormed(content: string, path: string, includeTags: seq<string>)
    ensures var tasks := ParseTasks(content, path, includeTags);
      WellFormed(tasks, |SplitLines(content)|, path) &&
      forall j, k :: 0 <= j < k < |tasks| ==> tasks[j].id != tasks[k].id
  {
    var lines := SplitLines(content);
    ScanWellFormed(lines, |lines|, path, includeTags, false);
    IdsDistinct(ParseTasks(content, path, includeTags), |lines|, path);
  }

  // ---------------------------------------------------------------------------
  // The contents of a card.

  predicate CleanText(s: string) {
    NoDoubleSpace(s) && NoLeadingSpace(s) && NoTrailingSpace(s)
  }

  predicate ValidDate(d: Option<string>) {
    d.None? || IsValidISODate(d.value)
  }

  predicate TagList(tags: seq<string>) {
    Distinct(tags) && forall k :: 0 <= k < |tags| ==> ScannedTag(tags[k])
  }

  /** A card's text has its tags and dates removed and its whitespace
      normalised, its tags are distinct scanned tags, its dates are real
      dates, and its notes are non-empty and trimmed. */
  predicate TaskClean(t: Task) {
    CleanText(t.text) && TagList(t.tags) &&
    ValidDate(t.dueDate) && ValidDate(t.scheduledDate) && ValidDate(t.createdDate) &&
    ValidDate(t.completedDate) &&
    (forall j :: 0 <= j < |t.subtasks| ==> CleanText(t.subtasks[j].text) && TagList(t.subtasks[j].tags)) &&
    (forall j :: 0 <= j < |t.notes| ==> t.notes[j] != "" && NoLeadingSpace(t.notes[j]) && NoTrailingSpace(t.notes[j]))
  }

  lemma TagsOfList(s: string)
    ensures TagList(TagsOf(s))
  {
    TagsOfSpec(s);
    var tags := TagsOf(s);
    forall k | 0 <= k < |tags| ensures ScannedTag(tags[k]) {
      assert tags[k] in tags;
    }
  }

  lemma DatesOfClean(s: string)
    ensures var d := DatesOf(s);
      CleanText(d.text) && ValidDate(d.dueDate) && ValidDate(d.scheduledDate) &&
      ValidDate(d.createdDate) && ValidDate(d.completedDate)
  {
    DatesOfSpec(s);
  }

  lemma NewTaskClean(cb: Checkbox, i: nat, path: string)
    ensures TaskClean(NewTask(cb, TagsOf(cb.tail), i, path))
  {
    TagsOfList(cb.tail);
    DatesOfClean(StripTags(cb.tail));
  }

  lemma NewSubtaskClean(cb: Checkbox, i: nat)
    ensures CleanText(NewSubtask(cb, i).text) && TagList(NewSubtask(cb, i).tags)
  {
    TagsOfList(cb.tail);
    DatesOfClean(StripTags(cb.tail));
  }

  predicate AllClean(tasks: seq<Task>) {
    forall k :: 0 <= k < |tasks| ==> TaskClean(tasks[k])
  }

  lemma StepClean(st: ScanState, line: string, i: nat, path: string, includeTags: seq<string>,
                  keepSkipped: bool)
    requires StackOk(st)
    requires AllClean(st.tasks)
    ensures AllClean(Step(st, line, i, path, includeTags, keepSkipped).tasks)
  {
    var e := StepEffect(st, line, i, path, includeTags, keepSkipped);
    EffectClean(st.tasks, e, i, path, includeTags);
  }

  lemma EffectClean(ts: seq<Task>, e: Effect, i: nat, path: string, includeTags: seq<string>)
    requires EffectOk(e, i, path, includeTags)
    requires AllClean(ts)
    ensures AllClean(Apply(ts, e))
  {
    var after := Apply(ts, e);
    match e
    case NoChange =>
    case Appended(t) =>
    case SubAdded(sub) =>
      if ts != [] {
        assert TaskClean(after[|ts| - 1]);
      }
    case NoteAdded(n) =>
      if ts != [] {
        assert TaskClean(after[|ts| - 1]);
      }
  }

  lemma ScanClean(lines: seq<string>, n: nat, path: string,
                  includeTags: seq<string>, keepSkipped: bool)
    requires n <= |lines|
    ensures AllClean(Scan(lines, n, path, includeTags, keepSkipped).tasks)
  {
    var k := 0;
    while k < n
      invariant k <= n
      invariant AllClean(Scan(lines, k, path, includeTags, keepSkipped).tasks)
    {
      StepClean(Scan(lines, k, path, includeTags, keepSkipped), lines[k], k, path,
                includeTags, keepSkipped);
      ScanUnfold(lines, k, path, includeTags, keepSkipped);
      k := k + 1;
    }
    assert k == n;
  }

  /** The cards of `parseTasksFromContent` are clean. */
  lemma ParseTasksClean(content: string, path: string, includeTags: seq<string>)
    ensures AllClean(ParseTasks(content, path, includeTags))
  {
    var lines := SplitLines(content);
    ScanClean(lines, |lines|, path, includeTags, false);
  }

  // ---------------------------------------------------------------------------
  // The tag filter `includeTags`.

  /** A card passes the filter: there is none, or the card carries one of its
      tags. */
  predicate Selected(t: Task, includeTags: seq<string>) {
    |includeTags| == 0 || AnyIncluded(includeTags, t.tags)
  }

  predicate AllSelected(tasks: seq<Task>, includeTags: seq<string>) {
    forall k :: 0 <= k < |tasks| ==> Selected(tasks[k], includeTags)
  }

  lemma StepIncluded(st: ScanState, line: string, i: nat, path: string, includeTags: seq<string>,
                     keepSkipped: bool)
    requires StackOk(st)
    requires AllSelected(st.tasks, includeTags)
    ensures AllSelected(Step(st, line, i, path, includeTags, keepSkipped).tasks, includeTags)
  {
    var e := StepEffect(st, line, i, path, includeTags, keepSkipped);
    EffectIncluded(st.tasks, e, i, path, includeTags);
  }

  lemma EffectIncluded(ts: seq<Task>, e: Effect, i: nat, path: string, includeTags: seq<string>)
    requires EffectOk(e, i, path, includeTags)
    requires AllSelected(ts, includeTags)
    ensures AllSelected(Apply(ts, e), includeTags)
  {
    var after := Apply(ts, e);
    match e
    case NoChange =>
    case Appended(t) =>
    case SubAdded(sub) =>
      if ts != [] {
        assert after[|ts| - 1].tags == ts[|ts| - 1].tags;
      }
    case NoteAdded(n) =>
      if ts != [] {
        assert after[|ts| - 1].tags == ts[|ts| - 1].tags;
      }
  }

  lemma ScanIncluded(lines: seq<string>, n: nat, path: string,
                     includeTags: seq<string>, keepSkipped: bool)
    requires n <= |lines|
    ensures AllSelected(Scan(lines, n, path, includeTags, keepSkipped).tasks, includeTags)
  {
    var k := 0;
    while k < n
      invariant k <= n
      invariant AllSelected(Scan(lines, k, path, includeTags, keepSkipped).tasks, includeTags)
    {
      StepIncluded(Scan(lines, k, path, includeTags, keepSkipped), lines[k], k, path,
                   includeTags, keepSkipped);
      ScanUnfold(lines, k, path, includeTags, keepSkipped);
      k := k + 1;
    }
    assert k == n;
  }

  /** With a non-empty `includeTags`, every card carries one of those tags. */
  lemma ParseTasksIncluded(content: string, path: string, includeTags: seq<string>)
    ensures AllSelected(ParseTasks(content, path, includeTags), includeTags)
  {
    var lines := SplitLines(content);
    ScanIncluded(lines, |lines|, path, includeTags, false);
  }
}

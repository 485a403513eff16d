/**
 * The `includeTags` option of the task scanner, compared with filtering the
 * cards afterwards.
 *
 * As written, a top-level card whose tags miss the list is skipped, but the
 * stack has already been emptied, so the checkbox lines nested under it are
 * read as top-level cards of their own and its notes are dropped. The
 * corrected scanner keeps an entry for the skipped card; it returns exactly
 * the cards of the unfiltered scan that carry one of the tags.
 */
module TaskScannerFilter {
  import opened Types
  import opened Text
  import opened ScannerTags
  import opened TaskScanner
  import opened TaskScannerProps

  /** The cards that pass the filter, in order. */
  function Keep(ts: seq<Task>, includeTags: seq<string>): (r: seq<Task>)
    ensures |r| <= |ts|
    ensures forall k :: 0 <= k < |r| ==> Selected(r[k], includeTags)
    decreases |ts|
  {
    if ts == [] then []
    else
      Keep(ts[..|ts| - 1], includeTags) +
      (if Selected(ts[|ts| - 1], includeTags) then [ts[|ts| - 1]] else [])
  }

  lemma KeepAppend(ts: seq<Task>, t: Task, includeTags: seq<string>)
    ensures Keep(ts + [t], includeTags) ==
      Keep(ts, includeTags) + (if Selected(t, includeTags) then [t] else [])
  {
    assert (ts + [t])[..|ts|] == ts;
  }

  /** Changing the last card without changing its tags changes the last kept
      card, if it is kept. */
  lemma KeepUpdateLast(ts: seq<Task>, t: Task, includeTags: seq<string>)
    requires ts != [] && t.tags == ts[|ts| - 1].tags
    ensures var k := Keep(ts, includeTags);
      Keep(ts[|ts| - 1 := t], includeTags) ==
        if Selected(t, includeTags) then k[|k| - 1 := t] else k
  {
    var init := ts[..|ts| - 1];
    var ts' := ts[|ts| - 1 := t];
    assert ts'[..|ts| - 1] == init;
    var k0 := Keep(init, includeTags);
    assert Selected(t, includeTags) == Selected(ts[|ts| - 1], includeTags);
    if Selected(t, includeTags) {
      assert (k0 + [ts[|ts| - 1]])[|k0| := t] == k0 + [t];
    }
  }

  /** The last card, when kept, is the last kept card. */
  lemma KeepLast(ts: seq<Task>, includeTags: seq<string>)
    requires ts != [] && Selected(ts[|ts| - 1], includeTags)
    ensures var k := Keep(ts, includeTags); k != [] && k[|k| - 1] == ts[|ts| - 1]
  {
  }

  /** A filter that keeps every card keeps the list. */
  lemma {:induction false} KeepAll(ts: seq<Task>)
    ensures Keep(ts, []) == ts
    decreases |ts|
  {
    if ts != [] {
      KeepAll(ts[..|ts| - 1]);
    }
  }

  /** The unfiltered state `a` and the corrected filtered state `b` after the
      same lines: `b` holds the kept cards of `a`, and its stack has an entry
      exactly when `a`'s has, at the same indent, pointing at the same card
      when that card is kept. */
  predicate Related(a: ScanState, b: ScanState, includeTags: seq<string>) {
    b.tasks == Keep(a.tasks, includeTags) && |a.stack| == |b.stack| <= 1 &&
    (|a.stack| == 1 ==>
      |a.tasks| > 0 && a.stack[0].indent == b.stack[0].indent &&
      a.stack[0].owner == Some(|a.tasks| - 1) &&
      b.stack[0].owner ==
        (if Selected(a.tasks[|a.tasks| - 1], includeTags) then Some(|b.tasks| - 1) else None))
  }

  lemma UnwindShort(stack: seq<Frame>, indent: nat)
    requires |stack| <= 1
    ensures Unwind(stack, indent) == if |stack| == 1 && indent <= stack[0].indent then [] else stack
  {
    if |stack| == 1 && indent <= stack[0].indent {
      assert stack[..0] == [];
    }
  }

  lemma RelatedAppend(a: ScanState, b: ScanState, t: Task, indent: nat, includeTags: seq<string>)
    requires b.tasks == Keep(a.tasks, includeTags) && Selected(t, includeTags)
    ensures Related(ScanState(a.tasks + [t], [Frame(indent, Some(|a.tasks|))]),
                    ScanState(b.tasks + [t], [Frame(indent, Some(|b.tasks|))]), includeTags)
  {
    KeepAppend(a.tasks, t, includeTags);
    assert (a.tasks + [t])[|a.tasks|] == t;
  }

  lemma RelatedSkip(a: ScanState, b: ScanState, t: Task, indent: nat, includeTags: seq<string>)
    requires b.tasks == Keep(a.tasks, includeTags) && !Selected(t, includeTags)
    ensures Related(ScanState(a.tasks + [t], [Frame(indent, Some(|a.tasks|))]),
                    ScanState(b.tasks, [Frame(indent, None)]), includeTags)
  {
    KeepAppend(a.tasks, t, includeTags);
    assert (a.tasks + [t])[|a.tasks|] == t;
  }

  lemma RelatedUpdate(a: ScanState, b: ScanState, t: Task, includeTags: seq<string>)
    requires Related(a, b, includeTags) && |a.stack| == 1
    requires t.tags == a.tasks[|a.tasks| - 1].tags
    ensures var bt := if Selected(t, includeTags) then b.tasks[|b.tasks| - 1 := t] else b.tasks;
      |b.stack| == 1 && (b.stack[0].owner.Some? <==> Selected(t, includeTags)) &&
      Related(ScanState(a.tasks[|a.tasks| - 1 := t], a.stack), ScanState(bt, b.stack), includeTags)
  {
    var at := a.tasks[|a.tasks| - 1 := t];
    assert Selected(t, includeTags) == Selected(a.tasks[|a.tasks| - 1], includeTags);
    assert |at| == |a.tasks| && at[|at| - 1] == t;
    KeepUpdateLast(a.tasks, t, includeTags);
  }

  lemma RelatedUnwind(a: ScanState, b: ScanState, indent: nat, includeTags: seq<string>)
    requires Related(a, b, includeTags)
    ensures Related(ScanState(a.tasks, Unwind(a.stack, indent)),
                    ScanState(b.tasks, Unwind(b.stack, indent)), includeTags)
  {
    UnwindShort(a.stack, indent);
    UnwindShort(b.stack, indent);
  }

  /** A box that closes the open card starts a card on both sides, kept on
      the filtered side only when its tags pass. */
  lemma CheckboxNewRelated(a: ScanState, b: ScanState, cb: Checkbox, i: nat, path: string,
                           includeTags: seq<string>)
    requires StackOk(a) && StackOk(b) && Related(a, b, includeTags)
    requires Unwind(a.stack, cb.indent) == [] && Unwind(b.stack, cb.indent) == []
    ensures Related(CheckboxStep(a, cb, i, path, [], false),
                    CheckboxStep(b, cb, i, path, includeTags, true), includeTags)
  {
    var tags := TagsOf(cb.tail);
    var t := NewTask(cb, tags, i, path);
    assert t.tags == tags;
    if |includeTags| > 0 && !AnyIncluded(includeTags, tags) {
      RelatedSkip(a, b, t, cb.indent, includeTags);
    } else {
      RelatedAppend(a, b, t, cb.indent, includeTags);
    }
  }

  /** A box inside the open card is its subtask on both sides, or on the
      filtered side nowhere when that card was rejected. */
  lemma SubtaskRelated(a: ScanState, b: ScanState, sub: Subtask, includeTags: seq<string>)
    requires StackOk(a) && StackOk(b) && Related(a, b, includeTags) && |a.stack| == 1
    ensures Related(ScanState(AddSubtask(a.tasks, a.stack[0].owner, sub), a.stack),
                    ScanState(AddSubtask(b.tasks, b.stack[0].owner, sub), b.stack), includeTags)
  {
    var last := a.tasks[|a.tasks| - 1];
    var t' := WithSubtask(last, sub);
    RelatedUpdate(a, b, t', includeTags);
    assert AddSubtask(a.tasks, a.stack[0].owner, sub) == a.tasks[|a.tasks| - 1 := t'];
    if Selected(t', includeTags) {
      KeepLast(a.tasks, includeTags);
      assert AddSubtask(b.tasks, b.stack[0].owner, sub) == b.tasks[|b.tasks| - 1 := t'];
    }
  }

  lemma CheckboxSubRelated(a: ScanState, b: ScanState, cb: Checkbox, i: nat, path: string,
                           includeTags: seq<string>)
    requires StackOk(a) && StackOk(b) && Owned(a) && Related(a, b, includeTags)
    requires Unwind(a.stack, cb.indent) == a.stack != [] && Unwind(b.stack, cb.indent) == b.stack
    ensures Related(CheckboxStep(a, cb, i, path, [], false),
                    CheckboxStep(b, cb, i, path, includeTags, true), includeTags)
  {
    SubtaskRelated(a, b, NewSubtask(cb, i), includeTags);
  }

  lemma CheckboxRelated(a: ScanState, b: ScanState, cb: Checkbox, i: nat, path: string,
                        includeTags: seq<string>)
    requires StackOk(a) && StackOk(b) && Owned(a) && Related(a, b, includeTags)
    ensures Related(CheckboxStep(a, cb, i, path, [], false),
                    CheckboxStep(b, cb, i, path, includeTags, true), includeTags)
  {
    UnwindShort(a.stack, cb.indent);
    UnwindShort(b.stack, cb.indent);
    if Unwind(a.stack, cb.indent) == [] {
      CheckboxNewRelated(a, b, cb, i, path, includeTags);
    } else {
      CheckboxSubRelated(a, b, cb, i, path, includeTags);
    }
  }

  /** A note goes to the open card on both sides, or on the filtered side
      nowhere when that card was rejected. */
  lemma NoteRelated(a: ScanState, b: ScanState, note: string, includeTags: seq<string>)
    requires StackOk(a) && StackOk(b) && Related(a, b, includeTags) && |a.stack| == 1
    ensures Related(ScanState(AddNote(a.tasks, a.stack[0].owner, note), a.stack),
                    ScanState(AddNote(b.tasks, b.stack[0].owner, note), b.stack), includeTags)
  {
    var last := a.tasks[|a.tasks| - 1];
    var t' := WithNote(last, note);
    RelatedUpdate(a, b, t', includeTags);
    assert AddNote(a.tasks, a.stack[0].owner, note) == a.tasks[|a.tasks| - 1 := t'];
    if Selected(t', includeTags) {
      KeepLast(a.tasks, includeTags);
      assert AddNote(b.tasks, b.stack[0].owner, note) == b.tasks[|b.tasks| - 1 := t'];
    }
  }

  lemma PlainRelated(a: ScanState, b: ScanState, line: string, i: nat, path: string,
                     includeTags: seq<string>)
    requires StackOk(a) && StackOk(b) && Owned(a) && Related(a, b, includeTags)
    requires CheckboxMatch(line).None?
    ensures Related(Step(a, line, i, path, [], false), Step(b, line, i, path, includeTags, true),
                    includeTags)
  {
    var pm := PlainMatch(line);
    if pm.Some? {
      assert Step(a, line, i, path, [], false) == PlainStep(a, pm.value.0, pm.value.1);
      assert Step(b, line, i, path, includeTags, true) == PlainStep(b, pm.value.0, pm.value.1);
      PlainStepRelated(a, b, pm.value.0, pm.value.1, includeTags);
    }
  }

  lemma PlainStepRelated(a: ScanState, b: ScanState, indent: nat, content: string,
                         includeTags: seq<string>)
    requires StackOk(a) && StackOk(b) && Owned(a) && Related(a, b, includeTags)
    ensures Related(PlainStep(a, indent, content), PlainStep(b, indent, content), includeTags)
  {
    if |a.stack| > 0 && indent > a.stack[0].indent {
      if |NoteText(content)| > 0 {
        NoteRelated(a, b, NoteText(content), includeTags);
      }
    } else {
      RelatedUnwind(a, b, indent, includeTags);
    }
  }

  lemma StepRelated(a: ScanState, b: ScanState, line: string, i: nat, path: string,
                    includeTags: seq<string>)
    requires StackOk(a) && StackOk(b) && Owned(a) && Related(a, b, includeTags)
    ensures Related(Step(a, line, i, path, [], false), Step(b, line, i, path, includeTags, true),
                    includeTags)
  {
    var cb := CheckboxMatch(line);
    if cb.Some? {
      CheckboxRelated(a, b, cb.value, i, path, includeTags);
    } else {
      PlainRelated(a, b, line, i, path, includeTags);
    }
  }

  lemma ScanRelated(lines: seq<string>, n: nat, path: string, includeTags: seq<string>)
    requires n <= |lines|
    ensures Related(Scan(lines, n, path, [], false), Scan(lines, n, path, includeTags, true),
                    includeTags)
  {
    ScanRelatedBase(lines, path, includeTags);
    var k := 0;
    while k < n
      invariant k <= n
      invariant Related(Scan(lines, k, path, [], false), Scan(lines, k, path, includeTags, true),
                        includeTags)
    {
      ScanRelatedStep(lines, k, path, includeTags);
      k := k + 1;
    }
    assert k == n;
  }

  /** Before any line, both scans are empty. */
  lemma ScanRelatedBase(lines: seq<string>, path: string, includeTags: seq<string>)
    ensures Related(Scan(lines, 0, path, [], false), Scan(lines, 0, path, includeTags, true),
                    includeTags)
  {
    assert Scan(lines, 0, path, [], false) == ScanState([], []);
    assert Scan(lines, 0, path, includeTags, true) == ScanState([], []);
  }

  /** Scanning line `k` keeps the filtered scan related to the unfiltered one. */
  lemma ScanRelatedStep(lines: seq<string>, k: nat, path: string, includeTags: seq<string>)
    requires k < |lines|
    ensures Related(Scan(lines, k, path, [], false), Scan(lines, k, path, includeTags, true),
                    includeTags) ==>
            Related(Scan(lines, k + 1, path, [], false), Scan(lines, k + 1, path, includeTags, true),
                    includeTags)
  {
    var a, b := Scan(lines, k, path, [], false), Scan(lines, k, path, includeTags, true);
    if Related(a, b, includeTags) {
      StepRelated(a, b, lines[k], k, path, includeTags);
      ScanUnfold(lines, k, path, [], false);
      ScanUnfold(lines, k, path, includeTags, true);
    }
  }

  /** The corrected scanner returns the cards of the unfiltered scan that
      carry one of the tags, nothing more and nothing less. */
  lemma IntendedIsFiltered(content: string, path: string, includeTags: seq<string>)
    ensures ParseTasksIntended(content, path, includeTags) ==
      Keep(ParseTasks(content, path, []), includeTags)
  {
    var lines := SplitLines(content);
    ScanRelated(lines, |lines|, path, includeTags);
  }

  /** Without a tag list both scanners return the unfiltered cards. */
  lemma NoFilterAgrees(content: string, path: string)
    ensures ParseTasksIntended(content, path, []) == ParseTasks(content, path, [])
  {
    IntendedIsFiltered(content, path, []);
    KeepAll(ParseTasks(content, path, []));
  }

  /** As written: with `includeTags` ["#x"], the note "- [ ] a" followed by
      the nested "  - [ ] b #x" yields a card for line 2, although in the
      unfiltered scan line 2 is a subtask of a card that the filter rejects. */
  lemma AsWrittenPromotesNestedTask()
    ensures var content := "- [ ] a\n  - [ ] b #x";
      var asWritten := ParseTasks(content, "f.md", ["#x"]);
      |asWritten| == 1 && asWritten[0].lineNumber == 2 &&
      Keep(ParseTasks(content, "f.md", []), ["#x"]) == [] &&
      ParseTasksIntended(content, "f.md", ["#x"]) == []
  {
    var content := "- [ ] a\n  - [ ] b #x";
    ExampleLines();
    FilteredScan(SplitLines(content), "f.md", ["#x"]);
    UnfilteredScan(SplitLines(content), "f.md", ["#x"]);
    IntendedIsFiltered(content, "f.md", ["#x"]);
  }

  lemma FilteredScan(lines: seq<string>, path: string, includeTags: seq<string>)
    requires lines == ["- [ ] a", "  - [ ] b #x"] && includeTags == ["#x"]
    ensures var r := Scan(lines, 2, path, includeTags, false).tasks;
      |r| == 1 && r[0].lineNumber == 2
  {
    var empty := ScanState([], []);
    FilteredFirst(path, includeTags);
    FilteredSecond(path, includeTags);
    assert Scan(lines, 1, path, includeTags, false) == Step(empty, lines[0], 0, path, includeTags, false);
    assert Scan(lines, 2, path, includeTags, false) == Step(empty, lines[1], 1, path, includeTags, false);
  }

  lemma UnfilteredScan(lines: seq<string>, path: string, includeTags: seq<string>)
    requires lines == ["- [ ] a", "  - [ ] b #x"] && includeTags == ["#x"]
    ensures Keep(Scan(lines, 2, path, [], false).tasks, includeTags) == []
  {
    var empty := ScanState([], []);
    var u1 := Step(empty, lines[0], 0, path, [], false);
    UnfilteredFirst(path);
    assert Scan(lines, 1, path, [], false) == u1;
    var u2 := Step(u1, lines[1], 1, path, [], false);
    UnfilteredSecond(u1, path);
    assert Scan(lines, 2, path, [], false) == u2;
    assert !AnyIncluded(includeTags, u2.tasks[0].tags);
    KeepSingle(u2.tasks, includeTags);
  }

  lemma KeepSingle(ts: seq<Task>, includeTags: seq<string>)
    requires |ts| == 1 && !Selected(ts[0], includeTags)
    ensures Keep(ts, includeTags) == []
  {
    assert ts[..0] == [];
  }

  lemma ExampleLines()
    ensures SplitLines("- [ ] a\n  - [ ] b #x") == ["- [ ] a", "  - [ ] b #x"]
  {
    var l0 := "- [ ] a";
    var l1 := "  - [ ] b #x";
    assert JoinLines([l1]) == l1;
    assert JoinLines([l0, l1]) == "- [ ] a\n  - [ ] b #x";
    assert SplittableLines([l0, l1]) by {
      assert '\n' !in l0 && '\n' !in l1;
    }
    SplitJoin([l0, l1]);
  }

  /** As written, the filter skips the untagged first card and empties the stack. */
  lemma FilteredFirst(path: string, includeTags: seq<string>)
    requires includeTags == ["#x"]
    ensures Step(ScanState([], []), "- [ ] a", 0, path, includeTags, false) == ScanState([], [])
  {
    FirstLine();
    assert !AnyIncluded(includeTags, []);
  }

  /** ... so the nested box starts a card of its own. */
  lemma FilteredSecond(path: string, includeTags: seq<string>)
    requires includeTags == ["#x"]
    ensures var r := Step(ScanState([], []), "  - [ ] b #x", 1, path, includeTags, false);
      |r.tasks| == 1 && r.tasks[0].lineNumber == 2
  {
    SecondLine();
    assert includeTags[0] in ["#x"];
    assert AnyIncluded(includeTags, ["#x"]);
  }

  lemma UnfilteredFirst(path: string)
    ensures var r := Step(ScanState([], []), "- [ ] a", 0, path, [], false);
      |r.tasks| == 1 && r.tasks[0].tags == [] && r.stack == [Frame(0, Some(0))]
  {
    FirstLine();
  }

  /** Without the filter the nested box is a subtask of the untagged card. */
  lemma UnfilteredSecond(st: ScanState, path: string)
    requires |st.tasks| == 1 && st.tasks[0].tags == [] && st.stack == [Frame(0, Some(0))]
    ensures StackOk(st)
    ensures var r := Step(st, "  - [ ] b #x", 1, path, [], false);
      |r.tasks| == 1 && r.tasks[0].tags == []
  {
    SecondLine();
    UnwindShort(st.stack, 2);
  }

  lemma FirstLine()
    ensures CheckboxMatch("- [ ] a") == Some(Checkbox(0, false, "a"))
    ensures TagsOf("a") == []
  {
    var l := "- [ ] a";
    assert IndentRunEnd(l, 0) == 0;
    assert l[..0] == [];
    assert SpaceRunEnd(l, 5) == 6;
    assert l[6..] == "a";
    assert TagMatchAt("a", 0) == None;
    assert TagOccurrences("a", 1) == [];
  }

  lemma SecondLine()
    ensures CheckboxMatch("  - [ ] b #x") == Some(Checkbox(2, false, "b #x"))
    ensures TagsOf("b #x") == ["#x"]
  {
    SecondLineBox();
    SecondLineTags();
  }

  lemma SecondLineBox()
    ensures CheckboxMatch("  - [ ] b #x") == Some(Checkbox(2, false, "b #x"))
  {
    var l := "  - [ ] b #x";
    SecondLineRuns();
    assert NoLineTerminator(l[8..]);
  }

  lemma SecondLineRuns()
    ensures var l := "  - [ ] b #x";
      IndentRunEnd(l, 0) == 2 && IndentWidth(l[..2]) == 2 && SpaceRunEnd(l, 7) == 8 &&
      l[8..] == "b #x"
  {
    var l := "  - [ ] b #x";
    assert IndentRunEnd(l, 2) == 2;
    assert l[..2] == "  ";
    assert IndentWidth("  ") == 2 by {
      assert "  "[1..] == " ";
      assert " "[1..] == "";
    }
    assert SpaceRunEnd(l, 8) == 8;
    assert l[8..] == "b #x";
  }

  lemma SecondLineTags()
    ensures TagsOf("b #x") == ["#x"]
  {
    var t := "b #x";
    assert TagRunEnd(t, 3) == 4;
    assert TagMatchAt(t, 0) == None;
    assert TagMatchAt(t, 1) == Some((2, 4));
    assert t[2..4] == "#x";
    assert TagOccurrences(t, 4) == [];
    assert TagOccurrences(t, 1) == ["#x"];
  }
}

/**
 * Worked scans: how indentation and blank lines decide between a new card
 * and a subtask.
 */
module TaskScannerExamples {
  import opened Types
  import opened Text
  import opened TaskScanner
  import opened TaskScannerProps
  import opened TaskScannerFilter
  import opened ScannerTags

  /** A blank line between a card and a deeper box closes the card, so the
      box becomes a second card (numbered from its own line) instead of a
      subtask of the first. */
  lemma BlankLineSplitsCards()
    ensures var r := ParseTasks("- [ ] a\n\n  - [ ] b", "f.md", []);
      |r| == 2 && r[0].lineNumber == 1 && r[0].subtasks == [] && r[1].lineNumber == 3
  {
    var lines := ["- [ ] a", "", "  - [ ] b"];
    BlankExampleLines();
    var s1 := FirstCard("f.md");
    ScanUnfold(lines, 0, "f.md", [], false);
    assert Scan(lines, 1, "f.md", [], false) == s1;
    BlankLineCloses(s1, 1, "f.md", [], false);
    ScanUnfold(lines, 1, "f.md", [], false);
    var s2 := ScanState(s1.tasks, []);
    assert Scan(lines, 2, "f.md", [], false) == s2;
    ScanUnfold(lines, 2, "f.md", [], false);
    var s3 := SecondCard(s2, "f.md");
  }

  lemma BlankExampleLines()
    ensures SplitLines("- [ ] a\n\n  - [ ] b") == ["- [ ] a", "", "  - [ ] b"]
  {
    var l0, l1, l2 := "- [ ] a", "", "  - [ ] b";
    assert JoinLines([l2]) == l2;
    assert JoinLines([l1, l2]) == "\n  - [ ] b";
    assert JoinLines([l0, l1, l2]) == "- [ ] a\n\n  - [ ] b";
    assert SplittableLines([l0, l1, l2]) by {
      assert '\n' !in l0 && '\n' !in l1 && '\n' !in l2;
    }
    SplitJoin([l0, l1, l2]);
  }

  /** The first line opens card 1 at indent 0. */
  lemma FirstCard(path: string) returns (s1: ScanState)
    ensures s1 == Step(ScanState([], []), "- [ ] a", 0, path, [], false)
    ensures |s1.tasks| == 1 && s1.tasks[0].lineNumber == 1 && s1.tasks[0].subtasks == []
  {
    FirstLine();
    CheckboxCardCase(ScanState([], []), Checkbox(0, false, "a"), 0, path, [], false);
    s1 := Step(ScanState([], []), "- [ ] a", 0, path, [], false);
  }

  /** With no card open, the indented box is a card of its own. */
  lemma SecondCard(s2: ScanState, path: string) returns (s3: ScanState)
    requires |s2.tasks| == 1 && s2.stack == []
    ensures s3 == Step(s2, "  - [ ] b", 2, path, [], false)
    ensures |s3.tasks| == 2 && s3.tasks[0] == s2.tasks[0] && s3.tasks[1].lineNumber == 3
  {
    var t := NewTask(Checkbox(2, false, "b"), TagsOf("b"), 2, path);
    SecondCardState(s2, path);
    s3 := ScanState(s2.tasks + [t], [Frame(2, Some(1))]);
  }

  lemma SecondCardState(s2: ScanState, path: string)
    requires |s2.tasks| == 1 && s2.stack == []
    ensures Step(s2, "  - [ ] b", 2, path, [], false) ==
      ScanState(s2.tasks + [NewTask(Checkbox(2, false, "b"), TagsOf("b"), 2, path)], [Frame(2, Some(1))])
  {
    IndentedBox();
    CheckboxCardCase(s2, Checkbox(2, false, "b"), 2, path, [], false);
  }

  lemma IndentedBox()
    ensures CheckboxMatch("  - [ ] b") == Some(Checkbox(2, false, "b"))
  {
    IndentedBoxLine();
    CheckboxRoundTrip("  ", ' ', " ", "b");
  }

  lemma IndentedBoxLine()
    ensures CheckboxLine("  ", ' ', " ", "b") == "  - [ ] b"
    ensures IndentWidth("  ") == 2
  {
    assert "  "[1..] == " ";
  }
}

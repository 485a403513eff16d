/**
 * The markdown line editors: adding and removing a tag on a task line, and
 * the three file edits that replace one line, splice text in place of one
 * line, or wrap one line in `<del>…</del>`.
 *
 * A file edit reads the file, splits it with `split(/\r?\n/)`, gives up when
 * the 1-based line number is outside the file, and otherwise writes back the
 * lines joined with '\n'. The vault is not modelled: an edit takes the file's
 * content and answers `Some(text)` with the text it writes, or `None` when it
 * writes nothing.
 */
module MdEdit {
  import opened Types
  import opened Text

  // ---------------------------------------------------------------------------
  // `addTagToLine`.

  lemma ContainsEmpty(s: string)
    ensures Contains(s, [])
  {
    assert OccursAt(s, [], 0);
  }

  /** A string that starts with whitespace trims as the part after it. */
  lemma {:induction false} TrimStartAppend(a: string, b: string)
    ensures AllSpace(a) ==> TrimStart(a + b) == TrimStart(b)
    ensures !AllSpace(a) ==> TrimStart(a + b) == TrimStart(a) + b
    decreases |a|
  {
    if a != [] {
      var ab := a + b;
      assert ab[0] == a[0];
      if IsSpace(a[0]) {
        assert ab[1..] == a[1..] + b;
        assert TrimStart(ab) == TrimStart(a[1..] + b);
        assert TrimStart(a) == TrimStart(a[1..]);
        TrimStartAppend(a[1..], b);
        AllSpaceCons(a);
      } else {
        assert !AllSpace(a);
        assert TrimStart(ab) == ab;
        assert TrimStart(a) == a;
      }
    } else {
      assert a + b == b;
    }
  }

  /** `addTagToLine`: the line itself when the tag occurs in it anywhere, even
      inside a longer tag; otherwise the tag appended after one space, with the
      indentation trimmed away. */
  function AddTagToLine(line: string, tag: string): string {
    if Contains(line, tag) then line else Trim(line + " " + tag)
  }

  /** The result of `addTagToLine` for a tag without surrounding whitespace:
      the line when the tag occurs in it, the tag alone for a blank line,
      and otherwise the unindented line, one space and the tag. */
  lemma AddTagResult(line: string, tag: string)
    requires NoLeadingSpace(tag) && NoTrailingSpace(tag)
    ensures Contains(line, tag) ==> AddTagToLine(line, tag) == line
    ensures !Contains(line, tag) ==> tag != []
    ensures !Contains(line, tag) ==>
      AddTagToLine(line, tag) == if AllSpace(line) then tag else TrimStart(line) + " " + tag
  {
    ContainsEmpty(line);
    if !Contains(line, tag) {
      AppendTrimmed(line, tag);
    }
  }

  lemma AppendTrimmed(line: string, tag: string)
    requires tag != [] && NoLeadingSpace(tag) && NoTrailingSpace(tag)
    ensures Trim(line + " " + tag) == if AllSpace(line) then tag else TrimStart(line) + " " + tag
  {
    var u := if AllSpace(line) then tag else TrimStart(line) + " " + tag;
    AppendTrimmedStart(line, tag);
    assert u[|u| - 1] == tag[|tag| - 1];
    TrimEndKept(u);
  }

  lemma AppendTrimmedStart(line: string, tag: string)
    requires tag != [] && NoLeadingSpace(tag)
    ensures TrimStart(line + " " + tag) == if AllSpace(line) then tag else TrimStart(line) + " " + tag
  {
    assert line + " " + tag == line + (" " + tag);
    TrimStartAppend(line, " " + tag);
    if AllSpace(line) {
      TrimStartAppend(" ", tag);
      assert AllSpace(" ");
    }
  }

  lemma TrimEndKept(s: string)
    requires s != [] && !IsSpace(s[|s| - 1])
    ensures TrimEnd(s) == s
  {
  }

  /** Adding a tag twice adds it once. */
  lemma AddTagIdempotent(line: string, tag: string)
    requires NoLeadingSpace(tag) && NoTrailingSpace(tag)
    ensures AddTagToLine(AddTagToLine(line, tag), tag) == AddTagToLine(line, tag)
  {
    AddTagResult(line, tag);
    var r := AddTagToLine(line, tag);
    AddTagResult(r, tag);
    if !Contains(line, tag) {
      if AllSpace(line) {
        ContainsSelf(tag);
      } else {
        ContainsSuffix(TrimStart(line) + " ", tag);
      }
    }
  }

  /** The test is on substrings: "#in" is not added to a line holding "#in/wip". */
  lemma AddTagSubstringExample()
    ensures AddTagToLine("- [ ] a #in/wip", "#in") == "- [ ] a #in/wip"
  {
    assert OccursAt("- [ ] a #in/wip", "#in", 8);
  }

  // ---------------------------------------------------------------------------
  // `removeTagFromLine`: `line.replace(re, ' ')` for the global pattern
  // `(^|\s)TAG(?![\w/])`, where `escapeTag` has made every character of the
  // tag literal, then `replace(/\s{2,}/g, ' ')` and `trimEnd()`.

  /** The lookahead `(?![\w/])` at `k`. */
  predicate NotFollowed(s: string, k: nat) {
    k >= |s| || !(IsWordChar(s[k]) || s[k] == '/')
  }

  /** A match of the pattern that begins at `p`, and where it ends. At 0 the
      `^` alternative is tried first, then (as at every other position) the
      `\s` alternative, where the whitespace is part of the match. */
  function RemovalMatchAt(s: string, tag: string, p: nat): (r: Option<nat>)
    requires p <= |s|
    ensures r.Some? ==> p <= r.value <= |s|
    ensures r.Some? ==> OccursAt(s, tag, r.value - |tag|) && NotFollowed(s, r.value)
    ensures r.Some? && r.value == p ==> p == 0 && tag == []
  {
    if p == 0 && OccursAt(s, tag, 0) && NotFollowed(s, |tag|) then Some(|tag|)
    else if p < |s| && IsSpace(s[p]) && OccursAt(s, tag, p + 1) && NotFollowed(s, p + 1 + |tag|) then
      Some(p + 1 + |tag|)
    else None
  }

  /** The global replacement from position `p`: each match becomes one space,
      every other character is copied. After an empty match (only possible
      for the empty tag, at 0) the search steps over one character. */
  function ReplaceMatches(s: string, tag: string, p: nat): string
    requires p <= |s|
    decreases |s| - p
  {
    match RemovalMatchAt(s, tag, p)
    case Some(e) =>
      if e > p then " " + ReplaceMatches(s, tag, e)
      else " " + (if p < |s| then [s[p]] + ReplaceMatches(s, tag, p + 1) else [])
    case None => if p < |s| then [s[p]] + ReplaceMatches(s, tag, p + 1) else []
  }

  /** `removeTagFromLine`: its output never has two whitespace characters in a
      row nor whitespace at the end. */
  function RemoveTagFromLine(line: string, tag: string): (r: string)
    ensures NoDoubleSpace(r) && NoTrailingSpace(r)
  {
    var c := CollapseSpaces(ReplaceMatches(line, tag, 0));
    CollapseNoDoubleSpace(ReplaceMatches(line, tag, 0));
    TrimEndKeepsNoDoubleSpace(c);
    TrimEnd(c)
  }

  /** Where the tag does not occur the replacement copies the text. */
  lemma {:induction false} ReplaceWithoutMatch(s: string, tag: string, p: nat)
    requires p <= |s|
    requires forall q :: p <= q <= |s| ==> RemovalMatchAt(s, tag, q).None?
    ensures ReplaceMatches(s, tag, p) == s[p..]
    decreases |s| - p
  {
    if p < |s| {
      ReplaceWithoutMatch(s, tag, p + 1);
      assert s[p..] == [s[p]] + s[p + 1..];
    }
  }

  /** Removing a tag that does not occur only normalises the whitespace. */
  lemma RemoveAbsentTag(line: string, tag: string)
    requires !Contains(line, tag)
    ensures RemoveTagFromLine(line, tag) == TrimEnd(CollapseSpaces(line))
  {
    forall q | 0 <= q <= |line| ensures RemovalMatchAt(line, tag, q).None? {
    }
    ReplaceWithoutMatch(line, tag, 0);
  }

  /** A match must be a whole tag: where every occurrence of the tag runs on
      into a longer tag, nothing is removed. */
  lemma RemoveOnlyWholeTags(line: string, tag: string)
    requires forall i :: OccursAt(line, tag, i) ==> !NotFollowed(line, i + |tag|)
    ensures RemoveTagFromLine(line, tag) == TrimEnd(CollapseSpaces(line))
  {
    forall q | 0 <= q <= |line| ensures RemovalMatchAt(line, tag, q).None? {
    }
    ReplaceWithoutMatch(line, tag, 0);
  }

  /** Removing "#in" leaves "#in/wip" and "#inbox" alone. */
  lemma RemoveKeepsLongerTags()
    ensures RemoveTagFromLine("a #in/wip #inbox", "#in") == "a #in/wip #inbox"
  {
    var s := "a #in/wip #inbox";
    LongerTagsOccurrences(s);
    RemoveOnlyWholeTags(s, "#in");
    SingleSpaced(s);
  }

  lemma LongerTagsOccurrences(s: string)
    requires s == "a #in/wip #inbox"
    ensures forall i :: OccursAt(s, "#in", i) ==> !NotFollowed(s, i + 3)
  {
    forall i | OccursAt(s, "#in", i) ensures !NotFollowed(s, i + 3) {
      assert s[i] == s[i..i + 3][0] == '#';
      assert i == 2 || i == 10;
    }
  }

  lemma SingleSpaced(s: string)
    requires s == "a #in/wip #inbox"
    ensures TrimEnd(CollapseSpaces(s)) == s
  {
    assert NoDoubleSpace(s) by {
      forall i | 0 <= i < |s| - 1 ensures !(IsSpace(s[i]) && IsSpace(s[i + 1])) {
        assert i == 1 || i == 9 || !IsSpace(s[i]);
      }
    }
    CollapseIdentity(s);
  }

  /** Adding a tag and removing it again gives the line back without its
      indentation and with its whitespace normalised, provided the tag was
      not in the line and is a single word. */
  lemma AddThenRemove(line: string, tag: string)
    requires !Contains(line, tag) && tag != []
    requires forall i :: 0 <= i < |tag| ==> !IsSpace(tag[i])
    ensures RemoveTagFromLine(AddTagToLine(line, tag), tag) ==
      TrimEnd(CollapseSpaces(TrimStart(line)))
  {
    AddTagResult(line, tag);
    if AllSpace(line) {
      RemoveFromBlank(line, tag);
    } else {
      RemoveFromText(line, tag);
    }
  }

  lemma RemoveFromBlank(line: string, tag: string)
    requires AllSpace(line) && tag != []
    ensures RemoveTagFromLine(tag, tag) == TrimEnd(CollapseSpaces(TrimStart(line)))
  {
    RemoveLoneTag(tag);
    assert TrimStart(line) == [];
  }

  lemma RemoveFromText(line: string, tag: string)
    requires !Contains(line, tag) && tag != []
    requires forall i :: 0 <= i < |tag| ==> !IsSpace(tag[i])
    ensures RemoveTagFromLine(TrimStart(line) + " " + tag, tag) == TrimEnd(CollapseSpaces(TrimStart(line)))
  {
    var l := TrimStart(line);
    OnlyFinalOccurrence(line, l, tag);
    RemoveAppendedTag(l, tag);
  }

  /** Removing the tag from a line that is just the tag leaves nothing. */
  lemma RemoveLoneTag(tag: string)
    requires tag != []
    ensures RemoveTagFromLine(tag, tag) == []
  {
    assert OccursAt(tag, tag, 0);
    assert RemovalMatchAt(tag, tag, 0) == Some(|tag|);
    assert ReplaceMatches(tag, tag, |tag|) == [];
    assert ReplaceMatches(tag, tag, 0) == " ";
    assert SpaceRunEnd(" ", 0) == 1;
  }

  /** Removing the tag from `l + " " + tag`, where that is its only
      occurrence, gives back `l` normalised. */
  lemma RemoveAppendedTag(l: string, tag: string)
    requires tag != []
    requires forall i :: OccursAt(l + " " + tag, tag, i) ==> i == |l| + 1
    ensures RemoveTagFromLine(l + " " + tag, tag) == TrimEnd(CollapseSpaces(l))
  {
    ReplaceAppended(l, tag);
    CollapseTrailingSpace(l);
  }

  lemma ReplaceAppended(l: string, tag: string)
    requires tag != []
    requires forall i :: OccursAt(l + " " + tag, tag, i) ==> i == |l| + 1
    ensures ReplaceMatches(l + " " + tag, tag, 0) == l + " "
  {
    var s := l + " " + tag;
    forall q | 0 <= q < |l| ensures RemovalMatchAt(s, tag, q).None? {
    }
    assert RemovalMatchAt(s, tag, |l|) == Some(|s|) by {
      assert s[|l|] == ' ';
      assert s[|l| + 1..] == tag;
    }
    assert ReplaceMatches(s, tag, |s|) == [];
    assert s[..|l|] == l;
    ReplacePrefixCopied(s, tag, l);
  }

  /** The indentation of a line collapses to one space: removing "#x" from
      "    - [ ] a #x" gives " - [ ] a". */
  lemma RemoveCollapsesIndent()
    ensures RemoveTagFromLine("    - [ ] a #x", "#x") == " - [ ] a"
  {
    var l := "    - [ ] a";
    IndentLacksTag(l);
    OnlyFinalOccurrence(l, l, "#x");
    assert l + " " + "#x" == "    - [ ] a #x";
    RemoveAppendedTag(l, "#x");
    IndentCollapsed(l);
  }

  lemma IndentLacksTag(l: string)
    requires l == "    - [ ] a"
    ensures !Contains(l, "#x")
  {
    forall i | 0 <= i <= |l| - 2 ensures !OccursAt(l, "#x", i) {
      assert l[i..i + 2][0] == l[i] != '#';
    }
  }

  lemma IndentCollapsed(l: string)
    requires l == "    - [ ] a"
    ensures TrimEnd(CollapseSpaces(l)) == " - [ ] a"
  {
    var rest := "- [ ] a";
    IndentRun(l);
    assert l[4..] == rest;
    BoxSingleSpaced(rest);
    CollapseIndented(l, rest);
    BoxAfterSpace();
  }

  lemma BoxAfterSpace()
    ensures " " + "- [ ] a" == " - [ ] a"
  {
  }

  lemma IndentRun(l: string)
    requires l == "    - [ ] a"
    ensures SpaceRunEnd(l, 0) == 4
  {
    assert !IsSpace(l[4]);
    assert SpaceRunEnd(l, 4) == 4;
    assert SpaceRunEnd(l, 2) == 4;
  }

  /** A leading run of two or more whitespace characters before a
      single-spaced rest becomes one space. */
  lemma CollapseIndented(s: string, rest: string)
    requires SpaceRunEnd(s, 0) >= 2 && s[SpaceRunEnd(s, 0)..] == rest
    requires NoDoubleSpace(rest) && rest != [] && !IsSpace(rest[|rest| - 1])
    ensures TrimEnd(CollapseSpaces(s)) == " " + rest
  {
    CollapseIdentity(rest);
    assert CollapseSpaces(s) == " " + rest;
    TrimEndKept(" " + rest);
  }

  lemma BoxSingleSpaced(rest: string)
    requires rest == "- [ ] a"
    ensures NoDoubleSpace(rest)
  {
    forall i | 0 <= i < |rest| - 1 ensures !(IsSpace(rest[i]) && IsSpace(rest[i + 1])) {
      assert i == 1 || i == 5 || i == 3 || !IsSpace(rest[i]);
    }
  }

  /** In `l + " " + tag`, with `l` a suffix of a line lacking the tag and the
      tag free of whitespace, the tag occurs only at the end. */
  lemma OnlyFinalOccurrence(line: string, l: string, tag: string)
    requires !Contains(line, tag) && tag != [] && |l| <= |line| && l == line[|line| - |l|..]
    requires forall i :: 0 <= i < |tag| ==> !IsSpace(tag[i])
    ensures forall i :: OccursAt(l + " " + tag, tag, i) ==> i == |l| + 1
  {
    var s := l + " " + tag;
    forall i | OccursAt(s, tag, i) ensures i == |l| + 1 {
      if i + |tag| <= |l| {
        assert s[i..i + |tag|] == l[i..i + |tag|];
        var o := |line| - |l|;
        assert line[o + i..o + i + |tag|] == l[i..i + |tag|];
        assert OccursAt(line, tag, o + i);
      } else if i <= |l| {
        CoversSpace(l, tag, i);
      }
    }
  }

  /** An occurrence that covers the space after `l` has a space in it. */
  lemma CoversSpace(l: string, tag: string, i: nat)
    requires OccursAt(l + " " + tag, tag, i) && i <= |l| < i + |tag|
    ensures tag[|l| - i] == ' '
  {
    var s := l + " " + tag;
    assert s[i..i + |tag|][|l| - i] == s[|l|];
  }

  /** The replacement copies the part before the only match, then writes a
      space for the match. */
  lemma {:induction false} ReplacePrefixCopied(s: string, tag: string, l: string)
    requires |l| < |s| && s[..|l|] == l
    requires forall q :: 0 <= q < |l| ==> RemovalMatchAt(s, tag, q).None?
    requires RemovalMatchAt(s, tag, |l|) == Some(|s|)
    requires ReplaceMatches(s, tag, |s|) == []
    ensures ReplaceMatches(s, tag, 0) == l + " "
  {
    var p := |l|;
    assert ReplaceMatches(s, tag, p) == " ";
    while p > 0
      invariant 0 <= p <= |l|
      invariant ReplaceMatches(s, tag, p) == l[p..] + " "
    {
      p := p - 1;
      assert l[p..] == [s[p]] + l[p + 1..];
    }
  }

  /** A trailing space added before the collapse disappears with `trimEnd`. */
  lemma {:induction false} CollapseTrailingSpace(l: string)
    ensures TrimEnd(CollapseSpaces(l + " ")) == TrimEnd(CollapseSpaces(l))
    decreases |l|
  {
    var s := l + " ";
    if l == [] {
      assert SpaceRunEnd(s, 0) == 1;
    } else if !IsSpace(l[0]) {
      assert s[1..] == l[1..] + " ";
      CollapseTrailingSpace(l[1..]);
      TrimEndCons(l[0], CollapseSpaces(l[1..] + " "));
      TrimEndCons(l[0], CollapseSpaces(l[1..]));
    } else {
      var j := SpaceRunEnd(l, 0);
      SpaceRunExtends(l, 0);
      if j == |l| {
        AllSpaceCollapse(s);
        AllSpaceCollapse(l);
      } else {
        assert SpaceRunEnd(s, 0) == j;
        assert s[j..] == l[j..] + " ";
        assert s[1..] == l[1..] + " ";
        if j >= 2 {
          CollapseTrailingSpace(l[j..]);
          TrimEndCons(' ', CollapseSpaces(l[j..] + " "));
          TrimEndCons(' ', CollapseSpaces(l[j..]));
        } else {
          CollapseTrailingSpace(l[1..]);
          TrimEndCons(l[0], CollapseSpaces(l[1..] + " "));
          TrimEndCons(l[0], CollapseSpaces(l[1..]));
        }
      }
    }
  }

  lemma SpaceRunExtends(l: string, i: nat)
    requires i <= |l|
    ensures SpaceRunEnd(l, i) < |l| ==> SpaceRunEnd(l + " ", i) == SpaceRunEnd(l, i)
    ensures SpaceRunEnd(l, i) == |l| ==> SpaceRunEnd(l + " ", i) == |l| + 1
    decreases |l| - i
  {
    if i < |l| && IsSpace(l[i]) {
      SpaceRunExtends(l, i + 1);
    }
  }

  /** An all-whitespace string trims to nothing however it is collapsed. */
  lemma AllSpaceCollapse(s: string)
    requires AllSpace(s)
    ensures TrimEnd(CollapseSpaces(s)) == []
    decreases |s|
  {
    if s != [] {
      var j := SpaceRunEnd(s, 0);
      var rest := if j >= 2 then s[j..] else s[1..];
      assert AllSpace(rest);
      AllSpaceCollapse(rest);
      var head: char := if j >= 2 then ' ' else s[0];
      TrimEndCons(head, CollapseSpaces(rest));
    }
  }

  /** `trimEnd` of a string with one more character in front. */
  lemma TrimEndCons(c: char, t: string)
    ensures TrimEnd([c] + t) == if IsSpace(c) && TrimEnd(t) == [] then [] else [c] + TrimEnd(t)
    decreases |t|
  {
    if t != [] && IsSpace(t[|t| - 1]) {
      assert ([c] + t)[..|t|] == [c] + t[..|t| - 1];
      TrimEndCons(c, t[..|t| - 1]);
    }
  }

  // ---------------------------------------------------------------------------
  // The file edits.

  /** The split lines with line `lineNumber` (1-based) replaced, or `None`
      when there is no such line. */
  function ReplacedLines(lines: seq<string>, lineNumber: int, newLine: string): Option<seq<string>> {
    if lineNumber <= 0 || lineNumber > |lines| then None
    else Some(lines[lineNumber - 1 := newLine])
  }

  /** What `replaceLineInFile` writes. */
  function LineReplaced(content: string, lineNumber: int, newLine: string): Option<string> {
    match ReplacedLines(SplitLines(content), lineNumber, newLine)
    case None => None
    case Some(ls) => Some(JoinLines(ls))
  }

  /** `replaceLineInFile` on the file's content: the split lines are an array
      whose one element is overwritten. */
  method ReplaceLineInFile(content: string, lineNumber: int, newLine: string)
    returns (written: Option<string>)
    ensures written == LineReplaced(content, lineNumber, newLine)
  {
    var ls := SplitLines(content);
    if lineNumber <= 0 || lineNumber > |ls| {
      return None;
    }
    var lines := new string[|ls|](i requires 0 <= i < |ls| => ls[i]);
    lines[lineNumber - 1] := newLine;
    assert lines[..] == ls[lineNumber - 1 := newLine];
    written := Some(JoinLines(lines[..]));
  }

  /** Lines the split gives back: `SplittableLines` holds of a file's lines
      unless a carriage return stands alone before a line break. */
  predicate Rereadable(content: string) {
    SplittableLines(SplitLines(content))
  }

  /** A line that can stand at position `k` of a file of `n` lines and be
      read back as it is. */
  predicate FitsAsLine(line: string, k: nat, n: nat) {
    '\n' !in line && (k < n - 1 ==> DropCR(line) == line)
  }

  lemma UpdateSplittable(lines: seq<string>, k: nat, line: string)
    requires SplittableLines(lines) && k < |lines| && FitsAsLine(line, k, |lines|)
    ensures SplittableLines(lines[k := line])
  {
  }

  /** `replaceLineInFile` writes exactly when the line exists, and reading
      the written file back gives the same number of lines, all unchanged
      except line `lineNumber`, which is the new line. */
  lemma ReplaceLineReread(content: string, lineNumber: int, newLine: string)
    requires Rereadable(content)
    requires 1 <= lineNumber <= |SplitLines(content)| ==>
      FitsAsLine(newLine, lineNumber - 1, |SplitLines(content)|)
    ensures var lines := SplitLines(content);
      var w := LineReplaced(content, lineNumber, newLine);
      (w.Some? <==> 1 <= lineNumber <= |lines|) &&
      (w.Some? ==>
        var back := SplitLines(w.value);
        |back| == |lines| && back[lineNumber - 1] == newLine &&
        forall j :: 0 <= j < |lines| && j != lineNumber - 1 ==> back[j] == lines[j])
  {
    var lines := SplitLines(content);
    if 1 <= lineNumber <= |lines| {
      UpdateSplittable(lines, lineNumber - 1, newLine);
      SplitJoin(lines[lineNumber - 1 := newLine]);
    }
  }

  /** `lines.splice(lineNumber - 1, 1, ...newText.split(/\r?\n/))`, or `None`
      when there is no such line. */
  function SplicedLines(lines: seq<string>, lineNumber: int, newText: string): Option<seq<string>> {
    if lineNumber <= 0 || lineNumber > |lines| then None
    else Some(lines[..lineNumber - 1] + SplitLines(newText) + lines[lineNumber..])
  }

  /** What `replaceLineWithText` writes. */
  function LineSpliced(content: string, lineNumber: int, newText: string): Option<string> {
    match SplicedLines(SplitLines(content), lineNumber, newText)
    case None => None
    case Some(ls) => Some(JoinLines(ls))
  }

  /** `replaceLineWithText` on the file's content: the array of lines has
      its one element at `lineNumber - 1` spliced out for the new lines. */
  method ReplaceLineWithText(content: string, lineNumber: int, newText: string)
    returns (written: Option<string>)
    ensures written == LineSpliced(content, lineNumber, newText)
  {
    var lines := SplitLines(content);
    if lineNumber <= 0 || lineNumber > |lines| {
      return None;
    }
    var newLines := SplitLines(newText);
    lines := lines[..lineNumber - 1] + newLines + lines[lineNumber..];
    written := Some(JoinLines(lines));
  }

  /** The splice keeps the lines before and after in order around the lines
      of the new text: a file of n lines gets n - 1 + k lines for k new ones. */
  lemma SplicedLinesShape(lines: seq<string>, lineNumber: int, newText: string)
    requires 1 <= lineNumber <= |lines|
    ensures var r := SplicedLines(lines, lineNumber, newText).value;
      var nl := SplitLines(newText);
      var k := lineNumber - 1;
      |r| == |lines| - 1 + |nl| &&
      r[..k] == lines[..k] && r[k..k + |nl|] == nl && r[k + |nl|..] == lines[k + 1..]
  {
    var r := SplicedLines(lines, lineNumber, newText).value;
    var nl := SplitLines(newText);
    var k := lineNumber - 1;
    assert r == lines[..k] + nl + lines[k + 1..];
    assert (lines[..k] + nl + lines[k + 1..])[..k] == lines[..k];
    assert (lines[..k] + nl + lines[k + 1..])[k..k + |nl|] == nl;
    assert (lines[..k] + nl + lines[k + 1..])[k + |nl|..] == lines[k + 1..];
  }

  /** Splicing in a text of one line replaces that line. */
  lemma SpliceOneLine(content: string, lineNumber: int, newText: string)
    requires '\n' !in newText
    ensures LineSpliced(content, lineNumber, newText) == LineReplaced(content, lineNumber, newText)
  {
    var lines := SplitLines(content);
    assert NextNewline(newText, 0) == |newText|;
    assert SplitLines(newText) == [newText];
    if 1 <= lineNumber <= |lines| {
      var k := lineNumber - 1;
      assert lines[..k] + [newText] + lines[k + 1..] == lines[k := newText];
    }
  }

  // ---------------------------------------------------------------------------
  // `wrapLineWithDel`.

  /** Start of the whitespace run that ends at `j`. */
  function SpaceRunStart(s: string, j: nat): (i: nat)
    requires j <= |s|
    ensures i <= j
    ensures forall k :: i <= k < j ==> IsSpace(s[k])
    ensures i == 0 || !IsSpace(s[i - 1])
  {
    if j > 0 && IsSpace(s[j - 1]) then SpaceRunStart(s, j - 1) else j
  }

  /** The test `/^\s*<del>.*<\/del>\s*$/`. The '<' of "<del>" and the '>' of
      "</del>" are no whitespace, so the `\s*` runs are the whole leading and
      trailing whitespace; `.` takes anything but a line terminator. */
  predicate IsWrapped(line: string) {
    var i := SpaceRunEnd(line, 0);
    var j := SpaceRunStart(line, |line|);
    i + 11 <= j && line[i..i + 5] == "<del>" && line[j - 6..j] == "</del>" &&
    NoLineTerminator(line[i + 5..j - 6])
  }

  /** The pattern read with backtracking: some split of the line into
      whitespace, "<del>", text without line terminators, "</del>" and
      whitespace. */
  ghost predicate WrappedShape(line: string) {
    exists a, b :: 0 <= a && a + 11 <= b <= |line| && AllSpace(line[..a]) &&
      line[a..a + 5] == "<del>" && line[b - 6..b] == "</del>" && AllSpace(line[b..]) &&
      NoLineTerminator(line[a + 5..b - 6])
  }

  /** The deterministic test agrees with the pattern. */
  lemma IsWrappedIff(line: string)
    ensures IsWrapped(line) <==> WrappedShape(line)
  {
    if IsWrapped(line) {
      WrappedHasShape(line);
    }
    if WrappedShape(line) {
      var a, b :| 0 <= a && a + 11 <= b <= |line| && AllSpace(line[..a]) &&
        line[a..a + 5] == "<del>" && line[b - 6..b] == "</del>" && AllSpace(line[b..]) &&
        NoLineTerminator(line[a + 5..b - 6]);
      ShapeIsWrapped(line, a, b);
    }
  }

  lemma WrappedHasShape(line: string)
    requires IsWrapped(line)
    ensures WrappedShape(line)
  {
    var i := SpaceRunEnd(line, 0);
    var j := SpaceRunStart(line, |line|);
    assert AllSpace(line[..i]);
    assert AllSpace(line[j..]);
  }

  lemma ShapeIsWrapped(line: string, a: nat, b: nat)
    requires a + 11 <= b <= |line| && AllSpace(line[..a]) &&
      line[a..a + 5] == "<del>" && line[b - 6..b] == "</del>" && AllSpace(line[b..]) &&
      NoLineTerminator(line[a + 5..b - 6])
    ensures IsWrapped(line)
  {
    assert line[a] == line[a..a + 5][0] == '<';
    assert line[b - 1] == line[b - 6..b][5] == '>';
    forall k | 0 <= k < a ensures IsSpace(line[k]) { assert line[k] == line[..a][k]; }
    forall k | b <= k < |line| ensures IsSpace(line[k]) { assert line[k] == line[b..][k - b]; }
    LeadingRun(line, a);
    TrailingRun(line, b, |line|);
  }

  lemma LeadingRun(s: string, a: nat)
    requires a < |s| && !IsSpace(s[a]) && forall k :: 0 <= k < a ==> IsSpace(s[k])
    ensures SpaceRunEnd(s, 0) == a
  {
  }

  lemma TrailingRun(s: string, b: nat, n: nat)
    requires 0 < b <= n == |s| && !IsSpace(s[b - 1]) && forall k :: b <= k < n ==> IsSpace(s[k])
    ensures SpaceRunStart(s, n) == b
  {
  }

  function WrapInDel(line: string): string {
    "<del>" + line + "</del>"
  }

  /** A wrapped line without line terminators passes the test. */
  lemma WrapIsWrapped(line: string)
    requires NoLineTerminator(line)
    ensures IsWrapped(WrapInDel(line))
  {
    var w := WrapInDel(line);
    assert w[..0] == [] && w[|w|..] == [];
    assert w[0..5] == "<del>" && w[|w| - 6..|w|] == "</del>" && w[5..|w| - 6] == line;
    IsWrappedIff(w);
  }

  /** What `wrapLineWithDel` writes: nothing when the line is missing or
      already wrapped. */
  function LineWrapped(content: string, lineNumber: int): Option<string> {
    var lines := SplitLines(content);
    if lineNumber <= 0 || lineNumber > |lines| then None
    else if IsWrapped(lines[lineNumber - 1]) then None
    else Some(JoinLines(lines[lineNumber - 1 := WrapInDel(lines[lineNumber - 1])]))
  }

  /** `wrapLineWithDel` on the file's content, overwriting one element of the
      array of lines. */
  method WrapLineWithDel(content: string, lineNumber: int) returns (written: Option<string>)
    ensures written == LineWrapped(content, lineNumber)
  {
    var ls := SplitLines(content);
    if lineNumber <= 0 || lineNumber > |ls| {
      return None;
    }
    var lines := new string[|ls|](i requires 0 <= i < |ls| => ls[i]);
    var current := lines[lineNumber - 1];
    if IsWrapped(current) {
      return None;
    }
    lines[lineNumber - 1] := WrapInDel(current);
    assert lines[..] == ls[lineNumber - 1 := WrapInDel(ls[lineNumber - 1])];
    written := Some(JoinLines(lines[..]));
  }

  /** Wrapping is idempotent: on the file it wrote, a second call on the same
      line writes nothing. The line must not hold a line terminator that `.`
      would refuse. */
  lemma WrapIdempotent(content: string, lineNumber: int)
    requires Rereadable(content)
    requires 1 <= lineNumber <= |SplitLines(content)| ==>
      NoLineTerminator(SplitLines(content)[lineNumber - 1])
    ensures var w := LineWrapped(content, lineNumber);
      w.Some? ==> LineWrapped(w.value, lineNumber).None?
  {
    var lines := SplitLines(content);
    if 1 <= lineNumber <= |lines| && !IsWrapped(lines[lineNumber - 1]) {
      var k := lineNumber - 1;
      var wl := WrapInDel(lines[k]);
      assert wl[|wl| - 1] == '>';
      assert '\n' !in wl by {
        assert wl == "<del>" + lines[k] + "</del>";
        assert NoLineTerminator(lines[k]);
      }
      UpdateSplittable(lines, k, wl);
      SplitJoin(lines[k := wl]);
      WrapIsWrapped(lines[k]);
    }
  }
}

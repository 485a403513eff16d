/**
 * Character classes and string operations of the JavaScript runtime that the
 * plugin relies on: the regular-expression classes `\s`, `\w` and `\d`,
 * `trim`/`trimEnd`, the ubiquitous `replace(/\s{2,}/g, ' ')`, the
 * `split(/\r?\n/)` / `join('\n')` pair, `includes`, decimal formatting of a
 * line number, and the relational string operators.
 * Strings are sequences of Unicode scalar values.
 */
module Text {

  /** JavaScript `\s` (WhiteSpace and LineTerminator); `trim` removes the same set. */
  predicate IsSpace(c: char) {
    c == '\t' || c == '\n' || c == '\U{000B}' || c == '\U{000C}' || c == '\r' || c == ' ' ||
    c == '\U{00A0}' || c == '\U{1680}' || ('\U{2000}' <= c <= '\U{200A}') ||
    c == '\U{2028}' || c == '\U{2029}' || c == '\U{202F}' || c == '\U{205F}' ||
    c == '\U{3000}' || c == '\U{FEFF}'
  }

  /** JavaScript LineTerminator: the characters that `.` does not match. */
  predicate IsLineTerminator(c: char) {
    c == '\n' || c == '\r' || c == '\U{2028}' || c == '\U{2029}'
  }

  /** JavaScript `\d`. */
  predicate IsDigit(c: char) {
    '0' <= c <= '9'
  }

  /** JavaScript `[A-Za-z]`. */
  predicate IsAsciiLetter(c: char) {
    ('A' <= c <= 'Z') || ('a' <= c <= 'z')
  }

  /** JavaScript `\w` (without the `u` flag it is ASCII only). */
  predicate IsWordChar(c: char) {
    IsAsciiLetter(c) || IsDigit(c) || c == '_'
  }

  /** The class `[\w\/-]` used for tag bodies. */
  predicate IsTagChar(c: char) {
    IsWordChar(c) || c == '/' || c == '-'
  }

  predicate AllSpace(s: string) {
    forall i :: 0 <= i < |s| ==> IsSpace(s[i])
  }

  /** A string is all whitespace when its head is and its tail is. */
  lemma AllSpaceCons(s: string)
    requires s != []
    ensures AllSpace(s) <==> IsSpace(s[0]) && AllSpace(s[1..])
  {
    if IsSpace(s[0]) && AllSpace(s[1..]) {
      forall i | 0 <= i < |s| ensures IsSpace(s[i]) {
        if i == 0 {
          assert IsSpace(s[0]);
        } else {
          assert s[i] == s[1..][i - 1];
        }
      }
    }
  }

  predicate NoLineTerminator(s: string) {
    forall i :: 0 <= i < |s| ==> !IsLineTerminator(s[i])
  }

  /** No two adjacent characters are both whitespace. */
  predicate NoDoubleSpace(s: string) {
    forall i :: 0 <= i < |s| - 1 ==> !(IsSpace(s[i]) && IsSpace(s[i + 1]))
  }

  predicate NoTrailingSpace(s: string) {
    s == [] || !IsSpace(s[|s| - 1])
  }

  predicate NoLeadingSpace(s: string) {
    s == [] || !IsSpace(s[0])
  }

  // ---------------------------------------------------------------------------
  // Case mapping of ASCII letters.

  function UpperChar(c: char): char {
    if 'a' <= c <= 'z' then (c as int - 32) as char else c
  }

  function LowerChar(c: char): char {
    if 'A' <= c <= 'Z' then (c as int + 32) as char else c
  }

  function Upper(s: string): (r: string)
    ensures |r| == |s|
    ensures forall i :: 0 <= i < |s| ==> r[i] == UpperChar(s[i])
  {
    if s == [] then [] else [UpperChar(s[0])] + Upper(s[1..])
  }

  function Lower(s: string): (r: string)
    ensures |r| == |s|
    ensures forall i :: 0 <= i < |s| ==> r[i] == LowerChar(s[i])
  {
    if s == [] then [] else [LowerChar(s[0])] + Lower(s[1..])
  }

  /** Upper-casing then lower-casing an ASCII word loses nothing but the case. */
  lemma LowerOfUpper(s: string)
    ensures Lower(Upper(s)) == Lower(s)
  {
    assert forall i :: 0 <= i < |s| ==> LowerChar(UpperChar(s[i])) == LowerChar(s[i]);
  }

  // ---------------------------------------------------------------------------
  // Trimming.

  function TrimStart(s: string): (r: string)
    ensures |r| <= |s| && r == s[|s| - |r|..]
    ensures NoLeadingSpace(r)
    ensures AllSpace(s[..|s| - |r|])
  {
    if s != [] && IsSpace(s[0]) then
      var t := s[1..];
      var r := TrimStart(t);
      assert forall i :: 1 <= i < |s| - |r| ==> s[i] == t[..|t| - |r|][i - 1];
      r
    else s
  }

  function TrimEnd(s: string): (r: string)
    ensures |r| <= |s| && r == s[..|r|]
    ensures NoTrailingSpace(r)
    ensures AllSpace(s[|r|..])
  {
    if s != [] && IsSpace(s[|s| - 1]) then
      var t := s[..|s| - 1];
      var r := TrimEnd(t);
      assert s[..|r|] == t[..|r|];
      assert forall k :: |r| <= k < |s| ==> s[k] == (t[|r|..] + [s[|s| - 1]])[k - |r|];
      r
    else s
  }

  /** `String.prototype.trim`. */
  function Trim(s: string): string {
    TrimEnd(TrimStart(s))
  }

  lemma TrimmedIsTrimmed(s: string)
    ensures NoLeadingSpace(Trim(s)) && NoTrailingSpace(Trim(s))
  {
    var t := TrimStart(s);
    var r := TrimEnd(t);
    if r != [] {
      assert r[0] == t[0];
    }
  }

  /** `trim` yields the empty string exactly on all-whitespace input. */
  lemma TrimEmptyIff(s: string)
    ensures Trim(s) == [] <==> AllSpace(s)
  {
    var t := TrimStart(s);
    assert s == s[..|s| - |t|] + t;
  }

  /** A string that neither starts nor ends with whitespace is its own trim. */
  lemma TrimOfTrimmed(s: string)
    requires NoLeadingSpace(s) && NoTrailingSpace(s)
    ensures Trim(s) == s
  {
  }

  lemma NoDoubleSpaceSlice(s: string, i: nat, j: nat)
    requires NoDoubleSpace(s) && i <= j <= |s|
    ensures NoDoubleSpace(s[i..j])
  {
    var t := s[i..j];
    forall k | 0 <= k < |t| - 1 ensures !(IsSpace(t[k]) && IsSpace(t[k + 1])) {
      assert t[k] == s[i + k] && t[k + 1] == s[i + k + 1];
    }
  }

  lemma TrimKeepsNoDoubleSpace(s: string)
    requires NoDoubleSpace(s)
    ensures NoDoubleSpace(Trim(s))
  {
    var t := TrimStart(s);
    NoDoubleSpaceSlice(s, |s| - |t|, |s|);
    NoDoubleSpaceSlice(t, 0, |TrimEnd(t)|);
  }

  lemma TrimEndKeepsNoDoubleSpace(s: string)
    requires NoDoubleSpace(s)
    ensures NoDoubleSpace(TrimEnd(s))
  {
    NoDoubleSpaceSlice(s, 0, |TrimEnd(s)|);
  }

  // ---------------------------------------------------------------------------
  // `replace(/\s{2,}/g, ' ')`: every run of two or more whitespace characters
  // becomes one space; a single whitespace character is kept as it is.

  /** End of the maximal whitespace run starting at `i`. */
  function SpaceRunEnd(s: string, i: nat): (j: nat)
    requires i <= |s|
    ensures i <= j <= |s|
    ensures forall k :: i <= k < j ==> IsSpace(s[k])
    ensures j == |s| || !IsSpace(s[j])
    decreases |s| - i
  {
    if i < |s| && IsSpace(s[i]) then SpaceRunEnd(s, i + 1) else i
  }

  /** End of the maximal run of tag characters `[\w\/-]` starting at `j`. */
  function TagRunEnd(s: string, j: nat): (k: nat)
    requires j <= |s|
    ensures j <= k <= |s|
    ensures forall m :: j <= m < k ==> IsTagChar(s[m])
    ensures k == |s| || !IsTagChar(s[k])
    decreases |s| - j
  {
    if j < |s| && IsTagChar(s[j]) then TagRunEnd(s, j + 1) else j
  }

  function CollapseSpaces(s: string): (r: string)
    ensures |r| <= |s|
    ensures NoLeadingSpace(s) ==> NoLeadingSpace(r)
    ensures s != [] && !IsSpace(s[0]) ==> r != [] && r[0] == s[0]
    ensures s != [] && IsSpace(s[0]) ==> r != [] && IsSpace(r[0])
    decreases |s|
  {
    if s == [] then []
    else if IsSpace(s[0]) then
      var j := SpaceRunEnd(s, 0);
      if j >= 2 then " " + CollapseSpaces(s[j..]) else [s[0]] + CollapseSpaces(s[1..])
    else [s[0]] + CollapseSpaces(s[1..])
  }

  /** After collapsing, no two whitespace characters are adjacent. */
  lemma {:induction false} CollapseNoDoubleSpace(s: string)
    ensures NoDoubleSpace(CollapseSpaces(s))
    decreases |s|
  {
    if s == [] {
    } else if IsSpace(s[0]) {
      var j := SpaceRunEnd(s, 0);
      var rest := if j >= 2 then s[j..] else s[1..];
      CollapseNoDoubleSpace(rest);
      var tail := CollapseSpaces(rest);
      var head: char := if j >= 2 then ' ' else s[0];
      assert CollapseSpaces(s) == [head] + tail;
      if j >= 2 {
        assert rest == [] || !IsSpace(rest[0]) by { if rest != [] { assert rest[0] == s[j]; } }
      } else {
        assert j == 1;
        assert rest == [] || !IsSpace(rest[0]) by { if rest != [] { assert rest[0] == s[1]; } }
      }
      assert tail == [] || !IsSpace(tail[0]);
      ConsNoDoubleSpace(head, tail);
    } else {
      CollapseNoDoubleSpace(s[1..]);
      ConsNoDoubleSpace(s[0], CollapseSpaces(s[1..]));
    }
  }

  lemma ConsNoDoubleSpace(c: char, t: string)
    requires NoDoubleSpace(t)
    requires !IsSpace(c) || t == [] || !IsSpace(t[0])
    ensures NoDoubleSpace([c] + t)
  {
    var r := [c] + t;
    forall i | 0 <= i < |r| - 1 ensures !(IsSpace(r[i]) && IsSpace(r[i + 1])) {
      if i > 0 { assert r[i] == t[i - 1] && r[i + 1] == t[i]; }
    }
  }

  /** A string without whitespace runs is left as it is by the collapse. */
  lemma {:induction false} CollapseIdentity(s: string)
    requires NoDoubleSpace(s)
    ensures CollapseSpaces(s) == s
    decreases |s|
  {
    if s != [] {
      NoDoubleSpaceSlice(s, 1, |s|);
      CollapseIdentity(s[1..]);
      if IsSpace(s[0]) {
        assert |s| == 1 || !IsSpace(s[1]);
        assert SpaceRunEnd(s, 1) == 1;
      }
    }
  }

  /** A whitespace run that starts inside `a` and ends before `a` does ends
      at the same place in `a + b`. */
  lemma {:induction false} SpaceRunPrefix(a: string, b: string, i: nat)
    requires i < |a| && !IsSpace(a[|a| - 1])
    ensures SpaceRunEnd(a + b, i) == SpaceRunEnd(a, i) < |a|
    decreases |a| - i
  {
    assert (a + b)[i] == a[i];
    if IsSpace(a[i]) {
      SpaceRunPrefix(a, b, i + 1);
    }
  }

  /** A run of whitespace never spans the end of a string that ends with a
      non-space character, so the collapse works on each part alone. */
  lemma {:induction false} CollapseAppend(a: string, b: string)
    requires a == [] || !IsSpace(a[|a| - 1])
    ensures CollapseSpaces(a + b) == CollapseSpaces(a) + CollapseSpaces(b)
    decreases |a|, 1
  {
    if a == [] {
      assert a + b == b;
    } else if IsSpace(a[0]) {
      CollapseAppendRun(a, b);
    } else {
      CollapseAppendChar(a, b);
    }
  }

  lemma {:induction false} CollapseAppendChar(a: string, b: string)
    requires a != [] && !IsSpace(a[0]) && !IsSpace(a[|a| - 1])
    ensures CollapseSpaces(a + b) == CollapseSpaces(a) + CollapseSpaces(b)
    decreases |a|, 0
  {
    var t := a[1..];
    assert a == [a[0]] + t && a + b == [a[0]] + (t + b);
    CollapseCons(a[0], t + b);
    CollapseCons(a[0], t);
    CollapseAppend(t, b);
    AppendAssoc([a[0]], CollapseSpaces(t), CollapseSpaces(b));
  }

  lemma {:induction false} CollapseAppendRun(a: string, b: string)
    requires a != [] && IsSpace(a[0]) && !IsSpace(a[|a| - 1])
    ensures CollapseSpaces(a + b) == CollapseSpaces(a) + CollapseSpaces(b)
    decreases |a|, 0
  {
    SpaceRunPrefix(a, b, 0);
    var j := SpaceRunEnd(a, 0);
    var k := if j >= 2 then j else 1;
    CollapseRun(a + b);
    CollapseRun(a);
    assert (a + b)[0] == a[0];
    assert (a + b)[k..] == a[k..] + b;
    CollapseAppend(a[k..], b);
    var head: string := if j >= 2 then " " else [a[0]];
    AppendAssoc(head, CollapseSpaces(a[k..]), CollapseSpaces(b));
  }

  lemma SliceCons(s: string, p: nat, m: nat)
    requires p < m <= |s|
    ensures s[p..m] == [s[p]] + s[p + 1..m]
  {
  }

  lemma AppendAssoc(x: string, y: string, z: string)
    ensures x + (y + z) == (x + y) + z
  {
  }

  /** The collapse, one non-space character unfolded. */
  lemma CollapseCons(c: char, u: string)
    requires !IsSpace(c)
    ensures CollapseSpaces([c] + u) == [c] + CollapseSpaces(u)
  {
    assert ([c] + u)[1..] == u;
  }

  /** The collapse, one leading run of whitespace unfolded. */
  lemma CollapseRun(s: string)
    requires s != [] && IsSpace(s[0])
    ensures var j := SpaceRunEnd(s, 0);
      CollapseSpaces(s) ==
        if j >= 2 then " " + CollapseSpaces(s[j..]) else [s[0]] + CollapseSpaces(s[1..])
  {
  }

  /** A string already normalised is left as it is. */
  lemma SquishIdentity(s: string)
    requires NoDoubleSpace(s) && NoLeadingSpace(s) && NoTrailingSpace(s)
    ensures Squish(s) == s
  {
    CollapseIdentity(s);
    TrimOfTrimmed(s);
  }

  lemma NoDoubleSpaceJoin(a: string, b: string)
    requires NoDoubleSpace(a) && NoDoubleSpace(b)
    requires a == [] || b == [] || !IsSpace(a[|a| - 1]) || !IsSpace(b[0])
    ensures NoDoubleSpace(a + b)
  {
    var s := a + b;
    forall i | 0 <= i < |s| - 1 ensures !(IsSpace(s[i]) && IsSpace(s[i + 1])) {
      if i + 1 < |a| {
        assert s[i] == a[i] && s[i + 1] == a[i + 1];
      } else if i >= |a| {
        assert s[i] == b[i - |a|] && s[i + 1] == b[i + 1 - |a|];
      }
    }
  }

  /** A doubled space between two normalised pieces is squished to one. */
  lemma SquishDoubleSpace(a: string, d: string)
    requires a != [] && NoDoubleSpace(a) && !IsSpace(a[0]) && !IsSpace(a[|a| - 1])
    requires d != [] && NoDoubleSpace(d) && !IsSpace(d[0]) && !IsSpace(d[|d| - 1])
    ensures Squish(a + "  " + d) == a + " " + d
  {
    var t := "  " + d;
    AppendAssoc(a, "  ", d);
    CollapseAppend(a, t);
    CollapseIdentity(a);
    assert t[0] == ' ' && t[1] == ' ' && t[2] == d[0];
    assert SpaceRunEnd(t, 0) == 2;
    CollapseRun(t);
    assert t[2..] == d;
    CollapseIdentity(d);
    AppendAssoc(a, " ", d);
    var r := a + " " + d;
    assert r[0] == a[0] && r[|r| - 1] == d[|d| - 1];
    TrimOfTrimmed(r);
  }

  /** The normalisation `replace(/\s{2,}/g, ' ').trim()` used throughout. */
  function Squish(s: string): (r: string)
    ensures NoDoubleSpace(r) && NoLeadingSpace(r) && NoTrailingSpace(r)
  {
    CollapseNoDoubleSpace(s);
    TrimKeepsNoDoubleSpace(CollapseSpaces(s));
    TrimmedIsTrimmed(CollapseSpaces(s));
    Trim(CollapseSpaces(s))
  }

  // ---------------------------------------------------------------------------
  // Substrings.

  predicate OccursAt(s: string, pat: string, i: int) {
    0 <= i && i + |pat| <= |s| && s[i..i + |pat|] == pat
  }

  /** `String.prototype.includes`. */
  predicate Contains(s: string, pat: string) {
    exists i :: 0 <= i <= |s| - |pat| && OccursAt(s, pat, i)
  }

  lemma ContainsSuffix(a: string, b: string)
    ensures Contains(a + b, b)
  {
    assert OccursAt(a + b, b, |a|) by { assert (a + b)[|a|..] == b; }
  }

  lemma ContainsSelf(s: string)
    ensures Contains(s, s)
  {
    assert OccursAt(s, s, 0);
  }

  // ---------------------------------------------------------------------------
  // `content.split(/\r?\n/)` and `lines.join('\n')`.

  /** Index of the first '\n' at or after `i`, or `|s|`. */
  function NextNewline(s: string, i: nat): (k: nat)
    requires i <= |s|
    ensures i <= k <= |s|
    ensures forall j :: i <= j < k ==> s[j] != '\n'
    ensures k < |s| ==> s[k] == '\n'
    decreases |s| - i
  {
    if i == |s| || s[i] == '\n' then i else NextNewline(s, i + 1)
  }

  /** A piece before a '\n' loses the '\r' of a "\r\n" separator. */
  function DropCR(x: string): string {
    if x != [] && x[|x| - 1] == '\r' then x[..|x| - 1] else x
  }

  function SplitLines(s: string): (lines: seq<string>)
    ensures |lines| >= 1
    ensures forall k :: 0 <= k < |lines| ==> '\n' !in lines[k]
    decreases |s|
  {
    var k := NextNewline(s, 0);
    if k == |s| then [s]
    else
      assert '\n' !in s[..k] by {
        forall j | 0 <= j < k ensures s[..k][j] != '\n' { }
      }
      [DropCR(s[..k])] + SplitLines(s[k + 1..])
  }

  function JoinLines(lines: seq<string>): string
    decreases |lines|
  {
    if lines == [] then ""
    else if |lines| == 1 then lines[0]
    else lines[0] + "\n" + JoinLines(lines[1..])
  }

  /** Lines that the split can give back unchanged: no '\n' anywhere and no '\r'
      that the join would turn into the start of a "\r\n" separator. */
  predicate SplittableLines(lines: seq<string>) {
    (forall k :: 0 <= k < |lines| ==> '\n' !in lines[k]) &&
    (forall k :: 0 <= k < |lines| - 1 ==> lines[k] == DropCR(lines[k]))
  }

  lemma {:induction false} SplitJoin(lines: seq<string>)
    requires |lines| >= 1 && SplittableLines(lines)
    ensures SplitLines(JoinLines(lines)) == lines
    decreases |lines|
  {
    var a := lines[0];
    assert forall j :: 0 <= j < |a| ==> a[j] != '\n' by {
      forall j | 0 <= j < |a| ensures a[j] != '\n' { assert a[j] in lines[0]; }
    }
    if |lines| == 1 {
      assert NextNewline(a, 0) == |a| by { NextNewlineNone(a, 0); }
    } else {
      var rest := JoinLines(lines[1..]);
      var s := a + "\n" + rest;
      NextNewlineAfter(a, rest);
      assert s[..|a|] == a;
      assert s[|a| + 1..] == rest;
      SplitJoin(lines[1..]);
      assert SplitLines(s) == [DropCR(a)] + SplitLines(rest);
    }
  }

  lemma {:induction false} NextNewlineNone(s: string, i: nat)
    requires i <= |s|
    requires forall j :: i <= j < |s| ==> s[j] != '\n'
    ensures NextNewline(s, i) == |s|
    decreases |s| - i
  {
    if i < |s| { NextNewlineNone(s, i + 1); }
  }

  lemma NextNewlineAfter(a: string, rest: string)
    requires forall j :: 0 <= j < |a| ==> a[j] != '\n'
    ensures NextNewline(a + "\n" + rest, 0) == |a|
  {
    var s := a + "\n" + rest;
    NextNewlineFrom(s, 0, |a|);
  }

  lemma {:induction false} NextNewlineFrom(s: string, i: nat, k: nat)
    requires i <= k < |s| && s[k] == '\n'
    requires forall j :: i <= j < k ==> s[j] != '\n'
    ensures NextNewline(s, i) == k
    decreases k - i
  {
    if i < k { NextNewlineFrom(s, i + 1, k); }
  }

  lemma SplitAround(s: string, k: nat)
    requires k < |s|
    ensures s == s[..k] + [s[k]] + s[k + 1..]
  {
  }

  /** Without carriage returns, joining the split pieces gives the text back. */
  lemma {:induction false} JoinSplit(s: string)
    requires '\r' !in s
    ensures JoinLines(SplitLines(s)) == s
    decreases |s|
  {
    var k := NextNewline(s, 0);
    if k < |s| {
      var rest := s[k + 1..];
      assert '\r' !in rest by {
        forall j | 0 <= j < |rest| ensures rest[j] != '\r' { assert rest[j] == s[k + 1 + j]; }
      }
      JoinSplit(rest);
      assert s[..k] == [] || s[..k][k - 1] != '\r' by {
        if k > 0 { assert s[..k][k - 1] == s[k - 1]; }
      }
      assert DropCR(s[..k]) == s[..k];
      SplitAround(s, k);
    }
  }

  // ---------------------------------------------------------------------------
  // Decimal formatting of a number (template literal `${n}`).

  function DigitChar(d: nat): char
    requires d < 10
  {
    ('0' as int + d) as char
  }

  function NatToString(n: nat): (r: string)
    ensures |r| >= 1
    ensures forall i :: 0 <= i < |r| ==> IsDigit(r[i])
    decreases n
  {
    if n < 10 then [DigitChar(n)] else NatToString(n / 10) + [DigitChar(n % 10)]
  }

  /** Value of a string of decimal digits (`Number` applied to it). */
  function DecimalValue(s: string): nat
    requires forall i :: 0 <= i < |s| ==> IsDigit(s[i])
    decreases |s|
  {
    if s == [] then 0
    else
      assert IsDigit(s[|s| - 1]);
      DecimalValue(s[..|s| - 1]) * 10 + (s[|s| - 1] as int - '0' as int)
  }

  /** Printing then reading back a number gives the number. */
  lemma {:induction false} DecimalOfNatToString(n: nat)
    ensures DecimalValue(NatToString(n)) == n
    decreases n
  {
    if n >= 10 {
      DecimalOfNatToString(n / 10);
      var r := NatToString(n);
      assert r[..|r| - 1] == NatToString(n / 10);
    }
  }

  lemma NatToStringInjective(m: nat, n: nat)
    requires NatToString(m) == NatToString(n)
    ensures m == n
  {
    DecimalOfNatToString(m);
    DecimalOfNatToString(n);
  }

  // ---------------------------------------------------------------------------
  // The relational operators on strings compare character by character.

  /** `a < b` on strings. */
  predicate StrLess(a: string, b: string)
    decreases |a|
  {
    if a == [] then b != []
    else if b == [] then false
    else if a[0] != b[0] then a[0] < b[0]
    else StrLess(a[1..], b[1..])
  }

  /** `a < b ? -1 : a > b ? 1 : 0`. */
  function StrCompare(a: string, b: string): int {
    if StrLess(a, b) then -1 else if StrLess(b, a) then 1 else 0
  }

  lemma {:induction false} StrLessIrreflexive(a: string)
    ensures !StrLess(a, a)
    decreases |a|
  {
    if a != [] { StrLessIrreflexive(a[1..]); }
  }

  lemma {:induction false} StrLessTotal(a: string, b: string)
    ensures a == b || StrLess(a, b) || StrLess(b, a)
    decreases |a|
  {
    if a != [] && b != [] && a[0] == b[0] {
      StrLessTotal(a[1..], b[1..]);
      if a[1..] == b[1..] { assert a == [a[0]] + a[1..] && b == [b[0]] + b[1..]; }
    }
  }

  lemma {:induction false} StrLessAsymmetric(a: string, b: string)
    ensures !(StrLess(a, b) && StrLess(b, a))
    decreases |a|
  {
    if a != [] && b != [] && a[0] == b[0] { StrLessAsymmetric(a[1..], b[1..]); }
  }

  lemma {:induction false} StrLessTransitive(a: string, b: string, c: string)
    requires StrLess(a, b) && StrLess(b, c)
    ensures StrLess(a, c)
    decreases |a|
  {
    if a != [] && b != [] && c != [] && a[0] == b[0] && b[0] == c[0] {
      StrLessTransitive(a[1..], b[1..], c[1..]);
    }
  }

  /** The string comparison is a total order: its sign flips with its arguments,
      it is zero only on equal strings, and `<= 0` is transitive. */
  lemma StrCompareOrder(a: string, b: string, c: string)
    ensures StrCompare(a, b) == -StrCompare(b, a)
    ensures StrCompare(a, b) == 0 <==> a == b
    ensures StrCompare(a, b) <= 0 && StrCompare(b, c) <= 0 ==> StrCompare(a, c) <= 0
  {
    StrLessIrreflexive(a);
    StrLessTotal(a, b);
    StrLessAsymmetric(a, b);
    StrLessTotal(b, c);
    StrLessAsymmetric(b, c);
    StrLessTotal(a, c);
    StrLessAsymmetric(a, c);
    if StrLess(a, b) && StrLess(b, c) { StrLessTransitive(a, b, c); }
    if StrLess(c, a) && StrLess(a, b) { StrLessTransitive(c, a, b); }
    if StrLess(b, c) && StrLess(c, a) { StrLessTransitive(b, c, a); }
  }
}

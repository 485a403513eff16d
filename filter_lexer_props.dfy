/**
 * Properties of the filter lexer: it only looks forward, a token never spans
 * whitespace, keywords are case-insensitive, unknown characters are skipped,
 * and a whole query can be lexed word by word.
 */
module FilterLexerProps {
  import opened Text
  import opened FilterParser

  // ---------------------------------------------------------------------------
  // Lexing a suffix: what stands before the cursor does not matter.

  lemma {:induction false} TagRunShift(p: string, b: string, m: nat)
    requires m <= |b|
    ensures TagRunEnd(p + b, |p| + m) == |p| + TagRunEnd(b, m)
    decreases |b| - m
  {
    if m < |b| {
      assert (p + b)[|p| + m] == b[m];
      if IsTagChar(b[m]) { TagRunShift(p, b, m + 1); }
    }
  }

  lemma {:induction false} LetterRunShift(p: string, b: string, m: nat)
    requires m <= |b|
    ensures LetterRunEnd(p + b, |p| + m) == |p| + LetterRunEnd(b, m)
    decreases |b| - m
  {
    if m < |b| {
      assert (p + b)[|p| + m] == b[m];
      if IsAsciiLetter(b[m]) { LetterRunShift(p, b, m + 1); }
    }
  }

  lemma SliceShift(p: string, b: string, j: nat, k: nat)
    requires j <= k <= |b|
    ensures (p + b)[|p| + j..|p| + k] == b[j..k]
  {
  }

  lemma TagShift(p: string, b: string, j: nat)
    requires j < |b|
    ensures var k := TagRunEnd(b, j + 1);
      TagRunEnd(p + b, |p| + j + 1) == |p| + k && (p + b)[|p| + j..|p| + k] == b[j..k]
  {
    TagRunShift(p, b, j + 1);
    SliceShift(p, b, j, TagRunEnd(b, j + 1));
  }

  lemma LetterShift(p: string, b: string, j: nat)
    requires j < |b|
    ensures var k := LetterRunEnd(b, j + 1);
      LetterRunEnd(p + b, |p| + j + 1) == |p| + k && (p + b)[|p| + j..|p| + k] == b[j..k]
  {
    LetterRunShift(p, b, j + 1);
    SliceShift(p, b, j, LetterRunEnd(b, j + 1));
  }

  lemma TagAtShift(p: string, b: string, j: nat)
    requires j < |b| && b[j] == '#'
    ensures TokenAt(p + b, |p| + j) == (TokenAt(b, j).0, |p| + TokenAt(b, j).1)
  {
    assert (p + b)[|p| + j] == b[j];
    TagShift(p, b, j);
  }

  lemma WordAtShift(p: string, b: string, j: nat)
    requires j < |b| && IsAsciiLetter(b[j])
    ensures TokenAt(p + b, |p| + j) == (TokenAt(b, j).0, |p| + TokenAt(b, j).1)
  {
    var k := LetterRunEnd(b, j + 1);
    assert (p + b)[|p| + j] == b[j];
    LetterShift(p, b, j);
    assert TokenAt(b, j) == (WordToken(Upper(b[j..k])), k);
  }

  /** The token at a position after a prefix is the token of the rest, shifted. */
  lemma TokenAtShift(p: string, b: string, j: nat)
    requires j <= |b| && (j == |b| || !Skipped(b[j]))
    ensures TokenAt(p + b, |p| + j) == (TokenAt(b, j).0, |p| + TokenAt(b, j).1)
  {
    if j < |b| {
      if b[j] == '#' {
        TagAtShift(p, b, j);
      } else if IsAsciiLetter(b[j]) {
        WordAtShift(p, b, j);
      } else {
        assert (p + b)[|p| + j] == b[j];
      }
    }
  }

  /** One step of the lexer after a prefix is the step on the rest, shifted. */
  lemma {:induction false} NextTokenShift(p: string, b: string, m: nat)
    requires m <= |b|
    ensures NextToken(p + b, |p| + m) == (NextToken(b, m).0, |p| + NextToken(b, m).1)
    decreases |b| - m, 1
  {
    if m < |b| && Skipped(b[m]) {
      SkipShift(p, b, m);
    } else {
      TokenShift(p, b, m);
    }
  }

  /** A skipped character after a prefix is skipped just the same. */
  lemma {:induction false} SkipShift(p: string, b: string, m: nat)
    requires m < |b| && Skipped(b[m])
    ensures NextToken(p + b, |p| + m) == (NextToken(b, m).0, |p| + NextToken(b, m).1)
    decreases |b| - m, 0
  {
    NextTokenShift(p, b, m + 1);
    assert (p + b)[|p| + m] == b[m];
  }

  /** Where nothing is skipped, the lexer step is the token at the cursor. */
  lemma TokenShift(p: string, b: string, m: nat)
    requires m <= |b| && (m == |b| || !Skipped(b[m]))
    ensures NextToken(p + b, |p| + m) == (NextToken(b, m).0, |p| + NextToken(b, m).1)
  {
    if m < |b| { assert (p + b)[|p| + m] == b[m]; }
    TokenAtShift(p, b, m);
  }

  lemma {:induction false} LexShift(p: string, b: string, m: nat)
    requires m <= |b|
    ensures Lex(p + b, |p| + m) == Lex(b, m)
    decreases |b| - m
  {
    if NextToken(b, m).0 == Eof {
      LexShiftEnd(p, b, m);
    } else {
      LexShift(p, b, NextToken(b, m).1);
      LexShiftMore(p, b, m);
    }
  }

  /** At the end of the rest, the lexer also ends after the prefix. */
  lemma LexShiftEnd(p: string, b: string, m: nat)
    requires m <= |b| && NextToken(b, m).0 == Eof
    ensures Lex(p + b, |p| + m) == Lex(b, m)
  {
    NextTokenShift(p, b, m);
  }

  /** A token of the rest is also the next token after the prefix. */
  lemma LexShiftMore(p: string, b: string, m: nat)
    requires m <= |b| && NextToken(b, m).0 != Eof
    requires Lex(p + b, |p| + NextToken(b, m).1) == Lex(b, NextToken(b, m).1)
    ensures Lex(p + b, |p| + m) == Lex(b, m)
  {
    NextTokenShift(p, b, m);
  }

  // ---------------------------------------------------------------------------
  // Lexing a prefix: text after a whitespace character does not matter.

  predicate StartsWithSpace(rest: string) {
    rest != [] && IsSpace(rest[0])
  }

  lemma {:induction false} TagRunPrefix(a: string, rest: string, i: nat)
    requires i <= |a|
    requires rest == [] || !IsTagChar(rest[0])
    ensures TagRunEnd(a + rest, i) == TagRunEnd(a, i)
    decreases |a| - i
  {
    if i < |a| {
      assert (a + rest)[i] == a[i];
      if IsTagChar(a[i]) { TagRunPrefix(a, rest, i + 1); }
    } else if rest != [] {
      assert (a + rest)[i] == rest[0];
    }
  }

  lemma {:induction false} LetterRunPrefix(a: string, rest: string, i: nat)
    requires i <= |a|
    requires rest == [] || !IsAsciiLetter(rest[0])
    ensures LetterRunEnd(a + rest, i) == LetterRunEnd(a, i)
    decreases |a| - i
  {
    if i < |a| {
      assert (a + rest)[i] == a[i];
      if IsAsciiLetter(a[i]) { LetterRunPrefix(a, rest, i + 1); }
    } else if rest != [] {
      assert (a + rest)[i] == rest[0];
    }
  }

  /** A token that ends inside `a` is unchanged by text that follows after a
      whitespace character. */
  lemma TokenAtPrefix(a: string, rest: string, j: nat)
    requires j < |a| && !Skipped(a[j]) && StartsWithSpace(rest)
    ensures TokenAt(a + rest, j) == TokenAt(a, j)
  {
    assert (a + rest)[j] == a[j];
    if a[j] == '#' {
      TagAtPrefix(a, rest, j);
    } else if IsAsciiLetter(a[j]) {
      WordAtPrefix(a, rest, j);
    }
  }

  lemma TagAtPrefix(a: string, rest: string, j: nat)
    requires j < |a| && a[j] == '#' && StartsWithSpace(rest)
    ensures TokenAt(a + rest, j) == TokenAt(a, j)
  {
    var x := a + rest;
    assert x[j] == a[j];
    TagRunPrefix(a, rest, j + 1);
    var k := TagRunEnd(a, j + 1);
    assert x[j..k] == a[j..k];
  }

  lemma WordAtPrefix(a: string, rest: string, j: nat)
    requires j < |a| && IsAsciiLetter(a[j]) && StartsWithSpace(rest)
    ensures TokenAt(a + rest, j) == TokenAt(a, j)
  {
    var x := a + rest;
    assert x[j] == a[j];
    LetterRunPrefix(a, rest, j + 1);
    var k := LetterRunEnd(a, j + 1);
    assert x[j..k] == a[j..k];
    assert TokenAt(a, j) == (WordToken(Upper(a[j..k])), k);
  }


  lemma {:induction false} NextTokenPrefix(a: string, rest: string, i: nat)
    requires i <= |a| && StartsWithSpace(rest)
    ensures NextToken(a, i).0 != Eof ==> NextToken(a + rest, i) == NextToken(a, i)
    ensures NextToken(a, i).0 == Eof ==> NextToken(a + rest, i) == NextToken(a + rest, |a|)
    decreases |a| - i
  {
    if i < |a| {
      assert (a + rest)[i] == a[i];
      if Skipped(a[i]) {
        NextTokenPrefix(a, rest, i + 1);
      } else {
        TokenAtPrefix(a, rest, i);
      }
    }
  }

  lemma {:induction false} LexPrefix(a: string, rest: string, i: nat)
    requires i <= |a| && StartsWithSpace(rest)
    ensures Lex(a + rest, i) == Lex(a, i) + Lex(a + rest, |a|)
    decreases |a| - i
  {
    NextTokenPrefix(a, rest, i);
    var (t, j) := NextToken(a, i);
    if t != Eof {
      LexPrefix(a, rest, j);
    }
  }

  /** A skipped character before the first token changes nothing. */
  lemma LexSkipped(s: string, i: nat)
    requires i < |s| && Skipped(s[i])
    ensures Lex(s, i) == Lex(s, i + 1)
  {
    assert NextToken(s, i) == NextToken(s, i + 1);
  }

  /** Lexing two texts joined by a space gives the two token sequences joined. */
  lemma LexConcat(a: string, b: string)
    ensures Lex(a + " " + b, 0) == Lex(a, 0) + Lex(b, 0)
  {
    var sb := " " + b;
    assert a + " " + b == a + sb;
    LexPrefix(a, sb, 0);
    LexShift(a, sb, 0);
    LexSkipped(sb, 0);
    LexShift(" ", b, 0);
  }

  // ---------------------------------------------------------------------------
  // Single words.

  /** A tag literal: '#' followed by tag characters only. */
  predicate TagLiteral(v: string) {
    |v| >= 1 && v[0] == '#' && forall m :: 1 <= m < |v| ==> IsTagChar(v[m])
  }

  lemma LexTagLiteral(v: string)
    requires TagLiteral(v)
    ensures Lex(v, 0) == [TagTok(v)]
  {
    TagRunAll(v, 1);
    assert v[0..|v|] == v;
    assert NextToken(v, 0) == (TagTok(v), |v|);
  }

  lemma {:induction false} TagRunAll(v: string, m: nat)
    requires 1 <= m <= |v|
    requires forall q :: 1 <= q < |v| ==> IsTagChar(v[q])
    ensures TagRunEnd(v, m) == |v|
    decreases |v| - m
  {
    if m < |v| { TagRunAll(v, m + 1); }
  }

  predicate LetterWord(w: string) {
    |w| >= 1 && forall m :: 0 <= m < |w| ==> IsAsciiLetter(w[m])
  }

  lemma {:induction false} LetterRunAll(w: string, m: nat)
    requires m <= |w|
    requires forall q :: 0 <= q < |w| ==> IsAsciiLetter(w[q])
    ensures LetterRunEnd(w, m) == |w|
    decreases |w| - m
  {
    if m < |w| { LetterRunAll(w, m + 1); }
  }

  /** A run of letters is one token: the keyword it spells in any case, or else
      the tag '#' + the word in lower case. */
  lemma LexLetterWord(w: string)
    requires LetterWord(w)
    ensures Lex(w, 0) == [WordToken(Upper(w))]
    ensures Upper(w) == "AND" <==> Lex(w, 0) == [AndTok]
    ensures Upper(w) == "OR" <==> Lex(w, 0) == [OrTok]
    ensures Upper(w) == "NOT" <==> Lex(w, 0) == [NotTok]
    ensures Upper(w) == "EMPTY" <==> Lex(w, 0) == [EmptyTok]
    ensures Upper(w) !in {"AND", "OR", "NOT", "EMPTY"} ==> Lex(w, 0) == [TagTok("#" + Lower(w))]
  {
    assert !IsSpace(w[0]);
    LetterRunAll(w, 1);
    assert w[0..|w|] == w;
    assert NextToken(w, 0) == (WordToken(Upper(w)), |w|);
    LowerOfUpper(w);
  }

  lemma LexParen()
    ensures Lex("(", 0) == [LParen]
    ensures Lex(")", 0) == [RParen]
  {
    assert NextToken("(", 0) == (LParen, 1);
    assert NextToken(")", 0) == (RParen, 1);
  }

  /** An unknown character is dropped: lexing resumes right after it. */
  lemma UnknownCharSkipped(s: string, i: nat)
    requires i < |s|
    requires !IsSpace(s[i]) && s[i] != '(' && s[i] != ')' && s[i] != '#' && !IsAsciiLetter(s[i])
    ensures NextToken(s, i) == NextToken(s, i + 1)
    ensures Lex(s, i) == Lex(s, i + 1)
  {
  }

  lemma LexKeyword(w: string, t: Token)
    requires w in {"AND", "OR", "NOT", "EMPTY"} && t == WordToken(w)
    ensures Lex(w, 0) == [t]
  {
    assert forall m :: 0 <= m < |w| ==> 'A' <= w[m] <= 'Z';
    assert Upper(w) == w;
    LexLetterWord(w);
  }

  // ---------------------------------------------------------------------------
  // Whole queries, word by word.

  /** Words joined by single spaces. */
  function Unwords(ws: seq<string>): string {
    if |ws| == 0 then "" else if |ws| == 1 then ws[0] else ws[0] + " " + Unwords(ws[1..])
  }

  /** If every word lexes to one token, the spaced sentence lexes to those
      tokens in order. */
  lemma {:induction false} LexUnwords(ws: seq<string>, ts: seq<Token>)
    requires |ws| == |ts|
    requires forall i :: 0 <= i < |ws| ==> Lex(ws[i], 0) == [ts[i]]
    ensures Lex(Unwords(ws), 0) == ts
  {
    if |ws| > 1 {
      LexUnwords(ws[1..], ts[1..]);
      LexConcat(ws[0], Unwords(ws[1..]));
      assert ts == [ts[0]] + ts[1..];
    }
  }
}

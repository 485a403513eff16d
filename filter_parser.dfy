/**
 * The filter language: a lexer over the query string and a recursive-descent
 * parser with precedence NOT > AND > OR.
 *
 * The lexer is a cursor over the string (class `Lexer`, method `Next`), and
 * `NextToken` is the pure function that one call of `Next` computes. Lexing
 * never fails, so the parser reads the whole token sequence `Lex(s, 0)` with
 * an index: the token at the index is the parser's lookahead, and past the
 * end the lookahead is EOF forever, as repeated `next()` calls are at the end
 * of the string. Thrown errors of the parser become `Err` results, and the
 * entry point `ParseFilterString` maps them to the match-all expression.
 */
module FilterParser {
  import opened Types
  import opened Text

  datatype Token =
    | TagTok(value: string)
    | AndTok
    | OrTok
    | NotTok
    | LParen
    | RParen
    | EmptyTok
    | Eof

  // ---------------------------------------------------------------------------
  // Lexer

  function LetterRunEnd(s: string, j: nat): (k: nat)
    requires j <= |s|
    ensures j <= k <= |s|
    ensures forall m :: j <= m < k ==> IsAsciiLetter(s[m])
    ensures k == |s| || !IsAsciiLetter(s[k])
    decreases |s| - j
  {
    if j < |s| && IsAsciiLetter(s[j]) then LetterRunEnd(s, j + 1) else j
  }

  /** The token for an upper-cased letter run: a keyword, or else a tag. */
  function WordToken(word: string): Token {
    if word == "AND" then AndTok
    else if word == "OR" then OrTok
    else if word == "NOT" then NotTok
    else if word == "EMPTY" then EmptyTok
    else TagTok("#" + Lower(word))
  }

  predicate HashTag(v: string) {
    |v| >= 1 && v[0] == '#'
  }

  /** A character that `next()` passes over before a token: whitespace, or a
      character that starts no token, which it steps past before calling
      itself again. */
  predicate Skipped(c: char) {
    IsSpace(c) || !(c == '(' || c == ')' || c == '#' || IsAsciiLetter(c))
  }

  /** The token that starts where `next()` stops skipping, and the cursor
      after it. */
  function TokenAt(s: string, j: nat): (r: (Token, nat))
    requires j <= |s| && (j == |s| || !Skipped(s[j]))
    ensures j <= r.1 <= |s|
    ensures r.0 == Eof <==> j == |s|
    ensures r.0 == Eof ==> r.1 == |s|
    ensures r.0 != Eof ==> j < r.1
    ensures r.0.TagTok? ==> HashTag(r.0.value)
  {
    if j == |s| then (Eof, j)
    else if s[j] == '(' then (LParen, j + 1)
    else if s[j] == ')' then (RParen, j + 1)
    else if s[j] == '#' then
      var k := TagRunEnd(s, j + 1);
      assert s[j..k][0] == '#';
      (TagTok(s[j..k]), k)
    else
      var k := LetterRunEnd(s, j + 1);
      (WordToken(Upper(s[j..k])), k)
  }

  /** One call of `Lexer.next()` from cursor `i`: the token and the new cursor.
      A whitespace character is stepped over by the loop, an unknown character
      by the recursive call; both are one recursive step here. */
  function NextToken(s: string, i: nat): (r: (Token, nat))
    requires i <= |s|
    ensures i <= r.1 <= |s|
    ensures r.0 == Eof ==> r.1 == |s|
    ensures r.0 != Eof ==> i < r.1
    ensures r.0.TagTok? ==> HashTag(r.0.value)
    decreases |s| - i
  {
    if i < |s| && Skipped(s[i]) then NextToken(s, i + 1) else TokenAt(s, i)
  }

  /** The tokens the lexer yields from cursor `i` before its first EOF. */
  function Lex(s: string, i: nat): (toks: seq<Token>)
    requires i <= |s|
    ensures |toks| <= |s| - i
    decreases |s| - i
  {
    var (t, j) := NextToken(s, i);
    if t == Eof then [] else [t] + Lex(s, j)
  }

  /** The token stream before EOF holds no EOF, and its tags start with '#'. */
  lemma {:induction false} LexTokensValid(s: string, i: nat)
    requires i <= |s|
    ensures forall m :: 0 <= m < |Lex(s, i)| ==> Lex(s, i)[m] != Eof
    ensures forall m :: 0 <= m < |Lex(s, i)| && Lex(s, i)[m].TagTok? ==> HashTag(Lex(s, i)[m].value)
    decreases |s| - i
  {
    var (t, j) := NextToken(s, i);
    if t == Eof {
      assert Lex(s, i) == [];
    } else {
      LexTokensValid(s, j);
      var rest, toks := Lex(s, j), Lex(s, i);
      assert toks == [t] + rest;
      forall m | 0 <= m < |toks|
        ensures toks[m] != Eof && (toks[m].TagTok? ==> HashTag(toks[m].value))
      {
        if m > 0 { assert toks[m] == rest[m - 1]; }
      }
    }
  }

  /** The lexer object: a string and a cursor that `Next` advances. */
  class Lexer {
    const s: string
    var i: nat

    ghost predicate Valid()
      reads this
    {
      i <= |s|
    }

    constructor (s: string)
      ensures this.s == s && i == 0 && Valid()
    {
      this.s := s;
      i := 0;
    }

    method Next() returns (t: Token)
      requires Valid()
      modifies this
      ensures Valid()
      ensures (t, i) == NextToken(s, old(i))
      decreases |s| - i
    {
      var n := |s|;
      while i < n && IsSpace(s[i])
        invariant old(i) <= i <= n
        invariant NextToken(s, old(i)) == NextToken(s, i)
      {
        i := i + 1;
      }
      if i >= n {
        return Eof;
      }
      var ch := s[i];
      if ch == '(' {
        i := i + 1;
        return LParen;
      }
      if ch == ')' {
        i := i + 1;
        return RParen;
      }
      if ch == '#' {
        var j := i + 1;
        while j < n && IsTagChar(s[j])
          invariant i + 1 <= j <= n
          invariant TagRunEnd(s, i + 1) == TagRunEnd(s, j)
        {
          j := j + 1;
        }
        var tag := s[i..j];
        i := j;
        return TagTok(tag);
      }
      if IsAsciiLetter(ch) {
        var j := i + 1;
        while j < n && IsAsciiLetter(s[j])
          invariant i + 1 <= j <= n
          invariant LetterRunEnd(s, i + 1) == LetterRunEnd(s, j)
        {
          j := j + 1;
        }
        var word := Upper(s[i..j]);
        i := j;
        return WordToken(word);
      }
      // Unknown character: skip it and lex again.
      i := i + 1;
      t := Next();
    }
  }

  // ---------------------------------------------------------------------------
  // Parser

  /** The parser's lookahead when it stands at index `k`. */
  function Lookahead(toks: seq<Token>, k: nat): Token {
    if k < |toks| then toks[k] else Eof
  }

  /** Index after `lexer.next()`: EOF does not move. */
  function Advance(toks: seq<Token>, k: nat): nat {
    if k < |toks| then k + 1 else k
  }

  /** The trees the parser builds: `and`/`or` have at least two children except
      the match-all `or([])`, and `not` has exactly one. */
  predicate Shaped(e: FilterExpr) {
    match e
    case And(cs) => |cs| >= 2 && forall i :: 0 <= i < |cs| ==> Shaped(cs[i])
    case Or(cs) => (|cs| >= 2 || cs == []) && forall i :: 0 <= i < |cs| ==> Shaped(cs[i])
    case Not(cs) => |cs| == 1 && Shaped(cs[0])
    case Tag(_) => true
    case Empty => true
  }

  predicate AllShaped(cs: seq<FilterExpr>) {
    forall i :: 0 <= i < |cs| ==> Shaped(cs[i])
  }

  /** `consume(type)`: fails unless the lookahead has the expected kind. */
  function Consume(toks: seq<Token>, k: nat, kind: Token): (r: Result<(Token, nat)>)
    ensures r.Ok? <==> Lookahead(toks, k) == kind || (kind.TagTok? && Lookahead(toks, k).TagTok?)
    ensures r.Ok? ==> r.value == (Lookahead(toks, k), Advance(toks, k))
  {
    var t := Lookahead(toks, k);
    if t == kind || (kind.TagTok? && t.TagTok?) then Ok((t, Advance(toks, k)))
    else Err("Expected another token")
  }

  /** Every `consume` in the parser follows a check of the lookahead's kind,
      so there it cannot fail and moves past exactly one token; the parsing
      functions below advance the index directly. */
  lemma ConsumeChecked(toks: seq<Token>, k: nat, kind: Token)
    requires Lookahead(toks, k) != Eof
    requires Lookahead(toks, k) == kind || (kind.TagTok? && Lookahead(toks, k).TagTok?)
    ensures Consume(toks, k, kind) == Ok((Lookahead(toks, k), k + 1))
  {
  }

  /** `parseOr`: `And (OR And)*`, a single operand returned bare. */
  function ParseOr(toks: seq<Token>, k: nat): (r: Result<(FilterExpr, nat)>)
    requires k <= |toks|
    ensures r.Ok? ==> k <= r.value.1 <= |toks|
    decreases |toks| - k, 5
  {
    match ParseAnd(toks, k)
    case Err(m) => Err(m)
    case Ok((left, k1)) =>
      match OrRest(toks, k1, [left])
      case Err(m) => Err(m)
      case Ok((children, k2)) =>
        if |children| == 1 then Ok((left, k2)) else Ok((Or(children), k2))
  }

  /** The `while (lookahead is OR)` loop of `parseOr`. */
  function OrRest(toks: seq<Token>, k: nat, children: seq<FilterExpr>): (r: Result<(seq<FilterExpr>, nat)>)
    requires k <= |toks|
    ensures r.Ok? ==> k <= r.value.1 <= |toks|
    decreases |toks| - k, 4
  {
    if Lookahead(toks, k) != OrTok then Ok((children, k))
    else
      match ParseAnd(toks, k + 1)
      case Err(m) => Err(m)
      case Ok((right, k2)) => OrRest(toks, k2, children + [right])
  }

  /** `parseAnd`: `Not (AND Not)*`, a single operand returned bare. */
  function ParseAnd(toks: seq<Token>, k: nat): (r: Result<(FilterExpr, nat)>)
    requires k <= |toks|
    ensures r.Ok? ==> k <= r.value.1 <= |toks|
    decreases |toks| - k, 3
  {
    match ParseNot(toks, k)
    case Err(m) => Err(m)
    case Ok((left, k1)) =>
      match AndRest(toks, k1, [left])
      case Err(m) => Err(m)
      case Ok((children, k2)) =>
        if |children| == 1 then Ok((left, k2)) else Ok((And(children), k2))
  }

  /** The `while (lookahead is AND)` loop of `parseAnd`. */
  function AndRest(toks: seq<Token>, k: nat, children: seq<FilterExpr>): (r: Result<(seq<FilterExpr>, nat)>)
    requires k <= |toks|
    ensures r.Ok? ==> k <= r.value.1 <= |toks|
    decreases |toks| - k, 2
  {
    if Lookahead(toks, k) != AndTok then Ok((children, k))
    else
      match ParseNot(toks, k + 1)
      case Err(m) => Err(m)
      case Ok((right, k2)) => AndRest(toks, k2, children + [right])
  }

  /** `parseNot`: `NOT Not | Primary`. */
  function ParseNot(toks: seq<Token>, k: nat): (r: Result<(FilterExpr, nat)>)
    requires k <= |toks|
    ensures r.Ok? ==> k <= r.value.1 <= |toks|
    decreases |toks| - k, 1
  {
    if Lookahead(toks, k) == NotTok then
      match ParseNot(toks, k + 1)
      case Err(m) => Err(m)
      case Ok((inner, k2)) => Ok((Not([inner]), k2))
    else ParsePrimary(toks, k)
  }

  /** `parsePrimary`: a parenthesised Or, a tag, `EMPTY`; any other token is
      skipped and stands for the match-all expression. */
  function ParsePrimary(toks: seq<Token>, k: nat): (r: Result<(FilterExpr, nat)>)
    requires k <= |toks|
    ensures r.Ok? ==> k <= r.value.1 <= |toks|
    decreases |toks| - k, 0
  {
    match Lookahead(toks, k)
    case LParen =>
      (match ParseOr(toks, k + 1)
       case Err(m) => Err(m)
       case Ok((e, k2)) =>
         if Lookahead(toks, k2) != RParen then Err("Unmatched (")
         else Ok((e, k2 + 1)))
    case TagTok(v) => Ok((Tag(v), k + 1))
    case EmptyTok => Ok((Empty, k + 1))
    case _ =>
      Ok((MatchAll, Advance(toks, k)))
  }

  // ---------------------------------------------------------------------------
  // What the parser builds: one lemma per parsing function, by the same
  // recursion.

  lemma {:induction false} ParseOrShaped(toks: seq<Token>, k: nat)
    requires k <= |toks|
    ensures ParseOr(toks, k).Ok? ==> Shaped(ParseOr(toks, k).value.0)
    decreases |toks| - k, 5
  {
    ParseAndShaped(toks, k);
    match ParseAnd(toks, k)
    case Err(_) =>
    case Ok((left, k1)) =>
      OrRestShaped(toks, k1, [left]);
  }

  /** The OR loop only appends well-shaped operands, and it stops at a
      lookahead that is not OR. */
  lemma {:induction false} OrRestShaped(toks: seq<Token>, k: nat, children: seq<FilterExpr>)
    requires k <= |toks| && AllShaped(children)
    ensures var r := OrRest(toks, k, children);
      r.Ok? ==> |r.value.0| >= |children| && r.value.0[..|children|] == children &&
                AllShaped(r.value.0) && Lookahead(toks, r.value.1) != OrTok
    decreases |toks| - k, 4
  {
    if Lookahead(toks, k) == OrTok {
      var k1 := k + 1;
      ParseAndShaped(toks, k1);
      match ParseAnd(toks, k1)
      case Err(_) =>
      case Ok((right, k2)) =>
        var next := children + [right];
        OrRestShaped(toks, k2, next);
        var r := OrRest(toks, k2, next);
        if r.Ok? {
          assert r.value.0[..|children|] == next[..|children|];
        }
    }
  }

  lemma {:induction false} ParseAndShaped(toks: seq<Token>, k: nat)
    requires k <= |toks|
    ensures ParseAnd(toks, k).Ok? ==> Shaped(ParseAnd(toks, k).value.0)
    decreases |toks| - k, 3
  {
    ParseNotShaped(toks, k);
    match ParseNot(toks, k)
    case Err(_) =>
    case Ok((left, k1)) =>
      AndRestShaped(toks, k1, [left]);
  }

  /** The AND loop only appends well-shaped operands, and it stops at a
      lookahead that is not AND. */
  lemma {:induction false} AndRestShaped(toks: seq<Token>, k: nat, children: seq<FilterExpr>)
    requires k <= |toks| && AllShaped(children)
    ensures var r := AndRest(toks, k, children);
      r.Ok? ==> |r.value.0| >= |children| && r.value.0[..|children|] == children &&
                AllShaped(r.value.0) && Lookahead(toks, r.value.1) != AndTok
    decreases |toks| - k, 2
  {
    if Lookahead(toks, k) == AndTok {
      var k1 := k + 1;
      ParseNotShaped(toks, k1);
      match ParseNot(toks, k1)
      case Err(_) =>
      case Ok((right, k2)) =>
        var next := children + [right];
        AndRestShaped(toks, k2, next);
        var r := AndRest(toks, k2, next);
        if r.Ok? {
          assert r.value.0[..|children|] == next[..|children|];
        }
    }
  }

  lemma {:induction false} ParseNotShaped(toks: seq<Token>, k: nat)
    requires k <= |toks|
    ensures ParseNot(toks, k).Ok? ==> Shaped(ParseNot(toks, k).value.0)
    decreases |toks| - k, 1
  {
    if Lookahead(toks, k) == NotTok {
      ParseNotShaped(toks, k + 1);
    } else {
      ParsePrimaryShaped(toks, k);
    }
  }

  lemma {:induction false} ParsePrimaryShaped(toks: seq<Token>, k: nat)
    requires k <= |toks|
    ensures ParsePrimary(toks, k).Ok? ==> Shaped(ParsePrimary(toks, k).value.0)
    decreases |toks| - k, 0
  {
    if Lookahead(toks, k) == LParen {
      ParseOrShaped(toks, k + 1);
    }
  }

  /** `Parser.parse`: EOF first gives match-all; tokens after the first
      complete Or-expression are ignored. */
  function Parse(toks: seq<Token>): (r: Result<FilterExpr>)
    ensures r.Ok? ==> Shaped(r.value)
  {
    if Lookahead(toks, 0) == Eof then Ok(MatchAll)
    else
      ParseOrShaped(toks, 0);
      match ParseOr(toks, 0)
      case Err(m) => Err(m)
      case Ok((e, _)) => Ok(e)
  }

  /** `parseFilterString`: trims, and answers match-all for an empty input
      and for any parse error. */
  function ParseFilterString(input: string): (r: FilterExpr)
    ensures Shaped(r)
  {
    var s := Trim(input);
    if s == [] then MatchAll
    else
      match Parse(Lex(s, 0))
      case Ok(e) => e
      case Err(_) => MatchAll
  }
}

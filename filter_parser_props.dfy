/**
 * Properties of the filter parser: what it returns on blank and malformed
 * input, how it resolves precedence, and a printer whose output the parser
 * reads back to the same tree.
 */
module FilterParserProps {
  import opened Types
  import opened Text
  import opened FilterEval
  import opened FilterParser
  import opened FilterLexerProps

  /** Every tree the parser builds can be handed to the evaluator. */
  lemma {:induction false} ShapedHasChildren(e: FilterExpr)
    requires Shaped(e)
    ensures NotsHaveChild(e)
  {
    match e
    case And(cs) =>
      forall i | 0 <= i < |cs| ensures NotsHaveChild(cs[i]) { ShapedHasChildren(cs[i]); }
    case Or(cs) =>
      forall i | 0 <= i < |cs| ensures NotsHaveChild(cs[i]) { ShapedHasChildren(cs[i]); }
    case Not(cs) =>
      ShapedHasChildren(cs[0]);
    case Tag(_) =>
    case Empty =>
  }

  /** Blank input means "no filter". */
  lemma BlankIsMatchAll(input: string)
    requires AllSpace(input)
    ensures ParseFilterString(input) == MatchAll
  {
    TrimEmptyIff(input);
  }

  // ---------------------------------------------------------------------------
  // A printer for filter trees and the round trip through the parser.

  /** The trees the printer handles: what `Shaped` allows, except the
      match-all `or([])`, with tags that lex back as one tag token. */
  predicate Printable(e: FilterExpr) {
    match e
    case And(cs) => |cs| >= 2 && forall i :: 0 <= i < |cs| ==> Printable(cs[i])
    case Or(cs) => |cs| >= 2 && forall i :: 0 <= i < |cs| ==> Printable(cs[i])
    case Not(cs) => |cs| == 1 && Printable(cs[0])
    case Tag(v) => TagLiteral(v)
    case Empty => true
  }

  /** The tokens of the fully parenthesised form of `e`. */
  function Tokens(e: FilterExpr): (ts: seq<Token>)
    requires Printable(e)
    ensures |ts| >= 1
    decreases e, 1
  {
    match e
    case Tag(v) => [TagTok(v)]
    case Empty => [EmptyTok]
    case Not(cs) => [NotTok] + Tokens(cs[0])
    case And(cs) => [LParen] + Joined(e, AndTok, 0) + [RParen]
    case Or(cs) => [LParen] + Joined(e, OrTok, 0) + [RParen]
  }

  /** The tokens of children `i..` of `p`, separated by `op`. */
  function Joined(p: FilterExpr, op: Token, i: nat): (ts: seq<Token>)
    requires (p.And? || p.Or?) && Printable(p) && i < |p.children|
    ensures |ts| >= 1
    decreases p, 0, |p.children| - i
  {
    Tokens(p.children[i]) + (if i + 1 < |p.children| then [op] + Joined(p, op, i + 1) else [])
  }

  function TokenText(t: Token): string {
    match t
    case TagTok(v) => v
    case AndTok => "AND"
    case OrTok => "OR"
    case NotTok => "NOT"
    case LParen => "("
    case RParen => ")"
    case EmptyTok => "EMPTY"
    case Eof => ""
  }

  /** The query text for `e`: its tokens' texts separated by spaces. */
  function Print(e: FilterExpr): string
    requires Printable(e)
  {
    var ts := Tokens(e);
    Unwords(seq(|ts|, i requires 0 <= i < |ts| => TokenText(ts[i])))
  }

  predicate PrintableToken(t: Token) {
    t != Eof && (t.TagTok? ==> TagLiteral(t.value))
  }

  lemma {:induction false} TokensPrintable(e: FilterExpr)
    requires Printable(e)
    ensures forall m :: 0 <= m < |Tokens(e)| ==> PrintableToken(Tokens(e)[m])
    decreases e, 1
  {
    match e
    case Tag(_) =>
    case Empty =>
    case Not(cs) => TokensPrintable(cs[0]);
    case And(_) => JoinedPrintable(e, AndTok, 0);
    case Or(_) => JoinedPrintable(e, OrTok, 0);
  }

  lemma {:induction false} JoinedPrintable(p: FilterExpr, op: Token, i: nat)
    requires (p.And? || p.Or?) && Printable(p) && i < |p.children|
    requires PrintableToken(op)
    ensures forall m :: 0 <= m < |Joined(p, op, i)| ==> PrintableToken(Joined(p, op, i)[m])
    decreases p, 0, |p.children| - i
  {
    TokensPrintable(p.children[i]);
    if i + 1 < |p.children| {
      JoinedPrintable(p, op, i + 1);
    }
  }

  lemma LexTokenText(t: Token)
    requires PrintableToken(t)
    ensures Lex(TokenText(t), 0) == [t]
  {
    match t
    case TagTok(v) => LexTagLiteral(v);
    case AndTok => LexKeyword("AND", AndTok);
    case OrTok => LexKeyword("OR", OrTok);
    case NotTok => LexKeyword("NOT", NotTok);
    case EmptyTok => LexKeyword("EMPTY", EmptyTok);
    case LParen => LexParen();
    case RParen => LexParen();
  }

  /** Lexing the printed text gives back the tree's tokens. */
  lemma LexPrint(e: FilterExpr)
    requires Printable(e)
    ensures Lex(Print(e), 0) == Tokens(e)
  {
    var ts := Tokens(e);
    var ws := seq(|ts|, i requires 0 <= i < |ts| => TokenText(ts[i]));
    TokensPrintable(e);
    forall i | 0 <= i < |ws| ensures Lex(ws[i], 0) == [ts[i]] {
      LexTokenText(ts[i]);
    }
    LexUnwords(ws, ts);
  }

  /** The printed text starts and ends with a token, not with whitespace. */
  lemma {:induction false} UnwordsTrimmed(ws: seq<string>)
    requires |ws| >= 1
    requires forall i :: 0 <= i < |ws| ==> ws[i] != [] && !IsSpace(ws[i][0]) && !IsSpace(ws[i][|ws[i]| - 1])
    ensures Unwords(ws) != []
    ensures !IsSpace(Unwords(ws)[0]) && !IsSpace(Unwords(ws)[|Unwords(ws)| - 1])
  {
    if |ws| > 1 {
      UnwordsTrimmed(ws[1..]);
      var rest := Unwords(ws[1..]);
      assert Unwords(ws) == ws[0] + " " + rest;
      assert Unwords(ws)[0] == ws[0][0];
      assert Unwords(ws)[|Unwords(ws)| - 1] == rest[|rest| - 1];
    }
  }

  lemma PrintTrimmed(e: FilterExpr)
    requires Printable(e)
    ensures Trim(Print(e)) == Print(e) && Print(e) != []
  {
    var ts := Tokens(e);
    var ws := seq(|ts|, i requires 0 <= i < |ts| => TokenText(ts[i]));
    TokensPrintable(e);
    forall i | 0 <= i < |ws|
      ensures ws[i] != [] && !IsSpace(ws[i][0]) && !IsSpace(ws[i][|ws[i]| - 1])
    {
      TokenTextEdges(ts[i]);
    }
    UnwordsTrimmed(ws);
    TrimOfTrimmed(Print(e));
  }

  lemma TokenTextEdges(t: Token)
    requires PrintableToken(t)
    ensures var w := TokenText(t); w != [] && !IsSpace(w[0]) && !IsSpace(w[|w| - 1])
  {
  }

  // ---------------------------------------------------------------------------
  // Parsing the tokens of a printable tree.

  /** `toks` holds `ts` at index `k`. */
  predicate Window(toks: seq<Token>, k: nat, ts: seq<Token>) {
    k + |ts| <= |toks| && forall m :: 0 <= m < |ts| ==> toks[k + m] == ts[m]
  }

  lemma WindowSplit(toks: seq<Token>, k: nat, a: seq<Token>, b: seq<Token>)
    requires Window(toks, k, a + b)
    ensures Window(toks, k, a) && Window(toks, k + |a|, b)
  {
    forall m | 0 <= m < |a| ensures toks[k + m] == a[m] {
      assert (a + b)[m] == a[m];
    }
    forall m | 0 <= m < |b| ensures toks[k + |a| + m] == b[m] {
      assert (a + b)[|a| + m] == b[m];
    }
  }

  lemma WindowHead(toks: seq<Token>, k: nat, t: Token, b: seq<Token>)
    requires Window(toks, k, [t] + b)
    ensures Lookahead(toks, k) == t
  {
    assert ([t] + b)[0] == t;
  }

  lemma {:induction false} PrintableShaped(e: FilterExpr)
    requires Printable(e)
    ensures Shaped(e)
  {
    match e
    case And(cs) =>
      forall i | 0 <= i < |cs| ensures Shaped(cs[i]) { PrintableShaped(cs[i]); }
    case Or(cs) =>
      forall i | 0 <= i < |cs| ensures Shaped(cs[i]) { PrintableShaped(cs[i]); }
    case Not(cs) =>
      PrintableShaped(cs[0]);
    case Tag(_) =>
    case Empty =>
  }

  // One step of each parsing function, unfolded once.

  lemma ParseOrStep(toks: seq<Token>, k: nat, left: FilterExpr, k1: nat, cs: seq<FilterExpr>, k2: nat)
    requires k <= |toks|
    requires ParseAnd(toks, k) == Ok((left, k1))
    requires OrRest(toks, k1, [left]) == Ok((cs, k2))
    ensures ParseOr(toks, k) == Ok((if |cs| == 1 then left else Or(cs), k2))
  {
  }

  lemma ParseAndStep(toks: seq<Token>, k: nat, left: FilterExpr, k1: nat, cs: seq<FilterExpr>, k2: nat)
    requires k <= |toks|
    requires ParseNot(toks, k) == Ok((left, k1))
    requires AndRest(toks, k1, [left]) == Ok((cs, k2))
    ensures ParseAnd(toks, k) == Ok((if |cs| == 1 then left else And(cs), k2))
  {
  }

  lemma OrRestStep(toks: seq<Token>, k: nat, children: seq<FilterExpr>, right: FilterExpr, k2: nat,
                     next: seq<FilterExpr>)
    requires k <= |toks|
    requires Lookahead(toks, k) == OrTok
    requires ParseAnd(toks, k + 1) == Ok((right, k2))
    requires next == children + [right]
    ensures k2 <= |toks|
    ensures OrRest(toks, k, children) == OrRest(toks, k2, next)
  {
  }

  lemma AndRestStep(toks: seq<Token>, k: nat, children: seq<FilterExpr>, right: FilterExpr, k2: nat,
                     next: seq<FilterExpr>)
    requires k <= |toks|
    requires Lookahead(toks, k) == AndTok
    requires ParseNot(toks, k + 1) == Ok((right, k2))
    requires next == children + [right]
    ensures k2 <= |toks|
    ensures AndRest(toks, k, children) == AndRest(toks, k2, next)
  {
  }

  lemma AndRestStop(toks: seq<Token>, k: nat, children: seq<FilterExpr>)
    requires k <= |toks|
    requires Lookahead(toks, k) != AndTok
    ensures AndRest(toks, k, children) == Ok((children, k))
  {
  }

  lemma OrRestStop(toks: seq<Token>, k: nat, children: seq<FilterExpr>)
    requires k <= |toks|
    requires Lookahead(toks, k) != OrTok
    ensures OrRest(toks, k, children) == Ok((children, k))
  {
  }

  lemma ParenStep(toks: seq<Token>, k: nat, e: FilterExpr, k2: nat)
    requires k <= |toks|
    requires Lookahead(toks, k) == LParen
    requires ParseOr(toks, k + 1) == Ok((e, k2))
    requires Lookahead(toks, k2) == RParen
    ensures ParseNot(toks, k) == Ok((e, k2 + 1))
  {
  }

  /** `parseNot` reads exactly the tokens of a printable tree. */
  lemma {:induction false} ParseNotTokens(toks: seq<Token>, k: nat, e: FilterExpr)
    requires Printable(e) && Window(toks, k, Tokens(e))
    ensures ParseNot(toks, k) == Ok((e, k + |Tokens(e)|))
    decreases e, 2
  {
    match e
    case Tag(v) =>
      WindowHead(toks, k, TagTok(v), []);
    case Empty =>
      WindowHead(toks, k, EmptyTok, []);
    case Not(cs) =>
      WindowSplit(toks, k, [NotTok], Tokens(cs[0]));
      WindowHead(toks, k, NotTok, Tokens(cs[0]));
      ParseNotTokens(toks, k + 1, cs[0]);
      assert [cs[0]] == cs;
    case And(cs) =>
      ParseNotAnd(toks, k, e);
    case Or(cs) =>
      ParseNotOr(toks, k, e);
  }

  /** The window of a parenthesised node: "(", the joined children, ")". */
  lemma ParenWindow(toks: seq<Token>, k: nat, e: FilterExpr, op: Token)
    requires (e.And? || e.Or?) && Printable(e) && Window(toks, k, Tokens(e))
    requires op == if e.And? then AndTok else OrTok
    ensures Lookahead(toks, k) == LParen
    ensures Window(toks, k + 1, Joined(e, op, 0))
    ensures Lookahead(toks, k + 1 + |Joined(e, op, 0)|) == RParen
    ensures |Tokens(e)| == |Joined(e, op, 0)| + 2
  {
    var j := Joined(e, op, 0);
    WindowSplit(toks, k, [LParen] + j, [RParen]);
    WindowSplit(toks, k, [LParen], j);
    WindowHead(toks, k, LParen, j);
    WindowHead(toks, k + 1 + |j|, RParen, []);
  }

  /** The window of the joined children from `i` splits into child `i` and the rest. */
  lemma JoinedWindow(toks: seq<Token>, k: nat, e: FilterExpr, op: Token, i: nat)
    requires (e.And? || e.Or?) && Printable(e) && i < |e.children|
    requires Window(toks, k, Joined(e, op, i))
    ensures Window(toks, k, Tokens(e.children[i]))
    ensures i + 1 < |e.children| ==>
      Lookahead(toks, k + |Tokens(e.children[i])|) == op &&
      Window(toks, k + |Tokens(e.children[i])| + 1, Joined(e, op, i + 1)) &&
      |Joined(e, op, i)| == |Tokens(e.children[i])| + 1 + |Joined(e, op, i + 1)|
    ensures i + 1 == |e.children| ==> Joined(e, op, i) == Tokens(e.children[i])
  {
    if i + 1 < |e.children| {
      JoinedWindowMore(toks, k, e, op, i);
    } else {
      JoinedLast(e, op, i);
    }
  }

  lemma JoinedWindowMore(toks: seq<Token>, k: nat, e: FilterExpr, op: Token, i: nat)
    requires (e.And? || e.Or?) && Printable(e) && i + 1 < |e.children|
    requires Window(toks, k, Joined(e, op, i))
    ensures var t := Tokens(e.children[i]);
      Window(toks, k, t) && Lookahead(toks, k + |t|) == op &&
      Window(toks, k + |t| + 1, Joined(e, op, i + 1)) &&
      |Joined(e, op, i)| == |t| + 1 + |Joined(e, op, i + 1)|
  {
    var t := Tokens(e.children[i]);
    var rest := Joined(e, op, i + 1);
    WindowSplit(toks, k, t, [op] + rest);
    WindowSplit(toks, k + |t|, [op], rest);
    WindowHead(toks, k + |t|, op, rest);
  }

  lemma JoinedLast(e: FilterExpr, op: Token, i: nat)
    requires (e.And? || e.Or?) && Printable(e) && i + 1 == |e.children|
    ensures Joined(e, op, i) == Tokens(e.children[i])
  {
    assert Joined(e, op, i) == Tokens(e.children[i]) + [];
  }

  lemma {:induction false} ParseNotAnd(toks: seq<Token>, k: nat, e: FilterExpr)
    requires e.And? && Printable(e) && Window(toks, k, Tokens(e))
    ensures ParseNot(toks, k) == Ok((e, k + |Tokens(e)|))
    decreases e, 1
  {
    ParenWindow(toks, k, e, AndTok);
    JoinedAnd(toks, k + 1, e);
    ParenStep(toks, k, e, k + 1 + |Joined(e, AndTok, 0)|);
  }

  lemma {:induction false} JoinedAnd(toks: seq<Token>, k: nat, e: FilterExpr)
    requires e.And? && Printable(e) && Window(toks, k, Joined(e, AndTok, 0))
    requires Lookahead(toks, k + |Joined(e, AndTok, 0)|) == RParen
    ensures ParseOr(toks, k) == Ok((e, k + |Joined(e, AndTok, 0)|))
    decreases e, 0, |e.children| + 1
  {
    var cs := e.children;
    var kEnd := k + |Joined(e, AndTok, 0)|;
    AndOperand(toks, k, e, 0);
    JoinedAndRest(toks, k, e);
    ParseAndStep(toks, k, cs[0], k + |Tokens(cs[0])|, cs, kEnd);
    ParseOrStep(toks, k, e, kEnd, [e], kEnd);
  }

  lemma {:induction false} JoinedAndRest(toks: seq<Token>, k: nat, e: FilterExpr)
    requires e.And? && Printable(e) && Window(toks, k, Joined(e, AndTok, 0))
    requires Lookahead(toks, k + |Joined(e, AndTok, 0)|) == RParen
    ensures AndRest(toks, k + |Tokens(e.children[0])|, [e.children[0]])
         == Ok((e.children, k + |Joined(e, AndTok, 0)|))
    decreases e, 0, |e.children|, 2
  {
    assert e.children[..1] == [e.children[0]];
    AndRestTokens(toks, k, e, 0, [e.children[0]], k + |Tokens(e.children[0])|);
  }

  /** Child `i` of an `and` node, read from the start of its joined tokens. */
  lemma {:induction false} AndOperand(toks: seq<Token>, k: nat, e: FilterExpr, i: nat)
    requires e.And? && Printable(e) && i < |e.children|
    requires Window(toks, k, Joined(e, AndTok, i))
    ensures ParseNot(toks, k) == Ok((e.children[i], k + |Tokens(e.children[i])|))
    decreases e, 0, |e.children| - i, 2
  {
    JoinedWindow(toks, k, e, AndTok, i);
    ParseNotTokens(toks, k, e.children[i]);
  }

  lemma {:induction false} ParseNotOr(toks: seq<Token>, k: nat, e: FilterExpr)
    requires e.Or? && Printable(e) && Window(toks, k, Tokens(e))
    ensures ParseNot(toks, k) == Ok((e, k + |Tokens(e)|))
    decreases e, 1
  {
    ParenWindow(toks, k, e, OrTok);
    JoinedOr(toks, k + 1, e);
    ParenStep(toks, k, e, k + 1 + |Joined(e, OrTok, 0)|);
  }

  lemma {:induction false} JoinedOr(toks: seq<Token>, k: nat, e: FilterExpr)
    requires e.Or? && Printable(e) && Window(toks, k, Joined(e, OrTok, 0))
    requires Lookahead(toks, k + |Joined(e, OrTok, 0)|) == RParen
    ensures ParseOr(toks, k) == Ok((e, k + |Joined(e, OrTok, 0)|))
    decreases e, 0, |e.children| + 1
  {
    var cs := e.children;
    var kEnd := k + |Joined(e, OrTok, 0)|;
    OrOperand(toks, k, e, 0);
    JoinedOrRest(toks, k, e);
    ParseOrStep(toks, k, cs[0], k + |Tokens(cs[0])|, cs, kEnd);
  }

  lemma {:induction false} JoinedOrRest(toks: seq<Token>, k: nat, e: FilterExpr)
    requires e.Or? && Printable(e) && Window(toks, k, Joined(e, OrTok, 0))
    requires Lookahead(toks, k + |Joined(e, OrTok, 0)|) == RParen
    ensures OrRest(toks, k + |Tokens(e.children[0])|, [e.children[0]])
         == Ok((e.children, k + |Joined(e, OrTok, 0)|))
    decreases e, 0, |e.children|, 2
  {
    assert e.children[..1] == [e.children[0]];
    OrRestTokens(toks, k, e, 0, [e.children[0]], k + |Tokens(e.children[0])|);
  }

  /** Child `i` of an `or` node, read from the start of its joined tokens
      when no AND follows them. */
  lemma {:induction false} OrOperand(toks: seq<Token>, k: nat, e: FilterExpr, i: nat)
    requires e.Or? && Printable(e) && i < |e.children|
    requires Window(toks, k, Joined(e, OrTok, i))
    requires Lookahead(toks, k + |Joined(e, OrTok, i)|) != AndTok
    ensures ParseAnd(toks, k) == Ok((e.children[i], k + |Tokens(e.children[i])|))
    decreases e, 0, |e.children| - i, 2
  {
    JoinedWindow(toks, k, e, OrTok, i);
    ParseAndTokens(toks, k, e.children[i]);
  }

  /** `parseAnd` reads a printable tree when no AND follows it. */
  lemma {:induction false} ParseAndTokens(toks: seq<Token>, k: nat, e: FilterExpr)
    requires Printable(e) && Window(toks, k, Tokens(e))
    requires Lookahead(toks, k + |Tokens(e)|) != AndTok
    ensures ParseAnd(toks, k) == Ok((e, k + |Tokens(e)|))
    decreases e, 3
  {
    ParseNotTokens(toks, k, e);
    ParseAndStep(toks, k, e, k + |Tokens(e)|, [e], k + |Tokens(e)|);
  }

  /** The AND loop reads the remaining children of an `and` node: standing
      after child `i` with `done` = children `..i`, it collects them all. */
  lemma {:induction false} AndRestTokens(toks: seq<Token>, k: nat, e: FilterExpr, i: nat,
                                         done: seq<FilterExpr>, kc: nat)
    requires e.And? && Printable(e) && i < |e.children|
    requires Window(toks, k, Joined(e, AndTok, i))
    requires Lookahead(toks, k + |Joined(e, AndTok, i)|) != AndTok
    requires done == e.children[..i + 1] && kc == k + |Tokens(e.children[i])|
    ensures AndRest(toks, kc, done) == Ok((e.children, k + |Joined(e, AndTok, i)|))
    decreases e, 0, |e.children| - i, 1
  {
    JoinedWindow(toks, k, e, AndTok, i);
    if i + 1 == |e.children| {
      AndRestStop(toks, kc, done);
      assert done == e.children;
    } else {
      AndRestMore(toks, k, e, i, done, kc);
    }
  }

  lemma {:induction false} AndRestMore(toks: seq<Token>, k: nat, e: FilterExpr, i: nat,
                                       done: seq<FilterExpr>, kc: nat)
    requires e.And? && Printable(e) && i + 1 < |e.children|
    requires Window(toks, kc + 1, Joined(e, AndTok, i + 1))
    requires Lookahead(toks, kc) == AndTok
    requires Lookahead(toks, kc + 1 + |Joined(e, AndTok, i + 1)|) != AndTok
    requires done == e.children[..i + 1]
    ensures AndRest(toks, kc, done) == Ok((e.children, kc + 1 + |Joined(e, AndTok, i + 1)|))
    decreases e, 0, |e.children| - i, 0
  {
    var cs := e.children;
    var k1 := kc + 1;
    var kEnd := k1 + |Joined(e, AndTok, i + 1)|;
    var next := cs[..i + 2];
    var kc1 := k1 + |Tokens(cs[i + 1])|;
    AndOperand(toks, k1, e, i + 1);
    AndRestTokens(toks, k1, e, i + 1, next, kc1);
    assert done + [cs[i + 1]] == next;
    AndRestStep(toks, kc, done, cs[i + 1], kc1, next);
  }

  /** The OR loop reads the remaining children of an `or` node. */
  lemma {:induction false} OrRestTokens(toks: seq<Token>, k: nat, e: FilterExpr, i: nat,
                                        done: seq<FilterExpr>, kc: nat)
    requires e.Or? && Printable(e) && i < |e.children|
    requires Window(toks, k, Joined(e, OrTok, i))
    requires Lookahead(toks, k + |Joined(e, OrTok, i)|) != OrTok
    requires Lookahead(toks, k + |Joined(e, OrTok, i)|) != AndTok
    requires done == e.children[..i + 1] && kc == k + |Tokens(e.children[i])|
    ensures OrRest(toks, kc, done) == Ok((e.children, k + |Joined(e, OrTok, i)|))
    decreases e, 0, |e.children| - i, 1
  {
    JoinedWindow(toks, k, e, OrTok, i);
    if i + 1 == |e.children| {
      OrRestStop(toks, kc, done);
      assert done == e.children;
    } else {
      OrRestMore(toks, k, e, i, done, kc);
    }
  }

  lemma {:induction false} OrRestMore(toks: seq<Token>, k: nat, e: FilterExpr, i: nat,
                                      done: seq<FilterExpr>, kc: nat)
    requires e.Or? && Printable(e) && i + 1 < |e.children|
    requires Window(toks, kc + 1, Joined(e, OrTok, i + 1))
    requires Lookahead(toks, kc) == OrTok
    requires Lookahead(toks, kc + 1 + |Joined(e, OrTok, i + 1)|) != OrTok
    requires Lookahead(toks, kc + 1 + |Joined(e, OrTok, i + 1)|) != AndTok
    requires done == e.children[..i + 1]
    ensures OrRest(toks, kc, done) == Ok((e.children, kc + 1 + |Joined(e, OrTok, i + 1)|))
    decreases e, 0, |e.children| - i, 0
  {
    var cs := e.children;
    var k1 := kc + 1;
    var kEnd := k1 + |Joined(e, OrTok, i + 1)|;
    var next := cs[..i + 2];
    var kc1 := k1 + |Tokens(cs[i + 1])|;
    OrOperand(toks, k1, e, i + 1);
    OrRestTokens(toks, k1, e, i + 1, next, kc1);
    assert done + [cs[i + 1]] == next;
    OrRestStep(toks, kc, done, cs[i + 1], kc1, next);
  }

  /** `parse` reads back the tokens of any printable tree. */
  lemma ParseTokens(e: FilterExpr)
    requires Printable(e)
    ensures Parse(Tokens(e)) == Ok(e)
  {
    var toks := Tokens(e);
    TokensPrintable(e);
    ParseAndTokens(toks, 0, e);
    assert ParseOr(toks, 0) == Ok((e, |toks|));
  }

  /** Round trip: parsing the printed form of a printable tree gives the tree. */
  lemma ParsePrint(e: FilterExpr)
    requires Printable(e)
    ensures ParseFilterString(Print(e)) == e
  {
    PrintTrimmed(e);
    LexPrint(e);
    ParseTokens(e);
  }

  // ---------------------------------------------------------------------------
  // Worked queries.

  lemma AndNotText()
    ensures Unwords(["#a", "AND", "NOT", "#b"]) == "#a AND NOT #b"
  {
  }

  lemma LexAndNot(s: string)
    requires s == Unwords(["#a", "AND", "NOT", "#b"])
    ensures Lex(s, 0) == [TagTok("#a"), AndTok, NotTok, TagTok("#b")]
  {
    var ws := ["#a", "AND", "NOT", "#b"];
    var ts := [TagTok("#a"), AndTok, NotTok, TagTok("#b")];
    forall i | 0 <= i < |ws| ensures Lex(ws[i], 0) == [ts[i]] {
      if i == 0 {
        LexTagLiteral(ws[0]);
      } else if i == 1 {
        LexKeyword(ws[1], ts[1]);
      } else if i == 2 {
        LexKeyword(ws[2], ts[2]);
      } else {
        LexTagLiteral(ws[3]);
      }
    }
    LexUnwords(ws, ts);
  }

  lemma ParseAndNot()
    ensures Parse([TagTok("#a"), AndTok, NotTok, TagTok("#b")]) == Ok(And([Tag("#a"), Not([Tag("#b")])]))
  {
    var toks := [TagTok("#a"), AndTok, NotTok, TagTok("#b")];
    assert ParseNot(toks, 0) == Ok((Tag("#a"), 1));
    assert ParseNot(toks, 3) == Ok((Tag("#b"), 4));
    assert ParseNot(toks, 2) == Ok((Not([Tag("#b")]), 4));
    assert AndRest(toks, 4, [Tag("#a"), Not([Tag("#b")])]) == Ok(([Tag("#a"), Not([Tag("#b")])], 4));
    assert [Tag("#a")] + [Not([Tag("#b")])] == [Tag("#a"), Not([Tag("#b")])];
    assert AndRest(toks, 1, [Tag("#a")]) == Ok(([Tag("#a"), Not([Tag("#b")])], 4));
    assert ParseAnd(toks, 0) == Ok((And([Tag("#a"), Not([Tag("#b")])]), 4));
    assert OrRest(toks, 4, [And([Tag("#a"), Not([Tag("#b")])])]) == Ok(([And([Tag("#a"), Not([Tag("#b")])])], 4));
  }

  /** NOT binds tighter than AND. */
  lemma AndNotExample()
    ensures ParseFilterString("#a AND NOT #b") == And([Tag("#a"), Not([Tag("#b")])])
  {
    TrimOfTrimmed("#a AND NOT #b");
    AndNotText();
    LexAndNot("#a AND NOT #b");
    ParseAndNot();
  }

  /** AND binds tighter than OR. */
  lemma OrAndPrecedence()
    ensures Parse([TagTok("#a"), OrTok, TagTok("#b"), AndTok, TagTok("#c")])
            == Ok(Or([Tag("#a"), And([Tag("#b"), Tag("#c")])]))
  {
    var toks := [TagTok("#a"), OrTok, TagTok("#b"), AndTok, TagTok("#c")];
    var bc := And([Tag("#b"), Tag("#c")]);
    assert ParseNot(toks, 0) == Ok((Tag("#a"), 1));
    assert AndRest(toks, 1, [Tag("#a")]) == Ok(([Tag("#a")], 1));
    assert ParseAnd(toks, 0) == Ok((Tag("#a"), 1));
    assert ParseNot(toks, 2) == Ok((Tag("#b"), 3));
    assert ParseNot(toks, 4) == Ok((Tag("#c"), 5));
    assert AndRest(toks, 5, [Tag("#b"), Tag("#c")]) == Ok(([Tag("#b"), Tag("#c")], 5));
    assert [Tag("#b")] + [Tag("#c")] == [Tag("#b"), Tag("#c")];
    assert AndRest(toks, 3, [Tag("#b")]) == Ok(([Tag("#b"), Tag("#c")], 5));
    assert ParseAnd(toks, 2) == Ok((bc, 5));
    assert OrRest(toks, 5, [Tag("#a"), bc]) == Ok(([Tag("#a"), bc], 5));
    assert [Tag("#a")] + [bc] == [Tag("#a"), bc];
    assert OrRest(toks, 1, [Tag("#a")]) == Ok(([Tag("#a"), bc], 5));
  }

  /** An unclosed parenthesis is a parse error. */
  lemma UnclosedParen()
    ensures Parse([LParen, TagTok("#a")]).Err?
  {
    var toks := [LParen, TagTok("#a")];
    assert ParseNot(toks, 1) == Ok((Tag("#a"), 2));
    assert AndRest(toks, 2, [Tag("#a")]) == Ok(([Tag("#a")], 2));
    assert ParseAnd(toks, 1) == Ok((Tag("#a"), 2));
    assert OrRest(toks, 2, [Tag("#a")]) == Ok(([Tag("#a")], 2));
    assert ParseOr(toks, 1) == Ok((Tag("#a"), 2));
  }

  /** A parse error makes the whole filter match everything. */
  lemma ErrorIsMatchAll(input: string)
    requires Trim(input) != []
    requires Parse(Lex(Trim(input), 0)).Err?
    ensures ParseFilterString(input) == MatchAll
  {
  }

  /** Tokens after the first complete expression are ignored. */
  lemma TrailingTokensIgnored()
    ensures Parse([TagTok("#a"), TagTok("#b")]) == Ok(Tag("#a"))
  {
    var toks := [TagTok("#a"), TagTok("#b")];
    assert ParseNot(toks, 0) == Ok((Tag("#a"), 1));
    assert AndRest(toks, 1, [Tag("#a")]) == Ok(([Tag("#a")], 1));
    assert OrRest(toks, 1, [Tag("#a")]) == Ok(([Tag("#a")], 1));
  }

  /** A stray `)` where an operand is expected stands for match-all. */
  lemma StrayCloseParen()
    ensures Parse([RParen, AndTok, TagTok("#a")]) == Ok(And([MatchAll, Tag("#a")]))
  {
    var toks := [RParen, AndTok, TagTok("#a")];
    assert ParseNot(toks, 0) == Ok((MatchAll, 1));
    assert ParseNot(toks, 2) == Ok((Tag("#a"), 3));
    assert AndRest(toks, 3, [MatchAll, Tag("#a")]) == Ok(([MatchAll, Tag("#a")], 3));
    assert [MatchAll] + [Tag("#a")] == [MatchAll, Tag("#a")];
    assert AndRest(toks, 1, [MatchAll]) == Ok(([MatchAll, Tag("#a")], 3));
    assert ParseAnd(toks, 0) == Ok((And([MatchAll, Tag("#a")]), 3));
    assert OrRest(toks, 3, [And([MatchAll, Tag("#a")])]) == Ok(([And([MatchAll, Tag("#a")])], 3));
  }
}

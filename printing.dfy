/** Writing a tree back as tokens and as text, with as few parentheses as
    the grammar allows, and the round trip through the parser: every tree
    whose literals the lexer can produce is read back exactly. Because the
    printed form of `(a - b) - c` has no parentheses while `a - (b - c)`
    keeps them, and `a + b * c` has none while `(a + b) * c` keeps them, the
    round trip is the statement that `expr` and `term` fold operators of
    one precedence to the left and let `*` and `/` bind tighter than `+`
    and `-`. */
module Printing {
  import opened Basics
  import opened Tokens
  import opened Lexing
  import opened Ast
  import opened Evaluation
  import opened Parsing
  import opened Calculator

  /** Every literal is non-negative, as the lexer's integers are. */
  predicate Lexable(t: Node) {
    match t
    case Missing => true
    case Num(v) => v >= 0
    case BinOp(l, _, r) => Lexable(l) && Lexable(r)
  }

  function OpKind(op: Op): Kind {
    match op
    case Add => Plus
    case Sub => Minus
    case Mul => Multiply
    case Div => Divide
  }

  function Parenthesized(ts: seq<Token>): seq<Token> {
    [Token(LParen, 0)] + ts + [Token(RParen, 0)]
  }

  /** A token the printer can spell: an integer, or an operator or parenthesis with no payload. */
  predicate Printable(tok: Token) {
    tok.kind != Eof && (tok.kind != Integer ==> tok.value == 0)
  }

  /** The tokens of `t`, read as an expression. A missing subtree has no tokens. */
  function Toks(t: Node): (ts: seq<Token>)
    requires Lexable(t)
    ensures |ts| == 0 <==> t.Missing?
    decreases t, 0
  {
    match t
    case Missing => []
    case Num(v) => [Token(Integer, v)]
    case BinOp(l, op, r) =>
      if IsAdditive(op) then Toks(l) + [Token(OpKind(op), 0)] + AsTerm(r)
      else AsTerm(l) + [Token(OpKind(op), 0)] + AsFactor(r)
  }

  /** The tokens of `t` where a term is expected: an additive node needs parentheses. */
  function AsTerm(t: Node): seq<Token>
    requires Lexable(t)
    decreases t, 1
  {
    if t.BinOp? && IsAdditive(t.op) then Parenthesized(Toks(t)) else Toks(t)
  }

  /** The tokens of `t` where a factor is expected: every operator node needs parentheses. */
  function AsFactor(t: Node): seq<Token>
    requires Lexable(t)
    decreases t, 1
  {
    if t.BinOp? then Parenthesized(Toks(t)) else Toks(t)
  }

  /** The kinds that can follow a complete factor in a printed tree. */
  predicate Follows(k: Kind) {
    k in {Plus, Minus, Multiply, Divide, RParen, Eof}
  }

  /** The tokens `ts` sit in `s` from index `i` on, and the token after them can be fetched. */
  predicate Laid(s: Stream, i: nat, ts: seq<Token>) {
    && i + |ts| <= |s.tokens|
    && s.tokens[i..i + |ts|] == ts
    && Live(s, i + |ts|)
  }

  lemma LaidSplit(s: Stream, i: nat, a: seq<Token>, b: seq<Token>)
    requires Laid(s, i, a + b)
    ensures Laid(s, i, a) && Laid(s, i + |a|, b)
  {
    assert s.tokens[i..i + |a|] == (a + b)[..|a|];
    assert s.tokens[i + |a|..i + |a| + |b|] == (a + b)[|a|..];
  }

  lemma LaidAt(s: Stream, i: nat, ts: seq<Token>, k: nat)
    requires Laid(s, i, ts) && k < |ts|
    ensures Cur(s, i + k) == ts[k]
  {
    assert s.tokens[i..i + |ts|][k] == s.tokens[i + k];
  }

  /** An operator token between two laid-out runs of tokens. */
  lemma LaidAround(s: Stream, i: nat, a: seq<Token>, tok: Token, b: seq<Token>)
    requires Laid(s, i, a + ([tok] + b))
    ensures Laid(s, i, a) && Cur(s, i + |a|) == tok && Laid(s, i + |a| + 1, b)
  {
    LaidSplit(s, i, a, [tok] + b);
    LaidSplit(s, i + |a|, [tok], b);
    LaidAt(s, i + |a|, [tok], 0);
  }

  /** A parenthesised run of tokens: `(`, the run, then `)`. */
  lemma LaidInParentheses(s: Stream, i: nat, ts: seq<Token>)
    requires Laid(s, i, Parenthesized(ts))
    ensures Cur(s, i).kind == LParen && Laid(s, i + 1, ts) && Cur(s, i + 1 + |ts|).kind == RParen
  {
    var close := [Token(RParen, 0)];
    assert Parenthesized(ts) == [Token(LParen, 0)] + (ts + close);
    LaidSplit(s, i, [Token(LParen, 0)], ts + close);
    LaidSplit(s, i + 1, ts, close);
    LaidAt(s, i, Parenthesized(ts), 0);
    LaidAt(s, i + 1 + |ts|, close, 0);
  }

  /** A `*` or `/` node prints as its left operand as a term, the operator, and its right operand as a factor. */
  lemma TermLayout(l: Node, op: Op, r: Node)
    requires !IsAdditive(op) && Lexable(BinOp(l, op, r))
    ensures Toks(BinOp(l, op, r)) == AsTerm(l) + ([Token(OpKind(op), 0)] + AsFactor(r))
  {
  }

  /** A `+` or `-` node prints as its left operand, the operator, and its right operand as a term. */
  lemma ExprLayout(l: Node, op: Op, r: Node)
    requires IsAdditive(op) && Lexable(BinOp(l, op, r))
    ensures Toks(BinOp(l, op, r)) == Toks(l) + ([Token(OpKind(op), 0)] + AsTerm(r))
  {
  }

  /** One turn of the loop of `term` on an operator token followed by a factor. */
  lemma TermTailStep(s: Stream, node: Node, j: nat, op: Op, right: Node, e: nat)
    requires !IsAdditive(op) && Cur(s, j) == Token(OpKind(op), 0) && Live(s, j + 1)
    requires ParseFactor(s, j + 1) == Ok((right, e))
    ensures TermTail(s, node, j) == TermTail(s, BinOp(node, op, right), e)
  {
    assert Consume(s, j, OpKind(op)) == Ok(j + 1);
    assert OpOf(OpKind(op)) == op;
  }

  /** One turn of the loop of `expr` on an operator token followed by a term. */
  lemma ExprTailStep(s: Stream, node: Node, j: nat, op: Op, right: Node, e: nat)
    requires IsAdditive(op) && Cur(s, j) == Token(OpKind(op), 0) && Live(s, j + 1)
    requires ParseTerm(s, j + 1) == Ok((right, e))
    ensures ExprTail(s, node, j) == ExprTail(s, BinOp(node, op, right), e)
  {
    assert Consume(s, j, OpKind(op)) == Ok(j + 1);
    assert OpOf(OpKind(op)) == op;
  }

  /** A term whose first factor is followed by no `*` or `/` goes on with the loop of `term` right after it. */
  lemma TermOfFactor(s: Stream, i: nat, t: Node, e: nat)
    requires ParseFactor(s, i) == Ok((t, e))
    ensures ParseTerm(s, i) == TermTail(s, t, e)
  {
  }

  /** An expression whose first term ends before any `*` or `/` goes on with the loop of `expr` right after it. */
  lemma ExprOfTerm(s: Stream, i: nat, t: Node, e: nat)
    requires ParseTerm(s, i) == TermTail(s, t, e) && Cur(s, e).kind != Multiply && Cur(s, e).kind != Divide
    ensures ParseExpr(s, i) == ExprTail(s, t, e)
  {
  }

  lemma {:induction false} FactorRoundTrip(s: Stream, i: nat, t: Node)
    requires Lexable(t) && Laid(s, i, AsFactor(t)) && Follows(Cur(s, i + |AsFactor(t)|).kind)
    ensures ParseFactor(s, i) == Ok((t, i + |AsFactor(t)|))
    decreases t, 5
  {
    match t
    case Missing =>
    case Num(v) =>
      assert Cur(s, i) == Token(Integer, v) by {
        assert AsFactor(t) == [Token(Integer, v)];
        LaidAt(s, i, AsFactor(t), 0);
      }
    case BinOp(_, _, _) =>
      LaidInParentheses(s, i, Toks(t));
      ExprPrefix(s, i + 1, t);
      assert ParseExpr(s, i + 1) == Ok((t, i + 1 + |Toks(t)|));
  }

  lemma {:induction false} TermPrefix(s: Stream, i: nat, t: Node)
    requires Lexable(t) && Laid(s, i, AsTerm(t)) && Follows(Cur(s, i + |AsTerm(t)|).kind)
    ensures ParseTerm(s, i) == TermTail(s, t, i + |AsTerm(t)|)
    decreases t, if t.BinOp? && !IsAdditive(t.op) then 3 else 6
  {
    if t.BinOp? && !IsAdditive(t.op) {
      var BinOp(l, op, r) := t;
      assert AsTerm(t) == Toks(t);
      TermNode(s, i, l, op, r);
    } else {
      assert AsTerm(t) == AsFactor(t);
      FactorRoundTrip(s, i, t);
      TermOfFactor(s, i, t, i + |AsFactor(t)|);
    }
  }

  /** The printed tokens of a `*` or `/` node split around the operator. */
  lemma TermNode(s: Stream, i: nat, l: Node, op: Op, r: Node)
    requires !IsAdditive(op) && Lexable(BinOp(l, op, r))
    requires Laid(s, i, Toks(BinOp(l, op, r))) && Follows(Cur(s, i + |Toks(BinOp(l, op, r))|).kind)
    ensures ParseTerm(s, i) == TermTail(s, BinOp(l, op, r), i + |Toks(BinOp(l, op, r))|)
    decreases BinOp(l, op, r), 2
  {
    var lt, rt := AsTerm(l), AsFactor(r);
    var opTok := Token(OpKind(op), 0);
    var j := i + |lt|;
    TermLayout(l, op, r);
    LaidAround(s, i, lt, opTok, rt);
    TermStep(s, i, l, op, r, j, j + 1 + |rt|);
  }

  /** A `*` or `/` node laid out as a term: its left operand as a term, then the operator, then its right operand as a factor. */
  lemma {:induction false} TermStep(s: Stream, i: nat, l: Node, op: Op, r: Node, j: nat, e: nat)
    requires !IsAdditive(op) && Lexable(l) && Lexable(r)
    requires Laid(s, i, AsTerm(l)) && j == i + |AsTerm(l)| && Cur(s, j) == Token(OpKind(op), 0)
    requires Laid(s, j + 1, AsFactor(r)) && e == j + 1 + |AsFactor(r)| && Follows(Cur(s, e).kind)
    ensures ParseTerm(s, i) == TermTail(s, BinOp(l, op, r), e)
    decreases BinOp(l, op, r), 1
  {
    TermPrefix(s, i, l);
    TermRight(s, l, op, r, j, e);
  }

  /** After the left operand of a `*` or `/` node, the loop of `term` takes the operator and the right operand. */
  lemma {:induction false} TermRight(s: Stream, l: Node, op: Op, r: Node, j: nat, e: nat)
    requires !IsAdditive(op) && Lexable(r) && Cur(s, j) == Token(OpKind(op), 0)
    requires Laid(s, j + 1, AsFactor(r)) && e == j + 1 + |AsFactor(r)| && Follows(Cur(s, e).kind)
    ensures TermTail(s, l, j) == TermTail(s, BinOp(l, op, r), e)
    decreases BinOp(l, op, r), 0
  {
    FactorRoundTrip(s, j + 1, r);
    TermTailStep(s, l, j, op, r, e);
  }

  lemma {:induction false} ExprPrefix(s: Stream, i: nat, t: Node)
    requires Lexable(t) && Laid(s, i, Toks(t))
    requires Follows(Cur(s, i + |Toks(t)|).kind) && Cur(s, i + |Toks(t)|).kind !in {Multiply, Divide}
    ensures ParseExpr(s, i) == ExprTail(s, t, i + |Toks(t)|)
    decreases t, if t.BinOp? then 4 else 7
  {
    if t.BinOp? && IsAdditive(t.op) {
      var BinOp(l, op, r) := t;
      ExprNode(s, i, l, op, r);
    } else {
      assert AsTerm(t) == Toks(t);
      TermPrefix(s, i, t);
      ExprOfTerm(s, i, t, i + |Toks(t)|);
    }
  }

  /** The printed tokens of a `+` or `-` node split around the operator. */
  lemma ExprNode(s: Stream, i: nat, l: Node, op: Op, r: Node)
    requires IsAdditive(op) && Lexable(BinOp(l, op, r)) && Laid(s, i, Toks(BinOp(l, op, r)))
    requires var e := i + |Toks(BinOp(l, op, r))|;
      Follows(Cur(s, e).kind) && Cur(s, e).kind !in {Multiply, Divide}
    ensures ParseExpr(s, i) == ExprTail(s, BinOp(l, op, r), i + |Toks(BinOp(l, op, r))|)
    decreases BinOp(l, op, r), 2
  {
    var lt, rt := Toks(l), AsTerm(r);
    var opTok := Token(OpKind(op), 0);
    var j := i + |lt|;
    ExprLayout(l, op, r);
    LaidAround(s, i, lt, opTok, rt);
    ExprStep(s, i, l, op, r, j, j + 1 + |rt|);
  }

  /** A `+` or `-` node laid out as an expression: its left operand as an expression, then the operator, then its right operand as a term. */
  lemma {:induction false} ExprStep(s: Stream, i: nat, l: Node, op: Op, r: Node, j: nat, e: nat)
    requires IsAdditive(op) && Lexable(l) && Lexable(r)
    requires Laid(s, i, Toks(l)) && j == i + |Toks(l)| && Cur(s, j) == Token(OpKind(op), 0)
    requires Laid(s, j + 1, AsTerm(r)) && e == j + 1 + |AsTerm(r)|
    requires Follows(Cur(s, e).kind) && Cur(s, e).kind !in {Multiply, Divide}
    ensures ParseExpr(s, i) == ExprTail(s, BinOp(l, op, r), e)
    decreases BinOp(l, op, r), 1
  {
    ExprPrefix(s, i, l);
    ExprRight(s, l, op, r, j, e);
  }

  /** After the left operand of a `+` or `-` node, the loop of `expr` takes the operator and the right operand. */
  lemma {:induction false} ExprRight(s: Stream, l: Node, op: Op, r: Node, j: nat, e: nat)
    requires IsAdditive(op) && Lexable(r) && Cur(s, j) == Token(OpKind(op), 0)
    requires Laid(s, j + 1, AsTerm(r)) && e == j + 1 + |AsTerm(r)|
    requires Follows(Cur(s, e).kind) && Cur(s, e).kind !in {Multiply, Divide}
    ensures ExprTail(s, l, j) == ExprTail(s, BinOp(l, op, r), e)
    decreases BinOp(l, op, r), 0
  {
    TermPrefix(s, j + 1, r);
    ExprTailStep(s, l, j, op, r, e);
  }

  /** Parsing the printed tokens of a tree gives the tree back and consumes all of them. */
  lemma ParseRoundTrip(t: Node)
    requires Lexable(t)
    ensures ParseExpr(Stream(Toks(t), AtEof), 0) == Ok((t, |Toks(t)|))
  {
    WholeStream(Toks(t));
    CompleteExpr(Stream(Toks(t), AtEof), 0, t);
  }

  /** A stream that ends at EOF lays out all its tokens from index 0, and EOF comes after them. */
  lemma WholeStream(ts: seq<Token>)
    ensures Laid(Stream(ts, AtEof), 0, ts) && Cur(Stream(ts, AtEof), |ts|).kind == Eof
  {
    assert ts[0..|ts|] == ts;
  }

  /** An expression printed from `i` on and followed by `)` or the end of input is parsed whole, and parsing stops there. */
  lemma CompleteExpr(s: Stream, i: nat, t: Node)
    requires Lexable(t) && Laid(s, i, Toks(t)) && Cur(s, i + |Toks(t)|).kind in {RParen, Eof}
    ensures ParseExpr(s, i) == Ok((t, i + |Toks(t)|))
  {
    ExprPrefix(s, i, t);
  }

  function DigitChar(d: nat): (c: char)
    requires d < 10
    ensures IsDigit(c) && DigitValue(c) == d
  {
    ('0' as int + d) as char
  }

  /** `str(n)` for a non-negative integer: decimal, no leading zeros. */
  function Digits(n: nat): (s: string)
    ensures |s| > 0
  {
    if n < 10 then [DigitChar(n)] else Digits(n / 10) + [DigitChar(n % 10)]
  }

  /** The decimal digits of `n` are digits, and reading them back gives `n`. */
  lemma {:induction false} DigitsValue(n: nat)
    ensures AllDigits(Digits(n)) && DecimalValue(Digits(n)) == n
  {
    var s := Digits(n);
    if n >= 10 {
      DigitsValue(n / 10);
      assert s[..|s| - 1] == Digits(n / 10);
    } else {
      assert s[..|s| - 1] == [];
    }
  }

  function Spell(tok: Token): (s: string)
    requires Printable(tok)
    ensures |s| > 0
  {
    if tok.kind == Integer then Digits(tok.value) else [SymbolChar(tok.kind)]
  }

  predicate AllPrintable(ts: seq<Token>) {
    forall k | 0 <= k < |ts| :: Printable(ts[k])
  }

  lemma PrintableConcat(a: seq<Token>, b: seq<Token>)
    requires AllPrintable(a) && AllPrintable(b)
    ensures AllPrintable(a + b)
  {
    forall k | 0 <= k < |a + b|
      ensures Printable((a + b)[k])
    {
      if k >= |a| {
        assert (a + b)[k] == b[k - |a|];
      }
    }
  }

  /** The printer only emits tokens it can spell. */
  lemma {:induction false} ToksPrintable(t: Node)
    requires Lexable(t)
    ensures AllPrintable(Toks(t)) && AllPrintable(AsTerm(t)) && AllPrintable(AsFactor(t))
  {
    match t
    case Missing =>
    case Num(v) =>
    case BinOp(l, op, r) =>
      ToksPrintable(l);
      ToksPrintable(r);
      var opTok := [Token(OpKind(op), 0)];
      if IsAdditive(op) {
        PrintableConcat(Toks(l), opTok);
        PrintableConcat(Toks(l) + opTok, AsTerm(r));
      } else {
        PrintableConcat(AsTerm(l), opTok);
        PrintableConcat(AsTerm(l) + opTok, AsFactor(r));
      }
      PrintableConcat([Token(LParen, 0)], Toks(t));
      PrintableConcat([Token(LParen, 0)] + Toks(t), [Token(RParen, 0)]);
  }

  /** Words separated and ended by one space each. */
  function Join(ws: seq<string>): (text: string)
    ensures |text| >= |ws|
  {
    if ws == [] then "" else ws[0] + " " + Join(ws[1..])
  }

  /** The spelling of each token. */
  function Words(ts: seq<Token>): (ws: seq<string>)
    requires AllPrintable(ts)
    ensures |ws| == |ts|
  {
    seq(|ts|, k requires 0 <= k < |ts| && AllPrintable(ts) => Spell(ts[k]))
  }

  /** The text of a token sequence: each token followed by one space. */
  function Render(ts: seq<Token>): (text: string)
    requires AllPrintable(ts)
    ensures |text| >= |ts|
  {
    Join(Words(ts))
  }

  /** The lexer reads the word `w` as `tok` (when a non-digit follows it):
      a run of digits with the token's value, or the one character of a symbol. */
  predicate Reads(w: string, tok: Token) {
    if tok.kind == Integer then |w| > 0 && AllDigits(w) && DecimalValue(w) == tok.value
    else |w| == 1 && SymbolKind(w[0]) == Some(tok.kind) && tok.value == 0
  }

  /** Each word reads as the token at the same place. */
  predicate ReadAs(ws: seq<string>, ts: seq<Token>) {
    |ws| == |ts| && forall k | 0 <= k < |ts| :: Reads(ws[k], ts[k])
  }

  /** The printer's spelling of a token reads back as that token. */
  lemma SpellReads(tok: Token)
    requires Printable(tok)
    ensures Reads(Spell(tok), tok)
  {
    if tok.kind == Integer {
      DigitsValue(tok.value);
    } else {
      SymbolCharKind(tok.kind);
    }
  }

  lemma WordsReadAs(ts: seq<Token>)
    requires AllPrintable(ts)
    ensures ReadAs(Words(ts), ts)
  {
    forall k | 0 <= k < |ts|
      ensures Reads(Words(ts)[k], ts[k])
    {
      SpellReads(ts[k]);
    }
  }

  /** The text from `p` to the end is the words `ws`, joined. */
  predicate JoinedAt(text: string, p: nat, ws: seq<string>) {
    p <= |text| && text[p..] == Join(ws)
  }

  /** `w` stands in `text` from `p` on, and a space follows it. */
  predicate WordAt(text: string, p: nat, w: string) {
    p + |w| < |text| && text[p..p + |w|] == w && text[p + |w|] == ' '
  }

  /** Joined text starts with the first word and a space, then joins the rest. */
  lemma JoinHead(text: string, p: nat, ws: seq<string>)
    requires ws != [] && JoinedAt(text, p, ws)
    ensures WordAt(text, p, ws[0]) && JoinedAt(text, p + |ws[0]| + 1, ws[1..])
  {
    var w := ws[0];
    var q := p + |w|;
    assert text[p..] == w + " " + Join(ws[1..]);
    assert text[p..q] == text[p..][..|w|];
    assert text[q] == text[p..][|w|];
    assert text[q + 1..] == text[p..][|w| + 1..];
  }

  /** The lexer reads a word back, and the cursor lands on the space after it. */
  lemma LexWord(text: string, p: nat, w: string, tok: Token)
    requires Reads(w, tok) && WordAt(text, p, w)
    ensures NextToken(text, p) == Ok((tok, p + |w|))
  {
    var q := p + |w|;
    assert text[p] == w[0];
    if tok.kind == Integer {
      assert forall i | p <= i < q :: IsDigit(text[i]) by {
        forall i | p <= i < q
          ensures IsDigit(text[i])
        {
          assert text[i] == w[i - p];
        }
      }
      MaximalMunch(text, p);
      assert DigitRunEnd(text, p) == q;
    } else {
      SingleCharacterTokens(text, p);
    }
  }

  lemma StreamCons(text: string, p: nat, tok: Token, q: nat)
    requires NextToken(text, p) == Ok((tok, q)) && tok.kind != Eof
    ensures TokenStream(text, p) == Stream([tok] + TokenStream(text, q).tokens, TokenStream(text, q).end)
  {
  }

  /** Lexing from `p` on hands out exactly `ts` and then EOF. */
  predicate LexesTo(text: string, p: nat, ts: seq<Token>) {
    TokenStream(text, p) == Stream(ts, AtEof)
  }

  /** At the end of the text the lexer hands out EOF and nothing else. */
  lemma LexEnd(text: string, p: nat)
    requires p == |text|
    ensures LexesTo(text, p, [])
  {
    EofIffBlank(text, p);
    EofIsStable(text, p);
  }

  /** A word that reads as `tok`, then a space: the lexer hands out `tok` and carries on after the space. */
  lemma LexStep(text: string, p: nat, w: string, tok: Token, q: nat)
    requires Reads(w, tok) && WordAt(text, p, w) && q == p + |w| + 1
    ensures TokenStream(text, p) == Stream([tok] + TokenStream(text, q).tokens, TokenStream(text, q).end)
  {
    LexWord(text, p, w, tok);
    WhitespaceInsensitive(text, p + |w|, q);
    StreamCons(text, p, tok, p + |w|);
  }

  /** Where each word starts when `ws` is joined from `p` on, and where the joined text ends. */
  function Starts(p: nat, ws: seq<string>): (ps: seq<nat>)
    ensures |ps| == |ws| + 1 && ps[0] == p
    decreases |ws|
  {
    if ws == [] then [p] else [p] + Starts(p + |ws[0]| + 1, ws[1..])
  }

  /** The marks `ps` cut `text` into the words `ws`, each followed by one
      space, and the last mark is the end of the text. */
  predicate Spaced(text: string, ps: seq<nat>, ws: seq<string>) {
    && |ps| == |ws| + 1 && ps[|ws|] == |text|
    && forall k | 0 <= k < |ws| :: WordAt(text, ps[k], ws[k]) && ps[k + 1] == ps[k] + |ws[k]| + 1
  }

  lemma {:induction false} JoinedSpaced(text: string, p: nat, ws: seq<string>)
    requires JoinedAt(text, p, ws)
    ensures Spaced(text, Starts(p, ws), ws)
    decreases |ws|
  {
    if ws != [] {
      JoinHead(text, p, ws);
      var q := p + |ws[0]| + 1;
      JoinedSpaced(text, q, ws[1..]);
      var ps, qs := Starts(p, ws), Starts(q, ws[1..]);
      assert ps == [p] + qs;
      forall k | 0 <= k < |ws|
        ensures WordAt(text, ps[k], ws[k]) && ps[k + 1] == ps[k] + |ws[k]| + 1
      {
        if k > 0 {
          assert ps[k] == qs[k - 1] && ps[k + 1] == qs[k] && ws[k] == ws[1..][k - 1];
        }
      }
    }
  }

  /** Streams each of which is one token followed by the next one, down to EOF. */
  lemma {:induction false} Chain(ss: seq<Stream>, ts: seq<Token>)
    requires |ss| == |ts| + 1 && ss[|ts|] == Stream([], AtEof)
    requires forall k | 0 <= k < |ts| :: ss[k] == Stream([ts[k]] + ss[k + 1].tokens, ss[k + 1].end)
    ensures ss[0] == Stream(ts, AtEof)
    decreases |ts|
  {
    if ts != [] {
      forall k | 0 <= k < |ts| - 1
        ensures ss[1..][k] == Stream([ts[1..][k]] + ss[1..][k + 1].tokens, ss[1..][k + 1].end)
      {
        assert ss[1..][k] == ss[k + 1] && ss[1..][k + 1] == ss[k + 2] && ts[1..][k] == ts[k + 1];
      }
      Chain(ss[1..], ts[1..]);
      assert [ts[0]] + ts[1..] == ts;
    }
  }

  /** The stream the lexer hands out from each mark. */
  function StreamsFrom(text: string, ps: seq<nat>): (ss: seq<Stream>)
    ensures |ss| == |ps|
    ensures forall k | 0 <= k < |ps| :: ss[k] == TokenStream(text, ps[k])
  {
    seq(|ps|, k requires 0 <= k < |ps| => TokenStream(text, ps[k]))
  }

  /** From each mark the lexer hands out the word's token and carries on from the next mark; from the last it hands out EOF. */
  lemma LexSteps(text: string, ps: seq<nat>, ws: seq<string>, ts: seq<Token>)
    requires ReadAs(ws, ts) && Spaced(text, ps, ws)
    ensures var ss := StreamsFrom(text, ps);
      && ss[|ts|] == Stream([], AtEof)
      && forall k | 0 <= k < |ts| :: ss[k] == Stream([ts[k]] + ss[k + 1].tokens, ss[k + 1].end)
  {
    var ss := StreamsFrom(text, ps);
    forall k | 0 <= k < |ts|
      ensures ss[k] == Stream([ts[k]] + ss[k + 1].tokens, ss[k + 1].end)
    {
      LexStep(text, ps[k], ws[k], ts[k], ps[k + 1]);
    }
    LexEnd(text, ps[|ts|]);
  }

  /** Lexing joined words from `p` on gives the tokens they read as, and reaches EOF. */
  lemma LexJoin(text: string, p: nat, ws: seq<string>, ts: seq<Token>)
    requires ReadAs(ws, ts) && JoinedAt(text, p, ws)
    ensures LexesTo(text, p, ts)
  {
    var ps := Starts(p, ws);
    JoinedSpaced(text, p, ws);
    LexSteps(text, ps, ws, ts);
    Chain(StreamsFrom(text, ps), ts);
  }

  /** Lexing rendered tokens gives those tokens and reaches EOF. */
  lemma LexRender(ts: seq<Token>)
    requires AllPrintable(ts)
    ensures TokenStream(Render(ts), 0) == Stream(ts, AtEof)
  {
    WordsReadAs(ts);
    LexJoin(Render(ts), 0, Words(ts), ts);
  }

  /** Evaluating the printed text of a tree parses that very tree and evaluates it.
      A missing tree prints as the empty text, which `evaluate` does not accept. */
  lemma TextRoundTrip(t: Node)
    requires Lexable(t) && t != Missing
    ensures (ToksPrintable(t); Calculate(Render(Toks(t))) == (var v :- Visit(t); Ok((t, v))))
  {
    ToksPrintable(t);
    LexRender(Toks(t));
    ParseRoundTrip(t);
  }

  function Lit(v: nat): Token {
    Token(Integer, v)
  }

  function OpToken(op: Op): Token {
    Token(OpKind(op), 0)
  }

  /** The printed tokens of a single literal, wherever it stands. */
  lemma LitTokens(v: nat)
    ensures Toks(Num(v)) == AsTerm(Num(v)) == AsFactor(Num(v)) == [Lit(v)]
  {
  }

  /** `a op1 b op2 c` with `op2` binding tighter: the second operation is the right operand of the first. */
  lemma TighterOnTheRight(a: nat, op1: Op, b: nat, op2: Op, c: nat)
    requires IsAdditive(op1) && !IsAdditive(op2)
    ensures ParseExpr(Stream([Lit(a), OpToken(op1), Lit(b), OpToken(op2), Lit(c)], AtEof), 0)
      == Ok((BinOp(Num(a), op1, BinOp(Num(b), op2, Num(c))), 5))
  {
    LitTokens(a);
    LitTokens(b);
    LitTokens(c);
    var r := BinOp(Num(b), op2, Num(c));
    var t := BinOp(Num(a), op1, r);
    assert Lexable(r) && Lexable(t);
    assert AsTerm(r) == [Lit(b), OpToken(op2), Lit(c)];
    assert Toks(t) == [Lit(a), OpToken(op1), Lit(b), OpToken(op2), Lit(c)];
    ParseRoundTrip(t);
  }

  /** `a op1 b op2 c` with `op1` binding tighter: the first operation is the left operand of the second. */
  lemma TighterOnTheLeft(a: nat, op1: Op, b: nat, op2: Op, c: nat)
    requires !IsAdditive(op1) && IsAdditive(op2)
    ensures ParseExpr(Stream([Lit(a), OpToken(op1), Lit(b), OpToken(op2), Lit(c)], AtEof), 0)
      == Ok((BinOp(BinOp(Num(a), op1, Num(b)), op2, Num(c)), 5))
  {
    LitTokens(a);
    LitTokens(b);
    LitTokens(c);
    var l := BinOp(Num(a), op1, Num(b));
    var t := BinOp(l, op2, Num(c));
    assert Lexable(l) && Lexable(t);
    assert Toks(l) == [Lit(a), OpToken(op1), Lit(b)];
    assert Toks(t) == [Lit(a), OpToken(op1), Lit(b), OpToken(op2), Lit(c)];
    ParseRoundTrip(t);
  }

  /** Operators of one precedence fold to the left: `10 - 2 - 3` is `(10 - 2) - 3`. */
  lemma LeftAssociative(a: nat, op1: Op, b: nat, op2: Op, c: nat)
    requires IsAdditive(op1) == IsAdditive(op2)
    ensures ParseExpr(Stream([Lit(a), OpToken(op1), Lit(b), OpToken(op2), Lit(c)], AtEof), 0)
      == Ok((BinOp(BinOp(Num(a), op1, Num(b)), op2, Num(c)), 5))
  {
    LitTokens(a);
    LitTokens(b);
    LitTokens(c);
    var l := BinOp(Num(a), op1, Num(b));
    var t := BinOp(l, op2, Num(c));
    assert Lexable(l) && Lexable(t);
    assert Toks(l) == [Lit(a), OpToken(op1), Lit(b)];
    if !IsAdditive(op2) {
      assert AsTerm(l) == Toks(l);
    }
    assert Toks(t) == [Lit(a), OpToken(op1), Lit(b), OpToken(op2), Lit(c)];
    ParseRoundTrip(t);
  }

  /** An opening parenthesis whose expression runs to the end of the input: `factor`
      reaches `eat(RPAREN)` with EOF and raises `Invalid syntax`. */
  lemma UnclosedParenthesis(t: Node)
    requires Lexable(t)
    ensures ParseExpr(Stream([Token(LParen, 0)] + Toks(t), AtEof), 0) == Err(InvalidSyntax)
  {
    var ts := Toks(t);
    var s := Stream([Token(LParen, 0)] + ts, AtEof);
    assert Laid(s, 1, ts) by {
      assert s.tokens[1..1 + |ts|] == ts;
    }
    assert Cur(s, 1 + |ts|) == EofToken;
    CompleteExpr(s, 1, t);
    assert ParseFactor(s, 0) == Err(InvalidSyntax);
  }

  /** Text that opens a parenthesis and never closes it is a syntax error. */
  lemma UnclosedParenthesisText(t: Node)
    requires Lexable(t)
    ensures (ToksPrintable(t); Calculate(Render([Token(LParen, 0)] + Toks(t))) == Err(InvalidSyntax))
  {
    ToksPrintable(t);
    var ts := [Token(LParen, 0)] + Toks(t);
    LexRender(ts);
    UnclosedParenthesis(t);
  }

  /** `evaluate` parses one expression and never looks for EOF: when the
      text lexes to a printed tree, a stray `)` and then anything at all,
      even a character the lexer rejects, the result is the tree and its
      value. The parser never fetches the token after the `)`. */
  lemma StrayParenthesis(text: string, t: Node, rest: seq<Token>, end: End)
    requires Lexable(t) && TokenStream(text, 0) == Stream(Toks(t) + [Token(RParen, 0)] + rest, end)
    ensures |text| > 0 && Calculate(text) == (var v :- Visit(t); Ok((t, v)))
  {
    var s := TokenStream(text, 0);
    var n := |Toks(t)|;
    assert Laid(s, 0, Toks(t)) && Cur(s, n) == Token(RParen, 0) by {
      assert s.tokens[0..n] == Toks(t);
      assert s.tokens[n] == Token(RParen, 0);
    }
    CompleteExpr(s, 0, t);
  }

  /** Printable tokens on both sides of a `)` make a printable sequence. */
  lemma PrintableAround(a: seq<Token>, b: seq<Token>)
    requires AllPrintable(a) && AllPrintable(b)
    ensures AllPrintable(a + [Token(RParen, 0)] + b)
  {
    var ts := a + [Token(RParen, 0)] + b;
    forall k | 0 <= k < |ts|
      ensures Printable(ts[k])
    {
      if k > |a| {
        assert ts[k] == b[k - |a| - 1];
      }
    }
  }

  /** On printed text: whatever follows a stray `)` is ignored, and the result is the tree before it and its value. */
  lemma TrailingTokensIgnored(t: Node, rest: seq<Token>)
    requires Lexable(t) && AllPrintable(rest)
    ensures var ts := Toks(t) + [Token(RParen, 0)] + rest;
      (ToksPrintable(t); PrintableAround(Toks(t), rest);
      Calculate(Render(ts)) == (var v :- Visit(t); Ok((t, v))))
  {
    ToksPrintable(t);
    var ts := Toks(t) + [Token(RParen, 0)] + rest;
    PrintableAround(Toks(t), rest);
    LexRender(ts);
    StrayParenthesis(Render(ts), t, rest, AtEof);
  }
}

/** The recursive-descent parser (`Parser`, CalculatorInterpreter.py:92-144).

    Grammar:  expr   := term ((PLUS | MINUS) term)*
              term   := factor ((MULTIPLY | DIVIDE) factor)*
              factor := INTEGER | LPAREN expr RPAREN

    The specification functions read the tokens the lexer will hand out
    (a `Stream`) by index: index `i` is the token held in `current_token`.
    `ParseTerm`/`TermTail` and `ParseExpr`/`ExprTail` are the `while` loops
    of `term` and `expr` written as recursion on the accumulated tree. The
    class `Parser` is the parser itself, proved to agree with them. */
module Parsing {
  import opened Basics
  import opened Tokens
  import opened Lexing
  import opened Ast

  /** The token at index `i`; past the lexed tokens, EOF. */
  function Cur(s: Stream, i: nat): Token {
    if i < |s.tokens| then s.tokens[i] else EofToken
  }

  /** Fetching the token at index `i` does not raise: it was lexed, or the lexer reached EOF. */
  predicate Live(s: Stream, i: nat) {
    i < |s.tokens| || s.end == AtEof
  }

  /** How many lexed tokens are left from index `i` on. */
  function Rem(s: Stream, i: nat): nat {
    if i < |s.tokens| then |s.tokens| - i else 0
  }

  /** `eat(kind)` with the lookahead at index `i`: the index afterwards. */
  function Consume(s: Stream, i: nat, kind: Kind): Result<nat> {
    if Cur(s, i).kind != kind then Err(InvalidSyntax)
    else if Live(s, i + 1) then Ok(i + 1)
    else Err(InvalidCharacter)
  }

  function OpOf(kind: Kind): Op
    requires kind in {Plus, Minus, Multiply, Divide}
  {
    match kind
    case Plus => Add
    case Minus => Sub
    case Multiply => Mul
    case Divide => Div
  }

  /** `factor`: a literal, a parenthesised expression, or — for any other
      lookahead — a missing subtree with nothing consumed. */
  function ParseFactor(s: Stream, i: nat): (r: Result<(Node, nat)>)
    ensures r.Ok? ==> i <= r.value.1
    decreases Rem(s, i), 0
  {
    var token := Cur(s, i);
    if token.kind == Integer then
      var j :- Consume(s, i, Integer);
      Ok((Num(token.value), j))
    else if token.kind == LParen then
      var j :- Consume(s, i, LParen);
      var inner :- ParseExpr(s, j);
      var k :- Consume(s, inner.1, RParen);
      Ok((inner.0, k))
    else
      Ok((Missing, i))
  }

  /** The loop of `term` with `node` built so far. */
  function TermTail(s: Stream, node: Node, i: nat): (r: Result<(Node, nat)>)
    ensures r.Ok? ==> i <= r.value.1
    decreases Rem(s, i), 1
  {
    var token := Cur(s, i);
    if token.kind == Multiply || token.kind == Divide then
      var j :- Consume(s, i, token.kind);
      var right :- ParseFactor(s, j);
      TermTail(s, BinOp(node, OpOf(token.kind), right.0), right.1)
    else
      Ok((node, i))
  }

  function ParseTerm(s: Stream, i: nat): (r: Result<(Node, nat)>)
    ensures r.Ok? ==> i <= r.value.1
    decreases Rem(s, i), 2
  {
    var first :- ParseFactor(s, i);
    TermTail(s, first.0, first.1)
  }

  /** The loop of `expr` with `node` built so far. */
  function ExprTail(s: Stream, node: Node, i: nat): (r: Result<(Node, nat)>)
    ensures r.Ok? ==> i <= r.value.1
    decreases Rem(s, i), 3
  {
    var token := Cur(s, i);
    if token.kind == Plus || token.kind == Minus then
      var j :- Consume(s, i, token.kind);
      var right :- ParseTerm(s, j);
      ExprTail(s, BinOp(node, OpOf(token.kind), right.0), right.1)
    else
      Ok((node, i))
  }

  function ParseExpr(s: Stream, i: nat): (r: Result<(Node, nat)>)
    ensures r.Ok? ==> i <= r.value.1
    decreases Rem(s, i), 4
  {
    var first :- ParseTerm(s, i);
    ExprTail(s, first.0, first.1)
  }

  /** A parser method's result `r`, with the lookahead left at `index`, is what `spec` describes. */
  predicate Agrees(spec: Result<(Node, nat)>, r: Result<Node>, index: nat) {
    match spec
    case Ok((node, next)) => r == Ok(node) && index == next
    case Err(e) => r == Err(e)
  }

  /** Where the lexer's cursor stands once each token of `TokenStream(text, pos)`
      has been fetched and, when the stream ends at EOF, once EOF has been fetched. */
  ghost function Cursors(text: string, pos: nat): seq<nat>
    decreases |text| - pos
  {
    match NextToken(text, pos)
    case Err(_) => []
    case Ok((token, next)) =>
      if token.kind == Eof then [next] else [next] + Cursors(text, next)
  }

  /** The cursor once the token at index `k` has been fetched; after EOF it no longer moves. */
  function CursorAt(cs: seq<nat>, k: nat): nat {
    if k < |cs| then cs[k] else if cs == [] then 0 else cs[|cs| - 1]
  }

  /** What `get_next_token` returns when it fetches the token at index `k`:
      that token and the cursor after it, or the error that ends the stream. */
  function Fetch(s: Stream, cs: seq<nat>, k: nat): Result<(Token, nat)> {
    if Live(s, k) then Ok((Cur(s, k), CursorAt(cs, k))) else Err(InvalidCharacter)
  }

  /** From the cursor after each token of `s`, `get_next_token` returns the
      next token of `s` and leaves the cursor after that one. */
  ghost predicate Synced(text: string, cs: seq<nat>, s: Stream) {
    && |cs| == |s.tokens| + (if s.end == AtEof then 1 else 0)
    && forall k {:trigger NextToken(text, cs[k])} | 0 <= k < |cs| :: NextToken(text, cs[k]) == Fetch(s, cs, k + 1)
  }

  /** Fetching from a stream that starts with `token` is fetching one index further into the rest. */
  lemma FetchShift(s: Stream, cs: seq<nat>, token: Token, next: nat, rest: Stream, rs: seq<nat>, k: nat)
    requires s == Stream([token] + rest.tokens, rest.end) && cs == [next] + rs
    requires |rs| == |rest.tokens| + (if rest.end == AtEof then 1 else 0)
    ensures Fetch(s, cs, k + 1) == Fetch(rest, rs, k)
  {
  }

  /** The first call of `get_next_token` from `pos` fetches the token at index 0 of
      `TokenStream(text, pos)`, and every later call fetches the next one. */
  lemma {:induction false} CursorsSynced(text: string, pos: nat)
    ensures var s, cs := TokenStream(text, pos), Cursors(text, pos);
      NextToken(text, pos) == Fetch(s, cs, 0) && Synced(text, cs, s)
    decreases |text| - pos
  {
    var s, cs := TokenStream(text, pos), Cursors(text, pos);
    match NextToken(text, pos)
    case Err(_) =>
    case Ok((token, next)) =>
      if token.kind == Eof {
        EofIsStable(text, pos);
      } else {
        var rest, rs := TokenStream(text, next), Cursors(text, next);
        CursorsSynced(text, next);
        assert s == Stream([token] + rest.tokens, rest.end) && cs == [next] + rs;
        forall k | 0 <= k < |cs|
          ensures NextToken(text, cs[k]) == Fetch(s, cs, k + 1)
        {
          if k > 0 {
            assert cs[k] == rs[k - 1];
          }
          FetchShift(s, cs, token, next, rest, rs, k);
        }
      }
  }

  /** With the cursor after the token at a fetchable index `k`, `get_next_token` fetches index `k + 1`. */
  lemma FetchAfter(text: string, cs: seq<nat>, s: Stream, k: nat)
    requires Synced(text, cs, s) && Live(s, k)
    ensures NextToken(text, CursorAt(cs, k)) == Fetch(s, cs, k + 1)
  {
    if k < |cs| {
      assert NextToken(text, cs[k]) == Fetch(s, cs, k + 1);
    } else {
      var last := |cs| - 1;
      assert NextToken(text, cs[last]) == Fetch(s, cs, last + 1);
    }
  }

  class Parser {
    const lexer: Lexer
    var currentToken: Token
    /** Every token the lexer hands out from the parser's creation on. */
    ghost const stream: Stream
    /** Where the lexer's cursor stands once the token at each index of `stream` has been fetched. */
    ghost const cursors: seq<nat>
    /** The position of `currentToken` in `stream`. */
    ghost var index: nat

    /** `currentToken` is the token at `index`, and the lexer's cursor sits
        just past it, so that the next call of `get_next_token` fetches the
        token at `index + 1`. */
    ghost predicate Valid()
      reads this, lexer
    {
      && lexer.Valid()
      && Live(stream, index)
      && currentToken == Cur(stream, index)
      && lexer.pos == CursorAt(cursors, index)
      && Synced(lexer.text, cursors, stream)
    }

    constructor FromFirstToken(lexer: Lexer, ghost stream: Stream, ghost cursors: seq<nat>, first: Token)
      requires lexer.Valid() && Live(stream, 0) && first == Cur(stream, 0)
      requires lexer.pos == CursorAt(cursors, 0) && Synced(lexer.text, cursors, stream)
      ensures Valid() && this.lexer == lexer && this.stream == stream && index == 0
    {
      this.lexer := lexer;
      this.stream := stream;
      this.cursors := cursors;
      currentToken := first;
      index := 0;
    }

    /** `Parser(lexer)`: fetches the first token, which raises on a bad character. */
    static method Create(lexer: Lexer) returns (r: Result<Parser>)
      requires lexer.Valid()
      modifies lexer
      ensures r.Ok? <==> Live(old(TokenStream(lexer.text, lexer.pos)), 0)
      ensures r.Err? ==> r.error == InvalidCharacter
      ensures r.Ok? ==> && fresh(r.value) && r.value.Valid() && r.value.lexer == lexer
                        && r.value.stream == old(TokenStream(lexer.text, lexer.pos)) && r.value.index == 0
    {
      ghost var s, cs := TokenStream(lexer.text, lexer.pos), Cursors(lexer.text, lexer.pos);
      CursorsSynced(lexer.text, lexer.pos);
      var first :- lexer.GetNextToken();
      var p := new Parser.FromFirstToken(lexer, s, cs, first);
      return Ok(p);
    }

    /** `eat(kind)`: on a matching lookahead, fetch the next token; otherwise
        raise `Invalid syntax` without consuming anything. */
    method Eat(kind: Kind) returns (r: Outcome)
      requires Valid()
      modifies this, lexer
      ensures Consume(stream, old(index), kind) == if r.Pass? then Ok(index) else Err(r.error)
      ensures r.Pass? ==> Valid()
      ensures old(currentToken).kind != kind ==>
        r == Fail(InvalidSyntax) && index == old(index) && currentToken == old(currentToken) && lexer.pos == old(lexer.pos)
    {
      if currentToken.kind == kind {
        FetchAfter(lexer.text, cursors, stream, index);
        var next := lexer.GetNextToken();
        if next.Err? {
          return Fail(next.error);
        }
        currentToken := next.value;
        index := index + 1;
        return Pass;
      }
      return Fail(InvalidSyntax);
    }

    method Factor() returns (r: Result<Node>)
      requires Valid()
      modifies this, lexer
      ensures r.Ok? ==> Valid()
      ensures Agrees(ParseFactor(stream, old(index)), r, index)
      decreases Rem(stream, index), 0
    {
      var token := currentToken;
      if token.kind == Integer {
        :- Eat(Integer);
        return Ok(Num(token.value));
      } else if token.kind == LParen {
        :- Eat(LParen);
        var node :- Expr();
        :- Eat(RParen);
        return Ok(node);
      }
      // no else branch: the source falls off the end and returns None
      return Ok(Missing);
    }

    method Term() returns (r: Result<Node>)
      requires Valid()
      modifies this, lexer
      ensures r.Ok? ==> Valid()
      ensures Agrees(ParseTerm(stream, old(index)), r, index)
      decreases Rem(stream, index), 1
    {
      var node :- Factor();
      while currentToken.kind == Multiply || currentToken.kind == Divide
        invariant Valid() && old(index) <= index
        invariant ParseTerm(stream, old(index)) == TermTail(stream, node, index)
        decreases Rem(stream, index)
      {
        var token := currentToken;
        var eaten: Outcome;
        if token.kind == Multiply {
          eaten := Eat(Multiply);
        } else {
          eaten := Eat(Divide);
        }
        :- eaten;
        var right :- Factor();
        node := BinOp(node, OpOf(token.kind), right);
      }
      return Ok(node);
    }

    method Expr() returns (r: Result<Node>)
      requires Valid()
      modifies this, lexer
      ensures r.Ok? ==> Valid()
      ensures Agrees(ParseExpr(stream, old(index)), r, index)
      decreases Rem(stream, index), 2
    {
      var node :- Term();
      while currentToken.kind == Plus || currentToken.kind == Minus
        invariant Valid() && old(index) <= index
        invariant ParseExpr(stream, old(index)) == ExprTail(stream, node, index)
        decreases Rem(stream, index)
      {
        var token := currentToken;
        var eaten: Outcome;
        if token.kind == Plus {
          eaten := Eat(Plus);
        } else {
          eaten := Eat(Minus);
        }
        :- eaten;
        var right :- Term();
        node := BinOp(node, OpOf(token.kind), right);
      }
      return Ok(node);
    }
  }
}

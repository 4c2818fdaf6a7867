/** The driver `evaluate` (CalculatorInterpreter.py:189-194): lex, parse one
    expression, evaluate the tree, and hand back the tree with its value. */
module Calculator {
  import opened Basics
  import opened Lexing
  import opened Ast
  import opened Evaluation
  import opened Parsing

  /** What `evaluate(text)` returns or raises on non-empty text (on empty
      text the `Lexer` constructor raises `IndexError`). Creating the parser
      fetches the first token; `expr` is called once and whatever follows
      the expression it parses is never looked at. */
  function Calculate(text: string): Result<(Node, Value)>
    requires |text| > 0
  {
    var s := TokenStream(text, 0);
    if !Live(s, 0) then Err(InvalidCharacter)
    else
      var parsed :- ParseExpr(s, 0);
      var value :- Visit(parsed.0);
      Ok((parsed.0, value))
  }

  method Evaluate(expression: string) returns (r: Result<(Node, Value)>)
    requires |expression| > 0
    ensures r == Calculate(expression)
  {
    var lexer := new Lexer(expression);
    var parser :- Parser.Create(lexer);
    var tree :- parser.Expr();
    var result :- Visit(tree);
    return Ok((tree, result));
  }
}

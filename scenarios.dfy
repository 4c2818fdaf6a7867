/** Whole runs of `evaluate` on particular inputs. */
module Scenarios {
  import opened Basics
  import opened Tokens
  import opened Lexing
  import opened Ast
  import opened Evaluation
  import opened Parsing
  import opened Calculator

  /** `5/0` lexes to 5, `/`, 0 and EOF. */
  lemma FiveOverZeroLexes()
    ensures TokenStream("5/0", 0) == Stream([Token(Integer, 5), Token(Divide, 0), Token(Integer, 0)], AtEof)
  {
  }

  lemma DivisionByZeroExample()
    ensures Calculate("5/0") == Err(DivisionByZero)
  {
    FiveOverZeroLexes();
  }

  /** `3+a` lexes to 3 and `+`, then the lexer raises on `a`. */
  lemma ThreePlusALexes()
    ensures TokenStream("3+a", 0) == Stream([Token(Integer, 3), Token(Plus, 0)], Bad)
  {
  }

  lemma InvalidCharacterExample()
    ensures Calculate("3+a") == Err(InvalidCharacter)
  {
    ThreePlusALexes();
  }

  /** `*5` lexes to `*`, 5 and EOF. */
  lemma TimesFiveLexes()
    ensures TokenStream("*5", 0) == Stream([Token(Multiply, 0), Token(Integer, 5)], AtEof)
  {
  }

  lemma LeadingOperator()
    ensures Calculate("*5") == Err(TypeError)
  {
    TimesFiveLexes();
  }

  /** `1 2` lexes to 1, 2 and EOF. */
  lemma OneTwoLexes()
    ensures TokenStream("1 2", 0) == Stream([Token(Integer, 1), Token(Integer, 2)], AtEof)
  {
  }

  lemma TrailingIgnored()
    ensures Calculate("1 2") == Ok((Num(1), Number(1.0)))
  {
    OneTwoLexes();
  }
}

/** Failure-compatible wrappers shared by the lexer, the parser and the
    evaluator. The interpreter signals every problem by raising an
    exception; here each exception becomes an `Error` value. */
module Basics {

  datatype Option<T> = None | Some(value: T)

  /** The exceptions the pipeline can raise. */
  datatype Error =
    | InvalidCharacter   // Lexer.error()
    | InvalidSyntax      // Parser.error()
    | DivisionByZero     // ZeroDivisionError raised by visit
    | TypeError          // arithmetic on the None that a missing factor evaluates to

  datatype Result<T> = Ok(value: T) | Err(error: Error) {
    predicate IsFailure() { Err? }

    function PropagateFailure<U>(): Result<U>
      requires Err?
    {
      Err(error)
    }

    function Extract(): T
      requires Ok?
    {
      value
    }
  }

  /** A step that either completes or raises, with nothing to return. */
  datatype Outcome = Pass | Fail(error: Error) {
    predicate IsFailure() { Fail? }

    function PropagateFailure<U>(): Result<U>
      requires Fail?
    {
      Err(error)
    }
  }
}

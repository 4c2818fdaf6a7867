/** The syntax tree nodes `Num` and `BinOp` (CalculatorInterpreter.py:146-169). */
module Ast {

  /** The operator token a `BinOp` carries, reduced to its kind. */
  datatype Op = Add | Sub | Mul | Div

  /** `Missing` is the `None` that `factor` returns when the lookahead is
      neither an integer nor `(`; it can stand wherever a subtree can. */
  datatype Node = Missing | Num(value: int) | BinOp(left: Node, op: Op, right: Node)

  predicate IsAdditive(op: Op) {
    op == Add || op == Sub
  }

  /** No subtree is missing. */
  predicate Complete(t: Node) {
    match t
    case Missing => false
    case Num(_) => true
    case BinOp(l, _, r) => Complete(l) && Complete(r)
  }

  predicate HasDivision(t: Node) {
    match t
    case Missing => false
    case Num(_) => false
    case BinOp(l, op, r) => op == Div || HasDivision(l) || HasDivision(r)
  }
}

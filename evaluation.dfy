/** The tree evaluator `visit` (CalculatorInterpreter.py:171-186).

    Python numbers become `real`: `+ - *` on integer operands stay integers
    and `/` yields the exact quotient. `visit(None)` falls through every
    `isinstance` test and returns None, and the arithmetic that later meets
    that None raises `TypeError`. */
module Evaluation {
  import opened Basics
  import opened Ast

  datatype Value = Null | Number(x: real)

  /** The arithmetic of one node on already evaluated operands. */
  function Apply(op: Op, a: Value, b: Value): (r: Result<Value>)
    requires op == Div ==> b != Number(0.0)
    ensures r.Err? <==> a.Null? || b.Null?
    ensures r.Err? ==> r.error == TypeError
  {
    if a.Null? || b.Null? then Err(TypeError)
    else
      match op
      case Add => Ok(Number(a.x + b.x))
      case Sub => Ok(Number(a.x - b.x))
      case Mul => Ok(Number(a.x * b.x))
      case Div => Ok(Number(a.x / b.x))
  }

  /** `visit`: a division evaluates its right operand first and raises
      before touching the left one when that operand is zero. */
  function Visit(node: Node): (r: Result<Value>)
    ensures (r.Ok? && r.value.Null?) <==> node.Missing?
    ensures r == Err(DivisionByZero) ==> HasDivision(node)
    ensures r.Err? ==> node.BinOp?
  {
    match node
    case Missing => Ok(Null)
    case Num(v) => Ok(Number(v as real))
    case BinOp(left, op, right) =>
      if op == Div then
        var rv :- Visit(right);
        if rv == Number(0.0) then Err(DivisionByZero)
        else
          var lv :- Visit(left);
          Apply(op, lv, rv)
      else
        var lv :- Visit(left);
        var rv :- Visit(right);
        Apply(op, lv, rv)
  }

  /** The same evaluator with the left operand always evaluated first, the
      order the other three operators use. */
  function LeftToRight(node: Node): Result<Value> {
    match node
    case Missing => Ok(Null)
    case Num(v) => Ok(Number(v as real))
    case BinOp(left, op, right) =>
      var lv :- LeftToRight(left);
      var rv :- LeftToRight(right);
      if op == Div && rv == Number(0.0) then Err(DivisionByZero)
      else Apply(op, lv, rv)
  }

  /** The integer a tree without missing parts and without division denotes. */
  function IntegerValue(t: Node): int
    requires Complete(t) && !HasDivision(t)
  {
    match t
    case Num(v) => v
    case BinOp(l, op, r) =>
      match op
      case Add => IntegerValue(l) + IntegerValue(r)
      case Sub => IntegerValue(l) - IntegerValue(r)
      case Mul => IntegerValue(l) * IntegerValue(r)
  }

  /** The exact arithmetic of one operator on two numbers. */
  function Exact(op: Op, a: real, b: real): real
    requires op == Div ==> b != 0.0
  {
    match op
    case Add => a + b
    case Sub => a - b
    case Mul => a * b
    case Div => a / b
  }

  /** The exact value of a tree with no missing part, or None when some
      divisor in it has the value zero. No evaluation order is involved. */
  function RealValue(t: Node): Option<real>
    requires Complete(t)
  {
    match t
    case Num(v) => Some(v as real)
    case BinOp(l, op, r) =>
      var a, b := RealValue(l), RealValue(r);
      if a.None? || b.None? || (op == Div && b.value == 0.0) then None
      else Some(Exact(op, a.value, b.value))
  }

  /** On a tree with no missing part, evaluation raises DivisionByZero exactly
      when some divisor is zero, and otherwise gives the exact value. */
  lemma {:induction false} VisitIsExact(t: Node)
    requires Complete(t)
    ensures Visit(t) == (if RealValue(t).None? then Err(DivisionByZero) else Ok(Number(RealValue(t).value)))
  {
    match t
    case Num(_) =>
    case BinOp(l, op, r) =>
      VisitIsExact(l);
      VisitIsExact(r);
      var a, b := RealValue(l), RealValue(r);
      if a.Some? && b.Some? && !(op == Div && b.value == 0.0) {
        ApplyExact(op, a.value, b.value);
      }
  }

  /** On two numbers, `Apply` is the exact arithmetic of the operator. */
  lemma ApplyExact(op: Op, a: real, b: real)
    requires op == Div ==> b != 0.0
    ensures Apply(op, Number(a), Number(b)) == Ok(Number(Exact(op, a, b)))
  {
    var v := Apply(op, Number(a), Number(b));
    assert v.Ok? && v.value == Number(Exact(op, a, b));
    assert v == Ok(v.value);
  }

  /** `5 / (1 - 1)`: a divisor that evaluates to zero, not only a literal zero, raises. */
  lemma ComputedZeroDivisor()
    ensures Visit(BinOp(Num(5), Div, BinOp(Num(1), Sub, Num(1)))) == Err(DivisionByZero)
  {
    VisitIsExact(BinOp(Num(5), Div, BinOp(Num(1), Sub, Num(1))));
  }

  /** A tree with no missing part evaluates to a number or raises DivisionByZero, never TypeError. */
  lemma {:induction false} CompleteTreeEvaluates(t: Node)
    requires Complete(t)
    ensures Visit(t) == Err(DivisionByZero) || (Visit(t).Ok? && Visit(t).value.Number?)
  {
    match t
    case Num(_) =>
    case BinOp(l, op, r) =>
      CompleteTreeEvaluates(l);
      CompleteTreeEvaluates(r);
  }

  /** Without division, evaluation succeeds with the integer value of the tree. */
  lemma {:induction false} DivisionFreeIsInteger(t: Node)
    requires Complete(t) && !HasDivision(t)
    ensures Visit(t) == Ok(Number(IntegerValue(t) as real))
  {
    match t
    case Num(_) =>
    case BinOp(l, op, r) =>
      DivisionFreeIsInteger(l);
      DivisionFreeIsInteger(r);
      if op == Mul {
        VisitProduct(l, r);
        ApplyMul(IntegerValue(l), IntegerValue(r));
      }
  }

  /** A product node applies `*` to the values of its operands. */
  lemma VisitProduct(l: Node, r: Node)
    requires Visit(l).Ok? && Visit(r).Ok?
    ensures Visit(BinOp(l, Mul, r)) == Apply(Mul, Visit(l).value, Visit(r).value)
  {
  }

  /** `*` on two integers gives the number of their integer product. */
  lemma ApplyMul(a: int, b: int)
    ensures Apply(Mul, Number(a as real), Number(b as real)) == Ok(Number((a * b) as real))
  {
    var v := Apply(Mul, Number(a as real), Number(b as real));
    assert v.Ok? && v.value == Number(a as real * b as real);
    ProductAsReal(a, b);
    assert v == Ok(v.value);
  }

  /** Multiplying integers and then converting agrees with multiplying the converted reals. */
  lemma {:induction false} ProductAsReal(a: int, b: int)
    ensures (a * b) as real == a as real * b as real
    decreases if b < 0 then -b else b, if b < 0 then 1 else 0
  {
    if b < 0 {
      ProductAsReal(a, -b);
      assert a * b == -(a * -b);
    } else if b > 0 {
      ProductAsReal(a, b - 1);
      assert a * b == a * (b - 1) + a;
      assert a as real * b as real == a as real * (b - 1) as real + a as real;
    }
  }

  /** A missing operand anywhere below the root makes evaluation raise. */
  lemma {:induction false} MissingOperandFails(t: Node)
    requires t.BinOp? && !Complete(t)
    ensures Visit(t).Err?
  {
    var BinOp(l, op, r) := t;
    if !Complete(r) && r.BinOp? {
      MissingOperandFails(r);
    }
    if !Complete(l) && l.BinOp? {
      MissingOperandFails(l);
    }
  }

  /** On trees with no missing part, evaluating the divisor first is unobservable. */
  lemma {:induction false} OrderIrrelevantWhenComplete(t: Node)
    requires Complete(t)
    ensures Visit(t) == LeftToRight(t)
  {
    match t
    case Num(_) =>
    case BinOp(l, op, r) =>
      OrderIrrelevantWhenComplete(l);
      OrderIrrelevantWhenComplete(r);
      CompleteTreeEvaluates(l);
      CompleteTreeEvaluates(r);
  }

  /** With a missing operand the order shows: `(+) / 0` raises DivisionByZero, where
      left-first evaluation would have raised TypeError. */
  lemma OrderObservableWithMissing()
    ensures var t := BinOp(BinOp(Missing, Add, Missing), Div, Num(0));
      Visit(t) == Err(DivisionByZero) && LeftToRight(t) == Err(TypeError)
  {
  }
}

/** The numeric layer of the calculator (`calculator.py`): values, the four
    operators, their priorities and the dispatcher `basic_operation`. */
module Arithmetic {
  import opened Wrappers

  /** A Python float as the calculator sees it. Finite values are exact reals
      (no rounding, no overflow, no signed zero); the three non-finite values
      follow the IEEE-754 rules once they exist. */
  datatype Value = Fin(x: real) | PosInf | NegInf | NaN

  /** The four operators of the dispatch table in `basic_operation`. */
  datatype Operator = Add | Sub | Mul | Div

  /** The ways an evaluation can fail. `UnknownVariable` and `UnsupportedOp`
      are the source's `ValueError`s; `Underflow` is the `IndexError` of
      popping an empty Python list. */
  datatype CalcError = UnknownVariable(name: string) | UnsupportedOp(op: string) | Underflow

  predicate Positive(v: Value) {
    (v.Fin? && v.x > 0.0) || v.PosInf?
  }

  predicate Negative(v: Value) {
    (v.Fin? && v.x < 0.0) || v.NegInf?
  }

  predicate Infinite(v: Value) {
    v.PosInf? || v.NegInf?
  }

  function Neg(a: Value): (r: Value)
    ensures a.Fin? ==> r == Fin(-a.x)
    ensures Positive(a) <==> Negative(r)
  {
    match a
    case Fin(x) => Fin(-x)
    case PosInf => NegInf
    case NegInf => PosInf
    case NaN => NaN
  }

  /** IEEE-754 addition over exact reals. */
  function Plus(a: Value, b: Value): (r: Value)
    ensures a.Fin? && b.Fin? ==> r == Fin(a.x + b.x)
    ensures r == NaN <==> a == NaN || b == NaN || (Infinite(a) && Infinite(b) && a != b)
  {
    if a == NaN || b == NaN then NaN
    else if (a == PosInf && b == NegInf) || (a == NegInf && b == PosInf) then NaN
    else if a == PosInf || b == PosInf then PosInf
    else if a == NegInf || b == NegInf then NegInf
    else Fin(a.x + b.x)
  }

  /** IEEE-754 subtraction: `a - b` is `a + (-b)`. */
  function Minus(a: Value, b: Value): (r: Value)
    ensures a.Fin? && b.Fin? ==> r == Fin(a.x - b.x)
    ensures Infinite(a) && a == b ==> r == NaN
    ensures a == NaN || b == NaN ==> r == NaN
  {
    Plus(a, Neg(b))
  }

  /** IEEE-754 multiplication over exact reals: an infinity times zero is NaN,
      otherwise the sign is the product of the signs. */
  function Times(a: Value, b: Value): (r: Value)
    ensures a.Fin? && b.Fin? ==> r == Fin(a.x * b.x)
    ensures Infinite(a) && b == Fin(0.0) ==> r == NaN
    ensures Infinite(b) && a == Fin(0.0) ==> r == NaN
    ensures a == NaN || b == NaN ==> r == NaN
  {
    if a == NaN || b == NaN then NaN
    else if Infinite(a) || Infinite(b) then
      if a == Fin(0.0) || b == Fin(0.0) then NaN
      else if Positive(a) == Positive(b) then PosInf
      else NegInf
    else Fin(a.x * b.x)
  }

  /** IEEE-754 division by a non-zero divisor over exact reals. */
  function Quotient(a: Value, b: Value): (r: Value)
    requires b != Fin(0.0)
    ensures a.Fin? && b.Fin? ==> r == Fin(a.x / b.x)
    ensures a.Fin? && Infinite(b) ==> r == Fin(0.0)
    ensures a == NaN || b == NaN ==> r == NaN
  {
    if a == NaN || b == NaN then NaN
    else if Infinite(a) && Infinite(b) then NaN
    else if Infinite(a) then
      if Positive(a) == Positive(b) then PosInf else NegInf
    else if Infinite(b) then Fin(0.0)
    else Fin(a.x / b.x)
  }

  /** The operator symbols the source uses as dictionary keys. */
  function Symbol(o: Operator): string {
    match o
    case Add => "+"
    case Sub => "-"
    case Mul => "*"
    case Div => "/"
  }

  /** Lookup in the dispatch table of `basic_operation`: exactly the four
      one-character keys are known. */
  function ParseOperator(s: string): (r: Option<Operator>)
    ensures r.Some? <==> s in {"+", "-", "*", "/"}
    ensures r.Some? ==> Symbol(r.value) == s
    ensures forall o: Operator :: s == Symbol(o) ==> r == Some(o)
  {
    if s == "+" then Some(Add)
    else if s == "-" then Some(Sub)
    else if s == "*" then Some(Mul)
    else if s == "/" then Some(Div)
    else None
  }

  /** `get_priority`: multiplication and division bind tighter than addition
      and subtraction. (Its fallback 0 is only reachable for strings that are
      not operators, which the evaluator never asks about.) */
  function Priority(o: Operator): (p: nat)
    ensures 1 <= p <= 2
    ensures p == 2 <==> o == Mul || o == Div
  {
    match o
    case Add => 1
    case Sub => 1
    case Mul => 2
    case Div => 2
  }

  /** The lambda stored under each key: the division lambda tests its divisor
      against zero and yields `float('inf')` instead of dividing. */
  function Apply(o: Operator, a: Value, b: Value): (r: Value)
    ensures a.Fin? && b.Fin? && o == Add ==> r == Fin(a.x + b.x)
    ensures a.Fin? && b.Fin? && o == Sub ==> r == Fin(a.x - b.x)
    ensures a.Fin? && b.Fin? && o == Mul ==> r == Fin(a.x * b.x)
    ensures a.Fin? && b.Fin? && o == Div && b.x != 0.0 ==> r == Fin(a.x / b.x)
    ensures o == Div && b == Fin(0.0) ==> r == PosInf
    ensures (a == NaN || b == NaN) && !(o == Div && b == Fin(0.0)) ==> r == NaN
  {
    match o
    case Add => Plus(a, b)
    case Sub => Minus(a, b)
    case Mul => Times(a, b)
    case Div => if b == Fin(0.0) then PosInf else Quotient(a, b)
  }

  /** `basic_operation(a, b, operation)`. */
  function BasicOperation(a: Value, b: Value, op: string): (r: Result<Value, CalcError>)
    ensures r.Ok? <==> op in {"+", "-", "*", "/"}
    ensures r.Err? ==> r.error == UnsupportedOp(op)
    ensures a.Fin? && b.Fin? && op == "+" ==> r == Ok(Fin(a.x + b.x))
    ensures a.Fin? && b.Fin? && op == "-" ==> r == Ok(Fin(a.x - b.x))
    ensures a.Fin? && b.Fin? && op == "*" ==> r == Ok(Fin(a.x * b.x))
    ensures a.Fin? && b.Fin? && op == "/" && b.x != 0.0 ==> r == Ok(Fin(a.x / b.x))
    ensures op == "/" && b == Fin(0.0) ==> r == Ok(PosInf)
    ensures forall o: Operator :: op == Symbol(o) ==> r == Ok(Apply(o, a, b))
  {
    match ParseOperator(op)
    case Some(o) => Ok(Apply(o, a, b))
    case None => Err(UnsupportedOp(op))
  }
}

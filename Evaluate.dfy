/** The evaluator `resolve_tree`: structural recursion over the tree,
    left operand before right operand.  Values are exact rationals
    (Dafny `real`): integer literals and '+', '-', '*' stay integral, and '/'
    is exact division. */
module Evaluate {
  import opened Ast

  predicate HasMissing(t: Tree)
  {
    match t
    case Missing => true
    case Const(_) => false
    case Bin(_, a, b) => HasMissing(a) || HasMissing(b)
  }

  predicate HasDivision(t: Tree)
  {
    match t
    case Missing => false
    case Const(_) => false
    case Bin(op, a, b) => op == Div || HasDivision(a) || HasDivision(b)
  }

  /** Exact integer arithmetic on a complete tree without '/': the reference
      meaning of '+', '-' and '*' on the source's unbounded integers. */
  function IntValue(t: Tree): int
    requires !HasMissing(t) && !HasDivision(t)
  {
    match t
    case Const(n) => n
    case Bin(op, a, b) =>
      match op
      case Add => IntValue(a) + IntValue(b)
      case Sub => IntValue(a) - IntValue(b)
      case Mul => IntValue(a) * IntValue(b)
  }

  /** Applies one operator to two evaluated operands. */
  function Apply(op: Op, x: real, y: real): Result<real>
  {
    match op
    case Add => Success(x + y)
    case Sub => Success(x - y)
    case Mul => Success(x * y)
    case Div => if y == 0.0 then Failure(DivisionByZero) else Success(x / y)
  }

  /** `resolve_tree`.  The first failure met left to right is the one
      reported. */
  function Eval(t: Tree): (r: Result<real>)
    ensures r.Failure? ==>
              (r.error == MissingOperand && HasMissing(t))
              || (r.error == DivisionByZero && HasDivision(t))
  {
    match t
    case Missing => Failure(MissingOperand)
    case Const(n) => Success(n as real)
    case Bin(op, a, b) =>
      match Eval(a)
      case Failure(e) => Failure(e)
      case Success(x) =>
        match Eval(b)
        case Failure(e) => Failure(e)
        case Success(y) => Apply(op, x, y)
  }

  /** Without '/' and without a missing operand, evaluation always succeeds
      and agrees with exact integer arithmetic. */
  lemma {:induction false} EvalIntegers(t: Tree)
    requires !HasMissing(t) && !HasDivision(t)
    ensures Eval(t) == Success(IntValue(t) as real)
  {
    match t
    case Const(_) =>
    case Bin(op, a, b) =>
      EvalIntegers(a);
      EvalIntegers(b);
      if op == Mul {
        var x, y := Eval(a).value, Eval(b).value;
        CastMul(IntValue(a), IntValue(b), x, y);
        assert Eval(t) == Apply(Mul, x, y);
        ProductApplies(x, y);
      }
  }

  /** The product case of `Apply`, for any pair of operands.  It is a hint:
      the solver does not rewrite a product of converted integers inside an
      instance of `Apply`'s definition, so `EvalIntegers` states this step
      over plain real variables. */
  lemma ProductApplies(x: real, y: real)
    ensures Apply(Mul, x, y) == Success(x * y)
  {
  }

  /** Multiplying the reals that two integers convert to gives the real
      their product converts to. */
  lemma CastMul(m: int, n: int, x: real, y: real)
    requires x == m as real && y == n as real
    ensures x * y == (m * n) as real
  {
  }

  /** A tree with a missing subtree never has a value. */
  lemma {:induction false} MissingSubtreeFails(t: Tree)
    requires HasMissing(t)
    ensures Eval(t).Failure?
  {
    match t
    case Missing =>
    case Bin(op, a, b) =>
      if Eval(a).Success? {
        if HasMissing(a) {
          MissingSubtreeFails(a);
        } else {
          MissingSubtreeFails(b);
        }
      }
  }

  /** Operands are evaluated left to right: a failing left operand decides
      the outcome whatever the right one does, and otherwise a failing right
      operand does. */
  lemma LeftOperandFirst(op: Op, a: Tree, b: Tree)
    ensures Eval(a).Failure? ==> Eval(Bin(op, a, b)) == Eval(a)
    ensures Eval(a).Success? && Eval(b).Failure? ==> Eval(Bin(op, a, b)) == Eval(b)
  {
  }

  /** The rewrite of unary minus, `X * -1`, evaluates to the negation of X. */
  lemma NegationRewrite(v: Tree)
    ensures Eval(v).Success? ==> Eval(Negated(v)) == Success(-Eval(v).value)
    ensures Eval(v).Failure? ==> Eval(Negated(v)) == Eval(v)
  {
  }
}

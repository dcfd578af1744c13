/** What the parser and `calc` promise, stated over whole texts: printed
    trees read back as themselves, precedence and associativity on small
    shapes, the unary-minus rewrite, the error cases, and the text that
    `calc` ignores after a complete expression. */
module Properties {
  import opened Ast
  import opened Cursor
  import opened Parser
  import opened Evaluate
  import opened Calc
  import opened Unparse

  /** A text that starts with a printed tree, followed by something that can
      continue neither a literal nor an expression, is read as that tree; the
      rest of the text is never looked at. */
  lemma CalculatePrefix(t: Tree, s: string)
    requires Printable(t)
    requires |Show(t, 0)| <= |s| && s[..|Show(t, 0)|] == Show(t, 0)
    requires NoDigitAt(s, |Show(t, 0)|)
    requires NoOpAt(s, SkipSpaces(s, |Show(t, 0)|))
    ensures ParseExpr(s, 0, false) == Ok(t, SkipSpaces(s, |Show(t, 0)|))
    ensures Calculate(s) == Eval(t)
  {
    var n := |Show(t, 0)|;
    ExprPrefix(t, s, 0, n);
    var k := SkipSpaces(s, n);
    assert ParseExprTail(s, k, t) == Ok(t, k);
  }

  /** Every printed tree parses back as itself, using up the whole text. */
  lemma ParseShow(t: Tree)
    requires Printable(t)
    ensures ParseExpr(Show(t, 0), 0, false) == Ok(t, |Show(t, 0)|)
    ensures Calculate(Show(t, 0)) == Eval(t)
  {
    var s := Show(t, 0);
    assert s[..|s|] == s;
    CalculatePrefix(t, s);
  }

  /** On a printed tree without '/', `calc` is exact integer arithmetic. */
  lemma CalculateIntegers(t: Tree, s: string)
    requires Printable(t) && !HasDivision(t) && s == Show(t, 0)
    ensures !HasMissing(t)
    ensures Calculate(s) == Success(IntValue(t) as real)
  {
    PrintableComplete(t);
    ParseShow(t);
    EvalIntegers(t);
  }

  /** '-' associates to the left: x-y-z is (x-y)-z. */
  lemma SubtractionLeftAssociative(x: nat, y: nat, z: nat, s: string)
    requires s == Digits(x) + "-" + Digits(y) + "-" + Digits(z)
    ensures ParseExpr(s, 0, false) == Ok(Bin(Sub, Bin(Sub, Const(x), Const(y)), Const(z)), |s|)
    ensures Calculate(s) == Success((x - y - z) as real)
  {
    var l := Bin(Sub, Const(x), Const(y));
    var t := Bin(Sub, l, Const(z));
    assert Printable(t) && Show(t, 0) == s by {
      assert Printable(Const(x)) && Printable(Const(y)) && Printable(Const(z));
      assert Printable(l);
      assert Show(l, 0) == Digits(x) + "-" + Digits(y);
      assert Show(t, 0) == Show(l, 0) + "-" + Digits(z);
    }
    assert !HasMissing(t) && !HasDivision(t) && IntValue(t) == x - y - z by {
      assert !HasMissing(Const(x)) && !HasMissing(Const(y)) && !HasMissing(Const(z));
      assert !HasDivision(Const(x)) && !HasDivision(Const(y)) && !HasDivision(Const(z));
      assert !HasMissing(l) && !HasDivision(l) && IntValue(l) == x - y;
    }
    ParseShow(t);
    CalculateIntegers(t, s);
    assert Calculate(s) == Success(IntValue(t) as real);
    assert IntValue(t) as real == (x - y - z) as real;
  }

  /** '*' binds tighter than '+' on its right: x+y*z is x+(y*z). */
  lemma ProductBindsTighterRight(x: nat, y: nat, z: nat, s: string)
    requires s == Digits(x) + "+" + Digits(y) + "*" + Digits(z)
    ensures ParseExpr(s, 0, false) == Ok(Bin(Add, Const(x), Bin(Mul, Const(y), Const(z))), |s|)
    ensures Calculate(s) == Success((x + y * z) as real)
  {
    var l := Bin(Mul, Const(y), Const(z));
    var t := Bin(Add, Const(x), l);
    assert Printable(t) && Show(t, 0) == s by {
      assert Printable(Const(x)) && Printable(Const(y)) && Printable(Const(z));
      assert Printable(l);
      assert Show(l, 1) == Digits(y) + "*" + Digits(z);
      assert Show(t, 0) == Digits(x) + "+" + Show(l, 1);
      Concat3(Digits(x), "+", Digits(y) + "*" + Digits(z));
      Concat3(Digits(x) + "+", Digits(y), "*");
      Concat3(Digits(x) + "+", Digits(y) + "*", Digits(z));
    }
    assert !HasMissing(t) && !HasDivision(t) && IntValue(t) == x + y * z by {
      assert !HasMissing(Const(x)) && !HasMissing(Const(y)) && !HasMissing(Const(z));
      assert !HasDivision(Const(x)) && !HasDivision(Const(y)) && !HasDivision(Const(z));
      assert !HasMissing(l) && !HasDivision(l) && IntValue(l) == y * z;
    }
    ParseShow(t);
    CalculateIntegers(t, s);
    assert Calculate(s) == Success(IntValue(t) as real);
    assert IntValue(t) as real == (x + y * z) as real;
  }

  /** '*' binds tighter than '-' on its left: x*y-z is (x*y)-z. */
  lemma ProductBindsTighterLeft(x: nat, y: nat, z: nat, s: string)
    requires s == Digits(x) + "*" + Digits(y) + "-" + Digits(z)
    ensures ParseExpr(s, 0, false) == Ok(Bin(Sub, Bin(Mul, Const(x), Const(y)), Const(z)), |s|)
    ensures Calculate(s) == Success((x * y - z) as real)
  {
    var l := Bin(Mul, Const(x), Const(y));
    var t := Bin(Sub, l, Const(z));
    assert Printable(t) && Show(t, 0) == s by {
      assert Printable(Const(x)) && Printable(Const(y)) && Printable(Const(z));
      assert Printable(l);
      assert Show(l, 0) == Digits(x) + "*" + Digits(y);
      assert Show(t, 0) == Show(l, 0) + "-" + Digits(z);
    }
    assert !HasMissing(t) && !HasDivision(t) && IntValue(t) == x * y - z by {
      assert !HasMissing(Const(x)) && !HasMissing(Const(y)) && !HasMissing(Const(z));
      assert !HasDivision(Const(x)) && !HasDivision(Const(y)) && !HasDivision(Const(z));
      assert !HasMissing(l) && !HasDivision(l) && IntValue(l) == x * y;
    }
    ParseShow(t);
    CalculateIntegers(t, s);
    assert Calculate(s) == Success(IntValue(t) as real);
    assert IntValue(t) as real == (x * y - z) as real;
  }

  /** Parentheses group: (x-y)*z multiplies the difference. */
  lemma ParenthesesGroup(x: nat, y: nat, z: nat, s: string)
    requires s == "(" + Digits(x) + "-" + Digits(y) + ")" + "*" + Digits(z)
    ensures ParseExpr(s, 0, false) == Ok(Bin(Mul, Bin(Sub, Const(x), Const(y)), Const(z)), |s|)
    ensures Calculate(s) == Success(((x - y) * z) as real)
  {
    var l := Bin(Sub, Const(x), Const(y));
    var t := Bin(Mul, l, Const(z));
    ParenthesesGroupSpelling(x, y, z, s);
    DifferenceTimes(x, y, z);
    ParseShow(t);
    assert Calculate(s) == Eval(t);
  }

  /** The value of (x-y)*z. */
  lemma DifferenceTimes(x: nat, y: nat, z: nat)
    ensures Eval(Bin(Mul, Bin(Sub, Const(x), Const(y)), Const(z))) == Success(((x - y) * z) as real)
  {
    var l := Bin(Sub, Const(x), Const(y));
    var t := Bin(Mul, l, Const(z));
    assert !HasMissing(Const(x)) && !HasMissing(Const(y)) && !HasMissing(Const(z));
    assert !HasDivision(Const(x)) && !HasDivision(Const(y)) && !HasDivision(Const(z));
    assert !HasMissing(l) && !HasDivision(l) && IntValue(l) == x - y;
    assert !HasMissing(t) && !HasDivision(t) && IntValue(t) == (x - y) * z;
    EvalIntegers(t);
  }

  /** How the printer spells (x-y)*z. */
  lemma ParenthesesGroupSpelling(x: nat, y: nat, z: nat, s: string)
    requires s == "(" + Digits(x) + "-" + Digits(y) + ")" + "*" + Digits(z)
    ensures Printable(Bin(Mul, Bin(Sub, Const(x), Const(y)), Const(z)))
    ensures Show(Bin(Mul, Bin(Sub, Const(x), Const(y)), Const(z)), 0) == s
  {
    var l := Bin(Sub, Const(x), Const(y));
    var t := Bin(Mul, l, Const(z));
    assert Printable(Const(x)) && Printable(Const(y)) && Printable(Const(z));
    assert Printable(l);
    assert Show(l, 1) == "(" + (Digits(x) + "-" + Digits(y)) + ")";
    Concat3("(", Digits(x) + "-", Digits(y));
    Concat3("(", Digits(x), "-");
    assert Show(t, 0) == Show(l, 1) + "*" + Digits(z);
  }

  /** '/' associates to the left: x/y/z is (x/y)/z, and a zero divisor on
      either side is reported. */
  lemma DivisionLeftAssociative(x: nat, y: nat, z: nat, s: string)
    requires s == Digits(x) + "/" + Digits(y) + "/" + Digits(z)
    ensures ParseExpr(s, 0, false) == Ok(Bin(Div, Bin(Div, Const(x), Const(y)), Const(z)), |s|)
    ensures Calculate(s) == if y == 0 || z == 0 then Failure(DivisionByZero)
                            else Success(x as real / y as real / z as real)
  {
    var l := Bin(Div, Const(x), Const(y));
    var t := Bin(Div, l, Const(z));
    assert Printable(t) && Show(t, 0) == s by {
      assert Printable(Const(x)) && Printable(Const(y)) && Printable(Const(z));
      assert Printable(l);
      assert Show(l, 1) == Digits(x) + "/" + Digits(y);
      assert Show(t, 0) == Show(l, 1) + "/" + Digits(z);
    }
    QuotientOfQuotient(x, y, z);
    ParseShow(t);
    assert Calculate(s) == Eval(t);
  }

  /** The value of (x/y)/z, or the division by zero it meets. */
  lemma QuotientOfQuotient(x: nat, y: nat, z: nat)
    ensures Eval(Bin(Div, Bin(Div, Const(x), Const(y)), Const(z)))
            == if y == 0 || z == 0 then Failure(DivisionByZero)
               else Success(x as real / y as real / z as real)
  {
    var l := Bin(Div, Const(x), Const(y));
    assert Eval(Const(x)) == Success(x as real);
    assert Eval(Const(y)) == Success(y as real);
    assert Eval(Const(z)) == Success(z as real);
    if y != 0 {
      assert Eval(l) == Success(x as real / y as real);
    }
  }

  /** Unary minus is read as a product with -1, so `calc` negates the value
      of its operand. */
  lemma UnaryMinus(t: Tree, s: string)
    requires Printable(t) && s == "-" + Show(t, 2)
    ensures ParseExpr(s, 0, false) == Ok(Negated(t), |s|)
    ensures Eval(t).Success? ==> Calculate(s) == Success(-Eval(t).value)
    ensures Eval(t).Failure? ==> Calculate(s) == Eval(t)
  {
    assert Printable(Negated(t)) && Show(Negated(t), 0) == s;
    ParseShow(Negated(t));
    NegationRewrite(t);
  }

  /** A unary minus right after a binary operator, as in 2*-3 or 1--1, is
      the operator's right operand. */
  lemma UnaryMinusAfterOperator(t: Tree, op: Op, u: Tree, s: string)
    requires Printable(t) && Printable(u)
    requires s == Show(t, Level(op)) + [OpChar(op)] + "-" + Show(u, 2)
    ensures ParseExpr(s, 0, false) == Ok(Bin(op, t, Negated(u)), |s|)
    ensures Calculate(s) == Eval(Bin(op, t, Negated(u)))
  {
    var b := Bin(op, t, Negated(u));
    assert Printable(b);
    assert Show(Negated(u), Level(op) + 1) == "-" + Show(u, 2);
    assert Show(b, 0) == Show(t, Level(op)) + [OpChar(op)] + ("-" + Show(u, 2));
    Concat3(Show(t, Level(op)) + [OpChar(op)], "-", Show(u, 2));
    ParseShow(b);
  }

  /** Spaces on either side of a binary operator change nothing: 1 - 2 is
      read as 1-2. */
  lemma SpacedOperator(t: Tree, op: Op, u: Tree, w1: nat, w2: nat, s: string)
    requires Printable(t) && Printable(u)
    requires s == Show(t, Level(op)) + Spaces(w1) + [OpChar(op)] + Spaces(w2) + Show(u, Level(op) + 1)
    ensures ParseExpr(s, 0, false) == Ok(Bin(op, t, u), |s|)
    ensures Calculate(s) == Eval(Bin(op, t, u))
  {
    var n := |Show(t, Level(op))|;
    var m := n + w1;
    var v := m + 1 + w2;
    SpacedSpelling(t, op, u, w1, w2, s, n, m, v);
    if Level(op) == 0 {
      SpacedAdditive(t, op, u, s, n, m, v);
    } else {
      SpacedMultiplicative(t, op, u, s, n, m, v);
    }
  }

  /** The case of '+' or '-', given where the operator and the right
      operand sit. */
  lemma SpacedAdditive(t: Tree, op: Op, u: Tree, s: string, n: nat, m: nat, v: nat)
    requires Printable(t) && Printable(u) && Level(op) == 0
    requires Spells(s, 0, n, Show(t, Level(op))) && NoDigitAt(s, n)
    requires SkipSpaces(s, n) == m && m < |s| && s[m] == OpChar(op)
    requires m < v && SkipSpaces(s, m + 1) == v && Spells(s, v, |s|, Show(u, Level(op) + 1))
    ensures ParseExpr(s, 0, false) == Ok(Bin(op, t, u), |s|)
  {
    SkipSpacesIdempotent(s, m + 1);
    SameStart(s, m + 1, v);
    ExprPrefix(t, s, 0, n);
    TermOk(u, s, v, |s|);
    ExprTailStep(s, m, t, op, u, |s|);
    assert ParseExprTail(s, |s|, Bin(op, t, u)) == Ok(Bin(op, t, u), |s|);
  }

  /** The case of '*' or '/', given where the operator and the right
      operand sit. */
  lemma SpacedMultiplicative(t: Tree, op: Op, u: Tree, s: string, n: nat, m: nat, v: nat)
    requires Printable(t) && Printable(u) && Level(op) == 1
    requires Spells(s, 0, n, Show(t, Level(op))) && NoDigitAt(s, n)
    requires SkipSpaces(s, n) == m && m < |s| && s[m] == OpChar(op)
    requires m < v && SkipSpaces(s, m + 1) == v && Spells(s, v, |s|, Show(u, Level(op) + 1))
    ensures ParseExpr(s, 0, false) == Ok(Bin(op, t, u), |s|)
  {
    var b := Bin(op, t, u);
    SkipSpacesIdempotent(s, m + 1);
    SameStart(s, m + 1, v);
    TermPrefix(t, s, 0, n);
    PrimOk(u, s, v, |s|);
    TermTailStep(s, m, t, op, u, |s|);
    assert ParseTermTail(s, |s|, b) == Ok(b, |s|);
    assert ParseExprTail(s, |s|, b) == Ok(b, |s|);
  }

  /** Where the parts of a spaced binary operation sit. */
  lemma SpacedSpelling(t: Tree, op: Op, u: Tree, w1: nat, w2: nat, s: string, n: nat, m: nat, v: nat)
    requires Printable(t) && Printable(u)
    requires s == Show(t, Level(op)) + Spaces(w1) + [OpChar(op)] + Spaces(w2) + Show(u, Level(op) + 1)
    requires n == |Show(t, Level(op))| && m == n + w1 && v == m + 1 + w2
    ensures Spells(s, 0, n, Show(t, Level(op))) && NoDigitAt(s, n)
    ensures SkipSpaces(s, n) == m && m < |s| && s[m] == OpChar(op)
    ensures m < v && SkipSpaces(s, m + 1) == v && Spells(s, v, |s|, Show(u, Level(op) + 1))
  {
    var a, c := Show(t, Level(op)), Show(u, Level(op) + 1);
    assert s[..n] == a;
    assert s[v..] == c;
    assert s[v] == c[0];
    SkipSpacesTo(s, n, m);
    SkipSpacesTo(s, m + 1, v);
  }

  /** A '-' followed by a space where a primary starts is a syntax error. */
  lemma MinusSpaceAt(s: string, i: nat, k: nat)
    requires i <= |s| && k == SkipSpaces(s, i) && k + 1 < |s| && s[k] == '-' && s[k + 1] == ' '
    ensures ParsePrim(s, i, false) == Fail(SpaceAfterMinus, k + 1)
  {
    SkipSpacesIdempotent(s, i);
    assert PeekAt(s, k) == "-" && PeekAt(s, k + 1) == " ";
  }

  /** The same holds for the operand of a binary operator: 2*- 3 and
      1-- 2 are syntax errors whatever follows. */
  lemma SpaceAfterMinusAfterOperator(t: Tree, op: Op, rest: string, s: string)
    requires Printable(t) && s == Show(t, Level(op)) + [OpChar(op)] + "- " + rest
    ensures ParseExpr(s, 0, false) == Fail(SpaceAfterMinus, |Show(t, Level(op))| + 2)
    ensures Calculate(s) == Failure(Syntax(SpaceAfterMinus))
  {
    var n := |Show(t, Level(op))|;
    assert Spells(s, 0, n, Show(t, Level(op))) && s[n] == OpChar(op) && s[n + 1] == '-' && s[n + 2] == ' ' by {
      assert s[..n] == Show(t, Level(op));
    }
    assert SkipSpaces(s, n) == n && SkipSpaces(s, n + 1) == n + 1;
    MinusSpaceAt(s, n + 1, n + 1);
    if Level(op) == 0 {
      ExprPrefix(t, s, 0, n);
      assert ParseTerm(s, n, true) == Fail(SpaceAfterMinus, n + 2);
    } else {
      TermPrefix(t, s, 0, n);
      PrimAfterOperator(s, n);
      assert ParseTermTail(s, n, t) == Fail(SpaceAfterMinus, n + 2);
    }
  }

  /** A '-' followed by a space where a primary starts is a syntax error. */
  lemma SpaceAfterMinusRejected(s: string, k: nat)
    requires k == SkipSpaces(s, 0) && k + 1 < |s| && s[k] == '-' && s[k + 1] == ' '
    ensures ParseExpr(s, 0, false) == Fail(SpaceAfterMinus, k + 1)
    ensures Calculate(s) == Failure(Syntax(SpaceAfterMinus))
  {
    MinusSpaceAt(s, 0, k);
  }

  /** A '(' that is never closed is a syntax error, however well formed the
      text after it is. */
  lemma UnclosedParenRejected(t: Tree, s: string)
    requires Printable(t) && s == "(" + Show(t, 0)
    ensures ParseExpr(s, 0, false) == Fail(UnmatchedParen, |s|)
    ensures Calculate(s) == Failure(Syntax(UnmatchedParen))
  {
    var n := |s|;
    assert Spells(s, 1, n, Show(t, 0)) by {
      assert s[1..] == Show(t, 0);
    }
    ExprPrefix(t, s, 1, n);
    assert ParseExprTail(s, n, t) == Ok(t, n);
    assert ParseExpr(s, 0, true) == ParseExpr(s, 1, false);
    assert ParsePrim(s, 0, false) == ParsePrimAt(s, 0);
    assert PeekAt(s, 0) == "(";
    assert ParsePrimAt(s, 0) == Fail(UnmatchedParen, n);
  }

  /** An operator with nothing after it leaves its right operand missing:
      the text still parses, and evaluation fails, unless the left operand
      already failed. */
  lemma DanglingOperator(t: Tree, op: Op, s: string)
    requires Printable(t) && s == Show(t, Level(op)) + [OpChar(op)]
    ensures ParseExpr(s, 0, false) == Ok(Bin(op, t, Missing), |s|)
    ensures Calculate(s) == if Eval(t).Failure? then Eval(t) else Failure(MissingOperand)
  {
    var n := |s| - 1;
    assert Spells(s, 0, n, Show(t, Level(op))) && s[n] == OpChar(op) by {
      assert s[..n] == Show(t, Level(op));
    }
    assert SkipSpaces(s, n) == n;
    assert ParsePrim(s, |s|, false) == Ok(Missing, |s|);
    assert ParseTermTail(s, |s|, Missing) == Ok(Missing, |s|);
    if Level(op) == 0 {
      ExprPrefix(t, s, 0, n);
      ExprTailStep(s, n, t, op, Missing, |s|);
    } else {
      TermPrefix(t, s, 0, n);
      TermTailStep(s, n, t, op, Missing, |s|);
      assert ParseTermTail(s, |s|, Bin(op, t, Missing)) == Ok(Bin(op, t, Missing), |s|);
    }
    assert ParseExprTail(s, |s|, Bin(op, t, Missing)) == Ok(Bin(op, t, Missing), |s|);
    LeftOperandFirst(op, t, Missing);
  }

  /** Regrouping a concatenation of three strings. */
  lemma Concat3(a: string, b: string, c: string)
    ensures a + (b + c) == a + b + c
  {
  }
}

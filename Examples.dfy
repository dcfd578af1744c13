/** The behaviours of `calc` on particular texts. */
module Examples {
  import opened Ast
  import opened Cursor
  import opened Parser
  import opened Evaluate
  import opened Calc
  import opened Unparse
  import opened Properties

  /** Redundant parentheses and precedence together: 1+((8*10))*10 is 801. */
  lemma Example801(s: string)
    requires s == "1+((8*10))*10"
    ensures Calculate(s) == Success(801.0)
  {
    var right := Bin(Mul, Bin(Mul, Const(8), Const(10)), Const(10));
    Example801Right(s);
    LiteralOk(1, s, 0, 1);
    assert ParsePrim(s, 0, false) == Ok(Const(1), 1);
    assert ParseTermTail(s, 1, Const(1)) == Ok(Const(1), 1);
    assert ParseTerm(s, 0, false) == Ok(Const(1), 1);
    ExprTailStep(s, 1, Const(1), Add, right, 13);
    assert ParseExprTail(s, 13, Bin(Add, Const(1), right)) == Ok(Bin(Add, Const(1), right), 13);
    assert ParseExpr(s, 0, false) == Ok(Bin(Add, Const(1), right), 13);
    assert Eval(Bin(Add, Const(1), right)) == Success(801.0);
  }

  /** The doubly parenthesised product is one primary. */
  lemma Example801Parens(s: string)
    requires s == "1+((8*10))*10"
    ensures ParsePrim(s, 2, false) == Ok(Bin(Mul, Const(8), Const(10)), 10)
  {
    var inner := Bin(Mul, Const(8), Const(10));
    ParenProduct(s, 3);
    assert ParsePrim(s, 3, false) == Ok(inner, 9);
    assert ParseTermTail(s, 9, inner) == Ok(inner, 9);
    assert ParseExpr(s, 2, true) == Ok(inner, 9);
    assert PeekAt(s, 9) == ")" && SkipSpaces(s, 10) == 10;
  }

  /** The right operand of '+' is the product of that primary and 10. */
  lemma Example801Right(s: string)
    requires s == "1+((8*10))*10"
    ensures ParseTerm(s, 2, false) == Ok(Bin(Mul, Bin(Mul, Const(8), Const(10)), Const(10)), 13)
  {
    var inner := Bin(Mul, Const(8), Const(10));
    var right := Bin(Mul, inner, Const(10));
    Example801Parens(s);
    LiteralOk(10, s, 11, 13);
    assert ParsePrim(s, 11, false) == Ok(Const(10), 13);
    TermTailStep(s, 10, inner, Mul, Const(10), 13);
    assert ParseTermTail(s, 13, right) == Ok(right, 13);
  }

  /** The parenthesis opened at position 2 is never closed. */
  lemma ExampleUnclosed(s: string)
    requires s == "1+((8*10)*10"
    ensures Calculate(s) == Failure(Syntax(UnmatchedParen))
  {
    ExampleUnclosedParen(s);
    LiteralOk(1, s, 0, 1);
    assert ParsePrim(s, 0, false) == Ok(Const(1), 1);
    assert ParseTermTail(s, 1, Const(1)) == Ok(Const(1), 1);
    assert ParseTerm(s, 0, false) == Ok(Const(1), 1);
    assert ParseTerm(s, 1, true) == Fail(UnmatchedParen, 12);
    assert ParseExprTail(s, 1, Const(1)) == Fail(UnmatchedParen, 12);
    assert ParseExpr(s, 0, false) == Fail(UnmatchedParen, 12);
  }

  /** What follows the second '(' runs to the end of the text. */
  lemma ExampleUnclosedParen(s: string)
    requires s == "1+((8*10)*10"
    ensures ParsePrim(s, 2, false) == Fail(UnmatchedParen, 12)
  {
    ExampleUnclosedInside(s);
    assert PeekAt(s, 12) == "";
  }

  /** Inside the unclosed parenthesis: the product (8*10)*10. */
  lemma ExampleUnclosedInside(s: string)
    requires s == "1+((8*10)*10"
    ensures ParseExpr(s, 2, true) == Ok(Bin(Mul, Bin(Mul, Const(8), Const(10)), Const(10)), 12)
  {
    var inner := Bin(Mul, Const(8), Const(10));
    var right := Bin(Mul, inner, Const(10));
    ParenProduct(s, 3);
    assert ParsePrim(s, 3, false) == Ok(inner, 9);
    LiteralOk(10, s, 10, 12);
    assert ParsePrim(s, 10, false) == Ok(Const(10), 12);
    TermTailStep(s, 9, inner, Mul, Const(10), 12);
    assert ParseTermTail(s, 12, right) == Ok(right, 12);
    assert ParseExprTail(s, 12, right) == Ok(right, 12);
  }

  /** "1+" parses, with the right operand of '+' missing, and fails to
      evaluate. */
  lemma ExampleDangling()
    ensures Calculate("1+") == Failure(MissingOperand)
  {
    assert Printable(Const(1)) && Show(Const(1), 0) == "1";
    DanglingOperator(Const(1), Add, "1+");
  }

  /** Text after a complete expression is ignored: "1 2" is 1. */
  lemma ExampleTrailing()
    ensures Calculate("1 2") == Success(1.0)
  {
    var s := "1 2";
    assert Printable(Const(1)) && Show(Const(1), 0) == "1";
    assert SkipSpaces(s, 1) == 2;
    CalculatePrefix(Const(1), s);
  }

  /** Nor is a word after it: "1+1 garbage" is 2. */
  lemma ExampleGarbage(s: string)
    requires s == "1+1 garbage"
    ensures Calculate(s) == Success(2.0)
  {
    var t := Bin(Add, Const(1), Const(1));
    assert Printable(Const(1)) && Printable(t);
    assert Show(t, 0) == "1+1";
    assert s[..3] == Show(t, 0);
    assert SkipSpaces(s, 4) == 4;
    assert SkipSpaces(s, 3) == 4;
    CalculatePrefix(t, s);
    assert Eval(t) == Success(2.0);
  }

  /** A unary minus as the right operand of '*': 2*-3 is -6. */
  lemma ExampleMinusAfterProduct(s: string)
    requires s == "2*-3"
    ensures Calculate(s) == Success(-6.0)
  {
    assert Printable(Const(2)) && Printable(Const(3));
    assert Show(Const(2), 1) == "2" && Show(Const(3), 2) == "3";
    UnaryMinusAfterOperator(Const(2), Mul, Const(3), s);
    assert Eval(Negated(Const(3))) == Success(-3.0);
  }

  /** A unary minus right after a binary '-': 1--1 is 2. */
  lemma ExampleDoubleMinus(s: string)
    requires s == "1--1"
    ensures Calculate(s) == Success(2.0)
  {
    assert Printable(Const(1)) && Show(Const(1), 0) == "1" && Show(Const(1), 2) == "1";
    UnaryMinusAfterOperator(Const(1), Sub, Const(1), s);
    assert Eval(Negated(Const(1))) == Success(-1.0);
  }

  /** Spaces around a binary operator: 1 - 2 is -1. */
  lemma ExampleSpacedMinus(s: string)
    requires s == "1 - 2"
    ensures Calculate(s) == Success(-1.0)
  {
    assert Printable(Const(1)) && Printable(Const(2));
    assert Show(Const(1), 0) == "1" && Show(Const(2), 1) == "2";
    assert Spaces(1) == " ";
    SpacedOperator(Const(1), Sub, Const(2), 1, 1, s);
  }

  /** A space after a unary minus is rejected after an operator too:
      2*- 3 is a syntax error. */
  lemma ExampleSpaceAfterMinus(s: string)
    requires s == "2*- 3"
    ensures Calculate(s) == Failure(Syntax(SpaceAfterMinus))
  {
    assert Printable(Const(2)) && Show(Const(2), 1) == "2";
    SpaceAfterMinusAfterOperator(Const(2), Mul, "3", s);
  }

  /** "(8*10)" at position `i` is read as the product. */
  lemma ParenProduct(s: string, i: nat)
    requires Spells(s, i, i + 6, "(8*10)") && NoDigitAt(s, i + 6)
    ensures ParsePrimAt(s, i) == Ok(Bin(Mul, Const(8), Const(10)), SkipSpaces(s, i + 6))
  {
    var inner := Bin(Mul, Const(8), Const(10));
    assert Show(inner, 2) == "(8*10)";
    ParenOk(inner, s, i, i + 6);
  }
}

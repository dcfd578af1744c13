/** A reference printer for expression trees, written independently of the
    parser, and the proof that the parser reads every printed tree back as
    the same tree.  Because the printer puts parentheses only where the
    grammar needs them, this round trip pins down operator precedence ('*'
    and '/' bind tighter than '+' and '-') and left associativity at both
    levels. */
module Unparse {
  import opened Ast
  import opened Cursor
  import opened Parser
  import opened Evaluate

  /** A tree that unary minus built: a product whose right operand is the
      literal -1, which no literal in the text can spell. */
  predicate IsNegation(t: Tree)
  {
    t.Bin? && t.op == Mul && t.b == Const(-1)
  }

  /** The trees the printer handles: complete, with non-negative literals,
      where the only negative literal is the -1 of a unary minus. */
  predicate Printable(t: Tree)
  {
    match t
    case Missing => false
    case Const(n) => n >= 0
    case Bin(op, a, b) => Printable(a) && (Printable(b) || (op == Mul && b == Const(-1)))
  }

  /** A printable tree has no missing operand. */
  lemma {:induction false} PrintableComplete(t: Tree)
    requires Printable(t)
    ensures !HasMissing(t)
  {
    if t.Bin? {
      PrintableComplete(t.a);
      if !IsNegation(t) {
        PrintableComplete(t.b);
      }
    }
  }

  /** The decimal spelling of a natural number, without leading zeros. */
  function Digits(n: nat): (r: string)
    ensures |r| > 0
    ensures forall k | 0 <= k < |r| :: IsDigit(r[k])
    decreases n
  {
    var d := ['0' + (n % 10) as char];
    if n < 10 then d else Digits(n / 10) + d
  }

  /** Reading a spelled number gives the number back. */
  lemma {:induction false} DigitsRoundTrip(n: nat)
    ensures DigitsValue(Digits(n)) == n
    decreases n
  {
    var r := Digits(n);
    if n >= 10 {
      DigitsRoundTrip(n / 10);
      assert r[..|r| - 1] == Digits(n / 10);
    }
  }

  /** The binding level of a tree's top operator; literals and unary minus
      bind tightest. */
  function TreeLevel(t: Tree): nat
  {
    if t.Bin? && !IsNegation(t) then Level(t.op) else 2
  }

  /** Prints `t` where the grammar expects level `lvl` (0 expression, 1 term,
      2 primary): parenthesised exactly when its top operator binds more
      loosely than the place it stands in.  The right operand of an operator
      is printed one level tighter than the operator, which is what makes the
      printed form left-associative.  A unary minus is a primary, printed as
      '-' before its operand. */
  function Show(t: Tree, lvl: nat): (r: string)
    requires Printable(t)
    ensures |r| > 0 && (r[0] == '(' || r[0] == '-' || IsDigit(r[0]))
  {
    if t.Const? then Digits(t.value)
    else if IsNegation(t) then "-" + Show(t.a, 2)
    else
      var body := Show(t.a, Level(t.op)) + [OpChar(t.op)] + Show(t.b, Level(t.op) + 1);
      if lvl > Level(t.op) then "(" + body + ")" else body
  }

  /** `s` holds `p` between positions `i` and `j`. */
  predicate Spells(s: string, i: nat, j: nat, p: string)
  {
    i <= j <= |s| && s[i..j] == p
  }

  /** A run of `w` spaces. */
  function Spaces(w: nat): (r: string)
    ensures |r| == w && forall k | 0 <= k < w :: r[k] == ' '
  {
    if w == 0 then "" else " " + Spaces(w - 1)
  }

  /** Spaces from `i` up to a non-space at `j` are exactly what is
      skipped. */
  lemma SkipSpacesTo(s: string, i: nat, j: nat)
    requires i <= j <= |s| && (j == |s| || s[j] != ' ')
    requires forall k | i <= k < j :: s[k] == ' '
    ensures SkipSpaces(s, i) == j
    decreases j - i
  {
    if i < j {
      SkipSpacesTo(s, i + 1, j);
    }
  }

  /** A primary and a term depend only on where their first non-space is:
      spaces in front of them change nothing. */
  lemma SameStart(s: string, i: nat, i': nat)
    requires i <= |s| && i' <= |s| && SkipSpaces(s, i) == SkipSpaces(s, i')
    ensures ParsePrim(s, i, false) == ParsePrim(s, i', false)
    ensures ParseTerm(s, i, false) == ParseTerm(s, i', false)
  {
  }

  /** No digit continues a literal at `j`. */
  predicate NoDigitAt(s: string, j: nat)
  {
    j == |s| || (j < |s| && !IsDigit(s[j]))
  }

  /** No '*' or '/' continues a term at `k`. */
  predicate NoMulAt(s: string, k: nat)
  {
    k == |s| || (k < |s| && s[k] != '*' && s[k] != '/')
  }

  /** No operator at all continues an expression at `k`. */
  predicate NoOpAt(s: string, k: nat)
  {
    NoMulAt(s, k) && (k == |s| || (s[k] != '+' && s[k] != '-'))
  }

  lemma SplitAt(s: string, i: nat, m: nat, j: nat, p: string, c: char, q: string)
    requires Spells(s, i, j, p + [c] + q) && m == i + |p|
    ensures Spells(s, i, m, p) && m < |s| && s[m] == c && Spells(s, m + 1, j, q)
  {
    assert s[i..j][..|p|] == p;
    assert s[i..j][|p|] == c;
    assert s[i..j][|p| + 1..] == q;
  }

  /** Where the printed operator of `t` sits, and what stands on either
      side of it. */
  lemma SplitBin(t: Tree, s: string, i: nat, m: nat, j: nat)
    requires Printable(t) && t.Bin? && !IsNegation(t) && Spells(s, i, j, Show(t, Level(t.op)))
    requires m == i + |Show(t.a, Level(t.op))|
    ensures Spells(s, i, m, Show(t.a, Level(t.op)))
    ensures m < |s| && s[m] == OpChar(t.op) && SkipSpaces(s, m) == m
    ensures Spells(s, m + 1, j, Show(t.b, Level(t.op) + 1))
  {
    var a, b := Show(t.a, Level(t.op)), Show(t.b, Level(t.op) + 1);
    assert Show(t, Level(t.op)) == a + [OpChar(t.op)] + b;
    SplitAt(s, i, m, j, a, OpChar(t.op), b);
  }

  /** A run of digits followed by a non-digit is exactly what the literal
      reader consumes. */
  lemma DigitRunEndAt(s: string, i: nat, j: nat)
    requires i <= j <= |s|
    requires forall m | i <= m < j :: IsDigit(s[m])
    requires NoDigitAt(s, j)
    ensures DigitRunEnd(s, i) == j
    decreases j - i
  {
    if i < j {
      DigitRunEndAt(s, i + 1, j);
    }
  }

  /** Consuming an operator that is not a space, then skipping spaces, is the
      same as starting the primary right after the operator. */
  lemma PrimAfterOperator(s: string, i: nat)
    requires i < |s| && s[i] != ' '
    ensures ParsePrim(s, i, true) == ParsePrim(s, i + 1, false)
  {
    SkipSpacesIdempotent(s, i + 1);
  }

  /** One turn of the loop of `expr`: an additive operator followed by a
      term extends the tree parsed so far on the right. */
  lemma ExprTailStep(s: string, i: nat, left: Tree, op: Op, right: Tree, k: nat)
    requires i < |s| && s[i] == OpChar(op) && Level(op) == 0
    requires ParseTerm(s, i + 1, false) == Ok(right, k)
    ensures ParseExprTail(s, i, left) == ParseExprTail(s, k, Bin(op, left, right))
  {
    assert ParseTerm(s, i, true) == Ok(right, k);
    if op == Add {
      assert PeekAt(s, i) == "+";
    } else {
      assert PeekAt(s, i) == "-";
    }
  }

  /** One turn of the loop of `term`: a multiplicative operator followed by
      a primary extends the tree parsed so far on the right. */
  lemma TermTailStep(s: string, i: nat, left: Tree, op: Op, right: Tree, k: nat)
    requires i < |s| && s[i] == OpChar(op) && Level(op) == 1
    requires ParsePrim(s, i + 1, false) == Ok(right, k)
    ensures ParseTermTail(s, i, left) == ParseTermTail(s, k, Bin(op, left, right))
  {
    PrimAfterOperator(s, i);
    if op == Mul {
      assert PeekAt(s, i) == "*";
    } else {
      assert PeekAt(s, i) == "/";
    }
  }

  // The three lemmas below are proved together by induction on the tree;
  // for one and the same tree, a primary unfolds to an expression, and an
  // expression of a higher level to a term.  Each case of a binary operator
  // has a lemma of its own, which only recurses into the operands.

  /** An expression-level spelling of `t` parses as `t`, leaving the loop of
      `expr` to decide what follows. */
  lemma {:induction false} ExprPrefix(t: Tree, s: string, i: nat, j: nat)
    requires Printable(t) && Spells(s, i, j, Show(t, 0))
    requires NoDigitAt(s, j) && NoMulAt(s, SkipSpaces(s, j))
    ensures ParseExpr(s, i, false) == ParseExprTail(s, SkipSpaces(s, j), t)
    decreases t, 4 * TreeLevel(t) + 4
  {
    if t.Bin? && Level(t.op) == 0 {
      ExprPrefixBin(t, s, i, j);
    } else {
      assert Show(t, 0) == Show(t, 1);
      TermOk(t, s, i, j);
    }
  }

  /** The case of '+' or '-' on top. */
  lemma {:induction false} ExprPrefixBin(t: Tree, s: string, i: nat, j: nat)
    requires Printable(t) && t.Bin? && Level(t.op) == 0 && Spells(s, i, j, Show(t, 0))
    requires NoDigitAt(s, j) && NoMulAt(s, SkipSpaces(s, j))
    ensures ParseExpr(s, i, false) == ParseExprTail(s, SkipSpaces(s, j), t)
    decreases t, 1
  {
    var m := i + |Show(t.a, 0)|;
    SplitBin(t, s, i, m, j);
    ExprPrefix(t.a, s, i, m);
    ExprRightOperand(t, s, m, j);
  }

  /** The right operand of '+' or '-', and the turn of the loop of `expr`
      that reads it. */
  lemma {:induction false} ExprRightOperand(t: Tree, s: string, m: nat, j: nat)
    requires Printable(t) && t.Bin? && Level(t.op) == 0
    requires m < |s| && s[m] == OpChar(t.op) && Spells(s, m + 1, j, Show(t.b, 1))
    requires NoDigitAt(s, j) && NoMulAt(s, SkipSpaces(s, j))
    ensures ParseExprTail(s, m, t.a) == ParseExprTail(s, SkipSpaces(s, j), t)
    decreases t, 0
  {
    TermOk(t.b, s, m + 1, j);
    ExprTailStep(s, m, t.a, t.op, t.b, SkipSpaces(s, j));
  }

  /** A term-level spelling of `t` followed by no '*' or '/' is a whole
      term. */
  lemma {:induction false} TermOk(t: Tree, s: string, i: nat, j: nat)
    requires Printable(t) && Spells(s, i, j, Show(t, 1))
    requires NoDigitAt(s, j) && NoMulAt(s, SkipSpaces(s, j))
    ensures ParseTerm(s, i, false) == Ok(t, SkipSpaces(s, j))
    decreases t, 4 * ((TreeLevel(t) + 2) % 3) + 6
  {
    var k := SkipSpaces(s, j);
    TermPrefix(t, s, i, j);
    assert ParseTermTail(s, k, t) == Ok(t, k);
  }

  /** A term-level spelling of `t` parses as `t`, leaving the loop of `term`
      to decide what follows. */
  lemma {:induction false} TermPrefix(t: Tree, s: string, i: nat, j: nat)
    requires Printable(t) && Spells(s, i, j, Show(t, 1))
    requires NoDigitAt(s, j)
    ensures ParseTerm(s, i, false) == ParseTermTail(s, SkipSpaces(s, j), t)
    decreases t, 4 * ((TreeLevel(t) + 2) % 3) + 4
  {
    if t.Bin? && Level(t.op) == 1 && !IsNegation(t) {
      TermPrefixBin(t, s, i, j);
    } else {
      assert Show(t, 1) == Show(t, 2);
      PrimOk(t, s, i, j);
    }
  }

  /** The case of '*' or '/' on top. */
  lemma {:induction false} TermPrefixBin(t: Tree, s: string, i: nat, j: nat)
    requires Printable(t) && t.Bin? && Level(t.op) == 1 && !IsNegation(t) && Spells(s, i, j, Show(t, 1))
    requires NoDigitAt(s, j)
    ensures ParseTerm(s, i, false) == ParseTermTail(s, SkipSpaces(s, j), t)
    decreases t, 1
  {
    var m := i + |Show(t.a, 1)|;
    SplitBin(t, s, i, m, j);
    TermPrefix(t.a, s, i, m);
    TermRightOperand(t, s, m, j);
  }

  /** The right operand of '*' or '/', and the turn of the loop of `term`
      that reads it. */
  lemma {:induction false} TermRightOperand(t: Tree, s: string, m: nat, j: nat)
    requires Printable(t) && t.Bin? && Level(t.op) == 1 && !IsNegation(t)
    requires m < |s| && s[m] == OpChar(t.op) && Spells(s, m + 1, j, Show(t.b, 2))
    requires NoDigitAt(s, j)
    ensures ParseTermTail(s, m, t.a) == ParseTermTail(s, SkipSpaces(s, j), t)
    decreases t, 0
  {
    PrimOk(t.b, s, m + 1, j);
    TermTailStep(s, m, t.a, t.op, t.b, SkipSpaces(s, j));
  }

  /** A primary-level spelling of `t` parses as `t`. */
  lemma {:induction false} PrimOk(t: Tree, s: string, i: nat, j: nat)
    requires Printable(t) && Spells(s, i, j, Show(t, 2))
    requires NoDigitAt(s, j)
    ensures ParsePrim(s, i, false) == Ok(t, SkipSpaces(s, j))
    decreases t, 4 * ((TreeLevel(t) + 1) % 3) + 4
  {
    assert s[i] == Show(t, 2)[0];
    assert ParsePrim(s, i, false) == ParsePrimAt(s, i);
    if t.Const? {
      LiteralOk(t.value, s, i, j);
    } else if IsNegation(t) {
      NegationOk(t, s, i, j);
    } else {
      ParenOk(t, s, i, j);
    }
  }

  /** A printed literal is read back as its value. */
  lemma LiteralOk(n: nat, s: string, i: nat, j: nat)
    requires Spells(s, i, j, Digits(n)) && NoDigitAt(s, j)
    ensures ParsePrimAt(s, i) == Ok(Const(n), SkipSpaces(s, j))
  {
    var d := Digits(n);
    assert forall m | i <= m < j :: s[m] == d[m - i];
    assert PeekAt(s, i) == [s[i]] && IsDigitText(PeekAt(s, i));
    DigitsRoundTrip(n);
    DigitRunEndAt(s, i, j);
  }

  /** A printed unary minus is read back as the product with -1 of its
      operand. */
  lemma {:induction false} NegationOk(t: Tree, s: string, i: nat, j: nat)
    requires Printable(t) && IsNegation(t) && Spells(s, i, j, Show(t, 2))
    requires NoDigitAt(s, j)
    ensures ParsePrimAt(s, i) == Ok(t, SkipSpaces(s, j))
    decreases t, 0
  {
    SplitNegation(t, s, i, j);
    PrimOk(t.a, s, i + 1, j);
    SkipSpacesIdempotent(s, j);
  }

  /** Where the '-' of a printed unary minus sits: right before its operand,
      with no space in between. */
  lemma SplitNegation(t: Tree, s: string, i: nat, j: nat)
    requires Printable(t) && IsNegation(t) && Spells(s, i, j, Show(t, 2))
    ensures i + 1 < |s| && s[i] == '-' && s[i + 1] != ' '
    ensures Spells(s, i + 1, j, Show(t.a, 2))
  {
    var e := Show(t.a, 2);
    assert Show(t, 2) == [] + ['-'] + e;
    SplitAt(s, i, i, j, [], '-', e);
    assert s[i + 1] == e[0];
  }

  /** Where the parentheses around a printed operand sit. */
  lemma SplitParens(t: Tree, s: string, i: nat, m: nat, j: nat)
    requires Printable(t) && t.Bin? && !IsNegation(t) && Spells(s, i, j, Show(t, 2))
    requires m == i + 1 + |Show(t, 0)|
    ensures i < |s| && s[i] == '(' && Spells(s, i + 1, m, Show(t, 0))
    ensures m < |s| && s[m] == ')' && j == m + 1 && SkipSpaces(s, m) == m
  {
    var e := Show(t, 0);
    assert Show(t, 2) == [ '(' ] + e + [')'];
    SplitAt(s, i, m, j, [ '(' ] + e, ')', []);
    SplitAt(s, i, i, m, [], '(', e);
  }

  /** A parenthesised expression is read back as the expression inside. */
  lemma {:induction false} ParenOk(t: Tree, s: string, i: nat, j: nat)
    requires Printable(t) && t.Bin? && !IsNegation(t) && Spells(s, i, j, Show(t, 2))
    requires NoDigitAt(s, j)
    ensures ParsePrimAt(s, i) == Ok(t, SkipSpaces(s, j))
    decreases t, 4 * ((TreeLevel(t) + 1) % 3) + 2
  {
    var m := i + 1 + |Show(t, 0)|;
    SplitParens(t, s, i, m, j);
    ExprPrefix(t, s, i + 1, m);
    assert ParseExprTail(s, m, t) == Ok(t, m);
    assert ParseExpr(s, i, true) == ParseExpr(s, i + 1, false);
    assert PeekAt(s, m) == ")";
  }
}

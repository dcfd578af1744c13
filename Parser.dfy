/** The recursive-descent parser.

      expression := term (('+' | '-') term)*
      term       := primary (('*' | '/') primary)*
      primary    := '(' expression ')' | digits | '-' primary

    Each production is given twice: as a function over the text and a start
    position, which says what the production yields (a tree, or a syntax
    error, and the position where the cursor stops), and as a method that
    does what the source does — reads and advances a shared cursor in loops —
    and is proved to agree with the function.

    The flag `consume` is the source's second argument: when it is set the
    production first consumes the operator or '(' in front of it. */
module Parser {
  import opened Ast
  import opened Cursor

  /** The outcome of a production: the tree it built, or the syntax error it
      raised, together with the cursor position at that moment. */
  datatype Step =
    | Ok(tree: Tree, pos: nat)
    | Fail(err: SyntaxError, pos: nat)

  /** The value of a decimal digit. */
  function DigitOf(ch: char): nat
    requires IsDigit(ch)
  {
    ch as int - '0' as int
  }

  /** 10 to the power `n`. */
  function Pow10(n: nat): nat
  {
    if n == 0 then 1 else 10 * Pow10(n - 1)
  }

  /** The base-10 number a string of digits spells (leading zeros allowed).
      A run of n digits spells a number below 10^n, and it spells zero
      exactly when every digit is '0'. */
  function DigitsValue(ds: string): (r: nat)
    requires forall k | 0 <= k < |ds| :: IsDigit(ds[k])
    ensures r < Pow10(|ds|)
    ensures r == 0 <==> forall k | 0 <= k < |ds| :: ds[k] == '0'
  {
    if ds == [] then 0 else 10 * DigitsValue(ds[..|ds| - 1]) + DigitOf(ds[|ds| - 1])
  }

  /** As with `int(v, 10)`, leading zeros do not change the value. */
  lemma {:induction false} LeadingZero(ds: string)
    requires forall k | 0 <= k < |ds| :: IsDigit(ds[k])
    ensures DigitsValue("0" + ds) == DigitsValue(ds)
    decreases |ds|
  {
    if ds != [] {
      var init := ds[..|ds| - 1];
      assert ("0" + ds)[..|ds|] == "0" + init;
      LeadingZero(init);
    }
  }

  /** The end of the maximal run of digits that starts at `k`. */
  function DigitRunEnd(s: string, k: nat): (e: nat)
    requires k <= |s|
    ensures k <= e <= |s|
    ensures forall m | k <= m < e :: IsDigit(s[m])
    ensures e == |s| || !IsDigit(s[e])
    decreases |s| - k
  {
    if k < |s| && IsDigit(s[k]) then DigitRunEnd(s, k + 1) else k
  }

  // ---------------------------------------------------------------------
  // The productions as functions.  Termination: every production either
  // consumes a character before it recurses, or hands over to one of lower
  // rank (the second component of each decreases clause).
  // ---------------------------------------------------------------------

  /** expression: a term, then a left-to-right fold over ('+'|'-') term. */
  function ParseExpr(s: string, i: nat, consume: bool): (r: Step)
    requires i <= |s|
    requires consume ==> i < |s|
    ensures i <= r.pos <= |s|
    ensures consume ==> i < r.pos
    decreases |s| - i, if consume then 0 else 5
  {
    var j := if consume then i + 1 else i;
    match ParseTerm(s, j, false)
    case Fail(e, p) => Fail(e, p)
    case Ok(left, p) => ParseExprTail(s, p, left)
  }

  /** The loop of `expr`: `left` is everything parsed so far. */
  function ParseExprTail(s: string, i: nat, left: Tree): (r: Step)
    requires i <= |s|
    ensures i <= r.pos <= |s|
    decreases |s| - i, 3
  {
    var p := PeekAt(s, i);
    if p == "+" || p == "-" then
      match ParseTerm(s, i, true)
      case Fail(e, q) => Fail(e, q)
      case Ok(right, q) => ParseExprTail(s, q, Bin(if p == "+" then Add else Sub, left, right))
    else
      Ok(left, i)
  }

  /** term: a primary, then a left-to-right fold over ('*'|'/') primary. */
  function ParseTerm(s: string, i: nat, consume: bool): (r: Step)
    requires i <= |s|
    requires consume ==> i < |s|
    ensures i <= r.pos <= |s|
    ensures consume ==> i < r.pos
    decreases |s| - i, if consume then 0 else 4
  {
    var j := if consume then i + 1 else i;
    match ParsePrim(s, j, false)
    case Fail(e, p) => Fail(e, p)
    case Ok(left, p) => ParseTermTail(s, p, left)
  }

  /** The loop of `term`: `left` is everything parsed so far. */
  function ParseTermTail(s: string, i: nat, left: Tree): (r: Step)
    requires i <= |s|
    ensures i <= r.pos <= |s|
    decreases |s| - i, 3
  {
    var p := PeekAt(s, i);
    if p == "*" || p == "/" then
      match ParsePrim(s, i, true)
      case Fail(e, q) => Fail(e, q)
      case Ok(right, q) => ParseTermTail(s, q, Bin(if p == "*" then Mul else Div, left, right))
    else
      Ok(left, i)
  }

  /** primary: skip spaces, consume the leading operator if asked to, skip
      spaces again, then read the primary proper. */
  function ParsePrim(s: string, i: nat, consume: bool): (r: Step)
    requires i <= |s|
    requires consume ==> SkipSpaces(s, i) < |s|
    ensures i <= r.pos <= |s|
    ensures consume ==> i < r.pos
    decreases |s| - i, if consume then 0 else 2
  {
    var j := SkipSpaces(s, i);
    ParsePrimAt(s, SkipSpaces(s, if consume then j + 1 else j))
  }

  /** The primary proper at `k`, where no space is left to skip. */
  function ParsePrimAt(s: string, k: nat): (r: Step)
    requires k <= |s|
    ensures k <= r.pos <= |s|
    decreases |s| - k, 1
  {
    var p := PeekAt(s, k);
    if p == "(" then
      match ParseExpr(s, k, true)
      case Fail(e, q) => Fail(e, q)
      case Ok(v, q) =>
        if PeekAt(s, q) != ")" then Fail(UnmatchedParen, q)
        else Ok(v, SkipSpaces(s, q + 1))
    else if IsDigitText(p) then
      var e := DigitRunEnd(s, k);
      Ok(Const(DigitsValue(s[k..e])), SkipSpaces(s, e))
    else if p == "-" then
      if PeekAt(s, k + 1) == " " then Fail(SpaceAfterMinus, k + 1)
      else
        match ParsePrim(s, k + 1, false)
        case Fail(e, q) => Fail(e, q)
        case Ok(v, q) => Ok(Negated(v), SkipSpaces(s, q))
    else
      Ok(Missing, k)
  }

  // ---------------------------------------------------------------------
  // The productions as the source runs them: on a shared cursor.
  // ---------------------------------------------------------------------

  method Expr(ch: Ch, consume: bool) returns (r: Step)
    requires ch.Valid()
    requires consume ==> !ch.IsOver()
    modifies ch
    ensures ch.Valid()
    ensures r == ParseExpr(ch.s, old(ch.c), consume) && ch.c == r.pos
    decreases |ch.s| - ch.c, if consume then 0 else 5
  {
    if consume {
      var _ := ch.Adv();
    }
    r := Term(ch, false);
    if r.Fail? {
      return;
    }
    var left := r.tree;
    while true
      invariant ch.Valid() && old(ch.c) <= ch.c
      invariant consume ==> old(ch.c) < ch.c
      invariant ParseExprTail(ch.s, ch.c, left) == ParseExpr(ch.s, old(ch.c), consume)
      decreases |ch.s| - ch.c
    {
      var p := ch.Peek();
      if p == "+" || p == "-" {
        var right := Term(ch, true);
        if right.Fail? {
          return right;
        }
        left := Bin(if p == "+" then Add else Sub, left, right.tree);
      } else {
        return Ok(left, ch.c);
      }
    }
  }

  method Term(ch: Ch, consume: bool) returns (r: Step)
    requires ch.Valid()
    requires consume ==> !ch.IsOver()
    modifies ch
    ensures ch.Valid()
    ensures r == ParseTerm(ch.s, old(ch.c), consume) && ch.c == r.pos
    decreases |ch.s| - ch.c, if consume then 0 else 4
  {
    if consume {
      var _ := ch.Adv();
    }
    r := Prim(ch, false);
    if r.Fail? {
      return;
    }
    var left := r.tree;
    while true
      invariant ch.Valid() && old(ch.c) <= ch.c
      invariant consume ==> old(ch.c) < ch.c
      invariant ParseTermTail(ch.s, ch.c, left) == ParseTerm(ch.s, old(ch.c), consume)
      decreases |ch.s| - ch.c
    {
      var p := ch.Peek();
      if p == "*" || p == "/" {
        var right := Prim(ch, true);
        if right.Fail? {
          return right;
        }
        left := Bin(if p == "*" then Mul else Div, left, right.tree);
      } else {
        return Ok(left, ch.c);
      }
    }
  }

  method Prim(ch: Ch, consume: bool) returns (r: Step)
    requires ch.Valid()
    requires consume ==> SkipSpaces(ch.s, ch.c) < |ch.s|
    modifies ch
    ensures ch.Valid()
    ensures r == ParsePrim(ch.s, old(ch.c), consume) && ch.c == r.pos
    decreases |ch.s| - ch.c, if consume then 0 else 2
  {
    ch.SkipSpace();
    if consume {
      var _ := ch.Adv();
    }
    ch.SkipSpace();
    r := PrimAt(ch);
  }

  /** The body of `prim` after its leading spaces (and operator) are gone. */
  method PrimAt(ch: Ch) returns (r: Step)
    requires ch.Valid()
    modifies ch
    ensures ch.Valid()
    ensures r == ParsePrimAt(ch.s, old(ch.c)) && ch.c == r.pos
    decreases |ch.s| - ch.c, 1
  {
    if ch.Peek() == "(" {
      r := Expr(ch, true);
      if r.Fail? {
        return;
      }
      if ch.Peek() != ")" {
        return Fail(UnmatchedParen, ch.c);
      }
      var _ := ch.Adv();
      ch.SkipSpace();
      r := Ok(r.tree, ch.c);
    } else if IsDigitText(ch.Peek()) {
      var v := ReadDigits(ch);
      ch.SkipSpace();
      r := Ok(Const(DigitsValue(v)), ch.c);
    } else if ch.Peek() == "-" {
      var _ := ch.Adv();
      if ch.Peek() == " " {
        return Fail(SpaceAfterMinus, ch.c);
      }
      r := Prim(ch, false);
      if r.Fail? {
        return;
      }
      ch.SkipSpace();
      r := Ok(Negated(r.tree), ch.c);
    } else {
      r := Ok(Missing, ch.c);
    }
  }

  /** The digit loop of `prim`: accumulates the maximal run of digits at the
      cursor, consuming it. */
  method ReadDigits(ch: Ch) returns (v: string)
    requires ch.Valid()
    modifies ch
    ensures ch.Valid()
    ensures ch.c == DigitRunEnd(ch.s, old(ch.c))
    ensures v == ch.s[old(ch.c)..ch.c]
  {
    v := "";
    while !ch.IsOver() && IsDigitText(ch.Peek())
      invariant ch.Valid() && old(ch.c) <= ch.c <= DigitRunEnd(ch.s, old(ch.c))
      invariant v == ch.s[old(ch.c)..ch.c]
      decreases |ch.s| - ch.c
    {
      var d := ch.Adv();
      v := v + [d];
    }
    assert ch.c == |ch.s| || !IsDigit(ch.s[ch.c]);
  }
}

/** The entry point `calc`: build a cursor at the start of the text, parse
    one expression, evaluate the tree.  Nothing checks that the whole text
    was consumed. */
module Calc {
  import opened Ast
  import opened Cursor
  import opened Parser
  import opened Evaluate

  /** What `calc` answers for a text: a syntax error exactly when the parser
      raises one; any other failure is a missing operand or a division by
      zero inside the tree the parser built. */
  function Calculate(text: string): (r: Result<real>)
    ensures r.Failure? && r.error.Syntax? <==> ParseExpr(text, 0, false).Fail?
    ensures r.Failure? && !r.error.Syntax? ==>
              ParseExpr(text, 0, false).Ok? &&
              (HasMissing(ParseExpr(text, 0, false).tree) || HasDivision(ParseExpr(text, 0, false).tree))
  {
    match ParseExpr(text, 0, false)
    case Fail(e, _) => Failure(Syntax(e))
    case Ok(t, _) => Eval(t)
  }

  /** `calc`, run on a cursor as the source runs it. */
  method Calc(expression: string) returns (r: Result<real>)
    ensures r == Calculate(expression)
  {
    var ch := new Ch(expression, 0);
    var tree := Expr(ch, false);
    if tree.Fail? {
      return Failure(Syntax(tree.err));
    }
    r := Eval(tree.tree);
  }
}

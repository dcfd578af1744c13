/** The expression tree that the parser builds and the evaluator walks,
    and the failures either of them can report. */
module Ast {

  /** The four binary operators of the grammar. */
  datatype Op = Add | Sub | Mul | Div

  /** A parsed expression.  `Missing` stands for the absent subtree that the
      primary production leaves behind when it sees neither '(', a digit nor
      '-': parsing goes on, and evaluating such a tree fails. */
  datatype Tree =
    | Missing
    | Const(value: int)
    | Bin(op: Op, a: Tree, b: Tree)

  /** The two syntax errors the parser raises: a '(' group not closed by ')'
      (raised with the message "unmatched ')'"), and a unary '-' followed
      directly by a space (raised with an empty message). */
  datatype SyntaxError = UnmatchedParen | SpaceAfterMinus

  /** Why a calculation has no value. */
  datatype Error =
    | Syntax(kind: SyntaxError)
    | MissingOperand   // evaluation reached a missing subtree
    | DivisionByZero   // the right operand of '/' evaluated to zero

  datatype Result<T> = Success(value: T) | Failure(error: Error)

  /** The tree that unary minus builds for `-X`: the product of X and the
      literal -1. */
  function Negated(t: Tree): Tree
  {
    Bin(Mul, t, Const(-1))
  }

  /** The binding level of an operator: 0 for '+' and '-', 1 for '*' and '/'. */
  function Level(op: Op): nat
  {
    if op == Add || op == Sub then 0 else 1
  }

  /** The character that spells an operator. */
  function OpChar(op: Op): char
  {
    match op
    case Add => '+'
    case Sub => '-'
    case Mul => '*'
    case Div => '/'
  }
}

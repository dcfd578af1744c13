# evaluate_math — a verified model of a small arithmetic calculator

`evaluate_math.py` evaluates arithmetic text such as `1+((8*10))*10`.
It has three parts:

- a character cursor `Ch`, with one character of lookahead, single-character
  consumption and skipping of spaces;
- a recursive-descent parser (`expr`, `term`, `prim`) that builds an
  expression tree of nested dictionaries;
- an evaluator `resolve_tree`, with `calc` tying the parts together.

The grammar is:

    expression := term (('+' | '-') term)*
    term       := primary (('*' | '/') primary)*
    primary    := '(' expression ')' | digits | '-' primary

Unary minus is rewritten as a product with the literal -1.

The model keeps the source's structure:

- `Cursor` is a class `Ch` whose methods move its position in place.
- `Parser` gives each production twice:
  - as a function over the text and a start position (`ParseExpr`, `ParseTerm`, `ParsePrim`, …), which says what the production yields;
  - as a method that runs the source's loops on a shared `Ch` (`Expr`, `Term`, `Prim`), proved to agree with that function.
- `Evaluate` is `resolve_tree` as structural recursion over the tree.
- `Calc` is `calc`.

On top of these:

- `Unparse` is a printer for trees, written independently of the parser.
  It is used to prove that the parser reads every printed tree back as
  that tree. Because the printer adds parentheses only where the grammar
  needs them, this pins down precedence and left associativity.
- `Properties` states what `calc` does on whole texts:
  - the round trip;
  - precedence and associativity shapes;
  - unary minus;
  - the two syntax errors;
  - dangling operators;
  - ignored trailing text.
- `Examples` covers particular texts.

How the model represents the source:

- Python's dictionaries become the datatype `Tree`.
- The `None` that `prim` returns when it sees neither '(', a digit nor '-' becomes `Tree.Missing`.
- The exceptions become the `Error` cases of a `Result`:
  - the two `SyntaxError`s;
  - the `AttributeError` raised when evaluation reaches `None` (`MissingOperand`);
  - `ZeroDivisionError` (`DivisionByZero`).

The code accepts any text after a complete expression and ignores it: `calc("1+1 garbage")` is 2, not a syntax error. The model follows the code (`Properties.CalculatePrefix`, `Examples.ExampleTrailing`, `Examples.ExampleGarbage`).

## Model

| member | source | states |
|---|---|---|
| Cursor.Ch.constructor | evaluate_math.py:16-18 | a new cursor holds the text and the start position |
| Cursor.Ch.Peek | evaluate_math.py:20-24 | the lookahead is the character at the position as a one-character string, and the empty string exactly when the text is used up; it never moves the cursor |
| Cursor.Ch.IsOver | evaluate_math.py:26-27 | the cursor is over exactly when `peek` would answer the empty string |
| Cursor.Ch.Adv | evaluate_math.py:29-32 | consumes exactly one character and returns the character that was under the cursor |
| Cursor.SkipSpaces | evaluate_math.py:34-36 | the first position at or after the start that does not hold ' ', with only ' ' in between |
| Cursor.Ch.SkipSpace | evaluate_math.py:34-36 | the loop leaves the cursor on the first non-space at or after where it was |
| Cursor.SkipSpacesIdempotent | evaluate_math.py:72-74 | skipping spaces a second time, as `prim` does, moves nothing further |
| Parser.DigitRunEnd | evaluate_math.py:87-88 | the end of the maximal run of digits: every character before it is a digit, the one at it is not |
| Parser.DigitsValue | evaluate_math.py:90 | the value `int(v, 10)` gives a run of n digits: below 10^n, and zero exactly when every digit is '0' |
| Parser.LeadingZero | evaluate_math.py:90 | as with `int(v, 10)`, a leading zero does not change the value read |
| Parser.ParseExpr | evaluate_math.py:39-53 | the cursor ends within the text, and strictly past the start when the leading operator or '(' is consumed |
| Parser.ParseExprTail | evaluate_math.py:43-53 | the loop of `expr` ends within the text |
| Parser.ParseTerm | evaluate_math.py:55-69 | as for `expr`, for a term |
| Parser.ParseTermTail | evaluate_math.py:59-69 | the loop of `term` ends within the text |
| Parser.ParsePrim | evaluate_math.py:71-98 | the cursor ends within the text, and strictly past the start when the leading operator is consumed |
| Parser.ParsePrimAt | evaluate_math.py:77-98 | the cursor ends within the text, at or after the start |
| Parser.Expr | evaluate_math.py:39-53 | running `expr` on a cursor yields exactly the tree or syntax error of `ParseExpr` and leaves the cursor at its end position |
| Parser.Term | evaluate_math.py:55-69 | running `term` on a cursor agrees with `ParseTerm`, result and cursor position |
| Parser.Prim | evaluate_math.py:71-74 | running `prim` on a cursor agrees with `ParsePrim`, result and cursor position |
| Parser.PrimAt | evaluate_math.py:77-98 | the four branches of `prim` agree with `ParsePrimAt`, result and cursor position |
| Parser.ReadDigits | evaluate_math.py:86-88 | the digit loop consumes exactly the maximal run of digits and returns those characters |
| Evaluate.Eval | evaluate_math.py:100-117 | evaluation fails only with a missing operand in a tree that has one, or a division by zero in a tree that divides |
| Evaluate.EvalIntegers | evaluate_math.py:104-112 | without '/' and without a missing operand, evaluation succeeds with the exact integer value of the tree |
| Evaluate.MissingSubtreeFails | evaluate_math.py:100-117 | a tree with a missing operand anywhere never has a value |
| Evaluate.LeftOperandFirst | evaluate_math.py:107-114 | the left operand is evaluated first: its failure is the one reported, and otherwise the right operand's |
| Evaluate.NegationRewrite | evaluate_math.py:92-98 | the product with -1 that unary minus builds evaluates to the negation of its operand, or fails as the operand does |
| Calc.Calculate | evaluate_math.py:120-124 | what `calc` answers: a syntax error exactly when the parser raises one; any other failure is a missing operand or a division by zero inside the parsed tree |
| Calc.Calc | evaluate_math.py:120-124 | `calc` run on a fresh cursor answers `Calculate`: the evaluated tree, or the syntax error the parser raised |
| Unparse.Digits | evaluate_math.py:85-90 | a printed literal is a non-empty run of digits |
| Unparse.DigitsRoundTrip | evaluate_math.py:90 | reading the printed digits of n gives n back |
| Unparse.Show | evaluate_math.py:77-90 | a printed tree starts with '(', '-' or a digit, as a primary must |
| Unparse.PrintableComplete | evaluate_math.py:100-117 | a printable tree has no missing operand |
| Unparse.ExprPrefix | evaluate_math.py:39-53 | an expression-level spelling of t parses as t, leaving the loop of `expr` to look at what follows |
| Unparse.ExprRightOperand | evaluate_math.py:44-51 | a '+' or '-' followed by the spelling of a term extends the tree parsed so far with that term on the right |
| Unparse.TermOk | evaluate_math.py:55-69 | a term-level spelling of t followed by no '*' or '/' is read as the whole term t |
| Unparse.TermPrefix | evaluate_math.py:55-69 | a term-level spelling of t parses as t, leaving the loop of `term` to look at what follows |
| Unparse.TermRightOperand | evaluate_math.py:60-67 | a '*' or '/' followed by the spelling of a primary extends the tree parsed so far with that primary on the right |
| Unparse.PrimOk | evaluate_math.py:71-90 | a primary-level spelling of t is read as t, with trailing spaces consumed |
| Unparse.LiteralOk | evaluate_math.py:85-90 | a printed literal is read as its value, with trailing spaces consumed |
| Unparse.NegationOk | evaluate_math.py:92-98 | a printed unary minus is read as the product of its operand with -1 |
| Unparse.ParenOk | evaluate_math.py:77-83 | a parenthesised spelling is read as the tree inside the parentheses |
| Unparse.ExprTailStep | evaluate_math.py:43-51 | one turn of the loop of `expr` builds the operator node with the tree so far on the left |
| Unparse.TermTailStep | evaluate_math.py:59-67 | one turn of the loop of `term` builds the operator node with the tree so far on the left |
| Unparse.SkipSpacesTo | evaluate_math.py:34-36 | a run of spaces up to a non-space is exactly what skipping spaces consumes |
| Unparse.SameStart | evaluate_math.py:71-74 | spaces in front of a primary or a term do not change what is read |
| Unparse.PrimAfterOperator | evaluate_math.py:71-74 | consuming an operator and skipping spaces is the same as starting a primary just past the operator |
| Properties.ParseShow | evaluate_math.py:39-124 | every printed tree parses back as itself, using up the whole text, and `calc` gives that tree's value |
| Properties.CalculatePrefix | evaluate_math.py:120-124 | a printed tree followed by a character that is not a digit, then any spaces, then anything but an operator, is read as that tree; the rest of the text is ignored |
| Properties.CalculateIntegers | evaluate_math.py:100-124 | on a printed tree without '/', `calc` succeeds with exact integer arithmetic |
| Properties.SubtractionLeftAssociative | evaluate_math.py:43-53 | x-y-z parses as (x-y)-z and evaluates to x-y-z |
| Properties.ProductBindsTighterRight | evaluate_math.py:39-69 | x+y*z parses as x+(y*z) |
| Properties.ProductBindsTighterLeft | evaluate_math.py:39-69 | x*y-z parses as (x*y)-z |
| Properties.ParenthesesGroup | evaluate_math.py:77-83 | (x-y)*z parses with the difference as one primary, and evaluates to (x-y)*z |
| Properties.DivisionLeftAssociative | evaluate_math.py:59-69 | x/y/z parses as (x/y)/z; it fails with a division by zero exactly when y or z is 0, and is otherwise x/y/z |
| Properties.UnaryMinus | evaluate_math.py:92-98 | a text made of '-' and a primary parses as that primary's product with -1, so `calc` negates the value, or fails as the operand does; `ParseShow` covers unary minus at every other position |
| Properties.UnaryMinusAfterOperator | evaluate_math.py:60-66 | a unary minus right after any binary operator, as in 2*-3 or 1--1, is that operator's right operand |
| Properties.SpacedOperator | evaluate_math.py:71-74 | any number of spaces on either side of a binary operator leaves the parse and the value unchanged |
| Properties.SpacedAdditive | evaluate_math.py:43-51 | a spaced '+' or '-' between two printed operands is read as their operation |
| Properties.SpacedMultiplicative | evaluate_math.py:59-67 | a spaced '*' or '/' between two printed operands is read as their operation |
| Properties.MinusSpaceAt | evaluate_math.py:92-95 | wherever a primary starts, a '-' followed by a space is the syntax error |
| Properties.SpaceAfterMinusRejected | evaluate_math.py:92-95 | at the first primary of the text, a '-' directly followed by a space is a syntax error, whatever follows; `MinusSpaceAt` states it for every position where a primary starts |
| Properties.SpaceAfterMinusAfterOperator | evaluate_math.py:92-95 | a '-' followed by a space right after a binary operator is a syntax error, whatever follows |
| Properties.UnclosedParenRejected | evaluate_math.py:77-80 | a '(' followed by a whole expression and no ')' is the unmatched-parenthesis syntax error |
| Properties.DanglingOperator | evaluate_math.py:39-117 | an operator with nothing after it parses, leaving its right operand missing; evaluation then fails, with the left operand's own failure if it has one |
| Examples.Example801 | evaluate_math.py:120-124 | `calc("1+((8*10))*10")` is 801 |
| Examples.ExampleUnclosed | evaluate_math.py:77-80 | `calc("1+((8*10)*10")` is the unmatched-parenthesis syntax error |
| Examples.ExampleDangling | evaluate_math.py:100-117 | `calc("1+")` fails on the missing operand |
| Examples.ExampleTrailing | evaluate_math.py:120-124 | `calc("1 2")` is 1: text after a complete expression is ignored |
| Examples.ExampleGarbage | evaluate_math.py:120-124 | `calc("1+1 garbage")` is 2 |
| Examples.ExampleMinusAfterProduct | evaluate_math.py:60-66 | `calc("2*-3")` is -6 |
| Examples.ExampleDoubleMinus | evaluate_math.py:48-51 | `calc("1--1")` is 2 |
| Examples.ExampleSpacedMinus | evaluate_math.py:72-74 | `calc("1 - 2")` is -1 |
| Examples.ExampleSpaceAfterMinus | evaluate_math.py:92-95 | `calc("2*- 3")` is the space-after-minus syntax error |

## Left out

- Numbers: `/` is exact division of reals. Python's floating-point rounding, and the fact that `/` turns integers into floats, are not modelled.
- Float overflow: Python raises `OverflowError` when '/' produces a quotient beyond the float range (a 400-digit literal divided by 1), or when such an integer meets a float. The model has no such error; it returns the exact value.
- Literal length: since Python 3.11 (and the security releases 3.7.14, 3.8.14, 3.9.14 and 3.10.7), `int(v, 10)` raises `ValueError` for a run of more than 4300 digits, the default limit of `sys.set_int_max_str_digits`. The model reads a run of any length, so `LiteralOk` and `ParseShow` promise a value for literals of any size.
- Recursion depth: Python stops with `RecursionError` after about 1000 nested calls. That is about 1000 operators in a row for `resolve_tree`, or a few hundred nested parentheses for `prim`, `expr` and `term`. The model has unbounded recursion, so `ParseShow` and `CalculateIntegers` promise a value for trees of any depth.
- Digits: only '0'..'9' count as digits. Python's `str.isdigit` also accepts other Unicode digits, which `int(v, 10)` may then reject or read.
- Errors: Python exception classes and messages are not modelled. They become the `Error` cases named above.
- An `IndexError` from `adv` at the end of the text cannot happen: every call site checks that a character is there first. `Adv` requires it.
- Cursor.Ch.constructor: the start position must lie within the text. Python accepts any start, but `calc` always starts at 0.
- Parser.Prim: `prim` is split in two. `Prim` skips spaces and consumes the leading operator; `PrimAt` is the rest. Together they are the source function.
- Nothing rejects trailing input after a complete expression, because the code does not (see above).
- Evaluate.Eval: its contract names the two ways evaluation fails. Its value is stated by `EvalIntegers` for trees without '/', and by the examples and properties for division.
- `Unparse` prints only trees with non-negative literals, unary minus and no missing operand. The round trip is stated for those trees.
- The printer puts no spaces into the text. Spaces are covered around a single binary operator (`SpacedOperator`), before a primary (`SameStart`) and after a complete expression (`CalculatePrefix`), not for arbitrary spacing throughout a text.
- Properties.CalculatePrefix: it requires a non-digit right after the printed tree, even when the tree ends in ')'. `1-(2+3)4` is -4 in the source (both loops stop at the '4'), but the lemma does not cover it.
- The module's docstring and the commented grammar are not modelled.

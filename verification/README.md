# A verified model of the physics-demo maths core

This project models, in Dafny, the computational core of a collection of
browser physics demos:

- the **math-expression engine** of the Minkowski-diagram demo
  (`more-small-projects/minkowski/main.js`): the complex-number helpers and
  the polymorphic `add/sub/mul/div/pow` dispatch, the function table, the
  character classes and precedence table, the hand-written number scanner
  (`parseNumber`, `parseAfterDecimal`, `parseAfterExponent`), the tokenizer
  `getExpressionStack` with its unary-minus pre-pass and parenthesis check,
  the shunting-yard conversion to reverse Polish notation, the evaluator
  `computeRPNExpression`, the shader-code generator
  `turnRPNExpressionToString`, and the expression-tree code at
  `main.js:683-909` (the `Node` class, tree building, `stringifyNode`,
  `evaluate`, `simplify`, `derivative`), which the demo at the end of that
  range uses to print a derivative;
- the **2D split-step arrays and FFT** (`more-small-projects/qm2d-split-step/array.js`
  and `fft.js`): `RealArray2D`, `ComplexArray2D` with its interleaved
  storage, row views, `subSlice` and `transposeInPlace`, the bit-reversal
  sort, the in-place radix-2 FFT of a row and the row/transpose 2D FFT;
- the **1D time-dependent solver's arrays**
  (`more-small-projects/qm1d-time-dependent/main.js`): `ComplexArray`, its
  own copy of the bit-reversal sort and radix-2 FFT, and the position and
  momentum grids `X` and `P`;
- the **3D shape buffers** (`shapes.js`): the vector helpers, `VertexArray`,
  `TriangleWireFrame` and `Shape`'s fill and cull flags.

Numbers are exact reals (`real`); `Math.exp`, `Math.sin`, `Math.cos`,
`Math.log`, `Math.pow`, `Math.PI` and the other host functions are the
uninterpreted fields of a `MathLib` value passed to every operation that
uses them, so every result is stated for any host maths library.
JavaScript's `undefined` is `None` (or the `Undef` number kind), and a
`throw` is the `Throw` case of `Outcome`. Code that works by mutation keeps
that form: the typed-array grids are classes over `array<real>`, the FFTs
are in-place loops proved against the specification functions `Radix2`,
`Stage` and `BitReversed`, and the shape buffers are classes whose methods
state their whole new state. The expression engine's loops (the scanner,
the stack-based parenthesis check, `handleUnaryOperators`, the
shunting-yard, the RPN evaluator and code generator, the tree builder) are
methods proved equal to recursive definitions, about which the properties
are proved as lemmas.

The main results:

- the number scanner accepts exactly the literals of its grammar
  (`Scanner.ScanNumberSound`, `Scanner.ScanNumberComplete`);
- the tokenizer loses no character and produces only well-formed tokens,
  and its pre-pass clears every unary sign (`TokenizerFacts.LexConcat`,
  `TokenizerFacts.UnaryClearsSigns`);
- the shunting-yard outputs every non-parenthesis token exactly once
  (`ShuntingFacts.RPNExprListKeepsTokens`) with the right associativity
  (`ShuntingFacts.TwoOperators`);
- evaluating the RPN list equals valuing the tree built from it, and the
  generated shader code is that tree's rendering
  (`RpnTree.RpnValueIsMeaning`, `RpnTree.RpnStringIsCode`);
- `simplify` is idempotent and value-preserving under stated conditions
  (`SimplifyFacts.SimplifyIdempotent`, `SimplifyFacts.SimplifySound`), and
  `derivative` introduces no new variable
  (`DerivativeFacts.DerivativeKeepsNames`); its power rule reads the
  exponent as `Number.parseInt` does, so an exponent of 10^21 or more counts
  as its leading digit (`DerivativeFacts.ExponentNotationPower`);
- `stringifyNode` parenthesises a child of lower precedence on either side
  (`Tree.OperatorText`), but not a right child of equal precedence, which
  the corrected rendering does (`Tree.GroupedRightChild`);
- the bit-reversal sort is the bit-reversal permutation, an involution,
  and the in-place FFTs compute `Radix2` row by row
  (`BitReversal.SwapPassIsBitReversal`, `BitReversal.BitReversedTwice`,
  `FFT.Radix2InPlaceFFT`, `FFT.Radix2InPlaceFFT2D`, `QM1D.Radix2InPlaceFFT`);
- `transposeInPlace` transposes on both of its branches
  (`Arrays2D.ComplexArray2D.TransposeInPlace`);
- the vertex buffer operations keep the buffer consistent and state
  exactly what changes (`Shapes.VertexArray.*`).

## Model

| member | source | states |
|---|---|---|
| Numeric.FDiv | more-small-projects/minkowski/main.js:105-107 | JavaScript `/` on two numbers: for a non-zero divisor the quotient times the divisor is the dividend; division by zero is the host's value |
| Numeric.BinaryOp | more-small-projects/minkowski/main.js:69-127 | `add/sub/mul/div/pow` picked by operator character: two numbers give a number, an `undefined` operand falls through every branch and gives `undefined`, and otherwise a `Complex` operand makes the result `Complex` |
| Numeric.ComplexPow | more-small-projects/minkowski/main.js:62-67 | `complexPow` returns a `Complex` on both of its branches, and for two real-valued operands it is `Math.pow` of the real parts |
| Numeric.MixedOperandsArePromoted | more-small-projects/minkowski/main.js:69-129 | a number mixed with a `Complex` is promoted with `real(r) = Complex(r, 0)`: the result equals the one for two complex operands, on either side |
| Numeric.RealPathAgreesWithComplex | more-small-projects/minkowski/main.js:50-129 | the plain-number path agrees with the complex formulas: promoting the number result equals operating on the promotions (for `/` with a non-zero divisor; for `^` through complexPow's real fallback) |
| Numeric.ApplyFunction | more-small-projects/minkowski/main.js:133-258 | the function table: a name outside it gives `undefined`; numbers map to numbers; `exp sin cos sinh cosh log` keep a `Complex` complex while `tan tanh abs step` turn it into a number (`tan`, `tanh` into NaN); exactly `log step tan tanh` turn `undefined` into a number |
| Numeric.Add | more-small-projects/minkowski/main.js:69-79 | `add`: number plus number is a number, `undefined` in gives `undefined` out, and otherwise the result, read as a complex number, is the complex sum of the operands promoted with `real` |
| Numeric.Sub | more-small-projects/minkowski/main.js:81-91 | `sub`: the same cases as `add`, with the complex difference |
| Numeric.Mul | more-small-projects/minkowski/main.js:93-103 | `mul`: the same cases as `add`, with the complex product `(ac - bd) + (ad + bc)i` |
| Numeric.Div | more-small-projects/minkowski/main.js:57-115 | `div`: the same cases as `add`; for a divisor with non-zero modulus the quotient times the divisor is the dividend, on every branch (through `complexDiv`'s `z * conj(w) / abs2(w)`) |
| Numeric.Pow | more-small-projects/minkowski/main.js:117-127 | `pow`: the same cases as `add`; two real-valued operands give `Math.pow` of their real parts, as a number or as a real-valued `Complex` |
| Numeric.Exp | more-small-projects/minkowski/main.js:133-140 | `exp` keeps numbers numbers and `undefined` undefined; on a real-valued `Complex` it is `Math.exp` of the real part when `cos 0 = 1` and `sin 0 = 0` |
| Numeric.Cos | more-small-projects/minkowski/main.js:142-149 | `cos` keeps the kind of its argument; on a real-valued `Complex` the formula `(e^{iz} + e^{-iz})/2` is `Math.cos` of the real part, given `exp 0 = 1` and cos even, sin odd |
| Numeric.Sin | more-small-projects/minkowski/main.js:151-158 | `sin` keeps the kind of its argument; on a real-valued `Complex` the formula `-i(e^{iz} - e^{-iz})/2` is `Math.sin` of the real part, under the same host properties |
| Numeric.Tan | more-small-projects/minkowski/main.js:160 | `sin(z)/cos(z)` with JavaScript's `/`: always a number; for a number with non-zero cosine the result times the cosine is the sine, and anything else gives NaN |
| Numeric.Cosh | more-small-projects/minkowski/main.js:163-169 | `cosh` keeps the kind of its argument; on a real-valued `Complex` it is `Math.cosh` of the real part when the host's cosh is `(e^x + e^-x)/2` |
| Numeric.Sinh | more-small-projects/minkowski/main.js:171-177 | `sinh` keeps the kind of its argument; on a real-valued `Complex` it is `Math.sinh` of the real part when the host's sinh is `(e^x - e^-x)/2` |
| Numeric.Tanh | more-small-projects/minkowski/main.js:179 | `sinh(z)/cosh(z)`: always a number; for a number the result times its cosh is its sinh, and anything else gives NaN |
| Numeric.Log | more-small-projects/minkowski/main.js:181-186 | `log` gives a `Complex` exactly for a `Complex`, NaN for `undefined` (the missing `if` sends every non-`Complex` to `Math.log`), and on a positive real-valued `Complex` the real `Math.log` |
| Numeric.Abs | more-small-projects/minkowski/main.js:43-48 | `abs`: `undefined` stays undefined, a number's result is non-negative and equals it or its negation, and a `Complex` gives the number `|z|` |
| Numeric.Negate | more-small-projects/minkowski/main.js:188-194 | `negate` keeps the kind of its argument and adding the result to the argument gives zero |
| Chars.PrecedenceOf | more-small-projects/minkowski/main.js:261-284 | `precedenceOf` is defined exactly for one-character operators and the function names, and is at most 3 |
| Chars.PrecedenceOrder | more-small-projects/minkowski/main.js:261-280 | functions rank above `^`, which ranks above `*` and `/` (equal), which rank above `+` and `-` (equal) |
| Chars.ClassesDisjoint | more-small-projects/minkowski/main.js:286-300 | the character classes that split the input are disjoint (digits, letters, operators, parentheses, space, `.`), and every digit is a numerical character |
| Chars.DigitCharacters | more-small-projects/minkowski/main.js:286-288 | `isSingleCharacterNumber`: the digits are exactly the characters of `'1234567890'` |
| Chars.LetterCharacters | more-small-projects/minkowski/main.js:298-300 | `isALetter`: the letters are exactly the characters of `LETTERS` (line 237) |
| Chars.OpCharacters | more-small-projects/minkowski/main.js:294-296 | `isSingleCharacterOp`: the operators are exactly the characters of `OPS` (line 238) |
| Chars.IsLeftParenthesis | more-small-projects/minkowski/main.js:311-313 | `isLeftParenthesis`: `(` is no numerical character, operator, letter or `)` |
| Chars.IsRightParenthesis | more-small-projects/minkowski/main.js:315-317 | `isRightParenthesis`: `)` is no numerical character, operator or letter |
| Chars.IsParenthesis | more-small-projects/minkowski/main.js:307-309 | `isParenthesis` holds exactly for the two parentheses |
| Chars.DigitsEnd | more-small-projects/minkowski/main.js:334-342 | the end of the maximal digit run from i: every character before it is a digit, and it is the end of input or a non-digit |
| JsNumber.TokenClasses | more-small-projects/minkowski/main.js:542-558 | how `!isNaN(parseFloat(c))` classifies the engine's tokens: a digit start is a value, an operator or parenthesis is not, and a name is a value exactly when it starts with `Infinity` |
| JsNumber.ParseFloatOfDigits | more-small-projects/minkowski/main.js:571-572 | `parseFloat` of a string of digits is that string's decimal value |
| JsNumber.ParseFloat | more-small-projects/minkowski/main.js:571-572 | `parseFloat` of a token that starts with a digit is the decimal value of that literal |
| JsNumber.ParseFloatNegated | more-small-projects/minkowski/main.js:571-572 | a `-` before a literal that starts with a digit negates its value |
| Scanner.WordEnd | more-small-projects/minkowski/main.js:323-332 | the end of the run of letters and digits from i: all characters before it are letters or digits, and it is the end of input or another character |
| Scanner.ParseVariable | more-small-projects/minkowski/main.js:323-332 | `parseVariable` returns the maximal run of letters and digits from i and the index after it |
| Scanner.ParseInteger | more-small-projects/minkowski/main.js:334-342 | `parseInteger` returns the maximal run of digits from i and the index after it |
| Scanner.ScanAfterExponent | more-small-projects/minkowski/main.js:344-372 | on success the text read is the mantissa, `e` and the exponent characters up to the end index, which lies past the `e` |
| Scanner.ParseAfterExponent | more-small-projects/minkowski/main.js:344-372 | the loop form of `parseAfterExponent` returns exactly `ScanAfterExponent` |
| Scanner.ScanAfterDecimal | more-small-projects/minkowski/main.js:375-397 | on success the text read is the integer digits, `.` and the input up to the end index |
| Scanner.ParseAfterDecimal | more-small-projects/minkowski/main.js:375-397 | the loop form of `parseAfterDecimal` returns exactly `ScanAfterDecimal` |
| Scanner.ScanNumber | more-small-projects/minkowski/main.js:399-426 | on success the text read is the input from i to the end index, and a number that starts with a digit reads at least one character |
| Scanner.ParseNumber | more-small-projects/minkowski/main.js:399-426 | the loop form of `parseNumber` returns exactly `ScanNumber` |
| Scanner.ExponentSound | more-small-projects/minkowski/main.js:344-372 | what a successful exponent scan read is `e`, an optional sign and digits, not followed by a digit; after a signed exponent no `.` follows |
| Scanner.DecimalPiece | more-small-projects/minkowski/main.js:375-397 | what a successful fraction scan read is `.`, digits and an optional exponent, followed by the end of input or a character that may end a literal |
| Scanner.ScanNumberSound | more-small-projects/minkowski/main.js:399-426 | `parseNumber` succeeds only on a literal `digits[.digits][e[+\|-]digits]` followed by what may end it: a terminator or the end without an exponent, no `.` after a signed exponent |
| Scanner.ScanNumberComplete | more-small-projects/minkowski/main.js:399-426 | conversely, a literal of that grammar that ends at a terminator or the end of input is read in full |
| Scanner.NumberTakesDecimal | more-small-projects/minkowski/main.js:420-421 | digits followed by `.` continue with `parseAfterDecimal` from just past the point |
| Scanner.NumberTakesExponent | more-small-projects/minkowski/main.js:418-419 | digits followed by `e` continue with `parseAfterExponent` from just past the `e` |
| Scanner.RejectedNumbers | more-small-projects/minkowski/main.js:399-426 | the inputs `2x`, `1e`, `1e+` and `1.5.3` are refused |
| Scanner.ExponentFollowers | more-small-projects/minkowski/main.js:363-369 | an unsigned exponent is accepted before `.` or a letter (`1e5.` and `1e5x` read `1e5`), a signed one is refused before `.` (`1e+5.`) |
| Tokenizer.DepthStep | more-small-projects/minkowski/main.js:445-457 | each character changes the count of open parentheses by +1 for `(`, -1 for `)` and 0 otherwise |
| Tokenizer.CheckIfParenthesesAreBalanced | more-small-projects/minkowski/main.js:445-457 | the stack loop answers true exactly when no prefix closes more parentheses than it opens and the whole string closes them all |
| Tokenizer.AfterParen | more-small-projects/minkowski/main.js:433-441 | the loop of `handleUnaryOperators` only lengthens the token list and keeps its first token |
| Tokenizer.HandleUnaryOperators | more-small-projects/minkowski/main.js:430-443 | the method, with its `unshift` and its rebuilt `newExpr`, returns exactly the pre-pass `Unary` of its tokens |
| Tokenizer.InsertZeroStep | more-small-projects/minkowski/main.js:434-439 | one insertion of `"0"` after a `(` that a sign follows leaves what the rest of the loop produces unchanged |
| Tokenizer.KeepStep | more-small-projects/minkowski/main.js:433-434 | a position without `(`-then-sign is passed over without changing the result |
| Tokenizer.GetExpressionStack | more-small-projects/minkowski/main.js:459-495 | `getExpressionStack` returns `ExpressionStack(s)`: `[]` for unbalanced parentheses, a failed number or a foreign character, else the pre-processed tokens last first |
| TokenizerFacts.ForeignCharacterFails | more-small-projects/minkowski/main.js:485-490 | a character that starts no token and is not a space, anywhere from i on, makes the tokenizer give up |
| TokenizerFacts.StrayCharactersGiveNothing | more-small-projects/minkowski/main.js:459-490 | a `.` where a token should start, or any foreign character, gives `[]`; in particular `.` and `2 # 3` give `[]` |
| TokenizerFacts.UnbalancedGivesNothing | more-small-projects/minkowski/main.js:460-463 | `(1+2`, `1+2)` and `)(` give `[]` |
| TokenizerFacts.LexConcat | more-small-projects/minkowski/main.js:466-491 | the tokens read, put back together, are the input with its spaces removed |
| TokenizerFacts.LexTokens | more-small-projects/minkowski/main.js:466-491 | every token read is a number literal, a name, an operator or a parenthesis |
| TokenizerFacts.ExpressionStackTokens | more-small-projects/minkowski/main.js:459-495 | every token `getExpressionStack` returns is a literal, a name, an operator or a parenthesis |
| TokenizerFacts.AfterParenClears | more-small-projects/minkowski/main.js:433-441 | after the loop no `(` is directly followed by a sign |
| TokenizerFacts.AfterParenFixes | more-small-projects/minkowski/main.js:433-441 | on a list where no `(` is followed by a sign the loop changes nothing |
| TokenizerFacts.UnaryClearsSigns | more-small-projects/minkowski/main.js:430-443 | after the pre-pass no sign starts the list or follows a `(` |
| TokenizerFacts.UnaryIdempotent | more-small-projects/minkowski/main.js:430-443 | running the pre-pass twice inserts nothing more |
| TokenizerFacts.AfterParenInserts | more-small-projects/minkowski/main.js:433-441 | the loop inserts one `"0"` per `(`-then-sign and keeps every other token in order |
| TokenizerFacts.UnaryInsertsZeros | more-small-projects/minkowski/main.js:430-443 | the pre-pass inserts `"0"` before a leading sign and after each `(` that a sign follows; all other tokens keep their relative order |
| TokenizerFacts.UnaryExamples | more-small-projects/minkowski/main.js:430-443 | `-x^2` becomes `0 - x ^ 2` and `2*(-x)` becomes `2 * ( 0 - x )` |
| TokenizerFacts.TokensBalanced | more-small-projects/minkowski/main.js:459-492 | the tokens of a balanced string, after the pre-pass, have balanced parentheses |
| TokenizerFacts.ReverseReverse | more-small-projects/minkowski/main.js:493 | reversing the token list twice gives it back |
| Shunting.TokenList.Pop | more-small-projects/minkowski/main.js:541 | `pop()` on a non-empty array returns its last element and removes it |
| Shunting.TokenList.Shift | more-small-projects/minkowski/main.js:570 | `shift()` on a non-empty array returns its first element and removes it |
| Shunting.HandleOp | more-small-projects/minkowski/main.js:497-535 | `handleOperators` leaves the number of open parentheses on the stack unchanged for any incoming operator or function |
| Shunting.CloseParen | more-small-projects/minkowski/main.js:546-551 | the `)` loop removes exactly one open parenthesis from the stack |
| Shunting.OutranksOperators | more-small-projects/minkowski/main.js:501-502 | `precedenceOf(opNew) > precedenceOf(opPrev)`: only an operator is outranked, never by itself; every function outranks every operator; `+` and `-` outrank nothing |
| Shunting.Step | more-small-projects/minkowski/main.js:540-559 | one token changes the open-parenthesis count by +1 for `(`, -1 for `)` and 0 otherwise |
| Shunting.HandleOperators | more-small-projects/minkowski/main.js:497-535 | the method with its `pop`/`push` loop and `break`s returns exactly `HandleOp` |
| Shunting.PopToLeftParenthesis | more-small-projects/minkowski/main.js:546-551 | the `)` loop returns exactly `CloseParen` |
| Shunting.ShuntToken | more-small-projects/minkowski/main.js:541-559 | the body of the first loop returns exactly `Step` |
| Shunting.ShuntingYard | more-small-projects/minkowski/main.js:537-565 | `shuntingYard` empties its input stack and returns `ShuntingYardOf` it (defined when no `)` comes without an open `(`, since the source loops forever otherwise) |
| ShuntingFacts.HandleOpPops | more-small-projects/minkowski/main.js:497-535 | `handleOperators` pops into the output, top first, exactly the run of entries above the nearest `(` that the new operator does not outrank, then pushes it |
| ShuntingFacts.CloseParenPops | more-small-projects/minkowski/main.js:546-551 | the `)` loop pops everything above the nearest `(` into the output, top first, and drops that `(` |
| ShuntingFacts.HandleOpKeeps | more-small-projects/minkowski/main.js:497-535 | `handleOperators` loses and duplicates nothing: stack plus output gain exactly the new operator, and no parenthesis enters the output |
| ShuntingFacts.CloseParenKeeps | more-small-projects/minkowski/main.js:546-551 | the `)` loop moves entries from the stack to the output and drops exactly one `(` |
| ShuntingFacts.StepKeepsTokens | more-small-projects/minkowski/main.js:540-559 | each token read moves between input, stack and output without being lost, parentheses aside |
| ShuntingFacts.ShuntKeepsTokens | more-small-projects/minkowski/main.js:537-565 | for tokens with balanced parentheses, the output holds every non-parenthesis token of the input, stack and output so far exactly once |
| ShuntingFacts.ShuntingYardKeepsTokens | more-small-projects/minkowski/main.js:537-565 | `shuntingYard` on a balanced token stack outputs each non-parenthesis token exactly once and no parenthesis |
| ShuntingFacts.StackMatched | more-small-projects/minkowski/main.js:459-495 | the stack `getExpressionStack` builds, read last first, never closes a parenthesis that is not open |
| ShuntingFacts.GetRPNExprList | more-small-projects/minkowski/main.js:659-662 | `getRPNExprList` returns `RPNExprList(s)`, the shunting-yard of the expression stack |
| ShuntingFacts.RPNExprListKeepsTokens | more-small-projects/minkowski/main.js:659-662 | the reverse Polish list holds every token of the text except the parentheses, each once, and no parenthesis |
| ShuntingFacts.HandleOpOnEmpty | more-small-projects/minkowski/main.js:532-534 | an operator arriving on an empty stack is pushed |
| ShuntingFacts.HandleOpKeepsTop | more-small-projects/minkowski/main.js:501-505 | an operator that outranks the top, or meets `(`, is pushed above it |
| ShuntingFacts.HandleOpPopsTop | more-small-projects/minkowski/main.js:506-512 | a top the new operator does not outrank goes to the output and the loop continues below it |
| ShuntingFacts.StepVariable | more-small-projects/minkowski/main.js:554-558 | a variable name goes straight to the output |
| ShuntingFacts.StepOperator | more-small-projects/minkowski/main.js:552-553 | an operator token goes through `handleOperators` |
| ShuntingFacts.SecondOperator | more-small-projects/minkowski/main.js:497-535 | on the stack `[o1]`, `o2` is pushed above `o1` when it outranks it and otherwise sends `o1` to the output |
| ShuntingFacts.TwoOperators | more-small-projects/minkowski/main.js:497-565 | `a o1 b o2 c` gives `a b o1 c o2` when `o2` does not outrank `o1` (left association of equal ranks, `^` included) and `a b c o2 o1` when it does |
| ShuntingFacts.Ranks | more-small-projects/minkowski/main.js:261-280 | `+` and `-` rank equal, `^` does not outrank `^`, and `*` outranks `+` |
| ShuntingFacts.ShuntEnd | more-small-projects/minkowski/main.js:561-563 | what is left on the operator stack goes to the output, top first |
| ShuntingFacts.CloseAfterFunction | more-small-projects/minkowski/main.js:546-551 | closing `f(x` drops the `(` and leaves `f` on the stack |
| ShuntingFacts.ParenthesisedArgument | more-small-projects/minkowski/main.js:544-551 | `(x)` read with `f` on the stack outputs `x` and then `f` |
| ShuntingFacts.FunctionAfterArgument | more-small-projects/minkowski/main.js:537-565 | a function name waits for its parenthesised argument: `sin(x)` becomes `x sin` |
| ShuntingFacts.LiteralIsNumeric | more-small-projects/minkowski/main.js:542 | a number literal starts with a digit, so `parseFloat` reads it as a value |
| ShuntingFacts.TokParensMatched | more-small-projects/minkowski/main.js:546-551 | tokens with balanced parentheses never reach the `)` loop without an open `(` on the stack |
| Rpn.Last | more-small-projects/minkowski/main.js:574-575 | `pop()` returns the top of the stack, `undefined` when it is empty |
| Rpn.Drop | more-small-projects/minkowski/main.js:574-575 | `pop()` removes the top, and leaves an empty stack empty |
| Rpn.PopNum | more-small-projects/minkowski/main.js:574-575 | popping the evaluation stack returns its top (`undefined` when empty) and the rest |
| Rpn.ComputeRPNExpression | more-small-projects/minkowski/main.js:567-611 | `computeRPNExpression` empties the list and returns `RpnValue` of it: the top after evaluating every token in order |
| Rpn.LiteralRule | more-small-projects/minkowski/main.js:571-572 | a numeric token pushes its `parseFloat` value |
| Rpn.OperatorRule | more-small-projects/minkowski/main.js:573-597 | an operator pops the right operand, then the left, and pushes `add/sub/mul/div/pow` of them |
| Rpn.FunctionRule | more-small-projects/minkowski/main.js:598-601 | a function name pops one value and pushes its image under the function table |
| Rpn.LookupRule | more-small-projects/minkowski/main.js:602-606 | a variable pushes its bound value, or nothing when unbound |
| Rpn.OtherRule | more-small-projects/minkowski/main.js:569-609 | any other token (a parenthesis, a stray character) leaves the stack alone |
| Rpn.Underflow | more-small-projects/minkowski/main.js:573-597 | an operator on a stack with fewer than two values combines `undefined` operands and pushes `undefined` |
| Rpn.EvalFromAppend | more-small-projects/minkowski/main.js:569-609 | evaluating `ts1 + ts2` is evaluating `ts1`, then `ts2` from the stack it left |
| Rpn.OpTokenIsArith | more-small-projects/minkowski/main.js:573-595 | every operator token selects one of the five arithmetic operations and is not a name |
| Rpn.FunctionIsNamed | more-small-projects/minkowski/main.js:598-599 | a function name starts with a letter and is neither numeric nor an operator |
| Rpn.Pop | more-small-projects/minkowski/main.js:621-622 | popping a stack (of code strings, or of tree nodes at main.js:878-883) returns its top (`undefined` when empty) and the rest |
| Rpn.TurnRPNExpressionToString | more-small-projects/minkowski/main.js:613-657 | `turnRPNExpressionToString` empties the list and returns `RpnString` of it |
| Rpn.GetVariablesFromRPNList | more-small-projects/minkowski/main.js:664-673 | `getVariablesFromRPNList` returns the set of tokens that start with a letter and are not function names |
| Rpn.VariablesAreLookups | more-small-projects/minkowski/main.js:664-673 | the variables found are exactly the tokens the evaluator looks up, plus letter-started numeric tokens (`Infinity...`) that it reads as literals |
| Rpn.BoundVariables | more-small-projects/minkowski/main.js:603-606 | binding every variable found leaves no token that the evaluator skips as unbound |
| RpnTree.CodesPush | more-small-projects/minkowski/main.js:870-891 | rendering a stack after a push is rendering the old stack plus the new tree |
| RpnTree.CodesPop | more-small-projects/minkowski/main.js:870-891 | rendering commutes with popping the stack |
| RpnTree.StrStepAgrees | more-small-projects/minkowski/main.js:613-657 | one token of the code generator on rendered trees renders the tree builder's step on those trees |
| RpnTree.StrFromAgrees | more-small-projects/minkowski/main.js:613-657 | the whole code generator on rendered trees renders the tree builder's stack |
| RpnTree.RpnStringIsCode | more-small-projects/minkowski/main.js:613-657 | `turnRPNExpressionToString` renders the tree that `turnRPNExpressionToTree` builds from the same list, and is `undefined` exactly when no tree is built |
| RpnTree.MeaningsPush | more-small-projects/minkowski/main.js:567-611 | the values of a stack after a push are the old values plus the new tree's value |
| RpnTree.MeaningsPop | more-small-projects/minkowski/main.js:567-611 | valuing commutes with popping the stack |
| RpnTree.EvalStepAgrees | more-small-projects/minkowski/main.js:569-609 | with its variable bound, one evaluator step on tree values is the value of the tree builder's step |
| RpnTree.EvalFromAgrees | more-small-projects/minkowski/main.js:569-609 | with all looked-up variables bound, the evaluator's stack is the values of the tree builder's stack |
| RpnTree.RpnValueIsMeaning | more-small-projects/minkowski/main.js:567-611 | with every variable from `getVariablesFromRPNList` bound, `computeRPNExpression` computes the value of the tree `turnRPNExpressionToTree` builds, or `undefined` when none is built |
| Tree.AtomClasses | more-small-projects/minkowski/main.js:683-712 | no node value is both a one-character operator and a function name |
| Tree.Contains | more-small-projects/minkowski/main.js:701-711 | `contains(symbol)` holds exactly when `symbol` is the value of some node of the tree |
| Tree.WfBinary | more-small-projects/minkowski/main.js:870-891 | a tree with two children under each operator and at least one under each function has two children under each operator |
| Tree.ChildSmaller | more-small-projects/minkowski/main.js:683-712 | a child has fewer nodes than its parent |
| Tree.Stringify | more-small-projects/minkowski/main.js:714-735 | `stringifyNode` is `undefined` exactly at a function node whose number of children is not one |
| Tree.OperatorText | more-small-projects/minkowski/main.js:715-726 | for every operator and rendered children, the text is the left text, the operator and the right text, each child in parentheses exactly when it is an operator of lower precedence than the node |
| Tree.ApplicationText | more-small-projects/minkowski/main.js:727-731 | a function node with one rendered child renders as `name(text)` |
| Tree.Evaluate | more-small-projects/minkowski/main.js:737-754 | `evaluate` on plain numbers never gives a complex value |
| Tree.EvaluateAgrees | more-small-projects/minkowski/main.js:737-754 | `evaluate` agrees with the engine: `+ - * / ^` on two numbers give what `add/sub/mul/div/pow` give, and a function gets its first argument |
| Tree.AtomOf | more-small-projects/minkowski/main.js:741-753 | the node that holds what `evaluate` returned is neither a name, an operator nor a function |
| Tree.MeaningOfAtom | more-small-projects/minkowski/main.js:741-753 | that node's value is what `evaluate` returned |
| Tree.TurnRPNExpressionToTree | more-small-projects/minkowski/main.js:870-891 | `turnRPNExpressionToTree` returns the final top of its node stack after every token, `undefined` when it is empty |
| Tree.DropWf | more-small-projects/minkowski/main.js:878-884 | popping a stack of well-formed trees gives well-formed trees |
| Tree.StepWf | more-small-projects/minkowski/main.js:872-889 | each token keeps the node stack well formed |
| Tree.TreeFromWf | more-small-projects/minkowski/main.js:870-891 | the node stack stays well formed through the whole list |
| Tree.RunTreeWf | more-small-projects/minkowski/main.js:870-891 | every tree `turnRPNExpressionToTree` returns has two children under each operator and one under each function |
| Tree.PlainLeafText | more-small-projects/minkowski/main.js:732-734 | a plain leaf is rendered as its value's text |
| Tree.RightChildNotParenthesised | more-small-projects/minkowski/main.js:715-726 | a right child of the same precedence gets no parentheses, so `a-(b-c)` and `(a-b)-c` both render as `a-b-c` |
| Tree.LowerChildParenthesised | more-small-projects/minkowski/main.js:715-726 | a child of lower precedence than its parent is parenthesised: `(a+b)*c` |
| Tree.RightLowerChildParenthesised | more-small-projects/minkowski/main.js:715-726 | a right child of lower precedence is parenthesised too: `a*(b+c)` |
| Tree.StringifyGrouped | more-small-projects/minkowski/main.js:714-735 | the corrected rendering is `undefined` exactly where `stringifyNode` is |
| Tree.GroupedOperatorText | more-small-projects/minkowski/main.js:715-726 | in the corrected rendering a right child is parenthesised exactly when it is an operator of lower or equal precedence |
| Tree.GroupedRightChild | more-small-projects/minkowski/main.js:723-725 | in the corrected rendering `a-(b-c)` and `(a-b)-c` render differently, as `a-(b-c)` and `a-b-c` |
| Simplification.Values | more-small-projects/minkowski/main.js:759-762 | the values of the children of a node whose children are all numbers, in order |
| Simplification.SimplifyTopLevel | more-small-projects/minkowski/main.js:756-805 | `simplifyTopLevel` returns the node itself, one of its children, a folded number (or `undefined`) leaf, or `(-1)*x` for a non-number second child of `0-x` |
| Simplification.TopLevelKeepsShape | more-small-projects/minkowski/main.js:756-805 | `simplifyTopLevel` keeps operators binary and functions applied and never adds nodes |
| Simplification.Simplify | more-small-projects/minkowski/main.js:807-810 | `simplify` keeps operators binary and functions applied and never adds nodes |
| Simplification.Reshaped | more-small-projects/minkowski/main.js:807-809 | simplifying the children keeps the node's value and number of children, and never adds nodes |
| Simplification.SimplifyList | more-small-projects/minkowski/main.js:808 | simplifying a list of children keeps its length and shape and never adds nodes |
| SimplifyFacts.NoFold | more-small-projects/minkowski/main.js:759 | a node with a child that is not a number is not folded |
| SimplifyFacts.AddRules | more-small-projects/minkowski/main.js:764-771 | `x+0` and `0+x` give `x` |
| SimplifyFacts.SubRules | more-small-projects/minkowski/main.js:772-779 | `x-0` gives `x` and `0-x` gives `(-1)*x` |
| SimplifyFacts.MulZeroRules | more-small-projects/minkowski/main.js:780-789 | a zero factor on either side gives 0 |
| SimplifyFacts.MulOneRight | more-small-projects/minkowski/main.js:780-789 | `x*1` gives `x` |
| SimplifyFacts.MulOneLeft | more-small-projects/minkowski/main.js:780-789 | `1*x` gives `x` |
| SimplifyFacts.PowRules | more-small-projects/minkowski/main.js:790-796 | `x^1` gives `x` and `x^0` gives 1 |
| SimplifyFacts.DivRule | more-small-projects/minkowski/main.js:797-801 | `0/x` gives 0 |
| SimplifyFacts.Folding | more-small-projects/minkowski/main.js:758-763 | a node whose children are all numbers folds into the leaf of what `evaluate` returns |
| SimplifyFacts.OthersUnchanged | more-small-projects/minkowski/main.js:756-805 | a node that is neither an operator nor a function is left as it is |
| SimplifyFacts.SimplifyListAt | more-small-projects/minkowski/main.js:808 | child i of the simplified list is child i simplified |
| SimplifyFacts.SimplifyListFixed | more-small-projects/minkowski/main.js:808 | a list of fixed points is left as it is |
| SimplifyFacts.ReshapedFixed | more-small-projects/minkowski/main.js:807-809 | a node whose children are fixed points is reshaped into itself |
| SimplifyFacts.LeafFixed | more-small-projects/minkowski/main.js:756-810 | a leaf that is neither an operator nor a function is a fixed point of `simplify` |
| SimplifyFacts.NegatedFixed | more-small-projects/minkowski/main.js:772-779 | `(-1)*x` for a fixed point `x` is a fixed point |
| SimplifyFacts.TopLevelFixed | more-small-projects/minkowski/main.js:756-805 | when the children are fixed points, what `simplifyTopLevel` returns is a fixed point |
| SimplifyFacts.SimplifyIdempotent | more-small-projects/minkowski/main.js:807-810 | `simplify` is idempotent, and every child of a simplified tree is a fixed point |
| SimplifyFacts.ReshapeSimplified | more-small-projects/minkowski/main.js:807-810 | simplifying the children of a simplified tree again changes nothing |
| SimplifyFacts.SameChildValues | more-small-projects/minkowski/main.js:683-754 | a node's value depends only on its own value and its children's values |
| SimplifyFacts.FoldSound | more-small-projects/minkowski/main.js:758-763 | folding a node of numbers keeps its value |
| SimplifyFacts.AddSubSound | more-small-projects/minkowski/main.js:764-779 | the `+` and `-` rules keep the value of a node with plain-number operands |
| SimplifyFacts.MulSound | more-small-projects/minkowski/main.js:780-789 | the `*` rules keep the value of a node with plain-number operands |
| SimplifyFacts.PowSound | more-small-projects/minkowski/main.js:790-796 | the `^` rules keep the value when `Math.pow(x,1)=x` and `Math.pow(x,0)=1` |
| SimplifyFacts.DivSound | more-small-projects/minkowski/main.js:797-801 | the `/` rule keeps the value when the divisor is not zero |
| SimplifyFacts.TopLevelSound | more-small-projects/minkowski/main.js:756-805 | `simplifyTopLevel` keeps the value of a node whose operands are plain numbers and whose divisor is not zero |
| SimplifyFacts.SimplifySound | more-small-projects/minkowski/main.js:807-810 | `simplify` keeps the value of a tree in which every node meets those conditions |
| SimplifyFacts.SimplifiedTreeValue | more-small-projects/minkowski/main.js:870-891 | the tree built from a reverse Polish list, simplified, has the value `computeRPNExpression` computes from the list |
| SimplifyFacts.WfTree | more-small-projects/minkowski/main.js:870-891 | a well-formed tree has two children under each operator |
| Differentiation.Simplified | more-small-projects/minkowski/main.js:807-810 | `simplify` keeps a tree well formed and never adds nodes |
| Differentiation.WfOperator | more-small-projects/minkowski/main.js:817-843 | an operator node over two well-formed trees is well formed |
| Differentiation.WfApplication | more-small-projects/minkowski/main.js:844-862 | a function node over one well-formed tree is well formed |
| Differentiation.FunctionSlope | more-small-projects/minkowski/main.js:844-862 | the derivative of a function at a well-formed argument is well formed |
| Differentiation.SumRule | more-small-projects/minkowski/main.js:817-821 | the sum and difference rules build a well-formed tree |
| Differentiation.ProductRule | more-small-projects/minkowski/main.js:822-827 | the product rule builds a well-formed tree |
| Differentiation.PowerRule | more-small-projects/minkowski/main.js:828-833 | the power rule builds a well-formed tree |
| Differentiation.Magnitude | more-small-projects/minkowski/main.js:830 | the power of ten of a positive whole number's leading digit: `10^p <= k < 10^(p+1)` |
| Differentiation.LeadingDigitBounds | more-small-projects/minkowski/main.js:830 | `LeadingDigit(k)` is the leading decimal digit of `k`: `d*10^p <= k < (d+1)*10^p` |
| Differentiation.ParseIntOfWhole | more-small-projects/minkowski/main.js:830 | `Number.parseInt` of a whole number below 10^21 in magnitude is the number itself; from 10^21 on, where the text is in exponent notation, it is a single digit with the number's sign |
| Differentiation.ParseIntReadsLeadingDigit | more-small-projects/minkowski/main.js:830 | from 10^21 on, `parseInt` reads the number's leading digit |
| Differentiation.LeadingDigitOfScaled | more-small-projects/minkowski/main.js:830 | a digit `d` followed by `p` zeros has magnitude `p` and leading digit `d` |
| Differentiation.ParseIntOfExponentNotation | more-small-projects/minkowski/main.js:830 | `parseInt` reads `d*10^p` with `p >= 21` as `d`, and its negation as `-d` |
| Differentiation.QuotientRule | more-small-projects/minkowski/main.js:835-843 | the quotient rule builds a well-formed tree |
| Differentiation.ChainRule | more-small-projects/minkowski/main.js:844-862 | the chain rule builds a well-formed tree |
| Differentiation.Derivative | more-small-projects/minkowski/main.js:812-868 | `derivative` of a well-formed tree is well formed |
| DerivativeFacts.PowerOfVariableFixed | more-small-projects/minkowski/main.js:756-810 | `simplify` leaves `v^c` unchanged for a number `c` other than 0 and 1 |
| DerivativeFacts.ExponentNotationPower | more-small-projects/minkowski/main.js:828-833 | `v^(d*10^p)` with `p >= 21` is differentiated by the power rule with n = `d`, not `d*10^p`: `x^1e21` gives `1*x^0` |
| DerivativeFacts.ContainsPair | more-small-projects/minkowski/main.js:701-711 | a two-child node contains a name exactly when its value is that name or a child contains it |
| DerivativeFacts.ContainsSingle | more-small-projects/minkowski/main.js:701-711 | a one-child node contains a name exactly when its value is that name or its child contains it |
| DerivativeFacts.ContainsChild | more-small-projects/minkowski/main.js:701-711 | what a child contains its parent contains |
| DerivativeFacts.SimplifyKeepsNames | more-small-projects/minkowski/main.js:756-810 | `simplify` introduces no name except the `*` of `(-1)*x` |
| DerivativeFacts.SimplifiedKeepsNames | more-small-projects/minkowski/main.js:807-810 | the same for a well-formed tree |
| DerivativeFacts.StarIsOperator | more-small-projects/minkowski/main.js:238 | `*` is an operator |
| DerivativeFacts.SlopeKeepsNames | more-small-projects/minkowski/main.js:844-862 | a function's derivative mentions no variable its argument does not |
| DerivativeFacts.SumKeepsNames | more-small-projects/minkowski/main.js:817-821 | the variables of the sum rule's result come from the operands' derivatives |
| DerivativeFacts.ProductKeepsNames | more-small-projects/minkowski/main.js:822-827 | the variables of the product rule's result come from the operands and their derivatives |
| DerivativeFacts.PowerKeepsNames | more-small-projects/minkowski/main.js:828-833 | the variables of the power rule's result come from the base and its derivative |
| DerivativeFacts.QuotientKeepsNames | more-small-projects/minkowski/main.js:835-843 | the variables of the quotient rule's result come from the operands and their derivatives |
| DerivativeFacts.ChainKeepsNames | more-small-projects/minkowski/main.js:844-862 | the variables of the chain rule's result come from the argument and its derivative |
| DerivativeFacts.BinaryStepKeepsNames | more-small-projects/minkowski/main.js:817-843 | at an operator node, the derivative mentions only variables of the simplified node |
| DerivativeFacts.OtherStepKeepsNames | more-small-projects/minkowski/main.js:844-867 | at any other node, the derivative mentions only variables of the simplified node |
| DerivativeFacts.DerivativeKeepsNames | more-small-projects/minkowski/main.js:812-868 | `derivative` mentions no variable its input does not mention |
| DerivativeFacts.ConstantRule | more-small-projects/minkowski/main.js:814-815 | a tree that does not contain the variable differentiates to 0 |
| DerivativeFacts.VariableRule | more-small-projects/minkowski/main.js:863-864 | the variable itself differentiates to 1 |
| DerivativeFacts.DerivativeOfSimplified | more-small-projects/minkowski/main.js:812-813 | `derivative` looks only at the simplified tree: differentiating a simplified tree gives the same result |
| Indexing.RowBefore | more-small-projects/qm2d-split-step/array.js:95-124 | a cell of an earlier row comes before every cell of a later row in the row-major order the nested loops visit |
| Indexing.RowMajorInjective | more-small-projects/qm2d-split-step/array.js:65-73 | distinct cells of a grid have distinct row-major numbers `i*width + j` |
| Indexing.RowMajorInRange | more-small-projects/qm2d-split-step/array.js:65-73 | the row-major number of a cell of the grid lies in `[0, height*width)` |
| Indexing.RowMajorDecode | more-small-projects/qm2d-split-step/array.js:65-73 | every cell number of the grid is the row-major number of exactly the pair `(k / width, k % width)` |
| Indexing.Decode | more-small-projects/qm2d-split-step/array.js:65-73 | every cell number of the grid is the row-major number of some cell |
| Indexing.RowOf | more-small-projects/qm2d-split-step/array.js:48-50 | row p of a row-major grid holds cell (p, q) at q |
| Indexing.GridExtensional | more-small-projects/qm2d-split-step/array.js:95-124 | two grids of the same shape that agree cell by cell are equal |
| Indexing.TransposeSource | more-small-projects/qm2d-split-step/array.js:95-124 | the cell that holds entry k of the transpose lies inside the grid |
| Indexing.TransposedAt | more-small-projects/qm2d-split-step/array.js:95-124 | cell (i, j) of the transpose is cell (j, i) of the grid |
| Indexing.TransposedTwice | more-small-projects/qm2d-split-step/array.js:95-124 | transposing twice gives back the grid |
| Arrays2D.CellsOfUpdate | more-small-projects/qm2d-split-step/array.js:69-73 | writing both parts of complex cell k changes cell k of the complex view and nothing else |
| Arrays2D.RealArray2D.constructor | more-small-projects/qm2d-split-step/array.js:53-58 | `new RealArray2D(n, m)` holds n rows of m zeros |
| Arrays2D.RealArray2D.At | more-small-projects/qm2d-split-step/array.js:39-42 | `at(i, j)` is element `i*width + j`, `undefined` outside the data; inside the grid it is cell (i, j) |
| Arrays2D.RealArray2D.Put | more-small-projects/qm2d-split-step/array.js:44-47 | `put(i, j, val)` sets element `i*width + j` when it lies in the data and nothing else; inside the grid `at(i, j)` then gives val and every other cell is unchanged |
| Arrays2D.ComplexArray2D.Cells | more-small-projects/qm2d-split-step/array.js:60-125 | the grid holds `height*width` complex cells |
| Arrays2D.ComplexArray2D.constructor | more-small-projects/qm2d-split-step/array.js:61-64 | `new ComplexArray2D(n, m)` holds n rows of m complex zeros |
| Arrays2D.ComplexArray2D.CreateFromBuffer | more-small-projects/qm2d-split-step/array.js:74-80 | `createFromBuffer(buffer, n, m)` wraps the given buffer, without copying, as an n-by-m grid |
| Arrays2D.ComplexArray2D.At | more-small-projects/qm2d-split-step/array.js:65-68 | `at(i, j)` is the cell at `2*(i*width + j)`, `undefined` outside the data; inside the grid it is cell (i, j) |
| Arrays2D.ComplexArray2D.Put | more-small-projects/qm2d-split-step/array.js:69-73 | `put(i, j, val)` stores both parts of cell `i*width + j` when it lies in the data and nothing else; inside the grid `at(i, j)` then gives val and every other cell is unchanged |
| Arrays2D.ComplexArray2D.GetRow | more-small-projects/qm2d-split-step/array.js:48-50 | `getRow(i)` is a view of row i of this grid, not a copy |
| Arrays2D.ComplexArray2D.SubSlice | more-small-projects/qm2d-split-step/array.js:84-94 | `subSlice` returns a new grid of the window's size whose cell (i, j) is cell (rowStart+i, columnStart+j) of this grid |
| Arrays2D.ComplexArray2D.TransposeInPlace | more-small-projects/qm2d-split-step/array.js:95-124 | `transposeInPlace` keeps the same buffer, exchanges width and height, and leaves the transpose of the cells |
| Arrays2D.ComplexArray2D.SwapAcrossDiagonal | more-small-projects/qm2d-split-step/array.js:96-104 | the square branch, swapping each cell above the diagonal with its mirror, leaves the transpose |
| Arrays2D.ComplexArray2D.TransposeThroughCopy | more-small-projects/qm2d-split-step/array.js:105-123 | the other branch, copying out and reading back with the indices exchanged, leaves the transpose |
| Arrays2D.ComplexArray2D.Copy | more-small-projects/qm2d-split-step/array.js:105-112 | the copy loops give a new grid of the same shape and cells |
| Arrays2D.ComplexArray2D.ReadTransposed | more-small-projects/qm2d-split-step/array.js:113-123 | the read-back loops, after width and height are exchanged, leave the transpose of the copy |
| Arrays2D.TransposedFromCells | more-small-projects/qm2d-split-step/array.js:113-123 | a grid whose cell (p, q) is cell (q, p) of another is its transpose |
| Arrays2D.RowArray.constructor | more-small-projects/qm2d-split-step/array.js:5-25 | a row view refers to its grid and row index |
| Arrays2D.RowArray.Length | more-small-projects/qm2d-split-step/array.js:5-25 | `length` of a row is the width of its grid |
| Arrays2D.RowArray.Row | more-small-projects/qm2d-split-step/array.js:5-25 | a row holds one cell per column |
| Arrays2D.RowArray.At | more-small-projects/qm2d-split-step/array.js:5-25 | `at(j)` of a row is `at(index, j)` of its grid, cell j of the row inside it |
| Arrays2D.RowArray.Put | more-small-projects/qm2d-split-step/array.js:5-25 | `put(j, val)` of a row is `put(index, j, val)` of its grid: it changes cell j of the row and no cell of another row |
| BitReversal.Log2 | more-small-projects/qm2d-split-step/fft.js:6-25 | every power of two n is 2 to the power `Log2(n)` |
| BitReversal.Pow2IsPowerOfTwo | more-small-projects/qm2d-split-step/fft.js:6-25 | 2^k is a power of two |
| BitReversal.Pow2Mono | more-small-projects/qm2d-split-step/fft.js:6-25 | 2^a grows with a |
| BitReversal.AndPow2Bit | more-small-projects/qm2d-split-step/fft.js:13-17 | `(i&u)/u` for a one-bit mask u is 1 when that bit of i is set and 0 otherwise |
| BitReversal.RevFromStep | more-small-projects/qm2d-split-step/fft.js:13-17 | one turn of the inner loop: `rev += d*((i&u)/u); u <<= 1; d >>= 1` |
| BitReversal.Bits | more-small-projects/qm2d-split-step/fft.js:6-25 | the L low bits of a number, least significant first |
| BitReversal.ValueBound | more-small-projects/qm2d-split-step/fft.js:6-25 | a string of L bits denotes a number below 2^L |
| BitReversal.ValueOfBits | more-small-projects/qm2d-split-step/fft.js:6-25 | reading back the L low bits of a number below 2^L gives the number |
| BitReversal.BitsOfValue | more-small-projects/qm2d-split-step/fft.js:6-25 | taking the bits of the number a bit string denotes gives back the string |
| BitReversal.ValueBEIsMirrored | more-small-projects/qm2d-split-step/fft.js:6-25 | reading bits most significant first is reading the mirrored string least significant first |
| BitReversal.MirrorMirror | more-small-projects/qm2d-split-step/fft.js:6-25 | mirroring twice gives back the bit string |
| BitReversal.BitsAt | more-small-projects/qm2d-split-step/fft.js:6-25 | bit t of the bit string is bit t of the number |
| BitReversal.RevFromIsValueBE | more-small-projects/qm2d-split-step/fft.js:13-17 | from u = 2^t the inner loop adds the bits t and up of i, read most significant first |
| BitReversal.BitReverseIndexIsMirror | more-small-projects/qm2d-split-step/fft.js:9-17 | for n = 2^L the inner loop computes i with its L low bits in the opposite order, a number below n |
| BitReversal.BitReverseInvolution | more-small-projects/qm2d-split-step/fft.js:9-17 | reversing the bits of an index twice gives back the index |
| BitReversal.SwapStep | more-small-projects/qm2d-split-step/fft.js:18-23 | one turn of the outer loop keeps the length |
| BitReversal.SwapStepAt | more-small-projects/qm2d-split-step/fft.js:18-23 | one turn exchanges entries i and rev when rev <= i and changes nothing else |
| BitReversal.SwapPassAt | more-small-projects/qm2d-split-step/fft.js:6-25 | after the turns 0..k-1, exactly the pairs of an index and its reversal, both below k, have been exchanged |
| BitReversal.SwapPassIsBitReversal | more-small-projects/qm2d-split-step/fft.js:6-25 | the whole outer loop puts every entry at its bit-reversed index |
| BitReversal.SwapKeepsElements | more-small-projects/qm2d-split-step/fft.js:18-23 | exchanging two entries keeps the multiset of entries |
| BitReversal.SwapPassKeepsElements | more-small-projects/qm2d-split-step/fft.js:6-25 | the outer loop keeps the multiset of entries |
| BitReversal.BitReversedKeepsElements | more-small-projects/qm2d-split-step/fft.js:6-25 | the bit-reversal permutation keeps the multiset of entries |
| BitReversal.BitReversedTwice | more-small-projects/qm2d-split-step/fft.js:6-25 | applying `reverseBitSort2` twice gives back the array |
| Butterfly.BlocksDivide | more-small-projects/qm2d-split-step/fft.js:47-58 | a power of two divides every larger power of two, so the blocks tile the row |
| Butterfly.BlockStart | more-small-projects/qm2d-split-step/fft.js:47-58 | the block of entry k starts at the multiple of blockSize at or below k |
| Butterfly.BlockEnd | more-small-projects/qm2d-split-step/fft.js:47-58 | a block that starts below n ends inside the row |
| Butterfly.ButterflyIndicesInRange | more-small-projects/qm2d-split-step/fft.js:47-58 | both indices `j+i` and `j+i+blockSize/2` a butterfly reads and writes lie in `[0, n)` |
| Butterfly.Stage | more-small-projects/qm2d-split-step/fft.js:47-58 | one pass keeps the length of the row |
| Butterfly.Stages | more-small-projects/qm2d-split-step/fft.js:43-61 | the passes for block sizes b, 2b, ... up to n keep the length of the row |
| Butterfly.StagesStep | more-small-projects/qm2d-split-step/fft.js:43-61 | after the pass for blockSize, the passes from 2*blockSize on remain |
| Butterfly.Radix2 | more-small-projects/qm2d-split-step/fft.js:43-61 | the transform keeps the length of the row |
| Butterfly.StageAt | more-small-projects/qm2d-split-step/fft.js:50-57 | the pass writes `s*(even + odd*e)` at `j+i` and `s*(even - odd*e)` at `j+i+blockSize/2`, from the pair read there, with e the twiddle `exp(±2πi·i/blockSize)` and s the 1/n scale of the last inverse pass |
| Butterfly.BlockButterflies | more-small-projects/qm2d-split-step/fft.js:47-58 | the pass holds the butterfly values of every pair of each block |
| Butterfly.Radix2OfOne | more-small-projects/qm2d-split-step/fft.js:43-61 | a one-point array is left as it is |
| FFT.ReverseBitSort2 | more-small-projects/qm2d-split-step/fft.js:6-25 | `reverseBitSort2` moves every entry of a power-of-two row to its bit-reversed index and changes no other row of the grid |
| FFT.ReversedIndex | more-small-projects/qm2d-split-step/fft.js:9-17 | the inner loop computes the bit-reversed index of i |
| FFT.Radix2InPlaceFFT | more-small-projects/qm2d-split-step/fft.js:43-61 | `radix2InPlaceFFT` leaves the row as the transform `Radix2` of what it held and changes no other row |
| FFT.ButterflyPasses | more-small-projects/qm2d-split-step/fft.js:45-59 | the block-size loop leaves the row as the passes for 2, 4, ..., n of what it held |
| FFT.ButterflyPass | more-small-projects/qm2d-split-step/fft.js:47-58 | the two inner loops for one block size leave the pass `Stage` of the row |
| FFT.ButterflyBlock | more-small-projects/qm2d-split-step/fft.js:49-58 | the innermost loop writes the butterfly values of one block and keeps every entry outside it |
| FFT.EachRow | more-small-projects/qm2d-split-step/fft.js:113-117 | transforming every row keeps the grid's size |
| FFT.EachRowAt | more-small-projects/qm2d-split-step/fft.js:113-117 | row p of the result is the transform of row p |
| FFT.Transform2D | more-small-projects/qm2d-split-step/fft.js:107-119 | the 2D transform keeps the grid's size |
| FFT.TransformRows | more-small-projects/qm2d-split-step/fft.js:113-114 | the loop over rows leaves every row transformed |
| FFT.Radix2InPlaceFFT2D | more-small-projects/qm2d-split-step/fft.js:107-119 | `radix2InPlaceFFT2D` without workers keeps the buffer and dimensions and leaves `Transform2D`: rows transformed, transposed, rows transformed, transposed back |
| QM1D.ComplexArray.constructor | more-small-projects/qm1d-time-dependent/main.js:48-50 | `new ComplexArray(n)` holds n complex zeros |
| QM1D.ComplexArray.Elements | more-small-projects/qm1d-time-dependent/main.js:46-65 | the array holds `length` complex numbers |
| QM1D.ComplexArray.At | more-small-projects/qm1d-time-dependent/main.js:54-56 | `at(i)` is entry i inside `[0, length)` and `undefined` outside |
| QM1D.ComplexArray.Put | more-small-projects/qm1d-time-dependent/main.js:58-61 | `put(i, val)` changes entry i inside `[0, length)` and nothing else; outside it changes nothing |
| QM1D.HalvingIncrement | more-small-projects/qm1d-time-dependent/main.js:75-79 | `d*((i&u)/u)` for a one-bit mask u is d when that bit of i is set and 0 otherwise |
| QM1D.HalvingDAtHalves | more-small-projects/qm1d-time-dependent/main.js:75-79 | d halves from one turn to the next |
| QM1D.RevFromHalvingIsValueBE | more-small-projects/qm1d-time-dependent/main.js:75-79 | from u = 2^t the halving loop adds the bits t and up of i, read most significant first |
| QM1D.HalvingAgreesWithShifting | more-small-projects/qm1d-time-dependent/main.js:68-87 | the halving loop computes the same rev as the shifting loop of the 2D version: i with its log2(n) low bits reversed |
| QM1D.ReversedIndexHalving | more-small-projects/qm1d-time-dependent/main.js:72-80 | the inner loop computes the halving rev of i |
| QM1D.ReverseBitSort2 | more-small-projects/qm1d-time-dependent/main.js:68-87 | `reverseBitSort2` moves every entry to its bit-reversed index |
| QM1D.Radix2InPlaceFFT | more-small-projects/qm1d-time-dependent/main.js:105-123 | `radix2InPlaceFFT` leaves the array as the transform `Radix2` of what it held, as the 2D version does for a row |
| QM1D.ButterflyPasses | more-small-projects/qm1d-time-dependent/main.js:105-123 | the block-size loop leaves the passes for 2, 4, ..., n |
| QM1D.ButterflyPass | more-small-projects/qm1d-time-dependent/main.js:105-123 | the two inner loops for one block size leave the pass `Stage` |
| QM1D.ButterflyBlock | more-small-projects/qm1d-time-dependent/main.js:105-123 | the innermost loop writes the butterfly values of one block and keeps every entry outside it |
| QM1D.PositionGrid | more-small-projects/qm1d-time-dependent/main.js:192-196 | `X` holds n positions with entry i equal to i |
| QM1D.ShiftedIndexRange | more-small-projects/qm1d-time-dependent/main.js:198-202 | the shifted index of each i in `[0, n)` lies in `[-n/2, n/2)` and is congruent to i modulo n |
| QM1D.ShiftedIndexInjective | more-small-projects/qm1d-time-dependent/main.js:198-202 | no two indices get the same shifted index |
| QM1D.Momentum | more-small-projects/qm1d-time-dependent/main.js:198-202 | entry i of `P`: for i in `[0, n)` every momentum lies in `[-PI, PI)` |
| QM1D.MomentumGrid | more-small-projects/qm1d-time-dependent/main.js:198-202 | `P` holds n momenta, entry i being `2π·(i < n/2 ? i : i-n)/n` |
| Shapes.AddAsWrittenMisplacesY | shapes.js:32-34 | `add` as written equals the componentwise sum exactly when the first operand's x equals its y; (1,0,0)+(0,0,0) gives (1,1,0) |
| Shapes.AddAsWrittenNoInverse | shapes.js:32-39 | as written, `subtract` of the second operand recovers the first exactly when its x equals its y |
| Shapes.AddSubtractInverse | shapes.js:32-39 | the corrected sum is commutative with the origin as unit, and `subtract` undoes it in both orders |
| Shapes.DotBilinear | shapes.js:42 | `dot` is symmetric and distributes over the sum and over scaling |
| Shapes.Translated | shapes.js:132-138 | moving every vertex keeps the number of vertices |
| Shapes.Scaled | shapes.js:140-146 | scaling every vertex keeps the number of vertices |
| Shapes.TranslatedFacts | shapes.js:132-138 | moving every vertex keeps every difference between two vertices, and moving back by the opposite offset restores them |
| Shapes.ScaledFacts | shapes.js:140-146 | scaling by c multiplies every difference by c and every dot product by c·c, and scaling by 1/c restores the vertices when c is not zero |
| Shapes.VertexArray.Vertices | shapes.js:47-55 | the buffer holds `length` vertices, vertex i being `(x[i], y[i], z[i])` |
| Shapes.VertexArray.Over | shapes.js:47-55 | a buffer over three lists of one length holds those lists |
| Shapes.VertexArray.CheckIndex | shapes.js:57-61 | `checkIndex` throws "Index out of range." unless `0 <= index < length` |
| Shapes.VertexArray.GetVertex | shapes.js:63-69 | `getVertex` returns vertex index at a checked index and throws otherwise |
| Shapes.VertexArray.SetVertex | shapes.js:71-76 | `setVertex` throws and changes nothing at a bad index; otherwise `getVertex(index)` returns the new vertex and every other vertex is unchanged |
| Shapes.VertexArray.PushVertex | shapes.js:78-83 | `pushVertex` appends one vertex and counts it |
| Shapes.VertexArray.PopVertex | shapes.js:85-93 | `popVertex` returns `undefined` and changes nothing on an empty buffer; otherwise it removes and returns the last vertex, so pushing it back restores the buffer |
| Shapes.VertexArray.ChangePosition | shapes.js:132-138 | `changePosition` moves every vertex by the offset |
| Shapes.VertexArray.ChangeSize | shapes.js:140-146 | `changeSize` multiplies every coordinate by the factor |
| Shapes.NewVertexArray | shapes.js:47-55 | `new VertexArray` throws "Input arrays must have the same length." exactly when the lists differ in length, and otherwise holds them |
| Shapes.TriangleWireFrame.Over | shapes.js:152-167 | a wireframe over lists of one length holds them, has culling off and gives triangle i the normal `getNorm(i)` |
| Shapes.TriangleWireFrame.PushTriangle | shapes.js:169-177 | `pushTriangle` appends the three indices and the normal of the new last triangle and keeps the cull flag |
| Shapes.TriangleWireFrame.ToggleCull | shapes.js:207-209 | `toggleCull` negates the cull flag and changes no triangle |
| Shapes.NewTriangleWireFrame | shapes.js:152-167 | `new TriangleWireFrame` throws exactly when the coordinate lists or the index lists differ in length; otherwise it holds the vertices and triangles with culling off |
| Shapes.Shape.Over | shapes.js:215-218 | a shape over a wireframe starts filled |
| Shapes.Shape.ToggleFill | shapes.js:232-234 | `toggleFill` negates the fill flag |

## Left out

- Floating point: every number is an exact `real`, so Float32/Float64 rounding, overflow to Infinity, NaN propagation through arithmetic and `-0` are not modelled. Only the NaN and Infinity results that the engine's branches produce on purpose are modelled: `tan` and `tanh` of a complex value, division by zero through `MathLib`, and `parseFloat` of `Infinity...`.
- Transcendental functions (`Math.exp`, `sin`, `cos`, `log`, `pow`, `sinh`, `cosh`, `tanh`, `atan2`, `PI`) are uninterpreted `MathLib` fields. The only laws assumed about them are the hypothesis `PowLaws`, which `SimplifyFacts.PowSound` and `SimplifyFacts.SimplifySound` take.
- SimplifyFacts.SimplifySound: holds only under `Tame`: plain-number operands and non-zero divisors. The source's rules also fire on complex or `undefined` operands and on `0/0`, where they change the value; the model computes those cases but proves nothing about them.
- Differentiation.Derivative: only well-formedness and the variable facts are proved. That the result is the mathematical derivative is not stated, because it needs real analysis of the host functions.
- Differentiation.ParseIntOfWhole: a whole number's text is taken from its exact value. Between 2^53 and 10^21 the host prints the shortest digits that round to the double, so `parseInt` may read a different whole number that rounds to the same double; the model's numbers are reals and do not tell the two apart.
- `getRow` of a `RealArray2D` (array.js:48-50, inherited from `AbstractArray2D`) is not modelled. `Arrays2D.RowArray` refers to a `ComplexArray2D`, so only rows of complex grids are modelled (`Arrays2D.ComplexArray2D.GetRow`).
- `simplify` mutates the children of its argument in place (`exprTree.nodes = ...`). The model works on immutable values, so sharing between the input and the output of `derivative` is not captured. `SimplifyFacts.ReshapeSimplified` shows that re-simplifying an already simplified shared subtree changes nothing.
- Shunting.ShuntingYard: requires that no `)` arrives without an open `(` on the stack. On a `)` the source runs `let e = operatorStack.pop(); while(!isLeftParenthesis(e)) { rpnList.push(e); e = operatorStack.pop(); }` (`main.js:547-551`). Once the operator stack is empty, `pop()` returns `undefined`, and `isLeftParenthesis` is `c === '('` (`main.js:311-313`), so the test stays true and the loop pushes `undefined` forever. `getExpressionStack` only produces balanced input (`ShuntingFacts.StackMatched`).
- Simplification.SimplifyTopLevel: a child whose value is NaN (say from folding `log` of `undefined`) blocks folding in the source, since `isNaN(parseFloat(NaN))` holds. In the model NaN is the real `m.nan`, a `Number` atom, so such a node folds.
- Arrays2D.ComplexArray2D.CreateFromBuffer: requires a buffer of exactly `2*n*m` numbers. The source views the first `2*n*m` floats of a possibly longer `ArrayBuffer` and throws a `RangeError` on a shorter one. A view of a prefix of an array cannot be expressed without copying.
- `isBannedCharacter` (main.js:302-305) is never called: the tokenizer rejects a foreign character through its own final `else` branch. It has no member.
- The DOM, canvas, WebGL, shader compilation, the UI event handlers, `console.log` and the demo scripts at the bottom of each file are I/O and are not modelled.
- The Lorentz transformation, plotting and animation code of `minkowski/main.js`, and the split-step time stepping of both quantum demos, are not modelled.
- The web-worker path of `radix2InPlaceFFT2D` (`radix2InPlaceFFT2DWorkersHelper`, `fft-worker.js`, `numberOfWorkers`) is concurrency and is not modelled; only the sequential path is. `getRawBuffer` just exposes the buffer and is not modelled.
- Arrays2D.ComplexArray2D.SubSlice: requires the window to lie inside the grid. The source reads outside it without a check, through `at`, which returns `undefined` parts.
- Out-of-range reads of the typed arrays: `at()` returns `None` where the source returns `undefined`, or a `Complex` with `undefined` parts. Out-of-range writes are ignored, as typed arrays ignore them.
- 32-bit integer semantics: `i & u` and `d >>= 1` are modelled on unbounded naturals. `AndPow2` covers a one-bit mask, and `>>= 1` is division by two. This matches the source for the array lengths the demos use, which are below 2^31.
- QM1D.ReverseBitSort2: the 1D copy computes `rev` and `d` as doubles (`d = n/2; d /= 2`). It is modelled with reals, and `QM1D.HalvingAgreesWithShifting` proves it gives the same whole index as the shifting loop.
- VertexArray and TriangleWireFrame keep references to the caller's coordinate and index arrays. The model holds them as `seq` values, so aliasing with the caller's arrays is not captured.
- Shapes: the class hierarchy (`TriangleWireFrame extends VertexArray`, `Shape extends TriangleWireFrame`) is modelled by composition, through the `vertices` and `frame` fields.
- Shapes.TriangleWireFrame.Over: the normals come from a caller-supplied `getNorm` function. The source's `getNorm` takes the cross product of two projected edge vectors, which divides by `y - 10`. That computation is not modelled. `updateNorms` is left out for the same reason.
- Shapes: `rotateVertexAtIndex`, `rotateAtAxis`, `setRotation` and `rotate` are quaternion rotations built on trigonometry and are not modelled. The shape generators (cube, sphere, cylinder and so on) build buffers through the modelled operations and are not modelled themselves.
- `computeExprStr` only chains `getRPNExprList` and `computeRPNExpression` and logs the list. It has no member of its own; the two steps are modelled.
- The `Complex` class's `conj`, `abs2`, `abs` and `arg` are plain definitions (`Numeric.Conj`, `Numeric.Abs2`, `Numeric.AbsC`, `Numeric.Arg`). Nothing is proved about them beyond what the operations that use them need.

## Findings

| source | as written | input that shows it | evidently intended | confidence | as-written member | corrected member |
|---|---|---|---|---|---|---|
| shapes.js:32-34 | `add` computes the y-component as `v1.x + v2.y` | `add({x:1,y:0,z:0}, {x:0,y:0,z:0})` gives `(1, 1, 0)` instead of `(1, 0, 0)` | `v1.y + v2.y`, the componentwise sum that `subtract` inverts | high (not executed) | Shapes.AddAsWrittenMisplacesY | Shapes.AddSubtractInverse |
| more-small-projects/minkowski/main.js:723-725 | a right child is parenthesised only when its precedence is strictly lower than its parent's | `a-(b-c)` renders as `a-b-c`, the same text as `(a-b)-c` | a right child of equal precedence is parenthesised too, since the parser groups equal precedence to the left | medium (not executed) | Tree.RightChildNotParenthesised | Tree.GroupedRightChild |

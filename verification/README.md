# Calculator: a verified model of its parser and token stream

The calculator in `Calculator/main.cpp` reads arithmetic from standard input
and evaluates it with a recursive-descent parser. The parser has three levels:

- `expression` handles `+` and `-`;
- `term` handles `*` and `/`;
- `primary` handles numbers, `n!`, `( ... )` and `{ ... }`.

Tokens come from a `Token_stream`. It classifies one character at a time and
can hold one token pushed back by `putback`.

This project models those pieces as pure Dafny functions:

- `results.dfy`, module `Results`. The calculator throws a message on every
  failure; here each failure is a value of `Error`, carried by a `Result`.
  `Message` gives the exact text each `error(...)` call passes (lines 55,
  72, 89, 113, 120, 128, 138 and 162 of `Calculator/main.cpp`).
- `tokens.dfy`, module `TokenStream`. It holds `Token` and its
  one-character constructor (`Symbol`, lines 24-25, value 0), the character
  classifier (`Classify`), and the stream state: the unread input, the
  `full` flag and the `buffer`. It also has `Get`, `Putback` and the
  constructor (`NewStream`). The input is a sequence of `Lexeme`s, one per
  token. A lexeme is the non-whitespace character `cin >> ch` reads,
  together with the number a floating-point read from that character on
  would return. The classifier uses that number only when the character
  starts a number; for any other character it is ignored.
- `factorial.dfy`, module `Factorials`. It holds `factorial` and the
  double-to-`int` conversion applied to its argument (`Truncate`, which
  rounds toward zero).
- `calculator.dfy`, module `Calculator`. It holds `Primary`, `Term` and
  `Expression`. The two `while (true)` loops become `TermLoop` and
  `ExpressionLoop`. Each function takes a stream state and returns the value
  and the state after it, or the error.
- `syntax.dfy`, module `Syntax`. It holds the grammar as a syntax tree, its
  meaning (chains of operators folded left to right) and its spelling as
  input. This is the reference the parser is proved against.
- `correctness.dfy`, module `Correctness`. Reading the spelling of any
  expression yields the value the grammar gives it, or the error it gives.
  This settles precedence, associativity and grouping. The module also
  covers `primary` on inputs outside the grammar.
- `congruence.dfy`, module `Congruence`. Inputs whose lexemes classify
  alike, position by position, are parsed alike. So the round trip covers
  every spelling of an expression, such as `2+3` read as the lexemes
  `('2', 2)`, `('+', 3)`, `('3', 3)`, and not only the one `Syntax` prints.
- `guards.dfy`, module `Guards`. On input that came from the character
  reader, the negative-factorial error is unreachable.
- `samples.dfy`, module `Samples`. Worked inputs, written as the lexemes
  the reader would deliver, such as `2+3*4=` giving 14 and `(2+3)*4=`
  giving 20. Each is read from a stream with nothing buffered, whatever
  stale token the buffer holds; a new stream is one such stream.
- `arithmetic.dfy`, module `Arithmetic`. Real multiplication as a named
  function, shared by the parser and the grammar's evaluator.

Values are exact reals. Every cycle of calls through `primary` consumes a
token, and the termination measure is the number of tokens still pending, followed by the
precedence level.

The calculator has no `%` operator, no variables and no recovery after an
error; `x` quits.

## Model

| member | source | states |
|---|---|---|
| TokenStream.Classify | Calculator/main.cpp:74-91 | `= x ( ) { } + - * / !` become a token of their own kind with value 0. A digit or `.` becomes a number token (kind `'8'`) carrying the numeral. Any other character fails with "Bad token" |
| TokenStream.ClassifySpell | Calculator/main.cpp:74-91 | every token the classifier can produce is produced by some character of input, and spelling it then classifying it gives it back |
| TokenStream.ClassifierRange | Calculator/main.cpp:74-91 | the classifier produces exactly the symbol tokens with value 0 and the number tokens |
| TokenStream.NewStream | Calculator/main.cpp:45-48 | a new stream has nothing buffered and all of its input unread |
| TokenStream.Putback | Calculator/main.cpp:53-58 | fails with "putback() into a full buffer" exactly when a token is already buffered. Otherwise it buffers the given token, marks the buffer full and reads no input |
| TokenStream.Get | Calculator/main.cpp:62-92 | a buffered token is returned first, and the buffer is emptied without reading input. Otherwise the next character is classified and consumed. Exhausted input fails with "no input" and an unknown character with "Bad token". A successful get always leaves the buffer empty and one token fewer pending |
| TokenStream.GetKeepsLexed | Calculator/main.cpp:79-86 | a token read from characters of input is never a negative number, and reading keeps the rest of the input that way |
| TokenStream.PutbackKeepsLexed | Calculator/main.cpp:53-58 | putting back such a token keeps the stream free of negative numbers |
| TokenStream.PutbackThenGet | Calculator/main.cpp:53-68 | after a putback into an empty buffer, the next get returns that token and reads no input |
| TokenStream.GetThenPutback | Calculator/main.cpp:53-68 | putting back the token just read always succeeds, and the next get returns it again |
| Factorials.Truncate | Calculator/main.cpp:134 | the conversion of a double to `int` drops the fraction toward zero: a non-negative `x` gives the integer `n` with `n <= x < n + 1` |
| Factorials.Factorial | Calculator/main.cpp:236-241 | factorial is at least 1 and at least its argument |
| Factorials.FactorialIsProduct | Calculator/main.cpp:236-241 | the recursion computes the product 1 * 2 * ... * n |
| Factorials.FactorialMonotone | Calculator/main.cpp:236-241 | factorial never decreases as its argument grows |
| Factorials.FactorialFitsInt32 | Calculator/main.cpp:236-241 | the exact factorial fits a 32-bit signed `int` exactly when the argument is at most 12 |
| Calculator.Primary | Calculator/main.cpp:105-141 | `primary` consumes input, and never fails because a putback found the buffer full |
| Calculator.Term | Calculator/main.cpp:147-172 | `term` consumes input and never fails with a full buffer. On success the token that ended it is back in the buffer, and that token is neither `*` nor `/` |
| Calculator.TermLoop | Calculator/main.cpp:153-171 | the loop of `term` ends with a token other than `*` or `/` put back into the buffer |
| Calculator.Expression | Calculator/main.cpp:177-198 | `expression` consumes input and never fails with a full buffer. On success the token that ended it is back in the buffer, and that token is neither `+` nor `-` |
| Calculator.ExpressionLoop | Calculator/main.cpp:183-197 | the loop of `expression` ends with a token other than `+` or `-` put back into the buffer |
| Correctness.TermLoopTimes | Calculator/main.cpp:155-158 | on `*` the loop multiplies the accumulated value by the next primary and continues with the token after it |
| Correctness.TermLoopDivide | Calculator/main.cpp:159-166 | on `/` by a non-zero primary the loop divides and continues with the token after it |
| Correctness.TermLoopDivideByZero | Calculator/main.cpp:161-162 | a divisor exactly 0 fails the term with "divide by zero" |
| Correctness.TermLoopOperandFails | Calculator/main.cpp:155-166 | an operand of `*` or `/` that fails fails the term with the same error |
| Correctness.TermLoopEnds | Calculator/main.cpp:167-169 | any other token is put back, and the accumulated value is the term's value |
| Correctness.ExpressionLoopStep | Calculator/main.cpp:185-192 | on `+` or `-` the loop adds or subtracts the next term and continues with the token after it |
| Correctness.ExpressionLoopOperandFails | Calculator/main.cpp:185-192 | an operand of `+` or `-` that fails fails the expression with the same error |
| Correctness.ExpressionLoopEnds | Calculator/main.cpp:193-195 | any other token is put back, and the accumulated value is the expression's value |
| Correctness.FactorParses | Calculator/main.cpp:105-141 | `primary` on the spelling of a number, `n!`, `(e)` or `{e}` gives that factor's value or its error. The next get then reads the lexeme that follows it. That lexeme may be `!` unless the factor is a bare number, as in `(2+3)!` or `5!!`, where `primary` leaves the `!` unread |
| Correctness.ProductTailParses | Calculator/main.cpp:153-171 | the loop of `term` folds a chain of `*` and `/` factors left to right, then puts back the token that ends the chain |
| Correctness.ProductParses | Calculator/main.cpp:147-172 | `term` on the spelling of a term gives its left-to-right product or quotient, or its error. It may be followed by any token other than `*` and `/`, and by `!` too unless its last factor is a bare number |
| Correctness.SumTailParses | Calculator/main.cpp:183-197 | the loop of `expression` folds a chain of `+` and `-` terms left to right, then puts back the token that ends the chain |
| Correctness.SumStepParses | Calculator/main.cpp:185-192 | one `+` or `-` link of that chain: it adds or subtracts the term, then reads on |
| Correctness.SumParses | Calculator/main.cpp:177-198 | `expression` on the spelling of any expression, followed by a token that cannot continue it (not `+ - * /`, and not `!` after a bare number), gives the expression's value or its error and puts that token back. Whatever was stale in the buffer plays no part |
| Correctness.PrimaryNumber | Calculator/main.cpp:123-135 | after a number, a token other than `!` is put back: the number is the value, and the next get reads that token again. `!` after a negative number fails with "Factorial can't accept negative number!!!". Otherwise `!` gives the factorial of the number rounded toward zero |
| Correctness.PrimaryNumberAtEnd | Calculator/main.cpp:123-126 | a number at the end of the input fails with "no input", because `primary` reads the token after it |
| Correctness.PrimaryOther | Calculator/main.cpp:137-139 | any token other than `(`, `{` or a number fails with "primary expected" |
| Correctness.GroupNeedsCloser | Calculator/main.cpp:109-122 | `(` must be closed by `)` and `{` by `}`. After a well-formed expression, any other token fails with "')' expected" or "'}' expected". This includes `!` when the expression does not end with a bare number, as in `((2)!` |
| Congruence.GetAlike | Calculator/main.cpp:62-92 | `get` on two streams that differ only in lexemes that classify alike gives the same error, or the same token and two such streams |
| Congruence.PutbackAlike | Calculator/main.cpp:53-58 | `putback` on two such streams fails on both or gives two such streams |
| Congruence.PrimaryAlike | Calculator/main.cpp:105-141 | `primary` reads two such streams alike: the same error, or the same value and two such streams |
| Congruence.TermAlike | Calculator/main.cpp:147-172 | the same holds for `term` |
| Congruence.TermLoopAlike | Calculator/main.cpp:153-171 | the same holds for the loop of `term` |
| Congruence.ExpressionAlike | Calculator/main.cpp:177-198 | the same holds for `expression` |
| Congruence.ExpressionLoopAlike | Calculator/main.cpp:183-197 | the same holds for the loop of `expression` |
| Congruence.AnySpellingParses | Calculator/main.cpp:177-198 | `expression` on any input that classifies like the spelling of an expression, followed by a token that cannot continue it, gives the expression's value or its error, with that token put back |
| Guards.PrimaryLexed | Calculator/main.cpp:123-135 | `primary` on input read from characters never fails with the negative-factorial error, and leaves such input behind |
| Guards.TermLexed | Calculator/main.cpp:147-172 | the same holds for `term` |
| Guards.TermLoopLexed | Calculator/main.cpp:153-171 | the same holds for the loop of `term` |
| Guards.ExpressionLexed | Calculator/main.cpp:177-198 | the same holds for `expression` |
| Guards.ExpressionLoopLexed | Calculator/main.cpp:183-197 | the same holds for the loop of `expression` |
| Guards.NoNegativeFactorial | Calculator/main.cpp:127-128 | from a fresh stream over characters of input, the guard against a negative factorial never fires |
| Samples.Reads | Calculator/main.cpp:177-198 | any input that classifies like the spelling of an expression and then `=` reads as the expression's meaning, with `=` put back |
| Samples.FailsLike | Calculator/main.cpp:177-198 | an input that classifies like another fails exactly where the other fails, with the same error |
| Samples.Precedence | Calculator/main.cpp:147-198 | `2+3*4=` gives 14 |
| Samples.Grouping | Calculator/main.cpp:109-115 | `(2+3)*4=` gives 20 |
| Samples.BraceGrouping | Calculator/main.cpp:116-122 | `{1+2}/3=` gives 1 |
| Samples.SubtractionLeftToRight | Calculator/main.cpp:183-197 | `8-4-2=` gives 2 |
| Samples.DivisionLeftToRight | Calculator/main.cpp:153-171 | `8/4/2=` gives 1 |
| Samples.FactorialOfFive | Calculator/main.cpp:123-135 | `5!=` gives 120 |
| Samples.FactorialTruncates | Calculator/main.cpp:134 | `2.5!=` gives 2, because the number is cut to 2 before the factorial |
| Samples.FactorialNeedsNumber | Calculator/main.cpp:109-135 | `(3)!=` gives 3 and stops before the `!`, which is left in the buffer with `=` unread: `!` applies only to a number |
| Samples.FactorialOnce | Calculator/main.cpp:123-135 | `5!!=` gives 120 and stops at the second `!`, which is left in the buffer with one `=` pending |
| Samples.DivisionByZero | Calculator/main.cpp:159-166 | `1/0=` fails with "divide by zero" |
| Samples.UnclosedParenthesis | Calculator/main.cpp:109-115 | `(2+3=` fails with "')' expected" |
| Samples.NumberAtEndOfInput | Calculator/main.cpp:70-72 | a lone `2` fails with "no input" |
| Samples.NoUnaryMinus | Calculator/main.cpp:137-139 | `-2=` fails with "primary expected", because there are no negative literals |
| Samples.UnknownCharacter | Calculator/main.cpp:88-89 | `2&3=` fails with "Bad token" |
| Samples.NegativeFactorialGuard | Calculator/main.cpp:127-128 | a number token with a negative value before `!` fails with "Factorial can't accept negative number!!!"; the reader never delivers such a token |

## Left out

- Reading from `std::cin` is not modelled. This covers whitespace skipping,
  `cin.putback` of a digit, and the floating-point reader. The input is a
  sequence of `Lexeme`s, each holding one character and the numeral the
  reader would return after it. A numeral the reader cannot parse (a lone
  `.`, say) is not modelled.
- The `Token_stream ts` global (line 96) is not modelled as shared state.
  Each function takes the stream state and returns the new one.
- `error` and the exception it throws (lines 4-7) are not modelled
  directly. A failure is returned as a `Result` carrying an `Error`. The
  `exit(1)` calls after `error` (lines 90 and 139) cannot be reached and
  have no counterpart.
- `main` is left out (lines 202-233): the banner, the read-print loop with
  `=` and `x`, `keep_window_open` and the exit codes. All of it is I/O
  around the parser.
- IEEE double arithmetic is not modelled. Values are exact reals, so
  rounding, overflow to infinity and NaN do not arise. The comparison
  `d == 0` in `term` is exact.
- Factorials.Factorial: takes a natural number. The source's
  `factorial(int n)` never reaches its base case for a negative `n`. Only the
  check in `primary` (lines 127-128) keeps negative values away from it, and
  that check also rejects values between -1 and 0, which would truncate to 0.
- Factorials.Factorial: does not model the wrap-around of the 32-bit `int`
  result for arguments of 13 and more. FactorialFitsInt32 states where the
  result is exact.
- Factorials.Truncate: does not model a double outside the `int` range,
  which C++ leaves undefined when converting.

/**
 Worked inputs for the calculator, each read by `expression` from a stream
 with nothing buffered (whatever stale token `b` the buffer holds; a new
 stream is the case `b == Symbol('\0')`) and ended by `=`: precedence,
 grouping, left-to-right evaluation, factorial, and the errors.

 Each input is written as the reader would deliver it: one lexeme per
 token, holding its first character and the number a floating-point read
 from that character on would return. After `+` or `-` that number is the
 signed operand that follows (`-4` in `8-4`); where no number can be read
 it is written 0. Only a number's numeral reaches the parser, so each
 input reads like the spelling `Syntax` prints (`Congruence`).
 */
module Samples {
  import opened Results
  import opened TokenStream
  import opened Calculator
  import opened Syntax
  import opened Correctness
  import opened Congruence

  function N(v: real): Product
  {
    Product(Literal(v), ProductEnd)
  }

  /** A stream over `input` with nothing buffered and the stale token `b` in the buffer. */
  function Fresh(b: Token, input: seq<Lexeme>): (s: Stream)
    ensures !s.full && s.input == input
  {
    Stream(input, false, b)
  }

  /** What `expression` leaves after reading a phrase worth `v` and then `=`. */
  function Printed(v: real): Result<(real, Stream)>
  {
    Ok((v, Stream([], true, Symbol('='))))
  }

  /**
   An input that reads like the spelling of `e` and then `=` yields `e`'s
   meaning with `=` put back and nothing left unread.
   */
  lemma Reads(e: Sum, input: seq<Lexeme>, b: Token)
    requires Alike(Fresh(b, input), Fresh(b, PrintSum(e) + [Sym('=')]))
    ensures Expression(Fresh(b, input)) == Settled(EvalSum(e), Sym('='), [])
  {
    assert PrintSum(e) + [Sym('=')] + [] == PrintSum(e) + [Sym('=')];
    AnySpellingParses(e, Sym('='), [], input, b);
  }

  /** An input that reads like another fails exactly where the other fails, with the same error. */
  lemma FailsLike(input: seq<Lexeme>, spelling: seq<Lexeme>, b: Token)
    requires Alike(Fresh(b, input), Fresh(b, spelling))
    ensures Expression(Fresh(b, input)).Fail? <==> Expression(Fresh(b, spelling)).Fail?
    ensures Expression(Fresh(b, spelling)).Fail? ==> Expression(Fresh(b, input)) == Expression(Fresh(b, spelling))
  {
    ExpressionAlike(Fresh(b, input), Fresh(b, spelling));
  }

  /** `2+3*4=`: `*` binds tighter than `+`, giving 14. */
  lemma Precedence(b: Token)
    ensures Expression(Fresh(b, [Lexeme('2', 2.0), Lexeme('+', 3.0), Lexeme('3', 3.0), Lexeme('*', 0.0), Lexeme('4', 4.0), Lexeme('=', 0.0)]))
         == Printed(14.0)
  {
    var e := Sum(N(2.0), SumStep(Plus, Product(Literal(3.0), ProductStep(Times, Literal(4.0), ProductEnd)), SumEnd));
    assert PrintSum(e) + [Sym('=')] == [Num(2.0), Sym('+'), Num(3.0), Sym('*'), Num(4.0), Sym('=')];
    Reads(e, [Lexeme('2', 2.0), Lexeme('+', 3.0), Lexeme('3', 3.0), Lexeme('*', 0.0), Lexeme('4', 4.0), Lexeme('=', 0.0)], b);
    assert EvalSum(e) == Ok(14.0);
  }

  /** `(2+3)*4=`: parentheses group first, giving 20. */
  lemma Grouping(b: Token)
    ensures Expression(Fresh(b, [Lexeme('(', 0.0), Lexeme('2', 2.0), Lexeme('+', 3.0), Lexeme('3', 3.0), Lexeme(')', 0.0),
                                 Lexeme('*', 0.0), Lexeme('4', 4.0), Lexeme('=', 0.0)]))
         == Printed(20.0)
  {
    var inner := Sum(N(2.0), SumStep(Plus, N(3.0), SumEnd));
    assert PrintSum(inner) == [Num(2.0), Sym('+'), Num(3.0)];
    assert EvalSum(inner) == Ok(5.0);
    var e := Sum(Product(Parens(inner), ProductStep(Times, Literal(4.0), ProductEnd)), SumEnd);
    assert PrintSum(e) + [Sym('=')] == [Sym('('), Num(2.0), Sym('+'), Num(3.0), Sym(')'), Sym('*'), Num(4.0), Sym('=')];
    Reads(e, [Lexeme('(', 0.0), Lexeme('2', 2.0), Lexeme('+', 3.0), Lexeme('3', 3.0), Lexeme(')', 0.0),
              Lexeme('*', 0.0), Lexeme('4', 4.0), Lexeme('=', 0.0)], b);
    assert EvalSum(e) == Ok(20.0);
  }

  /** `{1+2}/3=`: braces group like parentheses, giving 1. */
  lemma BraceGrouping(b: Token)
    ensures Expression(Fresh(b, [Lexeme('{', 0.0), Lexeme('1', 1.0), Lexeme('+', 2.0), Lexeme('2', 2.0), Lexeme('}', 0.0),
                                 Lexeme('/', 0.0), Lexeme('3', 3.0), Lexeme('=', 0.0)]))
         == Printed(1.0)
  {
    var inner := Sum(N(1.0), SumStep(Plus, N(2.0), SumEnd));
    assert PrintSum(inner) == [Num(1.0), Sym('+'), Num(2.0)];
    assert EvalSum(inner) == Ok(3.0);
    var e := Sum(Product(Braces(inner), ProductStep(Divide, Literal(3.0), ProductEnd)), SumEnd);
    assert PrintSum(e) + [Sym('=')] == [Sym('{'), Num(1.0), Sym('+'), Num(2.0), Sym('}'), Sym('/'), Num(3.0), Sym('=')];
    Reads(e, [Lexeme('{', 0.0), Lexeme('1', 1.0), Lexeme('+', 2.0), Lexeme('2', 2.0), Lexeme('}', 0.0),
              Lexeme('/', 0.0), Lexeme('3', 3.0), Lexeme('=', 0.0)], b);
    assert EvalSum(e) == Ok(1.0);
  }

  /** `8-4-2=`: subtraction groups to the left, giving 2 rather than 6. */
  lemma SubtractionLeftToRight(b: Token)
    ensures Expression(Fresh(b, [Lexeme('8', 8.0), Lexeme('-', -4.0), Lexeme('4', 4.0), Lexeme('-', -2.0), Lexeme('2', 2.0), Lexeme('=', 0.0)]))
         == Printed(2.0)
  {
    var e := Sum(N(8.0), SumStep(Minus, N(4.0), SumStep(Minus, N(2.0), SumEnd)));
    assert PrintSum(e) + [Sym('=')] == [Num(8.0), Sym('-'), Num(4.0), Sym('-'), Num(2.0), Sym('=')];
    Reads(e, [Lexeme('8', 8.0), Lexeme('-', -4.0), Lexeme('4', 4.0), Lexeme('-', -2.0), Lexeme('2', 2.0), Lexeme('=', 0.0)], b);
    assert EvalSum(e) == Ok(2.0) by {
      assert FoldSum(4.0, SumStep(Minus, N(2.0), SumEnd)) == Ok(2.0);
    }
  }

  /** `8/4/2=`: division groups to the left, giving 1 rather than 4. */
  lemma DivisionLeftToRight(b: Token)
    ensures Expression(Fresh(b, [Lexeme('8', 8.0), Lexeme('/', 0.0), Lexeme('4', 4.0), Lexeme('/', 0.0), Lexeme('2', 2.0), Lexeme('=', 0.0)]))
         == Printed(1.0)
  {
    var e := Sum(Product(Literal(8.0), ProductStep(Divide, Literal(4.0), ProductStep(Divide, Literal(2.0), ProductEnd))), SumEnd);
    assert PrintSum(e) + [Sym('=')] == [Num(8.0), Sym('/'), Num(4.0), Sym('/'), Num(2.0), Sym('=')];
    Reads(e, [Lexeme('8', 8.0), Lexeme('/', 0.0), Lexeme('4', 4.0), Lexeme('/', 0.0), Lexeme('2', 2.0), Lexeme('=', 0.0)], b);
    assert EvalSum(e) == Ok(1.0);
  }

  /** `5!=` gives 120. */
  lemma FactorialOfFive(b: Token)
    ensures Expression(Fresh(b, [Lexeme('5', 5.0), Lexeme('!', 0.0), Lexeme('=', 0.0)])) == Printed(120.0)
  {
    var e := Sum(Product(Bang(5.0), ProductEnd), SumEnd);
    assert PrintSum(e) + [Sym('=')] == [Num(5.0), Sym('!'), Sym('=')];
    Reads(e, [Lexeme('5', 5.0), Lexeme('!', 0.0), Lexeme('=', 0.0)], b);
    assert Factorials.Factorial(5) == 120;
    assert EvalSum(e) == Ok(120.0);
  }

  /** `2.5!=`: the number is cut to the integer 2 before the factorial, giving 2. */
  lemma FactorialTruncates(b: Token)
    ensures Expression(Fresh(b, [Lexeme('2', 2.5), Lexeme('!', 0.0), Lexeme('=', 0.0)])) == Printed(2.0)
  {
    var e := Sum(Product(Bang(2.5), ProductEnd), SumEnd);
    assert PrintSum(e) + [Sym('=')] == [Num(2.5), Sym('!'), Sym('=')];
    Reads(e, [Lexeme('2', 2.5), Lexeme('!', 0.0), Lexeme('=', 0.0)], b);
    assert EvalSum(e) == Ok(2.0);
  }

  /**
   `(3)!=`: `!` applies to a number only. `expression` stops before the `!`
   with the value 3, leaving `!` in the buffer and `=` unread.
   */
  lemma FactorialNeedsNumber(b: Token)
    ensures Expression(Fresh(b, [Lexeme('(', 0.0), Lexeme('3', 3.0), Lexeme(')', 0.0), Lexeme('!', 0.0), Lexeme('=', 0.0)]))
         == Ok((3.0, Stream([Lexeme('=', 0.0)], true, Symbol('!'))))
  {
    var input := [Lexeme('(', 0.0), Lexeme('3', 3.0), Lexeme(')', 0.0), Lexeme('!', 0.0), Lexeme('=', 0.0)];
    var s := Fresh(b, input);
    var s1 := Stream(input[1..], false, b);
    assert Get(s) == Ok((Symbol('('), s1));
    PrimaryNumber(s1, 3.0, Stream(input[2..], false, b), Symbol(')'), Stream(input[3..], false, b));
    var p := Stream(input[3..], true, Symbol(')'));
    assert Primary(s1) == Ok((3.0, p));
    TermLoopEnds(3.0, Symbol(')'), p.(full := false));
    assert Term(s1) == Ok((3.0, p));
    ExpressionLoopEnds(3.0, Symbol(')'), p.(full := false));
    assert Expression(s1) == Ok((3.0, p));
    var s2 := Stream(input[3..], false, Symbol(')'));
    assert Primary(s) == Ok((3.0, s2));
    var s3 := Stream(input[4..], false, Symbol(')'));
    assert Get(s2) == Ok((Symbol('!'), s3));
    TermLoopEnds(3.0, Symbol('!'), s3);
    var s4 := Stream(input[4..], true, Symbol('!'));
    assert Term(s) == Ok((3.0, s4));
    ExpressionLoopEnds(3.0, Symbol('!'), s4.(full := false));
  }

  /**
   `5!!=`: the second `!` does not take the factorial of 120. `expression`
   stops with the value 120 and `!` in the buffer, one lexeme `=` pending.
   */
  lemma FactorialOnce(b: Token)
    ensures Agree(Expression(Fresh(b, [Lexeme('5', 5.0), Lexeme('!', 0.0), Lexeme('!', 0.0), Lexeme('=', 0.0)])),
                  Ok((120.0, Stream([Lexeme('=', 0.0)], true, Symbol('!')))))
  {
    var e := Sum(Product(Bang(5.0), ProductEnd), SumEnd);
    assert PrintSum(e) + [Sym('!')] + [Sym('=')] == [Num(5.0), Sym('!'), Sym('!'), Sym('=')];
    AnySpellingParses(e, Sym('!'), [Sym('=')], [Lexeme('5', 5.0), Lexeme('!', 0.0), Lexeme('!', 0.0), Lexeme('=', 0.0)], b);
    assert Factorials.Factorial(5) == 120;
    assert EvalSum(e) == Ok(120.0);
  }

  /** `1/0=` fails with "divide by zero". */
  lemma DivisionByZero(b: Token)
    ensures Expression(Fresh(b, [Lexeme('1', 1.0), Lexeme('/', 0.0), Lexeme('0', 0.0), Lexeme('=', 0.0)])) == Fail(DivideByZero)
  {
    var e := Sum(Product(Literal(1.0), ProductStep(Divide, Literal(0.0), ProductEnd)), SumEnd);
    assert PrintSum(e) + [Sym('=')] == [Num(1.0), Sym('/'), Num(0.0), Sym('=')];
    Reads(e, [Lexeme('1', 1.0), Lexeme('/', 0.0), Lexeme('0', 0.0), Lexeme('=', 0.0)], b);
    assert EvalSum(e) == Fail(DivideByZero);
  }

  /** `(2+3=` fails with "')' expected". */
  lemma UnclosedParenthesis(b: Token)
    ensures Expression(Fresh(b, [Lexeme('(', 0.0), Lexeme('2', 2.0), Lexeme('+', 3.0), Lexeme('3', 3.0), Lexeme('=', 0.0)]))
         == Fail(CloseParenExpected)
  {
    var inner := Sum(N(2.0), SumStep(Plus, N(3.0), SumEnd));
    var spelling := [Sym('('), Num(2.0), Sym('+'), Num(3.0), Sym('=')];
    assert spelling == [Sym('(')] + PrintSum(inner) + [Sym('=')] + [];
    GroupNeedsCloser('(', inner, Sym('='), [], b);
    assert Expression(Fresh(b, spelling)) == Fail(CloseParenExpected);
    FailsLike([Lexeme('(', 0.0), Lexeme('2', 2.0), Lexeme('+', 3.0), Lexeme('3', 3.0), Lexeme('=', 0.0)], spelling, b);
  }

  /** A number that ends the input fails with "no input": the token after it is looked for. */
  lemma NumberAtEndOfInput(b: Token)
    ensures Expression(Fresh(b, [Lexeme('2', 2.0)])) == Fail(NoInput)
  {
    var s := Fresh(b, [Lexeme('2', 2.0)]);
    PrimaryNumberAtEnd(s, 2.0, Get(s).value.1);
  }

  /** `-2=`: a minus sign cannot start a primary; there are no negative literals. */
  lemma NoUnaryMinus(b: Token)
    ensures Expression(Fresh(b, [Lexeme('-', -2.0), Lexeme('2', 2.0), Lexeme('=', 0.0)])) == Fail(PrimaryExpected)
  {
    PrimaryOther(Fresh(b, [Lexeme('-', -2.0), Lexeme('2', 2.0), Lexeme('=', 0.0)]));
  }

  /** `2&3=`: a character outside the alphabet fails with "Bad token" when it is read. */
  lemma UnknownCharacter(b: Token)
    ensures Expression(Fresh(b, [Lexeme('2', 2.0), Lexeme('&', 0.0), Lexeme('3', 3.0), Lexeme('=', 0.0)])) == Fail(BadToken)
  {
    var input := [Lexeme('2', 2.0), Lexeme('&', 0.0), Lexeme('3', 3.0), Lexeme('=', 0.0)];
    var s := Fresh(b, input);
    var s1 := Stream(input[1..], false, b);
    assert Get(s) == Ok((Token(NumberKind, 2.0), s1));
    assert Get(s1) == Fail(BadToken);
    assert Primary(s) == Fail(BadToken);
    assert Term(s) == Fail(BadToken);
  }

  /**
   A number token with a negative value before `!` fails with "Factorial
   can't accept negative number!!!". The reader never delivers such a token
   (see `Guards.NoNegativeFactorial`); this input is not one it produces.
   */
  lemma NegativeFactorialGuard(b: Token)
    ensures Expression(Fresh(b, [Lexeme('0', -3.0), Sym('!'), Sym('=')])) == Fail(NegativeFactorial)
  {
    var s := Fresh(b, [Lexeme('0', -3.0), Sym('!'), Sym('=')]);
    PrimaryNumber(s, -3.0, Get(s).value.1, Symbol('!'), Get(Get(s).value.1).value.1);
  }
}

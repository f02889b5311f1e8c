/**
 The parser against the grammar: reading the spelling of any expression
 yields the value the grammar gives it (or the error it gives), which
 settles precedence, associativity and grouping; then the behaviour of
 `primary` on inputs outside the grammar.
 */
module Correctness {
  import opened Results
  import opened TokenStream
  import opened Factorials
  import opened Calculator
  import opened Syntax
  import opened Arithmetic

  /** `f` reads as a token whose kind is none of `excluded`. */
  predicate Follows(f: Lexeme, excluded: string)
  {
    Classify(f).Ok? && Classify(f).value.kind !in excluded
  }

  /**
   The kinds that would continue a phrase built with the operators `ops`:
   those operators, and `!` too when the phrase ends with a bare number.
   */
  function Continuing(ops: string, endsWithNumber: bool): string
  {
    if endsWithNumber then ops + "!" else ops
  }

  /**
   The outcome of parsing a whole phrase whose meaning is `meaning` when the
   lexeme `f` ended it: the value, with `f`'s token put back and `rest` unread.
   */
  function Settled(meaning: Result<real>, f: Lexeme, rest: seq<Lexeme>): Result<(real, Stream)>
    requires Classify(f).Ok?
  {
    match meaning
    case Fail(e) => Fail(e)
    case Ok(v) => Ok((v, Stream(rest, true, Classify(f).value)))
  }

  /** `r` produced `v`, and the next `get` reads `f`'s token and leaves `rest` unread. */
  predicate ResumesAt(r: Result<(real, Stream)>, v: real, f: Lexeme, rest: seq<Lexeme>)
    requires Classify(f).Ok?
  {
    && r.Ok? && r.value.0 == v
    && Get(r.value.1).Ok?
    && Get(r.value.1).value.0 == Classify(f).value
    && Get(r.value.1).value.1.input == rest
    && !Get(r.value.1).value.1.full
  }

  /** One turn of the loop of `term` on `*`: multiply by the next primary, then read on. */
  lemma TermLoopTimes(acc: real, s: Stream, d: real, s1: Stream, t: Token, s2: Stream)
    requires Primary(s) == Ok((d, s1)) && Get(s1) == Ok((t, s2))
    ensures TermLoop(acc, Symbol('*'), s) == TermLoop(Mul(acc, d), t, s2)
  {
  }

  /** One turn of the loop of `term` on `/`: divide by a non-zero primary, then read on. */
  lemma TermLoopDivide(acc: real, s: Stream, d: real, s1: Stream, t: Token, s2: Stream)
    requires Primary(s) == Ok((d, s1)) && d != 0.0 && Get(s1) == Ok((t, s2))
    ensures TermLoop(acc, Symbol('/'), s) == TermLoop(acc / d, t, s2)
  {
  }

  /** A divisor exactly 0 stops `term` with "divide by zero" and no value. */
  lemma TermLoopDivideByZero(acc: real, s: Stream, s1: Stream)
    requires Primary(s) == Ok((0.0, s1))
    ensures TermLoop(acc, Symbol('/'), s) == Fail(DivideByZero)
  {
  }

  /** A failing operand of `*` or `/` fails the term with the same error. */
  lemma TermLoopOperandFails(acc: real, op: char, s: Stream)
    requires op == '*' || op == '/'
    requires Primary(s).Fail?
    ensures TermLoop(acc, Symbol(op), s) == Fail(Primary(s).error)
  {
  }

  /** Any other token ends the term: it is put back and the accumulated value returned. */
  lemma TermLoopEnds(acc: real, t: Token, s: Stream)
    requires t.kind != '*' && t.kind != '/' && !s.full
    ensures TermLoop(acc, t, s) == Ok((acc, Stream(s.input, true, t)))
  {
  }

  /** One turn of the loop of `expression` on `+` or `-`: add or subtract the next term, then read on. */
  lemma ExpressionLoopStep(acc: real, op: char, s: Stream, d: real, s1: Stream, t: Token, s2: Stream)
    requires op == '+' || op == '-'
    requires Term(s) == Ok((d, s1)) && Get(s1) == Ok((t, s2))
    ensures ExpressionLoop(acc, Symbol(op), s) == ExpressionLoop(if op == '+' then acc + d else acc - d, t, s2)
  {
  }

  /** A failing operand of `+` or `-` fails the expression with the same error. */
  lemma ExpressionLoopOperandFails(acc: real, op: char, s: Stream)
    requires op == '+' || op == '-'
    requires Term(s).Fail?
    ensures ExpressionLoop(acc, Symbol(op), s) == Fail(Term(s).error)
  {
  }

  /** Any other token ends the expression: it is put back and the accumulated value returned. */
  lemma ExpressionLoopEnds(acc: real, t: Token, s: Stream)
    requires t.kind != '+' && t.kind != '-' && !s.full
    ensures ExpressionLoop(acc, t, s) == Ok((acc, Stream(s.input, true, t)))
  {
  }

  /** After a chain of terms comes an additive operator or the end marker. */
  lemma SumTailStart(prev: bool, tail: SumTail, f: Lexeme, rest: seq<Lexeme>)
    requires Follows(f, Continuing("+-*/", SumTailEndsWithNumber(prev, tail)))
    ensures Follows((PrintSumTail(tail) + [f] + rest)[0], Continuing("*/", prev))
  {
    match tail
    case SumEnd =>
    case SumStep(op, t, next) =>
  }

  /** After a chain of factors comes a multiplicative operator or the end marker. */
  lemma ProductTailStart(prev: bool, tail: ProductTail, f: Lexeme, rest: seq<Lexeme>)
    requires Follows(f, Continuing("*/", TailEndsWithNumber(prev, tail)))
    ensures Follows((PrintProductTail(tail) + [f] + rest)[0], Continuing("", prev))
  {
    match tail
    case ProductEnd =>
    case ProductStep(op, x, next) =>
  }

  /**
   `primary` on the spelling of a factor: it fails with the factor's error,
   or yields its value and leaves the stream so that the next `get` reads
   the lexeme `f` that follows. A number pushes `f` back, so `f` may not be
   `!`; after `n!`, `)` or `}` nothing is pushed back and `f`, even a `!`,
   is still unread.
   */
  lemma {:induction false} FactorParses(p: Factor, f: Lexeme, rest: seq<Lexeme>, b: Token)
    requires Follows(f, Continuing("", p.Literal?))
    ensures var r := Primary(Stream(PrintFactor(p) + [f] + rest, false, b));
      && (EvalFactor(p).Fail? ==> r == Fail(EvalFactor(p).error))
      && (EvalFactor(p).Ok? ==> ResumesAt(r, EvalFactor(p).value, f, rest))
    decreases p
  {
    var s := Stream(PrintFactor(p) + [f] + rest, false, b);
    match p
    case Literal(v) =>
      assert s.input == [Num(v), f] + rest;
    case Bang(v) =>
      assert s.input == [Num(v), Sym('!'), f] + rest;
    case Parens(e) =>
      assert s.input[1..] == PrintSum(e) + [Sym(')')] + ([f] + rest);
      SumParses(e, Sym(')'), [f] + rest, b);
    case Braces(e) =>
      assert s.input[1..] == PrintSum(e) + [Sym('}')] + ([f] + rest);
      SumParses(e, Sym('}'), [f] + rest, b);
  }

  /**
   The loop of `term` on the spelling of a chain of factors: it folds them
   into `acc` left to right, as `FoldProduct` does, and puts back the lexeme
   `f` that ends the chain.
   */
  lemma {:induction false} ProductTailParses(acc: real, prev: bool, tail: ProductTail, f: Lexeme, rest: seq<Lexeme>, b: Token)
    requires Follows(f, Continuing("*/", TailEndsWithNumber(prev, tail)))
    ensures var w := PrintProductTail(tail) + [f] + rest;
      && Classify(w[0]).Ok?
      && TermLoop(acc, Classify(w[0]).value, Stream(w[1..], false, b)) == Settled(FoldProduct(acc, tail), f, rest)
    decreases tail
  {
    match tail
    case ProductEnd =>
      assert PrintProductTail(tail) + [f] + rest == [f] + rest;
      TermLoopEnds(acc, Classify(f).value, Stream(rest, false, b));
    case ProductStep(op, x, next) =>
      var w := PrintProductTail(tail) + [f] + rest;
      var w' := PrintProductTail(next) + [f] + rest;
      assert w == [Sym(MulChar(op))] + (PrintFactor(x) + [w'[0]] + w'[1..]);
      assert w[1..] == PrintFactor(x) + [w'[0]] + w'[1..];
      assert Classify(w[0]) == Ok(Symbol(MulChar(op)));
      var s := Stream(w[1..], false, b);
      ProductTailStart(x.Literal?, next, f, rest);
      FactorParses(x, w'[0], w'[1..], b);
      var r := Primary(s);
      if r.Fail? {
        TermLoopOperandFails(acc, MulChar(op), s);
      } else {
        var (v, s1) := r.value;
        var (g, s2) := Get(s1).value;
        assert s2 == Stream(w'[1..], false, s2.buffer);
        if op == Times {
          TermLoopTimes(acc, s, v, s1, g, s2);
          ProductTailParses(Mul(acc, v), x.Literal?, next, f, rest, s2.buffer);
        } else if v == 0.0 {
          TermLoopDivideByZero(acc, s, s1);
        } else {
          TermLoopDivide(acc, s, v, s1, g, s2);
          ProductTailParses(acc / v, x.Literal?, next, f, rest, s2.buffer);
        }
      }
  }

  /** `term` on the spelling of a term yields its value and puts back the lexeme that ends it. */
  lemma {:induction false} ProductParses(p: Product, f: Lexeme, rest: seq<Lexeme>, b: Token)
    requires Follows(f, Continuing("*/", ProductEndsWithNumber(p)))
    ensures Term(Stream(PrintProduct(p) + [f] + rest, false, b)) == Settled(EvalProduct(p), f, rest)
    decreases p
  {
    var w := PrintProductTail(p.tail) + [f] + rest;
    ProductTailStart(p.head.Literal?, p.tail, f, rest);
    assert PrintProduct(p) + [f] + rest == PrintFactor(p.head) + [w[0]] + w[1..];
    FactorParses(p.head, w[0], w[1..], b);
    match EvalFactor(p.head) {
      case Fail(_) =>
      case Ok(v) =>
        var r := Primary(Stream(PrintFactor(p.head) + [w[0]] + w[1..], false, b));
        var s2 := Get(r.value.1).value.1;
        assert s2 == Stream(w[1..], false, s2.buffer);
        ProductTailParses(v, p.head.Literal?, p.tail, f, rest, s2.buffer);
    }
  }

  /**
   The loop of `expression` on the spelling of a chain of terms: it folds
   them into `acc` left to right, as `FoldSum` does, and puts back the
   lexeme `f` that ends the chain.
   */
  lemma {:induction false} SumTailParses(acc: real, prev: bool, tail: SumTail, f: Lexeme, rest: seq<Lexeme>, b: Token)
    requires Follows(f, Continuing("+-*/", SumTailEndsWithNumber(prev, tail)))
    ensures var w := PrintSumTail(tail) + [f] + rest;
      && Classify(w[0]).Ok?
      && ExpressionLoop(acc, Classify(w[0]).value, Stream(w[1..], false, b)) == Settled(FoldSum(acc, tail), f, rest)
    decreases tail, 1
  {
    match tail
    case SumEnd =>
      assert PrintSumTail(tail) + [f] + rest == [f] + rest;
      ExpressionLoopEnds(acc, Classify(f).value, Stream(rest, false, b));
    case SumStep(op, t, next) =>
      SumStepParses(acc, prev, op, t, next, f, rest, b);
  }

  /** The spelling of a link of a chain of terms: the operator, the term, then the rest. */
  lemma {:induction false} SumStepSpelling(op: AddOp, t: Product, next: SumTail, f: Lexeme, rest: seq<Lexeme>)
    ensures var w := PrintSumTail(SumStep(op, t, next)) + [f] + rest;
      var w' := PrintSumTail(next) + [f] + rest;
      && w[0] == Sym(AddChar(op))
      && w[1..] == PrintProduct(t) + [w'[0]] + w'[1..]
  {
    var w := PrintSumTail(SumStep(op, t, next)) + [f] + rest;
    var w' := PrintSumTail(next) + [f] + rest;
    var p := PrintProduct(t);
    assert PrintSumTail(SumStep(op, t, next)) == [Sym(AddChar(op))] + p + PrintSumTail(next);
    assert w == [Sym(AddChar(op))] + (p + w');
    assert w' == [w'[0]] + w'[1..];
  }

  /** One link of the chain: `+` or `-` and a term, then the rest of the chain. */
  lemma {:induction false} SumStepParses(acc: real, prev: bool, op: AddOp, t: Product, next: SumTail, f: Lexeme, rest: seq<Lexeme>, b: Token)
    requires Follows(f, Continuing("+-*/", SumTailEndsWithNumber(prev, SumStep(op, t, next))))
    ensures var w := PrintSumTail(SumStep(op, t, next)) + [f] + rest;
      && Classify(w[0]).Ok?
      && ExpressionLoop(acc, Classify(w[0]).value, Stream(w[1..], false, b))
         == Settled(FoldSum(acc, SumStep(op, t, next)), f, rest)
    decreases SumStep(op, t, next), 0
  {
    var w := PrintSumTail(SumStep(op, t, next)) + [f] + rest;
    var w' := PrintSumTail(next) + [f] + rest;
    SumStepSpelling(op, t, next, f, rest);
    assert Classify(w[0]) == Ok(Symbol(AddChar(op)));
    var s := Stream(w[1..], false, b);
    SumTailStart(ProductEndsWithNumber(t), next, f, rest);
    ProductParses(t, w'[0], w'[1..], b);
    FoldSumStep(acc, op, t, next);
    match EvalProduct(t)
    case Fail(e) =>
      assert Term(s) == Fail(e);
      ExpressionLoopOperandFails(acc, AddChar(op), s);
    case Ok(v) =>
      var g := Classify(w'[0]).value;
      var s1 := Stream(w'[1..], true, g);
      var s2 := Stream(w'[1..], false, g);
      var acc' := if op == Plus then acc + v else acc - v;
      assert Term(s) == Ok((v, s1));
      assert Get(s1) == Ok((g, s2));
      ExpressionLoopStep(acc, AddChar(op), s, v, s1, g, s2);
      SumTailParses(acc', ProductEndsWithNumber(t), next, f, rest, g);
  }

  /**
   `expression` on the spelling of any expression, followed by a lexeme that
   cannot continue it, yields the expression's value (or its error) and puts
   that lexeme back. The buffer's stale content `b` plays no part.
   */
  lemma {:induction false} SumParses(e: Sum, f: Lexeme, rest: seq<Lexeme>, b: Token)
    requires Follows(f, Continuing("+-*/", SumEndsWithNumber(e)))
    ensures Expression(Stream(PrintSum(e) + [f] + rest, false, b)) == Settled(EvalSum(e), f, rest)
    decreases e
  {
    var w := PrintSumTail(e.tail) + [f] + rest;
    SumTailStart(ProductEndsWithNumber(e.head), e.tail, f, rest);
    assert PrintSum(e) + [f] + rest == PrintProduct(e.head) + [w[0]] + w[1..];
    ProductParses(e.head, w[0], w[1..], b);
    match EvalProduct(e.head) {
      case Fail(_) =>
      case Ok(v) =>
        SumTailParses(v, ProductEndsWithNumber(e.head), e.tail, f, rest, Classify(w[0]).value);
    }
  }

  /**
   `primary` on a number token `v` followed by a token `t2`, on any stream:
   without `!` it yields `v` and the next `get` reads `t2` again; with `!`
   it yields the factorial of `v` rounded toward zero, unless `v` is negative.
   */
  lemma PrimaryNumber(s: Stream, v: real, s1: Stream, t2: Token, s2: Stream)
    requires Get(s) == Ok((Token(NumberKind, v), s1)) && Get(s1) == Ok((t2, s2))
    ensures t2.kind != '!' ==> Primary(s).Ok? && Primary(s).value.0 == v && Get(Primary(s).value.1) == Ok((t2, s2.(buffer := t2)))
    ensures t2.kind == '!' && v < 0.0 ==> Primary(s) == Fail(NegativeFactorial)
    ensures t2.kind == '!' && 0.0 <= v ==> Primary(s) == Ok((Factorial(Truncate(v)) as real, s2))
  {
    if t2.kind != '!' {
      GetThenPutback(s1);
    }
  }

  /** A number that ends the input leaves `primary` looking for the next token: "no input". */
  lemma PrimaryNumberAtEnd(s: Stream, v: real, s1: Stream)
    requires Get(s) == Ok((Token(NumberKind, v), s1)) && !s1.full && s1.input == []
    ensures Primary(s) == Fail(NoInput)
  {
  }

  /** Any token other than `(`, `{` or a number cannot start a primary. */
  lemma PrimaryOther(s: Stream)
    requires Get(s).Ok?
    requires var k := Get(s).value.0.kind; k != '(' && k != '{' && k != NumberKind
    ensures Primary(s) == Fail(PrimaryExpected)
  {
  }

  /**
   A group opened by `(` or `{` must be closed by the matching bracket: an
   expression followed by anything else fails with "')' expected" or
   "'}' expected", once the expression itself has been read.
   */
  lemma {:induction false} GroupNeedsCloser(open: char, e: Sum, f: Lexeme, rest: seq<Lexeme>, b: Token)
    requires open == '(' || open == '{'
    requires Follows(f, Continuing("+-*/", SumEndsWithNumber(e)))
    requires Classify(f).value.kind != (if open == '(' then ')' else '}')
    ensures Primary(Stream([Sym(open)] + PrintSum(e) + [f] + rest, false, b))
         == match EvalSum(e)
            case Fail(x) => Fail(x)
            case Ok(_) => Fail(if open == '(' then CloseParenExpected else CloseBraceExpected)
  {
    var s := Stream([Sym(open)] + PrintSum(e) + [f] + rest, false, b);
    assert s.input[1..] == PrintSum(e) + [f] + rest;
    assert Get(s) == Ok((Symbol(open), Stream(s.input[1..], false, b)));
    SumParses(e, f, rest, b);
  }
}

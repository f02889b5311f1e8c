/**
 The recursive-descent parser-evaluator of Calculator/main.cpp: `primary`,
 `term` and `expression` read tokens from a token stream and compute a value
 as they go. The stream is threaded through explicitly: each function takes
 the stream state and returns the value together with the state it leaves
 behind, or the error it throws.

 The `while (true)` loops of `term` and `expression` are the recursive
 functions `TermLoop` and `ExpressionLoop`: their arguments are the loop's
 variables `left` and `t` and the stream just after `t` was read.

 A failing call propagates its error with `:-`. Where the call cannot fail
 (a `get` right after a function that ends with `putback`, a `putback` right
 after a `get`), the propagation is written out as a `match` instead.

 Values are exact reals, so rounding is not modelled; `/` by exactly 0 is
 the one arithmetic failure, as in the source.

 Termination: every cycle of calls through `primary` consumes a token. The
 measure is the number of tokens still pending, then the precedence level,
 so that `Expression` may call `Term` and `Term` may call `Primary` on the
 same stream.
 */
module Calculator {
  import opened Results
  import opened TokenStream
  import opened Factorials
  import opened Arithmetic

  /**
   `primary`: a parenthesised or braced expression, or a number optionally
   followed by `!`.
   */
  function Primary(s: Stream): (r: Result<(real, Stream)>)
    ensures r.Ok? ==> Pending(r.value.1) < Pending(s)
    ensures r.Fail? ==> r.error != BufferFull
    decreases Pending(s), 0
  {
    var (t, s1) :- Get(s);
    if t.kind == '(' then
      var (d, s2) :- Expression(s1);
      match Get(s2)
      case Fail(e) => Fail(e)
      case Ok((t2, s3)) => if t2.kind != ')' then Fail(CloseParenExpected) else Ok((d, s3))
    else if t.kind == '{' then
      var (d, s2) :- Expression(s1);
      match Get(s2)
      case Fail(e) => Fail(e)
      case Ok((t2, s3)) => if t2.kind != '}' then Fail(CloseBraceExpected) else Ok((d, s3))
    else if t.kind == NumberKind then
      var (t2, s2) :- Get(s1);
      if t2.kind == '!' && t.value < 0.0 then
        Fail(NegativeFactorial)
      else if t2.kind != '!' then
        match Putback(s2, t2)
        case Fail(e) => Fail(e)
        case Ok(s3) => Ok((t.value, s3))
      else
        Ok((Factorial(Truncate(t.value)) as real, s2))
    else
      Fail(PrimaryExpected)
  }

  /**
   `term`: a primary followed by any number of `*` or `/` primaries. On
   success the token that ended the term is back in the buffer.
   */
  function Term(s: Stream): (r: Result<(real, Stream)>)
    ensures r.Ok? ==> Pending(r.value.1) < Pending(s)
    ensures r.Ok? ==> r.value.1.full && r.value.1.buffer.kind != '*' && r.value.1.buffer.kind != '/'
    ensures r.Fail? ==> r.error != BufferFull
    decreases Pending(s), 1
  {
    var (left, s1) :- Primary(s);
    var (t, s2) :- Get(s1);
    TermLoop(left, t, s2)
  }

  /** The loop of `term`, with `left` accumulated so far and `t` the token just read. */
  function TermLoop(left: real, t: Token, s: Stream): (r: Result<(real, Stream)>)
    ensures r.Ok? ==> Pending(r.value.1) <= Pending(s) + 1
    ensures r.Ok? ==> r.value.1.full && r.value.1.buffer.kind != '*' && r.value.1.buffer.kind != '/'
    ensures r.Fail? && !s.full ==> r.error != BufferFull
    decreases Pending(s), 1
  {
    if t.kind == '*' then
      var (d, s1) :- Primary(s);
      var (t2, s2) :- Get(s1);
      TermLoop(Mul(left, d), t2, s2)
    else if t.kind == '/' then
      var (d, s1) :- Primary(s);
      if d == 0.0 then Fail(DivideByZero)
      else
        var (t2, s2) :- Get(s1);
        TermLoop(left / d, t2, s2)
    else
      var s1 :- Putback(s, t);
      Ok((left, s1))
  }

  /**
   `expression`: a term followed by any number of `+` or `-` terms. On
   success the token that ended the expression is back in the buffer.
   */
  function Expression(s: Stream): (r: Result<(real, Stream)>)
    ensures r.Ok? ==> Pending(r.value.1) < Pending(s)
    ensures r.Ok? ==> r.value.1.full && r.value.1.buffer.kind != '+' && r.value.1.buffer.kind != '-'
    ensures r.Fail? ==> r.error != BufferFull
    decreases Pending(s), 2
  {
    var (left, s1) :- Term(s);
    match Get(s1)
    case Fail(e) => Fail(e)
    case Ok((t, s2)) => ExpressionLoop(left, t, s2)
  }

  /** The loop of `expression`, with `left` accumulated so far and `t` the token just read. */
  function ExpressionLoop(left: real, t: Token, s: Stream): (r: Result<(real, Stream)>)
    ensures r.Ok? ==> Pending(r.value.1) <= Pending(s) + 1
    ensures r.Ok? ==> r.value.1.full && r.value.1.buffer.kind != '+' && r.value.1.buffer.kind != '-'
    ensures r.Fail? && !s.full ==> r.error != BufferFull
    decreases Pending(s), 2
  {
    if t.kind == '+' then
      var (d, s1) :- Term(s);
      match Get(s1)
      case Fail(e) => Fail(e)
      case Ok((t2, s2)) => ExpressionLoop(left + d, t2, s2)
    else if t.kind == '-' then
      var (d, s1) :- Term(s);
      match Get(s1)
      case Fail(e) => Fail(e)
      case Ok((t2, s2)) => ExpressionLoop(left - d, t2, s2)
    else
      var s1 :- Putback(s, t);
      Ok((left, s1))
  }
}


/**
 The parser looks at a lexeme only through the classifier: two inputs whose
 lexemes classify alike, position by position, are read alike. In
 particular a lexeme's numeral matters only when its character starts a
 number, and two digits that read as the same number are interchangeable.
 Combined with `Correctness.SumParses` this covers every spelling of an
 expression, not only the one `Syntax` prints.
 */
module Congruence {
  import opened Results
  import opened TokenStream
  import opened Calculator
  import opened Syntax
  import opened Correctness

  /** Two stream states no `get` or `putback` can tell apart. */
  predicate Alike(s: Stream, t: Stream)
  {
    && s.full == t.full && s.buffer == t.buffer && |s.input| == |t.input|
    && forall i :: 0 <= i < |s.input| ==> Classify(s.input[i]) == Classify(t.input[i])
  }

  /** Two outcomes of a parse: the same error, or the same value and streams that are alike. */
  predicate Agree(r: Result<(real, Stream)>, q: Result<(real, Stream)>)
  {
    && (r.Fail? <==> q.Fail?)
    && (r.Fail? && q.Fail? ==> r.error == q.error)
    && (r.Ok? && q.Ok? ==> r.value.0 == q.value.0 && Alike(r.value.1, q.value.1))
  }

  /** `get` on alike streams: the same error, or the same token and alike streams. */
  lemma GetAlike(s: Stream, t: Stream)
    requires Alike(s, t)
    ensures Get(s).Fail? <==> Get(t).Fail?
    ensures Get(s).Fail? && Get(t).Fail? ==> Get(s).error == Get(t).error
    ensures Get(s).Ok? && Get(t).Ok? ==> Get(s).value.0 == Get(t).value.0 && Alike(Get(s).value.1, Get(t).value.1)
  {
    if !s.full && |s.input| > 0 {
      assert Classify(s.input[0]) == Classify(t.input[0]);
      forall i | 0 <= i < |s.input| - 1
        ensures Classify(s.input[1..][i]) == Classify(t.input[1..][i])
      {
        assert Classify(s.input[i + 1]) == Classify(t.input[i + 1]);
      }
    }
  }

  /** `putback` on alike streams: both fail, or both give alike streams. */
  lemma PutbackAlike(s: Stream, t: Stream, tok: Token)
    requires Alike(s, t)
    ensures Putback(s, tok).Fail? <==> Putback(t, tok).Fail?
    ensures Putback(s, tok).Ok? && Putback(t, tok).Ok? ==> Alike(Putback(s, tok).value, Putback(t, tok).value)
  {
  }

  /** `primary` on alike streams: the same error, or the same value and alike streams. */
  lemma {:induction false} PrimaryAlike(s: Stream, t: Stream)
    requires Alike(s, t)
    ensures Agree(Primary(s), Primary(t))
    decreases Pending(s), 0
  {
    GetAlike(s, t);
    if Get(s).Ok? {
      var (k, s1) := Get(s).value;
      var t1 := Get(t).value.1;
      if k.kind == '(' || k.kind == '{' {
        ExpressionAlike(s1, t1);
        if Expression(s1).Ok? {
          GetAlike(Expression(s1).value.1, Expression(t1).value.1);
        }
      } else if k.kind == NumberKind {
        GetAlike(s1, t1);
        if Get(s1).Ok? {
          PutbackAlike(Get(s1).value.1, Get(t1).value.1, Get(s1).value.0);
        }
      }
    }
  }

  /** `term` on alike streams: the same error, or the same value and alike streams. */
  lemma {:induction false} TermAlike(s: Stream, t: Stream)
    requires Alike(s, t)
    ensures Agree(Term(s), Term(t))
    decreases Pending(s), 1
  {
    PrimaryAlike(s, t);
    if Primary(s).Ok? {
      var s1, t1 := Primary(s).value.1, Primary(t).value.1;
      GetAlike(s1, t1);
      if Get(s1).Ok? {
        TermLoopAlike(Primary(s).value.0, Get(s1).value.0, Get(s1).value.1, Get(t1).value.1);
      }
    }
  }

  /** The loop of `term` on alike streams: the same error, or the same value and alike streams. */
  lemma {:induction false} TermLoopAlike(left: real, k: Token, s: Stream, t: Stream)
    requires Alike(s, t)
    ensures Agree(TermLoop(left, k, s), TermLoop(left, k, t))
    decreases Pending(s), 1
  {
    if k.kind == '*' || k.kind == '/' {
      PrimaryAlike(s, t);
      if Primary(s).Ok? {
        var (d, s1) := Primary(s).value;
        var t1 := Primary(t).value.1;
        GetAlike(s1, t1);
        if Get(s1).Ok? {
          var (k2, s2) := Get(s1).value;
          var t2 := Get(t1).value.1;
          if k.kind == '*' {
            TermLoopAlike(Arithmetic.Mul(left, d), k2, s2, t2);
          } else if d != 0.0 {
            TermLoopAlike(left / d, k2, s2, t2);
          }
        }
      }
    } else {
      PutbackAlike(s, t, k);
    }
  }

  /** `expression` on alike streams: the same error, or the same value and alike streams. */
  lemma {:induction false} ExpressionAlike(s: Stream, t: Stream)
    requires Alike(s, t)
    ensures Agree(Expression(s), Expression(t))
    decreases Pending(s), 2
  {
    TermAlike(s, t);
    if Term(s).Ok? {
      var s1, t1 := Term(s).value.1, Term(t).value.1;
      GetAlike(s1, t1);
      if Get(s1).Ok? {
        ExpressionLoopAlike(Term(s).value.0, Get(s1).value.0, Get(s1).value.1, Get(t1).value.1);
      }
    }
  }

  /** The loop of `expression` on alike streams: the same error, or the same value and alike streams. */
  lemma {:induction false} ExpressionLoopAlike(left: real, k: Token, s: Stream, t: Stream)
    requires Alike(s, t)
    ensures Agree(ExpressionLoop(left, k, s), ExpressionLoop(left, k, t))
    decreases Pending(s), 2
  {
    if k.kind == '+' || k.kind == '-' {
      TermAlike(s, t);
      if Term(s).Ok? {
        var (d, s1) := Term(s).value;
        var t1 := Term(t).value.1;
        GetAlike(s1, t1);
        if Get(s1).Ok? {
          ExpressionLoopAlike(if k.kind == '+' then left + d else left - d, Get(s1).value.0, Get(s1).value.1, Get(t1).value.1);
        }
      }
    } else {
      PutbackAlike(s, t, k);
    }
  }

  /**
   `expression` on any input that classifies like the spelling of `e`
   followed by `f` and `rest` gives `e`'s value or its error, with `f`'s
   token put back and an input that classifies like `rest` left over.
   */
  lemma AnySpellingParses(e: Sum, f: Lexeme, rest: seq<Lexeme>, input: seq<Lexeme>, b: Token)
    requires Follows(f, Continuing("+-*/", SumEndsWithNumber(e)))
    requires Alike(Stream(input, false, b), Stream(PrintSum(e) + [f] + rest, false, b))
    ensures Agree(Expression(Stream(input, false, b)), Settled(EvalSum(e), f, rest))
  {
    SumParses(e, f, rest, b);
    ExpressionAlike(Stream(input, false, b), Stream(PrintSum(e) + [f] + rest, false, b));
  }
}

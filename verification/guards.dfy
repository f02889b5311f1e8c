/**
 What the guard against a negative factorial guards against. A number token
 is read from a digit or a decimal point and so carries no sign; a minus
 sign is a token of its own. Parsing input that came from the character
 reader therefore never meets a negative number before a `!`, and the
 "Factorial can't accept negative number" error cannot be raised. The
 same parses leave the stream lexed for whatever reads on.
 */
module Guards {
  import opened Results
  import opened TokenStream
  import opened Calculator

  /** The outcome of a parse on lexed input: a lexed stream, or an error other than a negative factorial. */
  predicate Sound(r: Result<(real, Stream)>)
  {
    && (r.Ok? ==> Lexed(r.value.1))
    && (r.Fail? ==> r.error != NegativeFactorial)
  }

  /** `primary` on lexed input. */
  lemma {:induction false} PrimaryLexed(s: Stream)
    requires Lexed(s)
    ensures Sound(Primary(s))
    decreases Pending(s), 0
  {
    if Get(s).Ok? {
      var (t, s1) := Get(s).value;
      GetKeepsLexed(s);
      if t.kind == '(' || t.kind == '{' {
        ExpressionLexed(s1);
        if Expression(s1).Ok? {
          var s2 := Expression(s1).value.1;
          if Get(s2).Ok? {
            GetKeepsLexed(s2);
          }
        }
      } else if t.kind == NumberKind && Get(s1).Ok? {
        GetKeepsLexed(s1);
        var (t2, s2) := Get(s1).value;
        if Putback(s2, t2).Ok? {
          PutbackKeepsLexed(s2, t2);
        }
      }
    }
  }

  /** `term` on lexed input. */
  lemma {:induction false} TermLexed(s: Stream)
    requires Lexed(s)
    ensures Sound(Term(s))
    decreases Pending(s), 1
  {
    PrimaryLexed(s);
    if Primary(s).Ok? {
      var s1 := Primary(s).value.1;
      if Get(s1).Ok? {
        GetKeepsLexed(s1);
        var (t, s2) := Get(s1).value;
        TermLoopLexed(Primary(s).value.0, t, s2);
      }
    }
  }

  /** The loop of `term` on lexed input, with a lexed token in hand. */
  lemma {:induction false} TermLoopLexed(left: real, t: Token, s: Stream)
    requires Lexed(s) && LexedToken(t)
    ensures Sound(TermLoop(left, t, s))
    decreases Pending(s), 1
  {
    if t.kind == '*' || t.kind == '/' {
      PrimaryLexed(s);
      if Primary(s).Ok? {
        var (d, s1) := Primary(s).value;
        if Get(s1).Ok? {
          GetKeepsLexed(s1);
          var (t2, s2) := Get(s1).value;
          if t.kind == '*' {
            TermLoopLexed(Arithmetic.Mul(left, d), t2, s2);
          } else if d != 0.0 {
            TermLoopLexed(left / d, t2, s2);
          }
        }
      }
    } else if Putback(s, t).Ok? {
      PutbackKeepsLexed(s, t);
    }
  }

  /** `expression` on lexed input. */
  lemma {:induction false} ExpressionLexed(s: Stream)
    requires Lexed(s)
    ensures Sound(Expression(s))
    decreases Pending(s), 2
  {
    TermLexed(s);
    if Term(s).Ok? {
      var s1 := Term(s).value.1;
      if Get(s1).Ok? {
        GetKeepsLexed(s1);
        var (t, s2) := Get(s1).value;
        ExpressionLoopLexed(Term(s).value.0, t, s2);
      }
    }
  }

  /** The loop of `expression` on lexed input, with a lexed token in hand. */
  lemma {:induction false} ExpressionLoopLexed(left: real, t: Token, s: Stream)
    requires Lexed(s) && LexedToken(t)
    ensures Sound(ExpressionLoop(left, t, s))
    decreases Pending(s), 2
  {
    if t.kind == '+' || t.kind == '-' {
      TermLexed(s);
      if Term(s).Ok? {
        var (d, s1) := Term(s).value;
        if Get(s1).Ok? {
          GetKeepsLexed(s1);
          var (t2, s2) := Get(s1).value;
          ExpressionLoopLexed(if t.kind == '+' then left + d else left - d, t2, s2);
        }
      }
    } else if Putback(s, t).Ok? {
      PutbackKeepsLexed(s, t);
    }
  }

  /**
   An expression read from a fresh stream over characters of input never
   fails with "Factorial can't accept negative number".
   */
  lemma NoNegativeFactorial(input: seq<Lexeme>)
    requires forall i :: 0 <= i < |input| ==> WellFormed(input[i])
    ensures Expression(NewStream(input)).Fail? ==> Expression(NewStream(input)).error != NegativeFactorial
  {
    ExpressionLexed(NewStream(input));
  }
}

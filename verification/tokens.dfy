/**
 Tokens, the character classifier and the token stream with its one-slot
 pushback buffer (`Token`, `Token_stream` in Calculator/main.cpp).

 The calculator reads from standard input. Here the input is a sequence of
 `Lexeme`s: each is one read of the form `cin >> ch` (which skips
 whitespace) together with the value the host's floating-point reader would
 return if `ch` were put back and a number read from there. The classifier
 looks at `ch` only; the numeral matters only when `ch` starts a number.
 */
module TokenStream {
  import opened Results

  /** A token: `kind` says what it is; `value` holds a number's value. */
  datatype Token = Token(kind: char, value: real)

  /** The kind that marks a number token. */
  const NumberKind: char := '8'

  /** A token made from a character alone carries the value 0. */
  function Symbol(ch: char): Token
  {
    Token(ch, 0.0)
  }

  /** One non-whitespace character of input, and the numeral read from it. */
  datatype Lexeme = Lexeme(ch: char, numeral: real)

  /** The characters that stand for themselves: print, quit, brackets, operators. */
  predicate IsSymbolChar(ch: char)
  {
    || ch == '=' || ch == 'x'
    || ch == '(' || ch == ')' || ch == '{' || ch == '}'
    || ch == '+' || ch == '-' || ch == '*' || ch == '/' || ch == '!'
  }

  /** A digit or a decimal point starts a number. */
  predicate IsNumberStart(ch: char)
  {
    ch == '.' || '0' <= ch <= '9'
  }

  /** A numeral read from a digit or a point carries no sign, so it is never negative. */
  predicate WellFormed(l: Lexeme)
  {
    IsNumberStart(l.ch) ==> l.numeral >= 0.0
  }

  /** The `switch` of `Token_stream::get`: map one character to a token. */
  function Classify(l: Lexeme): (r: Result<Token>)
    ensures r.Ok? <==> IsSymbolChar(l.ch) || IsNumberStart(l.ch)
    ensures r.Fail? ==> r.error == BadToken
    ensures r.Ok? ==> (r.value.kind == NumberKind <==> IsNumberStart(l.ch))
    ensures r.Ok? && IsSymbolChar(l.ch) ==> r.value.kind == l.ch && r.value.value == 0.0
    ensures r.Ok? && IsNumberStart(l.ch) ==> r.value.value == l.numeral
  {
    if IsSymbolChar(l.ch) then Ok(Symbol(l.ch))
    else if IsNumberStart(l.ch) then Ok(Token(NumberKind, l.numeral))
    else Fail(BadToken)
  }

  /** The tokens `Classify` can produce. */
  predicate Producible(t: Token)
  {
    (IsSymbolChar(t.kind) && t.value == 0.0) || t.kind == NumberKind
  }

  /**
   A lexeme that classifies as `t`: a symbol is spelled by its character and
   a number by a leading zero (which does not change a decimal numeral's value).
   */
  function Spell(t: Token): Lexeme
  {
    if t.kind == NumberKind then Lexeme('0', t.value) else Lexeme(t.kind, 0.0)
  }

  /** Spelling a token the classifier can produce, then classifying it, gives the token back. */
  lemma ClassifySpell(t: Token)
    requires Producible(t)
    ensures Classify(Spell(t)) == Ok(t)
  {
  }

  /** The classifier produces exactly the producible tokens. */
  lemma ClassifierRange(t: Token)
    ensures Producible(t) <==> exists l :: Classify(l) == Ok(t)
  {
    if Producible(t) {
      ClassifySpell(t);
    }
  }

  /** The state of a `Token_stream`: the unread input and the pushback buffer. */
  datatype Stream = Stream(input: seq<Lexeme>, full: bool, buffer: Token)

  /** The constructor: nothing buffered (the buffer holds `Symbol('\0')`). */
  function NewStream(input: seq<Lexeme>): (s: Stream)
    ensures !s.full && s.input == input
  {
    Stream(input, false, Symbol('\0'))
  }

  /** How many tokens can still be read: the unread lexemes plus a buffered token. */
  function Pending(s: Stream): nat
  {
    |s.input| + (if s.full then 1 else 0)
  }

  /** A number token read from input carries a non-negative value. */
  predicate LexedToken(t: Token)
  {
    t.kind == NumberKind ==> t.value >= 0.0
  }

  /** A stream whose input came from the character reader, with a buffered token read from it. */
  predicate Lexed(s: Stream)
  {
    && (forall i :: 0 <= i < |s.input| ==> WellFormed(s.input[i]))
    && (s.full ==> LexedToken(s.buffer))
  }

  /** `Token_stream::putback`: fails when the buffer is full, otherwise buffers `t`. */
  function Putback(s: Stream, t: Token): (r: Result<Stream>)
    ensures r.Fail? <==> s.full
    ensures r.Fail? ==> r.error == BufferFull
    ensures r.Ok? ==> r.value.full && r.value.buffer == t && r.value.input == s.input
    ensures r.Ok? ==> Pending(r.value) == Pending(s) + 1
  {
    if s.full then Fail(BufferFull)
    else Ok(s.(buffer := t, full := true))
  }

  /**
   `Token_stream::get`: hand out the buffered token if there is one,
   otherwise classify the next lexeme of input.
   */
  function Get(s: Stream): (r: Result<(Token, Stream)>)
    ensures r.Ok? ==> !r.value.1.full && Pending(r.value.1) + 1 == Pending(s)
    ensures r.Fail? <==> !s.full && (|s.input| == 0 || Classify(s.input[0]).Fail?)
    ensures r.Fail? ==> r.error == (if |s.input| == 0 then NoInput else BadToken)
    ensures s.full ==> r.Ok? && r.value.0 == s.buffer && r.value.1.input == s.input
    ensures !s.full && r.Ok? ==> r.value.0 == Classify(s.input[0]).value && r.value.1.input == s.input[1..]
  {
    if s.full then
      Ok((s.buffer, s.(full := false)))
    else if |s.input| == 0 then
      Fail(NoInput)
    else
      var t :- Classify(s.input[0]);
      Ok((t, s.(input := s.input[1..])))
  }

  /** Reading from a lexed stream yields a lexed token and leaves a lexed stream. */
  lemma GetKeepsLexed(s: Stream)
    requires Lexed(s) && Get(s).Ok?
    ensures Lexed(Get(s).value.1) && LexedToken(Get(s).value.0)
  {
    if !s.full {
      assert WellFormed(s.input[0]);
    }
  }

  /** Putting back a lexed token keeps the stream lexed. */
  lemma PutbackKeepsLexed(s: Stream, t: Token)
    requires Lexed(s) && LexedToken(t) && Putback(s, t).Ok?
    ensures Lexed(Putback(s, t).value)
  {
  }

  /** The next `get` after a `putback` returns the token put back and reads no input. */
  lemma PutbackThenGet(s: Stream, t: Token)
    requires !s.full
    ensures Putback(s, t).Ok?
    ensures var g := Get(Putback(s, t).value);
      g.Ok? && g.value.0 == t && g.value.1.input == s.input && !g.value.1.full
  {
  }

  /** Putting back the token just read restores a stream that reads it again. */
  lemma GetThenPutback(s: Stream)
    requires Get(s).Ok?
    ensures var (t, s1) := Get(s).value;
      Putback(s1, t).Ok? && Get(Putback(s1, t).value) == Ok((t, s1.(buffer := t)))
  {
  }
}

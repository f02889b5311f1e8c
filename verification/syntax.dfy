/**
 The calculator's grammar as a syntax tree, with its meaning and its
 spelling as input.

   Expression := Term { ('+' | '-') Term }
   Term       := Primary { ('*' | '/') Primary }
   Primary    := Number | Number '!' | '(' Expression ')' | '{' Expression '}'

 A `Sum` is an expression, a `Product` a term and a `Factor` a primary. The
 repetitions are spelled out as chains (`SumTail`, `ProductTail`) and are
 evaluated as left folds: `a - b - c` means `(a - b) - c`. This is the
 reference the parser is proved against.
 */
module Syntax {
  import opened Results
  import opened TokenStream
  import opened Factorials
  import opened Arithmetic

  datatype AddOp = Plus | Minus
  datatype MulOp = Times | Divide

  datatype Factor =
    | Literal(number: real)
    | Bang(number: real)        // a number followed by '!'
    | Parens(inner: Sum)
    | Braces(inner: Sum)

  datatype Product = Product(head: Factor, tail: ProductTail)
  datatype ProductTail = ProductEnd | ProductStep(op: MulOp, factor: Factor, next: ProductTail)

  datatype Sum = Sum(head: Product, tail: SumTail)
  datatype SumTail = SumEnd | SumStep(op: AddOp, term: Product, next: SumTail)

  /** The value of a factor; `n!` multiplies 1 * ... * n for the integer part n of a non-negative number. */
  function EvalFactor(f: Factor): Result<real>
    decreases f
  {
    match f
    case Literal(v) => Ok(v)
    case Bang(v) => if v < 0.0 then Fail(NegativeFactorial) else Ok(Factorial(Truncate(v)) as real)
    case Parens(e) => EvalSum(e)
    case Braces(e) => EvalSum(e)
  }

  function EvalProduct(p: Product): Result<real>
    decreases p
  {
    var v :- EvalFactor(p.head);
    FoldProduct(v, p.tail)
  }

  /** Multiply or divide `acc` by each factor of the chain in turn, left to right. */
  function FoldProduct(acc: real, tail: ProductTail): Result<real>
    decreases tail
  {
    match tail
    case ProductEnd => Ok(acc)
    case ProductStep(op, f, next) =>
      var v :- EvalFactor(f);
      if op == Times then FoldProduct(Mul(acc, v), next)
      else if v == 0.0 then Fail(DivideByZero)
      else FoldProduct(acc / v, next)
  }

  function EvalSum(e: Sum): Result<real>
    decreases e
  {
    var v :- EvalProduct(e.head);
    FoldSum(v, e.tail)
  }

  /** Add or subtract each term of the chain to `acc` in turn, left to right. */
  function FoldSum(acc: real, tail: SumTail): Result<real>
    decreases tail
  {
    match tail
    case SumEnd => Ok(acc)
    case SumStep(op, t, next) =>
      var v :- EvalProduct(t);
      FoldSum(if op == Plus then acc + v else acc - v, next)
  }

  /**
   Whether a phrase ends with a bare number, so that a `!` right after it
   would be read as that number's factorial. After `n!`, `)` or `}` a `!`
   is left for whoever reads next. `prev` tells whether the part before
   the chain ends with a bare number, which matters when the chain is empty.
   */
  function TailEndsWithNumber(prev: bool, tail: ProductTail): bool
    decreases tail
  {
    match tail
    case ProductEnd => prev
    case ProductStep(_, f, next) => TailEndsWithNumber(f.Literal?, next)
  }

  function ProductEndsWithNumber(p: Product): bool
  {
    TailEndsWithNumber(p.head.Literal?, p.tail)
  }

  function SumTailEndsWithNumber(prev: bool, tail: SumTail): bool
    decreases tail
  {
    match tail
    case SumEnd => prev
    case SumStep(_, t, next) => SumTailEndsWithNumber(ProductEndsWithNumber(t), next)
  }

  function SumEndsWithNumber(e: Sum): bool
  {
    SumTailEndsWithNumber(ProductEndsWithNumber(e.head), e.tail)
  }

  /** One link of a chain of terms: its term's error, or one more step of the fold. */
  lemma FoldSumStep(acc: real, op: AddOp, t: Product, next: SumTail)
    ensures EvalProduct(t).Fail? ==> FoldSum(acc, SumStep(op, t, next)) == Fail(EvalProduct(t).error)
    ensures EvalProduct(t).Ok? ==> var v := EvalProduct(t).value;
      FoldSum(acc, SumStep(op, t, next)) == FoldSum(if op == Plus then acc + v else acc - v, next)
  {
  }

  /** A lexeme for a character standing for itself. */
  function Sym(ch: char): Lexeme
  {
    Spell(Symbol(ch))
  }

  /** A lexeme for a number. */
  function Num(v: real): Lexeme
  {
    Spell(Token(NumberKind, v))
  }

  function AddChar(op: AddOp): char
  {
    if op == Plus then '+' else '-'
  }

  function MulChar(op: MulOp): char
  {
    if op == Times then '*' else '/'
  }

  /** The input that spells a factor. */
  function PrintFactor(f: Factor): seq<Lexeme>
    decreases f
  {
    match f
    case Literal(v) => [Num(v)]
    case Bang(v) => [Num(v), Sym('!')]
    case Parens(e) => [Sym('(')] + PrintSum(e) + [Sym(')')]
    case Braces(e) => [Sym('{')] + PrintSum(e) + [Sym('}')]
  }

  function PrintProduct(p: Product): seq<Lexeme>
    decreases p
  {
    PrintFactor(p.head) + PrintProductTail(p.tail)
  }

  function PrintProductTail(tail: ProductTail): seq<Lexeme>
    decreases tail
  {
    match tail
    case ProductEnd => []
    case ProductStep(op, f, next) => [Sym(MulChar(op))] + PrintFactor(f) + PrintProductTail(next)
  }

  function PrintSum(e: Sum): seq<Lexeme>
    decreases e
  {
    PrintProduct(e.head) + PrintSumTail(e.tail)
  }

  function PrintSumTail(tail: SumTail): seq<Lexeme>
    decreases tail
  {
    match tail
    case SumEnd => []
    case SumStep(op, t, next) => [Sym(AddChar(op))] + PrintProduct(t) + PrintSumTail(next)
  }
}

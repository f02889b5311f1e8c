/**
 The calculator reports every failure by throwing with a fixed message
 (`error` in Calculator/main.cpp). Here a failure is a value: each message
 becomes a constructor of `Error`, and every operation that can fail returns
 a `Result`, which works with Dafny's `:-` operator.
 */
module Results {

  /** One constructor per distinct `error(...)` call of the calculator. */
  datatype Error =
    | NoInput             // the character stream is exhausted
    | BadToken            // a character the classifier does not know
    | BufferFull          // putback() while a token is already buffered
    | CloseParenExpected  // '(' expression not followed by ')'
    | CloseBraceExpected  // '{' expression not followed by '}'
    | PrimaryExpected     // a primary starts with an unexpected token
    | NegativeFactorial   // '!' after a negative number
    | DivideByZero        // '/' by a primary whose value is exactly 0

  /** The text the calculator attaches to each failure. */
  function Message(e: Error): string
  {
    match e
    case NoInput => "no input"
    case BadToken => "Bad token"
    case BufferFull => "putback() into a full buffer"
    case CloseParenExpected => "')' expected"
    case CloseBraceExpected => "'}' expected"
    case PrimaryExpected => "primary expected"
    case NegativeFactorial => "Factorial can't accept negative number!!!"
    case DivideByZero => "divide by zero"
  }

  /** Either a value or the error that was thrown instead of producing it. */
  datatype Result<+T> = Ok(value: T) | Fail(error: Error) {

    predicate IsFailure() {
      Fail?
    }

    function PropagateFailure<U>(): Result<U>
      requires Fail?
    {
      Fail(error)
    }

    function Extract(): T
      requires Ok?
    {
      value
    }
  }
}

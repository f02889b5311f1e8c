/**
 Real multiplication as a named function. The parser and the grammar's
 evaluator both multiply through it, so that a product of two unknown
 values is one term the solver can rewrite when it learns that two
 operands are equal.
 */
module Arithmetic {

  function Mul(a: real, b: real): real
  {
    a * b
  }
}

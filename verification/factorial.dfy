/**
 Integer factorial (`factorial` in Calculator/main.cpp) and the conversion
 from a double to an int that happens when `primary` passes a number to it.
 */
module Factorials {

  /** The largest value of a 32-bit signed `int`. */
  const MaxInt32: int := 0x7fff_ffff

  /** C++'s double-to-int conversion: drop the fraction, rounding toward zero. */
  function Truncate(x: real): (n: int)
    ensures 0.0 <= x ==> 0 <= n && n as real <= x < n as real + 1.0
    ensures x < 0.0 ==> n <= 0 && n as real - 1.0 < x <= n as real
  {
    if x >= 0.0 then x.Floor else -((-x).Floor)
  }

  /** The recursion of `factorial`: 0 and 1 give 1, otherwise n * factorial(n - 1). */
  function Factorial(n: nat): (r: nat)
    ensures 1 <= r
    ensures n <= r
  {
    if n == 0 || n == 1 then 1 else n * Factorial(n - 1)
  }

  /** The product lo * (lo + 1) * ... * hi, multiplied from the bottom up (1 when empty). */
  function Ascending(lo: nat, hi: nat): nat
    decreases hi - lo
  {
    if lo > hi then 1 else lo * Ascending(lo + 1, hi)
  }

  /** Extending an ascending product by one more factor at the top. */
  lemma {:induction false} AscendingStep(lo: nat, hi: nat)
    requires lo <= hi + 1
    ensures Ascending(lo, hi + 1) == Ascending(lo, hi) * (hi + 1)
    decreases hi + 1 - lo
  {
    if lo <= hi {
      AscendingStep(lo + 1, hi);
      calc {
        Ascending(lo, hi + 1);
        lo * Ascending(lo + 1, hi + 1);
        lo * (Ascending(lo + 1, hi) * (hi + 1));
        (lo * Ascending(lo + 1, hi)) * (hi + 1);
        Ascending(lo, hi) * (hi + 1);
      }
    }
  }

  /** The recursive factorial is the product 1 * 2 * ... * n. */
  lemma {:induction false} FactorialIsProduct(n: nat)
    ensures Factorial(n) == Ascending(1, n)
  {
    if n >= 2 {
      FactorialIsProduct(n - 1);
      AscendingStep(1, n - 1);
    }
  }

  /** Multiplying by a positive integer does not shrink a natural number. */
  lemma MultiplyGrows(a: nat, b: nat)
    requires 1 <= a
    ensures b <= a * b
  {
    assert a * b == b + (a - 1) * b;
  }

  /** Factorial never decreases. */
  lemma {:induction false} FactorialMonotone(m: nat, n: nat)
    requires m <= n
    ensures Factorial(m) <= Factorial(n)
    decreases n - m
  {
    if m < n {
      FactorialMonotone(m, n - 1);
      if n >= 2 {
        MultiplyGrows(n, Factorial(n - 1));
      }
    }
  }

  /** The 32-bit `int` result is exact precisely for arguments up to 12. */
  lemma FactorialFitsInt32(n: nat)
    ensures Factorial(n) <= MaxInt32 <==> n <= 12
  {
    assert Factorial(12) == 479001600;
    assert Factorial(13) == 6227020800;
    if n <= 12 {
      FactorialMonotone(n, 12);
    } else {
      FactorialMonotone(13, n);
    }
  }
}

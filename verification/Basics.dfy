/**
 Small things that several components share.
 */
module Basics {
  datatype Option<+T> = None | Some(value: T)

  function Max(a: int, b: int): int {
    if a < b then b else a
  }

  function Min(a: int, b: int): int {
    if b < a then b else a
  }

  predicate Int32(x: int) {
    -0x8000_0000 <= x < 0x8000_0000
  }

  /** x / d, by repeated subtraction: the verifier then treats it as a plain function. */
  function Quotient(x: nat, d: nat): nat
    requires d > 0
  {
    if x < d then 0 else 1 + Quotient(x - d, d)
  }

  lemma {:induction false} QuotientIsDivision(x: nat, d: nat)
    requires d > 0
    ensures Quotient(x, d) == x / d
  {
    if x >= d {
      QuotientIsDivision(x - d, d);
      DivisionStep(x, d);
    }
  }

  lemma {:induction false} MulAtLeast(a: int, d: int)
    requires a >= 1 && d >= 0
    ensures a * d >= d
  {
  }

  lemma {:induction false} MulDifference(a: int, b: int, d: int)
    ensures (a - b) * d == a * d - b * d
  {
  }

  lemma {:induction false} DivisionUnique(x: int, d: int, q: int, r: int)
    requires 0 <= r < d && x == q * d + r
    ensures x / d == q
  {
    var q' := x / d;
    if q > q' {
      MulDifference(q, q', d);
      MulAtLeast(q - q', d);
    } else if q < q' {
      MulDifference(q', q, d);
      MulAtLeast(q' - q, d);
    }
  }

  lemma {:induction false} DivisionStep(x: nat, d: nat)
    requires 0 < d <= x
    ensures x / d == 1 + (x - d) / d
  {
    var q, r := (x - d) / d, (x - d) % d;
    MulDifference(q + 1, 1, d);
    DivisionUnique(x, d, q + 1, r);
  }

  /** C++ integer division by a positive number: truncates toward zero. */
  function TruncDiv(x: int, d: int): int
    requires d > 0
  {
    if x >= 0 then Quotient(x, d) else 0 - Quotient(-x, d)
  }

  function Abs(x: int): int {
    if x < 0 then -x else x
  }
}

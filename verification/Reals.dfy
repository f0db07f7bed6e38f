// Least and greatest of two reals, and sums.
module Reals {
  function MinReal(a: real, b: real): real { if a <= b then a else b }

  function MaxReal(a: real, b: real): real { if a <= b then b else a }

  function Sum(xs: seq<real>): real { if |xs| == 0 then 0.0 else xs[0] + Sum(xs[1..]) }

  function Multiply(a: real, b: real): real { a * b }

  lemma ProductNonnegative(a: real, b: real)
    requires a >= 0.0 && b >= 0.0
    ensures a * b >= 0.0 && Multiply(a, b) >= 0.0
  {
  }

  lemma ProductPositive(a: real, b: real)
    requires a > 0.0 && b > 0.0
    ensures a * b > 0.0 && Multiply(a, b) > 0.0
  {
  }
}

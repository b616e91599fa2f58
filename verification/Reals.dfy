/** Steps over the reals that nonlinear proofs are built from. */
module Reals {
  /** What is used of math.Sqrt. */
  ghost predicate IsRoot(sqrt: real -> real) {
    forall x | x >= 0.0 :: sqrt(x) >= 0.0 && sqrt(x) * sqrt(x) == x
  }

  lemma Multiplied(n: real, a: real, b: real)
    requires a == b
    ensures n * a == n * b
  {
  }

  lemma Cancel(d: real, a: real, b: real)
    requires d > 0.0 && d * a == d * b
    ensures a == b
  {
  }

  lemma SignOf(d: real, a: real)
    requires d > 0.0
    ensures d * a >= 0.0 <==> a >= 0.0
    ensures d * a <= 0.0 <==> a <= 0.0
    ensures d * a > 0.0 <==> a > 0.0
  {
  }

  lemma Divided(a: real, b: real, q: real)
    requires b != 0.0 && q == a / b
    ensures q * b == a
  {
  }

  lemma Quotient(a: real, b: real)
    requires a >= 0.0 && b > 0.0
    ensures a / b >= 0.0
  {
  }
}

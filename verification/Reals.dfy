/** Arithmetic on real numbers shared by the graph rewrites. */
module Reals {
  function Abs(x: real): real { if x < 0.0 then -x else x }

  lemma Distribute(a: real, b: real, c: real)
    ensures a * (b + c) == a * b + a * c && (b + c) * a == b * a + c * a && (b - c) * a == b * a - c * a
  {
  }
}

/**
 * Small facts about products of reals, kept apart so each proof sees only what
 * it needs. Each is stated as an implication so that a caller may invoke it
 * whether or not the hypothesis holds at that point.
 */
module RealArith {

  lemma ProductNonNegative(p: real, q: real)
    ensures 0.0 <= p && 0.0 <= q ==> 0.0 <= p * q
  {
  }

  lemma ProductPositive(p: real, q: real)
    ensures 0.0 < p && 0.0 < q ==> 0.0 < p * q
  {
  }

  lemma ScaleLe(a: real, b: real, p: real)
    ensures a <= b && p > 0.0 ==> a * p <= b * p
  {
  }

  lemma ScaleLt(a: real, b: real, p: real)
    ensures a < b && p > 0.0 ==> a * p < b * p
  {
  }
}

/** Sign facts about products of reals that the solver does not find on its own. */
module RealFacts {

  lemma MulNonneg(a: real, b: real)
    requires a >= 0.0 && b >= 0.0
    ensures a * b >= 0.0
  {
  }
}

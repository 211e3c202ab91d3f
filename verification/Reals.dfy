/** A fact about the sign of a product of reals. */
module Reals {

  lemma SignOfFactor(a: real, p: real)
    requires p > 0.0 && a * p >= 0.0
    ensures a >= 0.0
    ensures a * p > 0.0 ==> a > 0.0
  {
  }
}

/** The few facts about products and quotients that the solver does not find by itself. */
module Arithmetic {

  lemma MulSucc(x: nat, w: nat)
    ensures (x + 1) * w == x * w + w
  {
  }

  lemma MulMonotone(x: nat, y: nat, z: nat)
    requires x <= y
    ensures x * z <= y * z
  {
  }

  lemma Quotient(i: nat, u: nat)
    requires u > 0
    ensures (i / u) * u <= i < (i / u) * u + u
    ensures i == (i / u) * u + i % u
  {
    assert i == u * (i / u) + i % u;
  }

  /** In a two-digit numeral the higher place decides. */
  lemma HigherPlaceDecides(x: nat, y: nat, w: nat, r: nat, s: nat)
    requires x < y && r < w
    ensures x * w + r < y * w + s
  {
    MulSucc(x, w);
    MulMonotone(x + 1, y, w);
  }

  lemma QuotientAtLeast(i: nat, u: nat, m: nat)
    requires u > 0 && m * u <= i
    ensures m <= i / u
  {
    Quotient(i, u);
    if i / u < m {
      HigherPlaceDecides(i / u, m, u, i % u, 0);
    }
  }
}

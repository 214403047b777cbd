/** Facts about real multiplication that the solver needs to be handed explicitly. */
module Arith {

  lemma MulLeq(a: real, b: real, c: real)
    requires a <= b && c > 0.0
    ensures a * c <= b * c
  {
  }

  lemma MulLess(a: real, b: real, c: real)
    requires a < b && c > 0.0
    ensures a * c < b * c
  {
  }

  /** An affine map with a positive slope is monotone. */
  lemma AffineLeq(base: real, a: real, b: real, c: real)
    requires a <= b && c > 0.0
    ensures base + a * c <= base + b * c
  {
    MulLeq(a, b, c);
  }

  lemma AffineLess(base: real, a: real, b: real, c: real)
    requires a < b && c > 0.0
    ensures c * (base + a) < c * (base + b)
  {
    MulLess(base + a, base + b, c);
    assert c * (base + a) == (base + a) * c;
    assert c * (base + b) == (base + b) * c;
  }

  /** Dividing by a positive number preserves bounds. */
  lemma DivBounds(p: real, d: real, lo: real, hi: real)
    requires d > 0.0 && lo * d <= p < hi * d
    ensures lo <= p / d < hi
  {
    var q := p / d;
    assert q * d == p;
    if q < lo { MulLess(q, lo, d); }
    if q >= hi { MulLeq(hi, q, d); }
  }
}

/** The car's steering law: in one step it covers the share `alpha` of the way to the pointer. */
module Steering {
  import opened Numbers

  function Blend(alpha: real, x: real, pointer: real): real {
    (1.0 - alpha) * x + alpha * pointer
  }

  /** The pointer that takes the car from x0 to x1. */
  function Inverse(alpha: real, x0: real, x1: real): real
    requires alpha > 0.0
  {
    (x1 - (1.0 - alpha) * x0) / alpha
  }

  lemma BlendInverse(alpha: real, x0: real, x1: real)
    requires alpha > 0.0
    ensures Blend(alpha, x0, Inverse(alpha, x0, x1)) == x1
  {
    var p := Inverse(alpha, x0, x1);
    assert alpha * p == x1 - (1.0 - alpha) * x0;
  }

  lemma BlendOrder(alpha: real, x: real, p: real, q: real)
    requires alpha > 0.0
    ensures p <= q <==> Blend(alpha, x, p) <= Blend(alpha, x, q)
  {
    OrderScales(p, q, alpha);
  }

  lemma BlendShift(alpha: real, x: real, p: real, d: real)
    ensures Blend(alpha, x, p + d) == Blend(alpha, x, p) + alpha * d
  {}

  /** A position between the road's edges stays there, whatever pointer inside the road it follows. */
  lemma BlendStaysBetween(alpha: real, x: real, p: real, lo: real, hi: real)
    requires 0.0 <= alpha <= 1.0 && lo <= x <= hi && lo <= p <= hi
    ensures lo <= Blend(alpha, x, p) <= hi
  {
    MulNonNegative(1.0 - alpha, x - lo);
    MulNonNegative(alpha, p - lo);
    MulNonNegative(1.0 - alpha, hi - x);
    MulNonNegative(alpha, hi - p);
    assert Blend(alpha, x, p) - lo == (1.0 - alpha) * (x - lo) + alpha * (p - lo);
    assert hi - Blend(alpha, x, p) == (1.0 - alpha) * (hi - x) + alpha * (hi - p);
  }

  /** A pointer lies within `slack` of the road iff the position it leads to lies within
      alpha * slack of the reachable interval. */
  lemma PointerIffReach(alpha: real, x0: real, x1: real, lo: real, hi: real, slack: real)
    requires alpha > 0.0
    ensures lo - slack <= Inverse(alpha, x0, x1) <= hi + slack
            <==> Blend(alpha, x0, lo) - alpha * slack <= x1 <= Blend(alpha, x0, hi) + alpha * slack
  {
    var p := Inverse(alpha, x0, x1);
    BlendInverse(alpha, x0, x1);
    BlendShift(alpha, x0, lo, -slack);
    BlendShift(alpha, x0, hi, slack);
    BlendOrder(alpha, x0, lo - slack, p);
    BlendOrder(alpha, x0, p, hi + slack);
    assert alpha * -slack == -(alpha * slack);
    hide Blend, Inverse;
  }
}

/** Arithmetic shared by the planner and guard models: JavaScript numbers are modelled by `real`,
    and the values that may also be `Infinity` by `Extended`. */
module Numbers {

  datatype Option<+T> = None | Some(value: T)

  /** A number or positive infinity. */
  datatype Extended = Fin(v: real) | Inf

  predicate Less(a: Extended, b: Extended) {
    a.Fin? && (b.Inf? || a.v < b.v)
  }

  predicate AtMost(a: Extended, b: Extended) {
    !Less(b, a)
  }

  function Plus(a: Extended, b: Extended): Extended {
    if a.Fin? && b.Fin? then Fin(a.v + b.v) else Inf
  }

  function MinExtended(a: Extended, b: Extended): Extended {
    if Less(b, a) then b else a
  }

  function MaxExtended(a: Extended, b: Extended): Extended {
    if Less(a, b) then b else a
  }

  function Min(a: real, b: real): real {
    if b < a then b else a
  }

  function Max(a: real, b: real): real {
    if a < b then b else a
  }

  function Clamp(v: real, lo: real, hi: real): real {
    Max(lo, Min(hi, v))
  }

  function ClampInt(v: int, lo: int, hi: int): int {
    var upper := if hi < v then hi else v;
    if lo < upper then upper else lo
  }

  function Abs(x: real): real {
    if x < 0.0 then -x else x
  }

  function Sign(x: real): int {
    if x < 0.0 then -1 else if x > 0.0 then 1 else 0
  }

  /** `Math.round`: the nearest integer, halves upwards. */
  function Round(x: real): int {
    (x + 0.5).Floor
  }

  lemma MulPositive(a: real, b: real)
    requires a > 0.0 && b > 0.0
    ensures a * b > 0.0
  {}

  lemma MulNonNegative(a: real, b: real)
    requires a >= 0.0 && b >= 0.0
    ensures a * b >= 0.0
  {}

  lemma OrderScales(a: real, b: real, k: real)
    requires k > 0.0
    ensures a <= b <==> a * k <= b * k
    ensures a < b <==> a * k < b * k
  {
    if a < b {
      MulPositive(b - a, k);
    } else if b < a {
      MulPositive(a - b, k);
    }
    assert (b - a) * k == b * k - a * k;
  }

  lemma DivisionOrder(a: real, b: real, k: real)
    requires k > 0.0
    ensures a / k < b <==> a < b * k
    ensures a / k <= b <==> a <= b * k
  {
    assert a / k * k == a;
    OrderScales(a / k, b, k);
    OrderScales(b, a / k, k);
  }

  lemma SquareOrder(a: real, b: real)
    requires a >= 0.0 && b >= 0.0
    ensures a * a <= b * b <==> a <= b
  {
    if a <= b {
      assert a * a <= a * b <= b * b;
    } else {
      MulPositive(a - b, a + b);
      assert (a - b) * (a + b) == a * a - b * b;
    }
  }
}

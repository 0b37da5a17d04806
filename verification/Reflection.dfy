/** Wall bounces: the closed form V4 and V5 predict with, and the bounded loop V12 uses to move
    hazards forward by its latency lead. */
module Reflection {
  import opened Numbers

  // ---------------------------------------------------------------------------
  // Integer multiples of a length
  // ---------------------------------------------------------------------------

  function Spans(n: int, span: real): real {
    n as real * span
  }

  lemma SpansAdd(m: int, n: int, span: real)
    ensures Spans(m + n, span) == Spans(m, span) + Spans(n, span)
  {}

  lemma SpansFew(span: real)
    ensures Spans(0, span) == 0.0 && Spans(1, span) == span && Spans(2, span) == 2.0 * span && Spans(3, span) == 3.0 * span
  {}

  lemma SpansNegate(n: int, span: real)
    ensures Spans(-n, span) == -Spans(n, span)
  {
    SpansAdd(n, -n, span);
    SpansFew(span);
  }

  lemma SpansOrder(m: int, n: int, span: real)
    requires span > 0.0
    ensures m <= n <==> Spans(m, span) <= Spans(n, span)
  {
    OrderScales(m as real, n as real, span);
    OrderScales(n as real, m as real, span);
  }

  lemma SpansDouble(n: int, span: real)
    ensures Spans(n, span * 2.0) == Spans(2 * n, span)
  {
    SpansAdd(n, n, span);
    assert n as real * (span * 2.0) == n as real * span + n as real * span;
  }

  /** A quotient rounded down brackets the dividend. */
  lemma FloorBrackets(d: real, span: real)
    requires span > 0.0
    ensures var n := (d / span).Floor; Spans(n, span) <= d < Spans(n + 1, span)
  {
    var u := d / span;
    assert u * span == d;
    FloorScales(u, u.Floor, span);
  }

  lemma FloorScales(u: real, n: int, span: real)
    requires span > 0.0 && n as real <= u < (n + 1) as real
    ensures Spans(n, span) <= u * span < Spans(n + 1, span)
  {
    OrderScales(n as real, u, span);
    OrderScales(u, (n + 1) as real, span);
  }

  // ---------------------------------------------------------------------------
  // Definitions
  // ---------------------------------------------------------------------------

  function Truncate(q: real): int {
    if q >= 0.0 then q.Floor else -((-q).Floor)
  }

  /** JavaScript's `%` on reals: the quotient is truncated towards zero. */
  function Remainder(a: real, b: real): real
    requires b > 0.0
  {
    a - Spans(Truncate(a / b), b)
  }

  /** Offset from the left wall after travelling `d` from it, for walls `span` apart. */
  function Wave(d: real, span: real): real
    requires span > 0.0
  {
    var period := span * 2.0;
    var r := Remainder(d, period);
    var q := if r < 0.0 then r + period else r;
    if q > span then period - q else q
  }

  function ReflectPosition(x: real, vx: real, t: real, lo: real, hi: real): real {
    if hi <= lo then x else lo + Wave(x - lo + vx * t, hi - lo)
  }

  /** How far outside the walls an offset is. */
  function Outside(d: real, span: real): real {
    if d < 0.0 then -d else if d > span then d - span else 0.0
  }

  /** One mirroring, at the wall that was crossed. */
  function Across(d: real, span: real): real {
    if d < 0.0 then -d else 2.0 * span - d
  }

  /** The number of mirrorings an offset needs: its distance outside in spans, rounded up. */
  function Bounces(d: real, span: real): (n: nat)
    requires span > 0.0
    ensures Spans(n - 1, span) < Outside(d, span) <= Spans(n, span)
  {
    var e := Outside(d, span);
    var n := -((-e / span).Floor);
    FloorBrackets(-e, span);
    SpansNegate(n, span);
    SpansNegate(n - 1, span);
    SpansFew(span);
    SpansOrder(0, n, span);
    n
  }

  lemma BouncesAtMost(d: real, span: real, n: int)
    requires span > 0.0
    ensures Bounces(d, span) <= n <==> Outside(d, span) <= Spans(n, span)
  {
    SpansOrder(Bounces(d, span), n, span);
    SpansOrder(n, Bounces(d, span) - 1, span);
  }

  lemma BouncesDrop(d: real, span: real)
    requires span > 0.0 && Outside(d, span) > 0.0
    ensures Bounces(d, span) >= 1
    ensures Bounces(Across(d, span), span) == Bounces(d, span) - 1
  {
    hide Spans;
    var b: int := Bounces(d, span);
    var d' := Across(d, span);
    SpansFew(span);
    BouncesAtMost(d, span, 0);
    SpansAdd(b - 1, 1, span);
    SpansAdd(b - 2, 1, span);
    SpansOrder(0, b - 1, span);
    BouncesAtMost(d', span, b - 1);
    if b >= 2 {
      SpansOrder(0, b - 2, span);
    }
    BouncesAtMost(d', span, b - 2);
  }

  /** Mirroring at the walls again and again until the position is between them. */
  function Mirror(d: real, span: real): real
    requires span > 0.0
    decreases Bounces(d, span)
  {
    if 0.0 <= d <= span then d
    else
      BouncesDrop(d, span);
      Mirror(Across(d, span), span)
  }

  // ---------------------------------------------------------------------------
  // The closed form
  // ---------------------------------------------------------------------------

  /** Adding the period to a negative remainder yields the remainder of rounding down. */
  lemma FlooredRemainder(d: real, period: real) returns (n: int)
    requires period > 0.0
    ensures var r := Remainder(d, period);
            (if r < 0.0 then r + period else r) == d - Spans(n, period)
    ensures 0.0 <= d - Spans(n, period) < period
  {
    var u := d / period;
    n := u.Floor;
    FloorBrackets(d, period);
    assert Truncate(u) == n || (Truncate(u) == n + 1 && u < 0.0);
    hide Spans;
    SpansAdd(n, 1, period);
    SpansFew(period);
  }

  /** The wave is the distance to some even multiple of the span. */
  lemma WaveCentre(d: real, span: real) returns (m: int)
    requires span > 0.0
    ensures Wave(d, span) == Abs(d - Spans(2 * m, span)) <= span
  {
    var n := FlooredRemainder(d, span * 2.0);
    SpansDouble(n, span);
    SpansAdd(2 * n, 2, span);
    SpansFew(span);
    hide Spans, Remainder;
    m := if d - Spans(2 * n, span) > span then n + 1 else n;
  }

  /** Whichever even multiple within a span it is. */
  lemma WaveIsDistance(d: real, span: real, k: int)
    requires span > 0.0 && Abs(d - Spans(2 * k, span)) <= span
    ensures Wave(d, span) == Abs(d - Spans(2 * k, span))
  {
    var m := WaveCentre(d, span);
    hide Spans, Wave;
    SpansFew(span);
    if k > m {
      SpansAdd(2 * m, 2 * (k - m), span);
      SpansOrder(4, 2 * (k - m), span);
      SpansAdd(2, 2, span);
    } else if k < m {
      SpansAdd(2 * k, 2 * (m - k), span);
      SpansOrder(4, 2 * (m - k), span);
      SpansAdd(2, 2, span);
    }
  }

  lemma WaveSymmetries(d: real, span: real)
    requires span > 0.0
    ensures 0.0 <= Wave(d, span) <= span
    ensures 0.0 <= d <= span ==> Wave(d, span) == d
    ensures Wave(-d, span) == Wave(d, span)
    ensures Wave(2.0 * span - d, span) == Wave(d, span)
    ensures Wave(d + 2.0 * span, span) == Wave(d, span)
  {
    var m := WaveCentre(d, span);
    hide Spans, Wave;
    SpansFew(span);
    SpansNegate(2 * m, span);
    SpansAdd(2 * m, 2, span);
    SpansAdd(-2 * m, 2, span);
    WaveIsDistance(-d, span, -m);
    WaveIsDistance(2.0 * span - d, span, 1 - m);
    WaveIsDistance(d + 2.0 * span, span, m + 1);
    if 0.0 <= d <= span {
      WaveIsDistance(d, span, 0);
    }
  }

  /** The closed form is the repeated mirroring. */
  lemma {:induction false} WaveIsMirror(d: real, span: real)
    requires span > 0.0
    ensures Wave(d, span) == Mirror(d, span)
    decreases Bounces(d, span)
  {
    WaveSymmetries(d, span);
    hide Wave;
    if !(0.0 <= d <= span) {
      BouncesDrop(d, span);
      WaveIsMirror(Across(d, span), span);
    }
  }

  /** Between proper walls the predicted position stays inside, repeats every two spans of travel,
      reflects at both walls, and is what repeated mirroring gives; otherwise nothing moves. */
  lemma ReflectPositionCorrect(x: real, vx: real, t: real, lo: real, hi: real)
    ensures hi <= lo ==> ReflectPosition(x, vx, t, lo, hi) == x
    ensures lo < hi ==>
              && lo <= ReflectPosition(x, vx, t, lo, hi) <= hi
              && ReflectPosition(x, vx, t, lo, hi) == lo + Mirror(x + vx * t - lo, hi - lo)
              && ReflectPosition(x + 2.0 * (hi - lo), vx, t, lo, hi) == ReflectPosition(x, vx, t, lo, hi)
              && ReflectPosition(2.0 * lo - x, -vx, t, lo, hi) == ReflectPosition(x, vx, t, lo, hi)
              && ReflectPosition(2.0 * hi - x, -vx, t, lo, hi) == ReflectPosition(x, vx, t, lo, hi)
  {
    if lo < hi {
      ReflectBetweenWalls(x, vx, t, lo, hi);
    }
  }

  lemma ReflectBetweenWalls(x: real, vx: real, t: real, lo: real, hi: real)
    requires lo < hi
    ensures lo <= ReflectPosition(x, vx, t, lo, hi) <= hi
    ensures ReflectPosition(x, vx, t, lo, hi) == lo + Mirror(x + vx * t - lo, hi - lo)
    ensures ReflectPosition(x + 2.0 * (hi - lo), vx, t, lo, hi) == ReflectPosition(x, vx, t, lo, hi)
    ensures ReflectPosition(2.0 * lo - x, -vx, t, lo, hi) == ReflectPosition(x, vx, t, lo, hi)
    ensures ReflectPosition(2.0 * hi - x, -vx, t, lo, hi) == ReflectPosition(x, vx, t, lo, hi)
  {
    var d, span, moved := x - lo + vx * t, hi - lo, vx * t;
    WaveIsMirror(d, span);
    WaveSymmetries(d, span);
    hide Wave, Mirror;
    assert -vx * t == -moved;
    assert x + 2.0 * span - lo + moved == d + 2.0 * span;
    assert 2.0 * lo - x - lo - moved == -d;
    assert 2.0 * hi - x - lo - moved == 2.0 * span - d;
  }

  // ---------------------------------------------------------------------------
  // The bounded loop
  // ---------------------------------------------------------------------------

  const MAX_REFLECTIONS: nat := 3

  /** A hazard's velocity after `n` bounces. */
  function Flipped(vx: real, n: nat): real {
    if n % 2 == 0 then vx else -vx
  }

  /** Position and number of reflections after at most `n` mirrorings. */
  function MirrorUpTo(d: real, span: real, n: nat): (real, nat)
    decreases n
  {
    if n == 0 || 0.0 <= d <= span then (d, 0)
    else
      var r := MirrorUpTo(Across(d, span), span, n - 1);
      (r.0, r.1 + 1)
  }

  lemma {:induction false} MirrorUpToStep(d: real, span: real, n: nat)
    ensures var r, s := MirrorUpTo(d, span, n), MirrorUpTo(d, span, n + 1);
            s == if 0.0 <= r.0 <= span then r else (Across(r.0, span), r.1 + 1)
    decreases n
  {
    if n > 0 && !(0.0 <= d <= span) {
      hide Across;
      MirrorUpToStep(Across(d, span), span, n - 1);
    }
  }

  lemma {:induction false} MirrorUpToSettled(d: real, span: real, m: nat, n: nat)
    requires m <= n && 0.0 <= MirrorUpTo(d, span, m).0 <= span
    ensures MirrorUpTo(d, span, n) == MirrorUpTo(d, span, m)
    decreases n
  {
    if m < n {
      MirrorUpToSettled(d, span, m, n - 1);
      MirrorUpToStep(d, span, n - 1);
    }
  }

  /** Where the bounded loop leaves a displaced position, and after how many reflections. */
  function Reflected(displaced: real, lo: real, hi: real): (real, nat) {
    var r := MirrorUpTo(displaced - lo, hi - lo, MAX_REFLECTIONS);
    (lo + r.0, r.1)
  }

  /** The worker's in-place reflection of a displaced hazard. */
  method BounceBetweenWalls(displaced: real, vx: real, lo: real, hi: real) returns (nx: real, nvx: real)
    ensures nx == Reflected(displaced, lo, hi).0 && nvx == Flipped(vx, Reflected(displaced, lo, hi).1)
  {
    nx, nvx := displaced, vx;
    ghost var d, span := displaced - lo, hi - lo;
    hide MirrorUpTo;
    assert MirrorUpTo(d, span, 0) == (d, 0) by {
      MirrorUpToStart(d, span);
    }
    for guard := 0 to MAX_REFLECTIONS
      invariant var r := MirrorUpTo(d, span, guard); nx == lo + r.0 && nvx == Flipped(vx, r.1)
    {
      MirrorUpToStep(d, span, guard);
      if nx < lo {
        nx := lo + (lo - nx);
        nvx := nvx * -1.0;
      } else if nx > hi {
        nx := hi - (nx - hi);
        nvx := nvx * -1.0;
      } else {
        MirrorUpToSettled(d, span, guard, MAX_REFLECTIONS);
        break;
      }
    }
  }

  lemma MirrorUpToStart(d: real, span: real)
    ensures MirrorUpTo(d, span, 0) == (d, 0)
  {}

  /** With room for n reflections the loop settles between the walls, on the mirrored position and
      after exactly the bounces needed, iff it starts at most n spans outside; otherwise it ends
      outside the walls with all n reflections spent. */
  lemma {:induction false} MirrorUpToIsMirror(d: real, span: real, n: nat)
    requires span > 0.0
    ensures var r := MirrorUpTo(d, span, n);
            if Outside(d, span) <= Spans(n, span)
            then r == (Mirror(d, span), Bounces(d, span)) && 0.0 <= r.0 <= span
            else !(0.0 <= r.0 <= span) && r.1 == n
    decreases n
  {
    BouncesAtMost(d, span, n);
    BouncesAtMost(d, span, 0);
    SpansFew(span);
    hide Spans;
    if n > 0 && !(0.0 <= d <= span) {
      BouncesDrop(d, span);
      MirrorUpToIsMirror(Across(d, span), span, n - 1);
      BouncesAtMost(Across(d, span), span, n - 1);
    }
  }

  /** The worker's loop agrees with the closed form exactly for hazards displaced at most three
      road widths outside, and then flips the velocity once per bounce. */
  lemma ThreeReflectionsAgreeWithClosedForm(displaced: real, lo: real, hi: real)
    requires lo < hi
    ensures var r := Reflected(displaced, lo, hi);
            && (r.0 == ReflectPosition(displaced, 0.0, 0.0, lo, hi)
                <==> Outside(displaced - lo, hi - lo) <= 3.0 * (hi - lo))
            && (Outside(displaced - lo, hi - lo) <= 3.0 * (hi - lo)
                ==> r.1 == Bounces(displaced - lo, hi - lo))
  {
    hide MirrorUpTo, ReflectPosition, Mirror, Spans, Bounces;
    ClosedFormAtRest(displaced, lo, hi);
    MirrorUpToIsMirror(displaced - lo, hi - lo, MAX_REFLECTIONS);
    MirrorInside(displaced - lo, hi - lo);
    SpansFew(hi - lo);
  }

  lemma ClosedFormAtRest(displaced: real, lo: real, hi: real)
    requires lo < hi
    ensures ReflectPosition(displaced, 0.0, 0.0, lo, hi) == lo + Mirror(displaced - lo, hi - lo)
  {
    ReflectBetweenWalls(displaced, 0.0, 0.0, lo, hi);
    assert displaced + 0.0 * 0.0 - lo == displaced - lo;
  }

  lemma MirrorInside(d: real, span: real)
    requires span > 0.0
    ensures 0.0 <= Mirror(d, span) <= span
  {
    WaveIsMirror(d, span);
    WaveSymmetries(d, span);
  }
}

/** V8's pruning of hazards that cannot reach the car's vertical danger band within the horizon. The
    forecast overruns the horizon by up to one step, so this is safe only for hazards that are not both
    fast and large. */
module Pruning {
  import opened Numbers
  import opened Geometry
  import opened Steering
  import opened Beam
  import F = Forecast

  const DT := 0.045
  const MARGIN := 10.0
  const BAND_ABOVE := 175.0
  const BAND_BELOW := 110.0

  // ---------------------------------------------------------------------------
  // Horizon and forecast
  // ---------------------------------------------------------------------------

  /** The horizon shrinks where hazards not yet spawned could arrive sooner. */
  function DynamicHorizon(py: real): real {
    Clamp((py + 50.0) / 650.0 * 0.82, 1.05, 2.15)
  }

  function Ceil(x: real): int {
    -((-x).Floor)
  }

  function Steps(horizon: real): nat {
    if Ceil(horizon / DT) < 4 then 4 else Ceil(horizon / DT)
  }

  lemma StepsCoverHorizon(py: real)
    ensures DynamicHorizon(py) <= F.Clock(Steps(DynamicHorizon(py)), DT) < DynamicHorizon(py) + DT
  {
    var h := DynamicHorizon(py);
    assert h / DT > 4.0;
    assert h / DT * DT == h;
  }

  /** HYPE slows a whole step when it is still on at the end of that step. */
  function SpeedMult(step: nat, hype: real): real {
    if F.Clock(step + 1, DT) < hype then F.HYPE_FACTOR else 1.0
  }

  /** How far a hazard falls in `t` seconds at full speed. */
  function Fall(vy: real, t: real): real {
    vy * t
  }

  /** A hazard's height after k forecast steps. */
  function Height(z: F.Hazard, hype: real, k: nat): real {
    if k == 0 then z.y else Height(z, hype, k - 1) + z.vy * DT * SpeedMult(k - 1, hype)
  }

  function Forecasted(z: F.Hazard, width: real, hype: real, k: nat): Disc {
    Disc(F.Drift(z.x, F.Shift(z.vx, DT), z.size, width, k).0, Height(z, hype, k), z.size)
  }

  method BuildHazardPath(z: F.Hazard, steps: nat, width: real, hype: real) returns (path: seq<Disc>)
    ensures |path| == steps && forall k | 0 <= k < steps :: path[k] == Forecasted(z, width, hype, k + 1)
  {
    hide F.Shift, SpeedMult;
    path := [];
    var x, y, vx := z.x, z.y, z.vx;
    ghost var d0, d := F.Shift(z.vx, DT), F.Shift(z.vx, DT);
    for k := 0 to steps
      invariant |path| == k && d == F.Shift(vx, DT) && y == Height(z, hype, k)
      invariant F.Drift(z.x, d0, z.size, width, k).0 == x && F.Drift(z.x, d0, z.size, width, k).1 == d
      invariant forall i | 0 <= i < k :: path[i] == Forecasted(z, width, hype, i + 1)
    {
      x := x + F.Shift(vx, DT);
      y := y + z.vy * DT * SpeedMult(k, hype);
      if x < z.size || x > width - z.size {
        F.ShiftBackwards(vx, DT);
        vx, d := -vx, -d;
      }
      path := path + [Disc(x, y, z.size)];
    }
  }

  lemma FallOrder(vy: real, s: real, t: real)
    requires vy >= 0.0 && 0.0 <= s <= t
    ensures 0.0 <= Fall(vy, s) <= Fall(vy, t)
    ensures Fall(vy, s) + Fall(vy, t) == Fall(vy, s + t)
  {
    MulNonNegative(vy, s);
    MulNonNegative(vy, t - s);
    assert vy * (t - s) == vy * t - vy * s;
  }

  /** A hazard moving down falls in every step, at no more than full speed. */
  lemma OneStepFall(z: F.Hazard, hype: real, k: nat)
    requires z.vy >= 0.0
    ensures Height(z, hype, k) <= Height(z, hype, k + 1) <= Height(z, hype, k) + Fall(z.vy, DT)
  {
    hide F.Clock;
    var d, m := z.vy * DT, SpeedMult(k, hype);
    MulNonNegative(z.vy, DT);
    assert m == F.HYPE_FACTOR || m == 1.0;
    assert 0.0 <= d * m <= d;
  }

  lemma {:induction false} HeightBounds(z: F.Hazard, hype: real, k: nat)
    requires z.vy >= 0.0
    ensures z.y <= Height(z, hype, k) <= z.y + Fall(z.vy, F.Clock(k, DT))
  {
    hide Fall, F.Clock;
    F.ClockAdvances(k, DT);
    if k == 0 {
      FallOrder(z.vy, 0.0, 0.0);
    } else {
      F.ClockAdvances(k - 1, DT);
      HeightBounds(z, hype, k - 1);
      OneStepFall(z, hype, k - 1);
      FallAdds(z.vy, F.Clock(k - 1, DT), DT);
    }
  }

  lemma FallAdds(vy: real, s: real, t: real)
    ensures Fall(vy, s) + Fall(vy, t) == Fall(vy, s + t)
  {}

  // ---------------------------------------------------------------------------
  // The pruning rule, hazard by hazard
  // ---------------------------------------------------------------------------

  predicate Keep(z: F.Hazard, py: real) {
    z.y <= py + 120.0 && z.y + Fall(Max(0.0, z.vy), DynamicHorizon(py)) >= py - 190.0
  }

  /** A collision of the car at `px` with the hazard a share `q` into a step. */
  predicate Threat(z: F.Hazard, width: real, hype: real, step: nat, q: real, px: real, py: real) {
    var at := Along(Forecasted(z, width, hype, step), Forecasted(z, width, hype, step + 1), q);
    && step < Steps(DynamicHorizon(py)) && 0.0 <= q <= 1.0
    && py - BAND_ABOVE <= at.y <= py + BAND_BELOW && CollisionAt(px, py, at, MARGIN)
  }

  /** No dropped hazard of this speed and size could have been hit at any sample of the forecast. */
  ghost predicate Lossless(vy: real, size: real) {
    forall z: F.Hazard, width, hype, step, q, px, py ::
      z.vy == vy && z.size == size && Threat(z, width, hype, step, q, px, py) ==> Keep(z, py)
  }

  /** One step of overrun stays clear of the band or of the car. */
  predicate OverrunIsHarmless(vy: real, size: real) {
    Fall(vy, DT) <= 15.0 || size * SIZE_FACTOR + MARGIN + HALF_HEIGHT + Fall(vy, DT) <= 190.0
  }

  lemma BetweenOrder(a: real, b: real, q: real)
    requires a <= b && 0.0 <= q <= 1.0
    ensures a <= Between(a, b, q) <= b
  {
    MulNonNegative(b - a, q);
    MulNonNegative(b - a, 1.0 - q);
  }

  /** Within the forecast a hazard moving down stays above its start and less than one step below
      where the pruning rule puts it. */
  lemma SampleHeight(z: F.Hazard, hype: real, step: nat, q: real, py: real)
    requires z.vy >= 0.0 && step < Steps(DynamicHorizon(py)) && 0.0 <= q <= 1.0
    ensures z.y <= Between(Height(z, hype, step), Height(z, hype, step + 1), q)
                <= z.y + Fall(z.vy, DynamicHorizon(py)) + Fall(z.vy, DT)
  {
    hide Fall, DynamicHorizon, Steps, Between, F.Clock, Height;
    var h := DynamicHorizon(py);
    HeightBounds(z, hype, step);
    HeightBounds(z, hype, step + 1);
    OneStepFall(z, hype, step);
    BetweenOrder(Height(z, hype, step), Height(z, hype, step + 1), q);
    StepsCoverHorizon(py);
    ClockOrder(step + 1, Steps(h));
    F.ClockAdvances(step + 1, DT);
    HorizonPositive(py);
    FallOrder(z.vy, F.Clock(step + 1, DT), h + DT);
    FallAdds(z.vy, h, DT);
  }

  lemma ClockOrder(a: nat, b: nat)
    requires a <= b
    ensures F.Clock(a, DT) <= F.Clock(b, DT)
  {}

  lemma HorizonPositive(py: real)
    ensures DynamicHorizon(py) >= 1.05
  {}

  lemma HarmlessThenKept(z: F.Hazard, width: real, hype: real, step: nat, q: real, px: real, py: real)
    requires z.vy >= 0.0 && z.size >= 0.0 && OverrunIsHarmless(z.vy, z.size)
    requires Threat(z, width, hype, step, q, px, py)
    ensures Keep(z, py)
  {
    hide Height, F.Drift, F.Shift, CollisionAt, DynamicHorizon, Between, Fall;
    var at := Along(Forecasted(z, width, hype, step), Forecasted(z, width, hype, step + 1), q);
    SampleHeight(z, hype, step, q, py);
    CollisionNeedsVerticalReach(px, py, at, MARGIN);
  }

  /** The road it falls on, with room on both sides. */
  function OverrunRoad(size: real): real {
    2.0 * size + 100.0
  }

  /** A hazard that is both fast and large, falling straight in the middle of the road onto a car placed
      so that the forecast overruns its horizon by `overrun`. */
  function Overrunner(vy: real, size: real, overrun: real): (F.Hazard, real) {
    var steps := 30.0;
    var py := (steps * DT - overrun) * 650.0 / 0.82 - 50.0;
    var top := py - Min(BAND_ABOVE, size * SIZE_FACTOR + MARGIN + HALF_HEIGHT);
    (F.Hazard(size + 50.0, top - Fall(vy, steps * DT), 0.0, vy, size), py)
  }

  lemma {:induction false} FullSpeedFall(z: F.Hazard, k: nat)
    ensures Height(z, 0.0, k) == z.y + Fall(z.vy, F.Clock(k, DT))
  {
    hide F.Clock, Fall;
    F.ClockAdvances(k, DT);
    if k == 0 {
      FallAdds(z.vy, 0.0, 0.0);
    } else {
      F.ClockAdvances(k - 1, DT);
      FullSpeedFall(z, k - 1);
      FallAdds(z.vy, F.Clock(k - 1, DT), DT);
      assert SpeedMult(k - 1, 0.0) == 1.0;
      FullSpeedStep(z.vy);
    }
  }

  lemma FullSpeedStep(vy: real)
    ensures vy * DT * 1.0 == Fall(vy, DT)
  {}

  lemma {:induction false} StandsStill(x: real, size: real, width: real, k: nat)
    ensures F.Drift(x, 0.0, size, width, k) == (x, 0.0)
  {
    if k > 0 {
      StandsStill(x, size, width, k - 1);
    }
  }

  lemma OverrunnerHorizon(vy: real, size: real, overrun: real)
    requires 0.0 < overrun < DT
    ensures var py := Overrunner(vy, size, overrun).1;
            DynamicHorizon(py) == 30.0 * DT - overrun && Steps(DynamicHorizon(py)) == 30
  {
    var py := Overrunner(vy, size, overrun).1;
    assert (py + 50.0) / 650.0 * 0.82 == 30.0 * DT - overrun;
    var h := 30.0 * DT - overrun;
    assert 29.0 < h / DT < 30.0;
  }

  /** An overrun short of one step in which the hazard still falls far enough. */
  lemma PickOverrun(vy: real, need: real) returns (overrun: real)
    requires 0.0 <= need < Fall(vy, DT)
    ensures 0.0 < overrun < DT && Fall(vy, overrun) > need
  {
    var slack := vy * DT - need;
    assert vy > 0.0;
    overrun := DT - slack / (2.0 * vy);
    assert slack / (2.0 * vy) * (2.0 * vy) == slack;
    MulOverrun(vy, slack, slack / (2.0 * vy));
  }

  lemma MulOverrun(vy: real, slack: real, cut: real)
    requires vy > 0.0 && slack > 0.0 && cut * (2.0 * vy) == slack && slack <= vy * DT
    ensures 0.0 < cut < DT && vy * (DT - cut) == vy * DT - slack / 2.0
  {
    assert vy * cut == slack / 2.0;
    assert vy * (DT - cut) == vy * DT - vy * cut;
    OrderScales(0.0, cut, vy);
    OrderScales(cut, DT, vy);
    assert cut * vy == vy * cut && DT * vy == vy * DT;
  }

  lemma OverrunnerIsMissed(vy: real, size: real)
    requires vy >= 0.0 && size >= 0.0 && !OverrunIsHarmless(vy, size)
    ensures exists z: F.Hazard, step, q, px, py ::
              && z.vy == vy && z.size == size && F.OnRoad(z.x, size, OverrunRoad(size))
              && Threat(z, OverrunRoad(size), 0.0, step, q, px, py) && !Keep(z, py)
    ensures !Lossless(vy, size)
  {
    hide DynamicHorizon, Steps, Fall, Height, CollisionAt, F.Drift;
    var reach := size * SIZE_FACTOR + MARGIN + HALF_HEIGHT;
    var overrun := PickOverrun(vy, Max(15.0, 190.0 - reach));
    var (z, py) := Overrunner(vy, size, overrun);
    OverrunnerHorizon(vy, size, overrun);
    FullSpeedFall(z, 30);
    var width := OverrunRoad(size);
    StandsStill(z.x, size, width, 29);
    StandsStill(z.x, size, width, 30);
    NoShift(z);
    ThirtySteps();
    FallAdds(vy, 30.0 * DT - overrun, overrun);
    var at := Disc(z.x, Height(z, 0.0, 30), size);
    LastSample(Forecasted(z, width, 0.0, 29), Forecasted(z, width, 0.0, 30));
    AlignedCollision(z.x, py, at, MARGIN);
    assert F.OnRoad(z.x, size, width) && Threat(z, width, 0.0, 29, 1.0, z.x, py);
    assert !Keep(z, py);
  }

  lemma LastSample(start: Disc, end: Disc)
    ensures Along(start, end, 1.0) == end
  {}

  lemma NoShift(z: F.Hazard)
    requires z.vx == 0.0
    ensures F.Shift(z.vx, DT) == 0.0
  {}

  lemma ThirtySteps()
    ensures F.Clock(30, DT) == 30.0 * DT
  {}

  /** The rule is safe for hazards of a given speed and size exactly when one step of overrun keeps
      them out of the band or off the car. */
  lemma PruningLosslessIff(vy: real, size: real)
    requires vy >= 0.0 && size >= 0.0
    ensures Lossless(vy, size) <==> OverrunIsHarmless(vy, size)
  {
    if OverrunIsHarmless(vy, size) {
      forall z: F.Hazard, width, hype, step, q, px, py |
        z.vy == vy && z.size == size && Threat(z, width, hype, step, q, px, py)
        ensures Keep(z, py)
      {
        HarmlessThenKept(z, width, hype, step, q, px, py);
      }
    } else {
      OverrunnerIsMissed(vy, size);
    }
  }

  /** Hazards within the planner's own bound on their speed are harmless up to a size of 174. */
  lemma WithinSpeedBound(vy: real, size: real)
    requires 0.0 <= vy <= 650.0 && 0.0 <= size <= 174.0
    ensures OverrunIsHarmless(vy, size) && Lossless(vy, size)
  {
    hide Lossless;
    assert Fall(vy, DT) <= 29.25;
    PruningLosslessIff(vy, size);
  }

  // ---------------------------------------------------------------------------
  // The pruned search
  // ---------------------------------------------------------------------------

  /** Indices of the first n hazards that survive the filter, in order. */
  function Kept(zs: seq<F.Hazard>, py: real, n: nat): (r: seq<nat>)
    requires n <= |zs|
    ensures forall i | 0 <= i < |r| :: r[i] < n && Keep(zs[r[i]], py)
    ensures forall i, j | 0 <= i < j < |r| :: r[i] < r[j]
    ensures forall h: nat | h < n && Keep(zs[h], py) :: h in r
  {
    if n == 0 then []
    else if Keep(zs[n - 1], py) then Kept(zs, py, n - 1) + [n - 1]
    else Kept(zs, py, n - 1)
  }

  /** The scene holds the forecasts of these hazards under V8's constants. */
  ghost predicate Shows(s: Scene, zs: seq<F.Hazard>, width: real, hype: real) {
    && WellFormed(s) && |s.hazards| == |zs|
    && s.dt == DT && s.margin == MARGIN && s.bandAbove == BAND_ABOVE && s.bandBelow == BAND_BELOW
    && s.steps == Steps(DynamicHorizon(s.py))
    && (forall i | 0 <= i < |s.samples| :: 0.0 <= s.samples[i].q <= 1.0)
    && (forall h | 0 <= h < |zs| :: s.hazards[h] == Forecasted(zs[h], width, hype, 0))
    && forall h, k | 0 <= h < |zs| && 0 <= k < s.steps :: s.paths[h][k] == Forecasted(zs[h], width, hype, k + 1)
  }

  /** The scene the pruned search works on. */
  function Pruned(s: Scene, kept: seq<nat>): Scene
    requires WellFormed(s) && forall i | 0 <= i < |kept| :: kept[i] < |s.paths|
  {
    s.(hazards := seq(|kept|, (i: nat) requires i < |kept| && kept[i] < |s.hazards| => s.hazards[kept[i]]),
       paths := seq(|kept|, (i: nat) requires i < |kept| && kept[i] < |s.paths| => s.paths[kept[i]]))
  }

  /** The index in the full scene of a hazard spent in the pruned one. */
  function Original(kept: seq<nat>, spent: int): int
    requires -1 <= spent < |kept|
  {
    if spent < 0 then -1 else kept[spent]
  }

  lemma KeptHitsAgree(s: Scene, kept: seq<nat>, x: real, target: real, step: nat, i: nat, h: nat)
    requires WellFormed(s) && step < s.steps && i < |s.samples|
    requires (forall i | 0 <= i < |kept| :: kept[i] < |s.paths|) && h < |kept|
    ensures WellFormed(Pruned(s, kept))
    ensures HitAt(Pruned(s, kept), x, target, step, i, h) <==> HitAt(s, x, target, step, i, kept[h])
  {
    hide CollisionAt, Blend, Along;
  }

  lemma HitIsThreat(s: Scene, zs: seq<F.Hazard>, width: real, hype: real, x: real, target: real, step: nat, i: nat, h: nat)
    requires Shows(s, zs, width, hype) && step < s.steps && i < |s.samples| && h < |zs|
    requires HitAt(s, x, target, step, i, h)
    ensures Threat(zs[h], width, hype, step, s.samples[i].q, Blend(s.samples[i].share, x, target), s.py)
  {
    hide CollisionAt, Blend, Forecasted, Along;
    assert s.paths[h][step] == Forecasted(zs[h], width, hype, step + 1);
    assert (if step == 0 then s.hazards[h] else s.paths[h][step - 1]) == Forecasted(zs[h], width, hype, step);
  }

  ghost predicate AllHarmless(zs: seq<F.Hazard>) {
    forall h | 0 <= h < |zs| :: zs[h].vy >= 0.0 && zs[h].size >= 0.0 && OverrunIsHarmless(zs[h].vy, zs[h].size)
  }

  /** The hazards hit on a move are the same ones, whichever scene the move is judged in. */
  lemma PruningKeepsHits(s: Scene, zs: seq<F.Hazard>, width: real, hype: real, x: real, target: real, step: nat, spent: int)
    requires Shows(s, zs, width, hype) && AllHarmless(zs) && step < s.steps
    requires -1 <= spent < |Kept(zs, s.py, |zs|)|
    ensures var kept := Kept(zs, s.py, |zs|);
            && WellFormed(Pruned(s, kept))
            && (forall h: nat :: h in HitSet(Pruned(s, kept), x, target, step, spent)
                                 <==> h < |kept| && kept[h] in HitSet(s, x, target, step, Original(kept, spent)))
            && (forall g: nat :: g in HitSet(s, x, target, step, Original(kept, spent)) ==> g in kept)
  {
    hide Kept, HitAt, Threat, Keep, OverrunIsHarmless, Steps, DynamicHorizon;
    var kept := Kept(zs, s.py, |zs|);
    forall h: nat, i: nat | h < |kept| && i < |s.samples|
      ensures HitAt(Pruned(s, kept), x, target, step, i, h) <==> HitAt(s, x, target, step, i, kept[h])
    {
      KeptHitsAgree(s, kept, x, target, step, i, h);
    }
    forall g: nat | g in HitSet(s, x, target, step, Original(kept, spent))
      ensures g in kept
    {
      var i :| 0 <= i < |s.samples| && HitAt(s, x, target, step, i, g);
      HitIsThreat(s, zs, width, hype, x, target, step, i, g);
      HarmlessThenKept(zs[g], width, hype, step, s.samples[i].q, Blend(s.samples[i].share, x, target), s.py);
    }
  }

  /** Renumbering a set along an injective list keeps its size and its least member. */
  lemma {:induction false} RenumberedSize(a: set<nat>, b: set<nat>, kept: seq<nat>)
    requires forall i, j | 0 <= i < j < |kept| :: kept[i] < kept[j]
    requires forall h: nat :: h in a <==> h < |kept| && kept[h] in b
    requires forall g: nat :: g in b ==> g in kept
    ensures |a| == |b|
    decreases |a|
  {
    if a == {} {
      assert b == {};
    } else {
      var h :| h in a;
      RenumberedSize(a - {h}, b - {kept[h]}, kept);
    }
  }

  lemma KeptInScene(s: Scene, zs: seq<F.Hazard>, width: real, hype: real)
    requires Shows(s, zs, width, hype)
    ensures WellFormed(s) && forall i | 0 <= i < |Kept(zs, s.py, |zs|)| :: Kept(zs, s.py, |zs|)[i] < |s.paths|
    ensures WellFormed(Pruned(s, Kept(zs, s.py, |zs|))) && Pruned(s, Kept(zs, s.py, |zs|)).steps == s.steps
  {}

  lemma VerdictRenumbered(s: Scene, kept: seq<nat>, x: real, target: real, step: nat, spent: int, allowShield: bool)
    requires WellFormed(s) && (forall i | 0 <= i < |kept| :: kept[i] < |s.paths|) && WellFormed(Pruned(s, kept))
    requires step < s.steps && -1 <= spent < |kept|
    requires var a, b := HitSet(Pruned(s, kept), x, target, step, spent), HitSet(s, x, target, step, Original(kept, spent));
             |a| == |b| && forall h: nat | h in a :: h < |kept| && kept[h] in b
    ensures var full := Transition(s, x, Original(kept, spent), target, step, allowShield);
            var pruned := Transition(Pruned(s, kept), x, spent, target, step, allowShield);
            && (full.None? <==> pruned.None?)
            && (pruned.Some? ==>
                  && -1 <= pruned.value.spent < |kept|
                  && full.value.spent == Original(kept, pruned.value.spent)
                  && full.value.x == pruned.value.x && full.value.shieldCost == pruned.value.shieldCost)
  {
    hide HitSet, MoveRisk, Blend;
    HitsInRange(s, x, target, step, Original(kept, spent));
    HitsInRange(Pruned(s, kept), x, target, step, spent);
    var a, b := HitSet(Pruned(s, kept), x, target, step, spent), HitSet(s, x, target, step, Original(kept, spent));
    if allowShield && spent < 0 && |a| == 1 {
      var h := Least(a, 0, |kept|);
      OnlyMember(b, Least(b, 0, |s.paths|), kept[h]);
    }
  }

  /** Pruning never changes whether a move is blocked, nor which hazard it spends. */
  lemma PruningKeepsVerdict(s: Scene, zs: seq<F.Hazard>, width: real, hype: real, x: real, target: real, step: nat,
                            spent: int, allowShield: bool)
    requires Shows(s, zs, width, hype) && AllHarmless(zs) && step < s.steps
    requires -1 <= spent < |Kept(zs, s.py, |zs|)| && WellFormed(Pruned(s, Kept(zs, s.py, |zs|)))
    ensures var kept := Kept(zs, s.py, |zs|);
            var full := Transition(s, x, Original(kept, spent), target, step, allowShield);
            var pruned := Transition(Pruned(s, kept), x, spent, target, step, allowShield);
            && (full.None? <==> pruned.None?)
            && (pruned.Some? ==>
                  && -1 <= pruned.value.spent < |kept|
                  && full.value.spent == Original(kept, pruned.value.spent)
                  && full.value.x == pruned.value.x && full.value.shieldCost == pruned.value.shieldCost)
  {
    hide Kept, HitSet, Transition, Shows, AllHarmless, Pruned;
    KeptInScene(s, zs, width, hype);
    PruningKeepsHits(s, zs, width, hype, x, target, step, spent);
    var kept := Kept(zs, s.py, |zs|);
    var a := HitSet(Pruned(s, kept), x, target, step, spent);
    var b := HitSet(s, x, target, step, Original(kept, spent));
    RenumberedSize(a, b, kept);
    VerdictRenumbered(s, kept, x, target, step, spent, allowShield);
  }

  // ---------------------------------------------------------------------------
  // The whole plan
  // ---------------------------------------------------------------------------

  /** A move that hits nothing in the pruned scene hits nothing of the full one, dropped hazards
      included. */
  lemma PrunedMoveIsClear(s: Scene, zs: seq<F.Hazard>, width: real, hype: real, x: real, target: real, step: nat, spent: int)
    requires Shows(s, zs, width, hype) && AllHarmless(zs) && step < s.steps
    requires -1 <= spent < |Kept(zs, s.py, |zs|)| && WellFormed(Pruned(s, Kept(zs, s.py, |zs|)))
    requires MoveClear(Pruned(s, Kept(zs, s.py, |zs|)), x, target, step, spent)
    ensures MoveClear(s, x, target, step, Original(Kept(zs, s.py, |zs|), spent))
  {
    hide HitAt, Threat, Keep, OverrunIsHarmless, Steps, DynamicHorizon;
    var kept := Kept(zs, s.py, |zs|);
    forall i: nat, h: nat | i < |s.samples| && h < |s.paths| && h != Original(kept, spent)
      ensures !HitAt(s, x, target, step, i, h)
    {
      if HitAt(s, x, target, step, i, h) {
        HitIsThreat(s, zs, width, hype, x, target, step, i, h);
        HarmlessThenKept(zs[h], width, hype, step, s.samples[i].q, Blend(s.samples[i].share, x, target), s.py);
        var j: nat :| j < |kept| && kept[j] == h;
        KeptHitsAgree(s, kept, x, target, step, i, j);
      }
    }
  }

  lemma {:induction false} PrunedWayIsClear(s: Scene, zs: seq<F.Hazard>, width: real, hype: real, n: Node, spent: int)
    requires Shows(s, zs, width, hype) && AllHarmless(zs) && Depth(n) <= s.steps
    requires -1 <= spent < |Kept(zs, s.py, |zs|)| && WellFormed(Pruned(s, Kept(zs, s.py, |zs|)))
    requires ClearExcept(Pruned(s, Kept(zs, s.py, |zs|)), n, spent)
    ensures ClearExcept(s, n, Original(Kept(zs, s.py, |zs|), spent))
    decreases n
  {
    hide MoveClear, Kept, AllHarmless, Shows;
    if n.Move? {
      KeptInScene(s, zs, width, hype);
      PrunedWayIsClear(s, zs, width, hype, n.parent, spent);
      SamePosition(s, Kept(zs, s.py, |zs|), n.parent);
      PrunedMoveIsClear(s, zs, width, hype, X(s, n.parent), n.target, Depth(n.parent), spent);
    }
  }

  lemma SamePosition(s: Scene, kept: seq<nat>, n: Node)
    requires WellFormed(s) && forall i | 0 <= i < |kept| :: kept[i] < |s.paths|
    ensures X(Pruned(s, kept), n) == X(s, n)
  {}

  lemma {:induction false} SpentInScene(s: Scene, n: Node, k: nat)
    requires WellFormed(s) && k <= s.steps && ValidChain(s, n, k, true)
    ensures -1 <= Spent(n) < |s.paths|
    decreases n
  {
    hide HitSet, MoveRisk, StepCost, LaneX, Blend;
    if n.Move? {
      SpentInScene(s, n.parent, k - 1);
      HitsInRange(s, X(s, n.parent), n.target, k - 1, Spent(n.parent));
    }
  }

  /** The result of the search on the pruned scene hits no hazard of the full scene in the band, dropped
      ones included, but for the one it spends; and collides with none whose reach fits the band. */
  lemma PrunedPlanIsClear(s: Scene, zs: seq<F.Hazard>, width: real, hype: real, n: Node)
    requires Shows(s, zs, width, hype) && AllHarmless(zs)
    requires WellFormed(Pruned(s, Kept(zs, s.py, |zs|))) && ValidChain(Pruned(s, Kept(zs, s.py, |zs|)), n, s.steps, true)
    ensures var kept := Kept(zs, s.py, |zs|);
            && Depth(n) == s.steps && -1 <= Spent(n) < |kept|
            && ClearExcept(s, n, Original(kept, Spent(n))) && MissesExcept(s, n, Original(kept, Spent(n)))
  {
    hide Shows, AllHarmless, Kept, ValidChain, ClearExcept, MissesExcept;
    KeptInScene(s, zs, width, hype);
    var kept := Kept(zs, s.py, |zs|);
    PlanIsClear(Pruned(s, kept), n, s.steps);
    SpentInScene(Pruned(s, kept), n, s.steps);
    PrunedWayIsClear(s, zs, width, hype, n, Spent(n));
    ClearWayMisses(s, n, Original(kept, Spent(n)));
  }
}

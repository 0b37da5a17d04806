/** The V4 planner: dynamic programming over lane and shield, where a collision spends the shield,
    an Aby power restores it, and every move is translated back into a steering target. */
module ShieldPlanner {
  import opened Numbers
  import opened Geometry
  import opened Reflection
  import opened Steering
  import opened LayeredDP

  const EDGE := 31.0
  const SAFETY_MARGIN := 9.0
  const NEAR_MISS_COST := 38.0
  const MOVEMENT_COST := 0.009
  const TURN_COST := 0.030
  const EDGE_COST := 0.10
  const SHIELD_SPEND_COST := 135.0
  const TARGET_HYSTERESIS := 0.0018
  const ABY_REWARD := 62.0
  const ABY_REWARD_SHIELDED := 4.0
  const SHEHAB_REWARD := 34.0
  const SHEHAB_DENSE_BONUS := 55.0

  datatype Kind = Aby | Shehab | Other
  datatype Track = Track(x: real, y: real, vx: real, vy: real, size: real)
  datatype Power = Power(kind: Kind, x: real, y: real, vy: real)

  /** What one planning call works on; `alpha` is the share of the way to the pointer covered per
      step of `dt` seconds. */
  datatype Scene = Scene(width: real, alpha: real, dt: real, steps: nat, lanes: seq<real>, py: real,
                         tracks: seq<Track>, powers: seq<Power>, chasePowers: bool, dense: bool,
                         previousX: Option<real>, previousDelta: real, m: Analysis)

  function MinX(s: Scene): real { EDGE }

  function MaxX(s: Scene): real { s.width - EDGE }

  // ---------------------------------------------------------------------------
  // Steering
  // ---------------------------------------------------------------------------

  function Follow(s: Scene, x: real, pointer: real): real {
    Blend(s.alpha, x, pointer)
  }

  /** The steering target for a move, if the road allows one. */
  function ReachableTarget(s: Scene, x0: real, x1: real): Option<real> {
    if s.alpha <= 0.000001 then None
    else
      var target := Inverse(s.alpha, x0, x1);
      if target < MinX(s) - 0.01 || target > MaxX(s) + 0.01 then None else Some(target)
  }

  /** First lane at or right of `bound`, counting from `i`. */
  function FirstFrom(lanes: seq<real>, bound: real, i: nat): (r: nat)
    requires i <= |lanes|
    ensures i <= r <= |lanes|
    ensures forall k | i <= k < r :: lanes[k] < bound
    ensures r < |lanes| ==> lanes[r] >= bound
    decreases |lanes| - i
  {
    if i < |lanes| && lanes[i] < bound then FirstFrom(lanes, bound, i + 1) else i
  }

  /** Last lane at or left of `bound`, counting down from `i`; -1 if there is none. */
  function LastFrom(lanes: seq<real>, bound: real, i: int): (r: int)
    requires -1 <= i < |lanes|
    ensures -1 <= r <= i
    ensures forall k | r < k <= i :: lanes[k] > bound
    ensures r >= 0 ==> lanes[r] <= bound
    decreases i
  {
    if i >= 0 && lanes[i] > bound then LastFrom(lanes, bound, i - 1) else i
  }

  function LaneRange(s: Scene, x: real): (int, int) {
    var last := |s.lanes| - 1;
    (ClampInt(FirstFrom(s.lanes, Follow(s, x, MinX(s)) - 0.001, 0), 0, last),
     ClampInt(LastFrom(s.lanes, Follow(s, x, MaxX(s)) + 0.001, last), 0, last))
  }

  /** The two index scans that find the lanes within reach of `x`. */
  method ReachableLaneRange(s: Scene, x: real) returns (lo: int, hi: int)
    requires |s.lanes| >= 1
    ensures (lo, hi) == LaneRange(s, x) && 0 <= lo < |s.lanes| && 0 <= hi < |s.lanes|
  {
    var n := |s.lanes|;
    var low, high := Follow(s, x, MinX(s)) - 0.001, Follow(s, x, MaxX(s)) + 0.001;
    lo, hi := 0, n - 1;
    while lo < n && s.lanes[lo] < low
      invariant 0 <= lo <= n && FirstFrom(s.lanes, low, 0) == FirstFrom(s.lanes, low, lo)
    {
      lo := lo + 1;
    }
    while hi >= 0 && s.lanes[hi] > high
      invariant -1 <= hi < n && LastFrom(s.lanes, high, n - 1) == LastFrom(s.lanes, high, hi)
    {
      hi := hi - 1;
    }
    lo, hi := ClampInt(lo, 0, n - 1), ClampInt(hi, 0, n - 1);
  }

  predicate MoveScanned(s: Scene, x0: real, j: nat)
    requires j < |s.lanes|
  {
    LaneRange(s, x0).0 <= j <= LaneRange(s, x0).1 && ReachableTarget(s, x0, s.lanes[j]).Some?
  }

  /** Lanes from one edge of a non-empty road to the other, in order. */
  predicate OrderedLanes(s: Scene) {
    && |s.lanes| >= 1
    && (forall i, j | 0 <= i <= j < |s.lanes| :: s.lanes[i] <= s.lanes[j])
    && s.lanes[0] == MinX(s) && s.lanes[|s.lanes| - 1] == MaxX(s)
  }

  /** The lanes considered from a position in the road are exactly those within reach of it, up to
      the tighter of the two tolerances. */
  lemma ScannedIffWithinReach(s: Scene, x0: real, j: nat)
    requires OrderedLanes(s) && 0.000001 < s.alpha < 1.0
    requires MinX(s) <= x0 <= MaxX(s) && j < |s.lanes|
    ensures MoveScanned(s, x0, j)
            <==> Follow(s, x0, MinX(s)) - Min(0.001, s.alpha * 0.01) <= s.lanes[j]
                 && s.lanes[j] <= Follow(s, x0, MaxX(s)) + Min(0.001, s.alpha * 0.01)
  {
    hide ReachableTarget, Blend;
    var x1 := s.lanes[j];
    TargetIffWithinReach(s, x0, x1);
    BlendStaysBetween(s.alpha, x0, MinX(s), MinX(s), MaxX(s));
    BlendStaysBetween(s.alpha, x0, MaxX(s), MinX(s), MaxX(s));
    var lo := FirstFrom(s.lanes, Follow(s, x0, MinX(s)) - 0.001, 0);
    var hi := LastFrom(s.lanes, Follow(s, x0, MaxX(s)) + 0.001, |s.lanes| - 1);
    assert lo < |s.lanes| && hi >= 0;
  }

  lemma TargetIffWithinReach(s: Scene, x0: real, x1: real)
    requires 0.000001 < s.alpha < 1.0
    ensures ReachableTarget(s, x0, x1).Some?
            <==> Follow(s, x0, MinX(s)) - s.alpha * 0.01 <= x1 <= Follow(s, x0, MaxX(s)) + s.alpha * 0.01
    ensures ReachableTarget(s, x0, x1).Some? ==> Follow(s, x0, ReachableTarget(s, x0, x1).value) == x1
  {
    PointerIffReach(s.alpha, x0, x1, MinX(s), MaxX(s), 0.01);
    BlendInverse(s.alpha, x0, x1);
  }

  // ---------------------------------------------------------------------------
  // One move
  // ---------------------------------------------------------------------------

  function PredictHazard(z: Track, t: real, width: real): Disc {
    var margin := Max(z.size, 18.0);
    Disc(ReflectPosition(z.x, z.vx, t, margin, Max(margin + 1.0, width - margin)),
         z.y + Max(35.0, if z.vy == 0.0 then 330.0 else z.vy) * t, z.size)
  }

  /** A hazard moves sideways between the walls, mirrored at each of them, at its own radius from them but at
      least 18 px and with a px of room; and falls at its speed, at least 35 and 330 if it is not known. */
  lemma PredictionMeaning(z: Track, t: real, width: real)
    ensures var p := PredictHazard(z, t, width);
            var lo := if z.size >= 18.0 then z.size else 18.0;
            var hi := if width >= 2.0 * lo + 1.0 then width - lo else lo + 1.0;
            && p.size == z.size && lo <= p.x <= hi && p.x == lo + Mirror(z.x + z.vx * t - lo, hi - lo)
            && p.y - z.y == (if z.vy == 0.0 then 330.0 else if z.vy >= 35.0 then z.vy else 35.0) * t
  {
    hide ReflectPosition, Mirror;
    var lo := Max(z.size, 18.0);
    ReflectPositionCorrect(z.x, z.vx, t, lo, Max(lo + 1.0, width - lo));
  }

  predicate InBand(s: Scene, z: Disc) {
    s.py - 150.0 <= z.y <= s.py + 90.0
  }

  function NearMiss(s: Scene, clearance: real, radius: real, falloff: real, t: real): real
    requires falloff > 0.0
  {
    if clearance < radius then NEAR_MISS_COST * s.m.decay(Max(0.0, clearance) / falloff) / Max(0.18, t) else 0.0
  }

  /** The hazard at the end and at the middle of a move; the middle is looked at only when the end
      is in the car's vertical band. */
  predicate HitBy(s: Scene, z: Track, t: real, x0: real, x1: real) {
    var z1 := PredictHazard(z, t, s.width);
    var zm := PredictHazard(z, Max(0.0, t - s.dt * 0.5), s.width);
    InBand(s, z1)
    && (CollisionAt(x1, s.py, z1, SAFETY_MARGIN)
        || (InBand(s, zm) && CollisionAt((x0 + x1) * 0.5, s.py, zm, SAFETY_MARGIN)))
  }

  /** Collision verdict and near-miss risk of a move, hazard by hazard, stopping at the first hit. */
  function ScanHazards(s: Scene, t: real, x0: real, x1: real, h: nat): (bool, real)
    requires h <= |s.tracks|
    decreases |s.tracks| - h
  {
    if h == |s.tracks| then (false, 0.0)
    else
      var z := s.tracks[h];
      var midT := t - s.dt * 0.5;
      var z1 := PredictHazard(z, t, s.width);
      if !InBand(s, z1) then ScanHazards(s, t, x0, x1, h + 1)
      else if CollisionAt(x1, s.py, z1, SAFETY_MARGIN) then (true, 0.0)
      else
        var endRisk := NearMiss(s, ClearanceAt(s.m, x1, s.py, z1, SAFETY_MARGIN), 100.0, 25.0, t);
        var zm := PredictHazard(z, Max(0.0, midT), s.width);
        var mid := (x0 + x1) * 0.5;
        if !InBand(s, zm) then
          var rest := ScanHazards(s, t, x0, x1, h + 1);
          (rest.0, endRisk + rest.1)
        else if CollisionAt(mid, s.py, zm, SAFETY_MARGIN) then (true, endRisk)
        else
          var midRisk := NearMiss(s, ClearanceAt(s.m, mid, s.py, zm, SAFETY_MARGIN), 85.0, 22.0, midT) * 0.55;
          var rest := ScanHazards(s, t, x0, x1, h + 1);
          (rest.0, endRisk + midRisk + rest.1)
  }

  /** The early exit changes the risk that is added up, not the verdict. */
  lemma {:induction false} ScanFindsAnyHit(s: Scene, t: real, x0: real, x1: real, h: nat)
    requires h <= |s.tracks|
    ensures ScanHazards(s, t, x0, x1, h).0 <==> exists k | h <= k < |s.tracks| :: HitBy(s, s.tracks[k], t, x0, x1)
    decreases |s.tracks| - h
  {
    hide PredictHazard, InBand, CollisionAt, ClearanceAt, NearMiss;
    if h < |s.tracks| {
      ScanFindsAnyHit(s, t, x0, x1, h + 1);
      if HitBy(s, s.tracks[h], t, x0, x1) {
        assert ScanHazards(s, t, x0, x1, h).0;
      }
    }
  }

  function PowerHeight(y: real, speed: real, t: real): real {
    y + speed * t
  }

  predicate Reaches(s: Scene, p: Power, x: real, t: real) {
    && Abs(PowerHeight(p.y, Max(90.0, if p.vy == 0.0 then 152.0 else p.vy), t) - s.py) <= 37.0
    && Abs(p.x - x) <= 40.0
  }

  predicate NearPower(s: Scene, kind: Kind, x: real, t: real) {
    exists i | 0 <= i < |s.powers| :: s.powers[i].kind == kind && Reaches(s, s.powers[i], x, t)
  }

  predicate Restores(s: Scene, x: real, t: real, shield: bool) {
    s.chasePowers && NearPower(s, Aby, x, t) && !shield
  }

  function Reward(s: Scene, x: real, t: real, shield: bool): real {
    if !s.chasePowers then 0.0
    else
      (if !NearPower(s, Aby, x, t) then 0.0 else if shield then ABY_REWARD_SHIELDED else ABY_REWARD)
      + (if !NearPower(s, Shehab, x, t) then 0.0 else if s.dense then SHEHAB_REWARD + SHEHAB_DENSE_BONUS else SHEHAB_REWARD)
  }

  datatype Move = Move(shield: bool, cost: real, target: real)

  function Time(s: Scene, step: nat): real {
    (step + 1) as real * s.dt
  }

  /** Does the move collide with anything? */
  predicate Collides(s: Scene, step: nat, i: nat, j: nat)
    requires i < |s.lanes| && j < |s.lanes|
  {
    ScanHazards(s, Time(s, step), s.lanes[i], s.lanes[j], 0).0
  }

  function MoveCost(s: Scene, step: nat, x0: real, x1: real, hit: bool, risk: real, shieldAfterHit: bool): real {
    var prevDelta := if step == 0 then s.previousDelta else 0.0;
    Abs(x1 - x0) * MOVEMENT_COST + Abs(x1 - x0 - prevDelta) * TURN_COST
    + EDGE_COST / Max(10.0, Min(x1, s.width - x1)) + risk
    + (if hit then SHIELD_SPEND_COST else 0.0) - Reward(s, x1, Time(s, step), shieldAfterHit)
    + (if s.previousX.Some? then Abs(x1 - s.previousX.value) * TARGET_HYSTERESIS else 0.0)
  }

  /** A move from lane i to lane j: forbidden out of reach, or when it collides without a shield. */
  function Transition(s: Scene, step: nat, shield: bool, i: nat, j: nat): Option<Move>
    requires i < |s.lanes| && j < |s.lanes|
  {
    var x0, x1 := s.lanes[i], s.lanes[j];
    if !MoveScanned(s, x0, j) then None
    else
      var scan := ScanHazards(s, Time(s, step), x0, x1, 0);
      if scan.0 && !shield then None
      else
        var after := shield && !scan.0;
        Some(Move(after || Restores(s, x1, Time(s, step), after),
                  MoveCost(s, step, x0, x1, scan.0, scan.1, after),
                  ReachableTarget(s, x0, x1).value))
  }

  // ---------------------------------------------------------------------------
  // Plans
  // ---------------------------------------------------------------------------

  datatype Outcome = Outcome(cost: real, shield: bool)

  predicate IsLanes(s: Scene, js: seq<nat>) {
    forall k | 0 <= k < |js| :: js[k] < |s.lanes|
  }

  function LaneBefore(start: nat, js: seq<nat>, k: nat): nat
    requires k <= |js|
  {
    if k == 0 then start else js[k - 1]
  }

  /** Cost and final shield of visiting the lanes `js`, or nothing if some move is forbidden. */
  function Run(s: Scene, start: nat, shield: bool, js: seq<nat>): Option<Outcome>
    requires start < |s.lanes| && IsLanes(s, js)
  {
    if |js| == 0 then Some(Outcome(0.0, shield))
    else
      var k := |js| - 1;
      var before := Run(s, start, shield, js[..k]);
      if before.None? then None
      else
        var move := Transition(s, k, before.value.shield, LaneBefore(start, js, k), js[k]);
        if move.None? then None
        else Some(Outcome(before.value.cost + move.value.cost, move.value.shield))
  }

  function Bit(b: bool): nat {
    if b then 1 else 0
  }

  // ---------------------------------------------------------------------------
  // The same plans, from the tracks and powers themselves
  // ---------------------------------------------------------------------------

  /** A power within 40 px sideways and 37 px vertically of the car at time t. */
  predicate Touches(s: Scene, p: Power, x: real, t: real) {
    -40.0 <= x - p.x <= 40.0 && -37.0 <= p.y + FallSpeed(p) * t - s.py <= 37.0
  }

  /** There is one of this kind. */
  ghost predicate Touched(s: Scene, kind: Kind, x: real, t: real) {
    exists p | p in s.powers :: p.kind == kind && Touches(s, p, x, t)
  }

  /** Unknown speeds count as 152, slow ones as 90. */
  function FallSpeed(p: Power): real {
    if p.vy == 0.0 then 152.0 else if p.vy < 90.0 then 90.0 else p.vy
  }

  lemma ReachesIffTouches(s: Scene, p: Power, x: real, t: real)
    ensures Reaches(s, p, x, t) <==> Touches(s, p, x, t)
  {
    assert Max(90.0, if p.vy == 0.0 then 152.0 else p.vy) == FallSpeed(p);
    assert PowerHeight(p.y, FallSpeed(p), t) == p.y + FallSpeed(p) * t;
  }

  lemma NearPowerIffTouched(s: Scene, kind: Kind, x: real, t: real)
    ensures NearPower(s, kind, x, t) <==> Touched(s, kind, x, t)
  {
    hide Reaches, Touches;
    if i :| 0 <= i < |s.powers| && s.powers[i].kind == kind && Reaches(s, s.powers[i], x, t) {
      ReachesIffTouches(s, s.powers[i], x, t);
      assert s.powers[i] in s.powers;
    }
    if p :| p in s.powers && p.kind == kind && Touches(s, p, x, t) {
      ReachesIffTouches(s, p, x, t);
      var i :| 0 <= i < |s.powers| && s.powers[i] == p;
    }
  }

  /** Step k of a plan collides with some hazard at its end or in its middle. */
  ghost predicate WallAt(s: Scene, start: nat, js: seq<nat>, k: nat)
    requires start < |s.lanes| && IsLanes(s, js) && k < |js|
  {
    exists z | z in s.tracks :: HitBy(s, z, Time(s, k), s.lanes[LaneBefore(start, js, k)], s.lanes[js[k]])
  }

  /** Step k of a plan ends at a power of this kind, and powers are chased. */
  ghost predicate PowerAt(s: Scene, kind: Kind, js: seq<nat>, k: nat)
    requires IsLanes(s, js) && k < |js|
  {
    s.chasePowers && Touched(s, kind, s.lanes[js[k]], Time(s, k))
  }

  /** The shield before step k: lost at a wall, and back wherever an Aby is. */
  ghost predicate ShieldUp(s: Scene, start: nat, shield: bool, js: seq<nat>, k: nat)
    requires start < |s.lanes| && IsLanes(s, js) && k <= |js|
  {
    if k == 0 then shield
    else (ShieldUp(s, start, shield, js, k - 1) && !WallAt(s, start, js, k - 1)) || PowerAt(s, Aby, js, k - 1)
  }

  /** Every move is in reach, and the shield is up wherever there is a wall. */
  ghost predicate SurvivesStep(s: Scene, start: nat, shield: bool, js: seq<nat>, k: nat)
    requires start < |s.lanes| && IsLanes(s, js) && k < |js|
  {
    MoveScanned(s, s.lanes[LaneBefore(start, js, k)], js[k]) && (WallAt(s, start, js, k) ==> ShieldUp(s, start, shield, js, k))
  }

  lemma WallIffHit(s: Scene, start: nat, js: seq<nat>, k: nat)
    requires start < |s.lanes| && IsLanes(s, js) && k < |js|
    ensures WallAt(s, start, js, k) <==> Collides(s, k, LaneBefore(start, js, k), js[k])
  {
    hide HitBy, ScanHazards;
    var x0, x1 := s.lanes[LaneBefore(start, js, k)], s.lanes[js[k]];
    ScanFindsAnyHit(s, Time(s, k), x0, x1, 0);
    if WallAt(s, start, js, k) {
      var z :| z in s.tracks && HitBy(s, z, Time(s, k), x0, x1);
      var h :| 0 <= h < |s.tracks| && s.tracks[h] == z;
    }
    if h :| 0 <= h < |s.tracks| && HitBy(s, s.tracks[h], Time(s, k), x0, x1) {
      assert s.tracks[h] in s.tracks;
    }
  }

  /** What happens before step k does not depend on what comes after. */
  lemma {:induction false} ShieldUpOnPrefix(s: Scene, start: nat, shield: bool, js: seq<nat>, n: nat, k: nat)
    requires start < |s.lanes| && IsLanes(s, js) && k <= n <= |js|
    ensures IsLanes(s, js[..n])
    ensures ShieldUp(s, start, shield, js[..n], k) == ShieldUp(s, start, shield, js, k)
    ensures k < n ==> SurvivesStep(s, start, shield, js[..n], k) == SurvivesStep(s, start, shield, js, k)
    ensures k < n ==> WallAt(s, start, js[..n], k) == WallAt(s, start, js, k)
  {
    hide HitBy, Touched, MoveScanned;
    if k > 0 {
      ShieldUpOnPrefix(s, start, shield, js, n, k - 1);
    }
  }

  /** The rule for one move: whether it is allowed, and the shield after it. */
  lemma MoveRule(s: Scene, step: nat, shield: bool, i: nat, j: nat)
    requires i < |s.lanes| && j < |s.lanes|
    ensures Transition(s, step, shield, i, j).Some? <==> MoveScanned(s, s.lanes[i], j) && (Collides(s, step, i, j) ==> shield)
    ensures Transition(s, step, shield, i, j).Some? ==>
              (Transition(s, step, shield, i, j).value.shield
               <==> (shield && !Collides(s, step, i, j)) || (s.chasePowers && Touched(s, Aby, s.lanes[j], Time(s, step))))
  {
    hide MoveScanned, ScanHazards, NearPower, MoveCost, ReachableTarget, Touched;
    NearPowerIffTouched(s, Aby, s.lanes[j], Time(s, step));
  }

  ghost predicate SurvivesAll(s: Scene, start: nat, shield: bool, js: seq<nat>)
    requires start < |s.lanes| && IsLanes(s, js)
  {
    forall k: nat | k < |js| :: SurvivesStep(s, start, shield, js, k)
  }

  lemma SurvivesAllSplits(s: Scene, start: nat, shield: bool, js: seq<nat>)
    requires start < |s.lanes| && IsLanes(s, js) && js != []
    ensures IsLanes(s, js[..|js| - 1])
    ensures SurvivesAll(s, start, shield, js)
            <==> SurvivesAll(s, start, shield, js[..|js| - 1]) && SurvivesStep(s, start, shield, js, |js| - 1)
    ensures ShieldUp(s, start, shield, js[..|js| - 1], |js| - 1) == ShieldUp(s, start, shield, js, |js| - 1)
  {
    hide SurvivesStep, ShieldUp, WallAt;
    var n := |js| - 1;
    forall k: nat | k <= n
      ensures IsLanes(s, js[..n]) && ShieldUp(s, start, shield, js[..n], k) == ShieldUp(s, start, shield, js, k)
      ensures k < n ==> SurvivesStep(s, start, shield, js[..n], k) == SurvivesStep(s, start, shield, js, k)
    {
      ShieldUpOnPrefix(s, start, shield, js, n, k);
    }
  }

  /** A lane sequence is a plan iff every move is in reach and every wall is met with the shield up,
      which only Aby powers give back. */
  lemma {:induction false} PlanIff(s: Scene, start: nat, shield: bool, js: seq<nat>)
    requires start < |s.lanes| && IsLanes(s, js)
    ensures Run(s, start, shield, js).Some? <==> SurvivesAll(s, start, shield, js)
    ensures Run(s, start, shield, js).Some? ==>
              (Run(s, start, shield, js).value.shield <==> ShieldUp(s, start, shield, js, |js|))
  {
    hide SurvivesAll, WallAt, MoveScanned, Transition, Touched, Collides;
    if js == [] {
      NothingToSurvive(s, start, shield);
    } else {
      var k := |js| - 1;
      SurvivesAllSplits(s, start, shield, js);
      PlanIff(s, start, shield, js[..k]);
      if Run(s, start, shield, js[..k]).Some? {
        MoveRule(s, k, Run(s, start, shield, js[..k]).value.shield, LaneBefore(start, js, k), js[k]);
        WallIffHit(s, start, js, k);
      }
    }
  }

  lemma NothingToSurvive(s: Scene, start: nat, shield: bool)
    requires start < |s.lanes|
    ensures SurvivesAll(s, start, shield, [])
  {}

  /** Steps of a plan with a wall, and steps that end at a power of some kind. */
  ghost function WallCount(s: Scene, start: nat, js: seq<nat>, k: nat): nat
    requires start < |s.lanes| && IsLanes(s, js) && k <= |js|
  {
    if k == 0 then 0 else WallCount(s, start, js, k - 1) + Bit(WallAt(s, start, js, k - 1))
  }

  ghost function PowerCount(s: Scene, kind: Kind, js: seq<nat>, k: nat): nat
    requires IsLanes(s, js) && k <= |js|
  {
    if k == 0 then 0 else PowerCount(s, kind, js, k - 1) + Bit(PowerAt(s, kind, js, k - 1))
  }

  /** Steps at which an Aby gives back a shield that is down by then, lost before or in that very step. */
  ghost function RestoreCount(s: Scene, start: nat, shield: bool, js: seq<nat>, k: nat): nat
    requires start < |s.lanes| && IsLanes(s, js) && k <= |js|
  {
    if k == 0 then 0
    else
      RestoreCount(s, start, shield, js, k - 1)
      + Bit(PowerAt(s, Aby, js, k - 1) && !(ShieldUp(s, start, shield, js, k - 1) && !WallAt(s, start, js, k - 1)))
  }

  lemma {:induction false} WallsArePaidFor(s: Scene, start: nat, shield: bool, js: seq<nat>, k: nat)
    requires start < |s.lanes| && IsLanes(s, js) && k <= |js| && SurvivesAll(s, start, shield, js)
    ensures WallCount(s, start, js, k) + Bit(ShieldUp(s, start, shield, js, k)) == Bit(shield) + RestoreCount(s, start, shield, js, k)
    ensures RestoreCount(s, start, shield, js, k) <= PowerCount(s, Aby, js, k)
  {
    hide WallAt, PowerAt, MoveScanned;
    if k > 0 {
      WallsArePaidFor(s, start, shield, js, k - 1);
      assert SurvivesStep(s, start, shield, js, k - 1);
    }
  }

  /** Shield accounting along every surviving plan: walls are paid for, one by one, by the initial shield and
      the Aby powers that gave it back, and what is left of them is the final shield. */
  lemma ShieldIsConserved(s: Scene, start: nat, shield: bool, js: seq<nat>)
    requires start < |s.lanes| && IsLanes(s, js) && Run(s, start, shield, js).Some?
    ensures WallCount(s, start, js, |js|) + Bit(Run(s, start, shield, js).value.shield)
            == Bit(shield) + RestoreCount(s, start, shield, js, |js|)
    ensures WallCount(s, start, js, |js|) <= Bit(shield) + PowerCount(s, Aby, js, |js|)
  {
    hide Run, SurvivesAll, WallCount, RestoreCount, PowerCount, ShieldUp;
    PlanIff(s, start, shield, js);
    WallsArePaidFor(s, start, shield, js, |js|);
  }

  // ---------------------------------------------------------------------------
  // What a plan costs, kind by kind
  // ---------------------------------------------------------------------------

  /** How far the car is from the nearer wall, but at least 10. */
  function WallDistance(s: Scene, x: real): real {
    if x <= s.width - x then Max(10.0, x) else Max(10.0, s.width - x)
  }

  /** Distance travelled, turning against the previous plan's drift, closeness to walls, near-miss risk,
      distance from the previous target. */
  datatype Tally = Tally(travel: real, turning: real, closeness: real, risk: real, away: real)

  function Counted(s: Scene, before: Tally, first: bool, x0: real, x1: real, risk: real): Tally {
    Tally(before.travel + Abs(x1 - x0),
          before.turning + (if first then Abs(x1 - x0 - s.previousDelta) else Abs(x1 - x0)),
          before.closeness + 1.0 / WallDistance(s, x1),
          before.risk + risk,
          before.away + (if s.previousX.Some? then Abs(x1 - s.previousX.value) else 0.0))
  }

  /** The tally of the first k steps. */
  function TallyOf(s: Scene, start: nat, js: seq<nat>, k: nat): Tally
    requires start < |s.lanes| && IsLanes(s, js) && k <= |js|
  {
    if k == 0 then Tally(0.0, 0.0, 0.0, 0.0, 0.0)
    else
      var x0, x1 := s.lanes[LaneBefore(start, js, k - 1)], s.lanes[js[k - 1]];
      Counted(s, TallyOf(s, start, js, k - 1), k == 1, x0, x1, ScanHazards(s, Time(s, k - 1), x0, x1, 0).1)
  }

  /** An Aby power met while the shield is down is worth 62, otherwise 4; a Shehab power is worth 34, or
      89 among dense hazards. */
  function StepReward(s: Scene, aby: bool, shehab: bool, up: bool): real {
    (if !aby then 0.0 else if up then 4.0 else 62.0) + (if !shehab then 0.0 else if s.dense then 89.0 else 34.0)
  }

  ghost function RewardOf(s: Scene, start: nat, shield: bool, js: seq<nat>, k: nat): real
    requires start < |s.lanes| && IsLanes(s, js) && k <= |js|
  {
    if k == 0 then 0.0
    else
      RewardOf(s, start, shield, js, k - 1)
      + StepReward(s, PowerAt(s, Aby, js, k - 1), PowerAt(s, Shehab, js, k - 1),
                   ShieldUp(s, start, shield, js, k - 1) && !WallAt(s, start, js, k - 1))
  }

  /** What a tally, some walls at 135 each and some rewards come to. */
  function Sum(t: Tally, walls: nat, rewards: real): real {
    t.travel * 0.009 + t.turning * 0.03 + t.closeness * 0.1 + t.risk + t.away * 0.0018 + walls as real * 135.0 - rewards
  }

  ghost function Worth(s: Scene, start: nat, shield: bool, js: seq<nat>, k: nat): real
    requires start < |s.lanes| && IsLanes(s, js) && k <= |js|
  {
    Sum(TallyOf(s, start, js, k), WallCount(s, start, js, k), RewardOf(s, start, shield, js, k))
  }

  lemma {:induction false} TallyOnPrefix(s: Scene, start: nat, js: seq<nat>, n: nat, k: nat)
    requires start < |s.lanes| && IsLanes(s, js) && k <= n <= |js|
    ensures IsLanes(s, js[..n]) && TallyOf(s, start, js[..n], k) == TallyOf(s, start, js, k)
  {
    hide ScanHazards, Counted, Time;
    if k > 0 {
      TallyOnPrefix(s, start, js, n, k - 1);
    }
  }

  lemma {:induction false} WallsOnPrefix(s: Scene, start: nat, js: seq<nat>, n: nat, k: nat)
    requires start < |s.lanes| && IsLanes(s, js) && k <= n <= |js|
    ensures IsLanes(s, js[..n]) && WallCount(s, start, js[..n], k) == WallCount(s, start, js, k)
  {
    hide WallAt, ShieldUp, SurvivesStep;
    if k > 0 {
      WallsOnPrefix(s, start, js, n, k - 1);
      ShieldUpOnPrefix(s, start, false, js, n, k - 1);
    }
  }

  lemma {:induction false} RewardOnPrefix(s: Scene, start: nat, shield: bool, js: seq<nat>, n: nat, k: nat)
    requires start < |s.lanes| && IsLanes(s, js) && k <= n <= |js|
    ensures IsLanes(s, js[..n]) && RewardOf(s, start, shield, js[..n], k) == RewardOf(s, start, shield, js, k)
  {
    hide WallAt, ShieldUp, SurvivesStep, Touched, StepReward;
    if k > 0 {
      RewardOnPrefix(s, start, shield, js, n, k - 1);
      ShieldUpOnPrefix(s, start, shield, js, n, k - 1);
    }
  }

  /** One step's cost is what it adds to each kind. */
  lemma StepWorth(s: Scene, start: nat, shield: bool, js: seq<nat>, k: nat)
    requires start < |s.lanes| && IsLanes(s, js) && k < |js|
    requires Transition(s, k, ShieldUp(s, start, shield, js, k), LaneBefore(start, js, k), js[k]).Some?
    ensures Worth(s, start, shield, js, k + 1)
            == Worth(s, start, shield, js, k)
               + Transition(s, k, ShieldUp(s, start, shield, js, k), LaneBefore(start, js, k), js[k]).value.cost
  {
    hide ScanHazards, Touched, NearPower, MoveScanned, ReachableTarget, WallAt, MoveCost, Counted, StepReward, Sum;
    WallIffHit(s, start, js, k);
    NearPowerIffTouched(s, Aby, s.lanes[js[k]], Time(s, k));
    NearPowerIffTouched(s, Shehab, s.lanes[js[k]], Time(s, k));
    var x0, x1 := s.lanes[LaneBefore(start, js, k)], s.lanes[js[k]];
    var scan := ScanHazards(s, Time(s, k), x0, x1, 0);
    MoveCostByKind(s, k, x0, x1, scan.0, scan.1, ShieldUp(s, start, shield, js, k) && !scan.0,
                   TallyOf(s, start, js, k), WallCount(s, start, js, k), RewardOf(s, start, shield, js, k));
  }

  lemma MoveCostByKind(s: Scene, step: nat, x0: real, x1: real, hit: bool, risk: real, up: bool,
                       t: Tally, walls: nat, rewards: real)
    ensures var aby := s.chasePowers && NearPower(s, Aby, x1, Time(s, step));
            var shehab := s.chasePowers && NearPower(s, Shehab, x1, Time(s, step));
            Sum(Counted(s, t, step == 0, x0, x1, risk), walls + Bit(hit), rewards + StepReward(s, aby, shehab, up))
            == Sum(t, walls, rewards) + MoveCost(s, step, x0, x1, hit, risk, up)
  {
    hide NearPower, Abs;
    EdgeShare(s, x1);
  }

  lemma EdgeShare(s: Scene, x: real)
    ensures EDGE_COST / Max(10.0, Min(x, s.width - x)) == (1.0 / WallDistance(s, x)) * 0.1
  {
    var d := WallDistance(s, x);
    assert Max(10.0, Min(x, s.width - x)) == d;
    assert (1.0 / d) * d == 1.0;
    assert (0.1 / d) * d == 0.1;
  }

  /** A plan costs exactly what its kinds add up to. */
  lemma {:induction false} PlanCostAddsUp(s: Scene, start: nat, shield: bool, js: seq<nat>)
    requires start < |s.lanes| && IsLanes(s, js) && Run(s, start, shield, js).Some?
    ensures Run(s, start, shield, js).value.cost == Worth(s, start, shield, js, |js|)
  {
    hide ShieldUp, Transition, SurvivesAll, Worth, TallyOf, WallCount, RewardOf;
    if js == [] {
      NothingIsFree(s, start, shield);
    } else {
      var k := |js| - 1;
      PlanCostAddsUp(s, start, shield, js[..k]);
      PlanIff(s, start, shield, js[..k]);
      SurvivesAllSplits(s, start, shield, js);
      PrefixWorth(s, start, shield, js, k);
      StepWorth(s, start, shield, js, k);
    }
  }

  lemma NothingIsFree(s: Scene, start: nat, shield: bool)
    requires start < |s.lanes|
    ensures Worth(s, start, shield, [], 0) == 0.0
  {}

  lemma PrefixWorth(s: Scene, start: nat, shield: bool, js: seq<nat>, k: nat)
    requires start < |s.lanes| && IsLanes(s, js) && k <= |js|
    ensures IsLanes(s, js[..k]) && Worth(s, start, shield, js[..k], k) == Worth(s, start, shield, js, k)
  {
    hide TallyOf, WallCount, RewardOf;
    TallyOnPrefix(s, start, js, k, k);
    WallsOnPrefix(s, start, js, k, k);
    RewardOnPrefix(s, start, shield, js, k, k);
  }

  /** Risk of a hazard at the end of a move, and in its middle. */
  function EndRisk(s: Scene, z: Track, t: real, x1: real): real {
    var z1 := PredictHazard(z, t, s.width);
    NearMiss(s, ClearanceAt(s.m, x1, s.py, z1, SAFETY_MARGIN), 100.0, 25.0, t)
  }

  function MidRisk(s: Scene, z: Track, t: real, x0: real, x1: real): real {
    var midT := t - s.dt * 0.5;
    var zm := PredictHazard(z, Max(0.0, midT), s.width);
    if InBand(s, zm) then NearMiss(s, ClearanceAt(s.m, (x0 + x1) * 0.5, s.py, zm, SAFETY_MARGIN), 85.0, 22.0, midT) * 0.55 else 0.0
  }

  /** The risk of the hazards from h on, of a move that hits none of them. */
  function RiskFrom(s: Scene, t: real, x0: real, x1: real, h: nat): real
    requires h <= |s.tracks|
    decreases |s.tracks| - h
  {
    if h == |s.tracks| then 0.0
    else
      (if InBand(s, PredictHazard(s.tracks[h], t, s.width))
       then EndRisk(s, s.tracks[h], t, x1) + MidRisk(s, s.tracks[h], t, x0, x1) else 0.0)
      + RiskFrom(s, t, x0, x1, h + 1)
  }

  /** A move that hits nothing carries the risk of all hazards in the band. */
  lemma {:induction false} ClearMoveRisk(s: Scene, t: real, x0: real, x1: real, h: nat)
    requires h <= |s.tracks| && !ScanHazards(s, t, x0, x1, h).0
    ensures ScanHazards(s, t, x0, x1, h).1 == RiskFrom(s, t, x0, x1, h)
    decreases |s.tracks| - h
  {
    hide PredictHazard, InBand, CollisionAt, ClearanceAt, NearMiss;
    if h < |s.tracks| {
      if !ScanHazards(s, t, x0, x1, h + 1).0 {
        ClearMoveRisk(s, t, x0, x1, h + 1);
      }
    }
  }

  // ---------------------------------------------------------------------------
  // The search as a layered graph
  // ---------------------------------------------------------------------------

  /** States 0..n-1 are the lanes without shield, n..2n-1 those with it. */
  function StateOf(s: Scene, lane: nat, shield: bool): nat {
    if shield then |s.lanes| + lane else lane
  }

  function LaneOf(s: Scene, state: nat): nat {
    if state < |s.lanes| then state else state - |s.lanes|
  }

  predicate ShieldOf(s: Scene, state: nat) {
    state >= |s.lanes|
  }

  predicate IsState(s: Scene, state: nat) {
    state < 2 * |s.lanes|
  }

  function StateMove(s: Scene, step: nat, from: nat, to: nat): Extended {
    if !IsState(s, from) || !IsState(s, to) then Inf
    else
      var move := Transition(s, step, ShieldOf(s, from), LaneOf(s, from), LaneOf(s, to));
      if move.Some? && move.value.shield == ShieldOf(s, to) then Fin(move.value.cost) else Inf
  }

  /** `net` is the graph of a planning call: layer 0 the start, layer k + 1 the states after step k. */
  ghost predicate IsGraph(s: Scene, start: nat, shield: bool, net: Layers) {
    && net.width == 2 * |s.lanes|
    && (forall p: nat | IsState(s, p) :: Init(net, p) == if p == StateOf(s, start, shield) then Fin(0.0) else Inf)
    && forall k: nat, p: nat, q: nat | k < s.steps && IsState(s, p) && IsState(s, q) ::
         Edge(net, k + 1, p, q) == StateMove(s, k, p, q)
  }

  function MovesFrom(s: Scene, step: nat, p: nat): (row: seq<Extended>)
    ensures |row| == 2 * |s.lanes|
    ensures forall q: nat | IsState(s, q) :: row[q] == StateMove(s, step, p, q)
  {
    hide StateMove;
    seq(2 * |s.lanes|, (q: nat) => StateMove(s, step, p, q))
  }

  function Graph(s: Scene, start: nat, shield: bool): Layers {
    var n := 2 * |s.lanes|;
    Layers(n, seq(n, (p: nat) => if p == StateOf(s, start, shield) then Fin(0.0) else Inf),
           seq(s.steps + 1, (layer: nat) =>
             if layer == 0 then [] else seq(n, (p: nat) => MovesFrom(s, layer - 1, p))))
  }

  lemma GraphIsGraph(s: Scene, start: nat, shield: bool)
    ensures IsGraph(s, start, shield, Graph(s, start, shield))
  {
    hide StateMove, MovesFrom;
    var net := Graph(s, start, shield);
    forall k: nat, p: nat, q: nat | k < s.steps && IsState(s, p) && IsState(s, q)
      ensures Edge(net, k + 1, p, q) == StateMove(s, k, p, q)
    {
      assert net.edges[k + 1][p] == MovesFrom(s, k, p);
    }
  }

  lemma RunExtends(s: Scene, start: nat, shield: bool, js: seq<nat>, j: nat)
    requires start < |s.lanes| && IsLanes(s, js) && j < |s.lanes|
    ensures IsLanes(s, js + [j]) && LaneBefore(start, js + [j], |js| + 1) == j
    ensures var before := Run(s, start, shield, js);
            Run(s, start, shield, js + [j])
            == if before.None? then None
               else
                 var move := Transition(s, |js|, before.value.shield, LaneBefore(start, js, |js|), j);
                 if move.None? then None else Some(Outcome(before.value.cost + move.value.cost, move.value.shield))
  {
    hide Transition;
    assert (js + [j])[..|js|] == js;
  }

  /** A runnable lane sequence passes through a path of states of the same cost. */
  lemma {:induction false} RunIsPath(s: Scene, start: nat, shield: bool, net: Layers, js: seq<nat>) returns (p: seq<nat>)
    requires start < |s.lanes| && IsGraph(s, start, shield, net)
    requires |js| <= s.steps && IsLanes(s, js) && Run(s, start, shield, js).Some?
    ensures IsPath(net, p) && |p| == |js| + 1
    ensures p[|js|] == StateOf(s, LaneBefore(start, js, |js|), Run(s, start, shield, js).value.shield)
    ensures PathCost(net, p) == Fin(Run(s, start, shield, js).value.cost)
  {
    hide Transition, Init, Edge, PathCost, IsPath;
    var k := |js| - 1;
    if k < 0 {
      p := [StateOf(s, start, shield)];
      SinglePath(net, p[0]);
      assert IsState(s, p[0]);
    } else {
      assert js[..k] + [js[k]] == js;
      RunExtends(s, start, shield, js[..k], js[k]);
      var q := RunIsPath(s, start, shield, net, js[..k]);
      var last := StateOf(s, js[k], Run(s, start, shield, js).value.shield);
      ExtendPath(net, q, last);
      assert LaneBefore(start, js[..k], k) == LaneBefore(start, js, k);
      assert IsState(s, q[k]) && IsState(s, last);
      assert Edge(net, k + 1, q[k], last) == StateMove(s, k, q[k], last);
      p := q + [last];
    }
  }

  /** A path of finite cost is a runnable lane sequence of the same cost. */
  lemma {:induction false} PathIsRun(s: Scene, start: nat, shield: bool, net: Layers, p: seq<nat>) returns (js: seq<nat>)
    requires start < |s.lanes| && IsGraph(s, start, shield, net)
    requires IsPath(net, p) && |p| <= s.steps + 1 && PathCost(net, p).Fin?
    ensures |js| == |p| - 1 && IsLanes(s, js)
    ensures Run(s, start, shield, js) == Some(Outcome(PathCost(net, p).v, ShieldOf(s, p[|p| - 1])))
    ensures forall k | 0 <= k < |p| :: LaneOf(s, p[k]) == LaneBefore(start, js, k)
  {
    hide Transition, Init, Edge, PathCost;
    if |p| == 1 {
      js := [];
      SinglePath(net, p[0]);
      assert p == [p[0]] && p[0] < net.width;
      assert IsState(s, p[0]);
    } else {
      var k := |p| - 2;
      var q, last := p[..k + 1], p[k + 1];
      assert q + [last] == p;
      ExtendPath(net, q, last);
      js := PathIsRun(s, start, shield, net, q);
      RunExtends(s, start, shield, js, LaneOf(s, last));
      assert IsState(s, q[k]) && IsState(s, last);
      assert Edge(net, k + 1, q[k], last) == StateMove(s, k, q[k], last);
      ghost var longer := js + [LaneOf(s, last)];
      assert forall i | 0 <= i < |p| - 1 :: LaneBefore(start, longer, i) == LaneBefore(start, js, i) && p[i] == q[i];
      js := longer;
    }
  }

  // ---------------------------------------------------------------------------
  // The planner
  // ---------------------------------------------------------------------------

  datatype Plan = Plan(xs: seq<real>, controls: seq<real>, risk: real)

  /** The lane the search starts from: the first one nearest to the car. */
  method StartLane(lanes: seq<real>, x: real) returns (start: nat)
    requires |lanes| >= 1
    ensures start < |lanes|
    ensures forall k | 0 <= k < |lanes| :: Abs(lanes[start] - x) <= Abs(lanes[k] - x)
    ensures forall k | 0 <= k < start :: Abs(lanes[start] - x) < Abs(lanes[k] - x)
  {
    start := 0;
    var best := Inf;
    for i := 0 to |lanes|
      invariant i == 0 ==> start == 0 && best.Inf?
      invariant i > 0 ==> start < i && best == Fin(Abs(lanes[start] - x))
      invariant forall k | 0 <= k < i :: Abs(lanes[start] - x) <= Abs(lanes[k] - x)
      invariant forall k | 0 <= k < start :: Abs(lanes[start] - x) < Abs(lanes[k] - x)
    {
      var d := Fin(Abs(lanes[i] - x));
      if Less(d, best) {
        best, start := d, i;
      }
    }
  }

  /** Collision verdict and risk of one move, scored hazard by hazard. */
  method ScoreMove(s: Scene, t: real, x0: real, x1: real) returns (collision: bool, localRisk: real)
    ensures (collision, localRisk) == ScanHazards(s, t, x0, x1, 0)
  {
    hide PredictHazard, InBand, CollisionAt, ClearanceAt, NearMiss;
    collision, localRisk := false, 0.0;
    var midT, mid := t - s.dt * 0.5, (x0 + x1) * 0.5;
    for h := 0 to |s.tracks|
      invariant !collision
      invariant var rest := ScanHazards(s, t, x0, x1, h);
                ScanHazards(s, t, x0, x1, 0) == (rest.0, localRisk + rest.1)
    {
      var z1 := PredictHazard(s.tracks[h], t, s.width);
      if !InBand(s, z1) {
        continue;
      }
      if CollisionAt(x1, s.py, z1, SAFETY_MARGIN) {
        collision := true;
        break;
      }
      localRisk := localRisk + NearMiss(s, ClearanceAt(s.m, x1, s.py, z1, SAFETY_MARGIN), 100.0, 25.0, t);
      var zm := PredictHazard(s.tracks[h], Max(0.0, midT), s.width);
      if InBand(s, zm) {
        if CollisionAt(mid, s.py, zm, SAFETY_MARGIN) {
          collision := true;
          break;
        }
        localRisk := localRisk + NearMiss(s, ClearanceAt(s.m, mid, s.py, zm, SAFETY_MARGIN), 85.0, 22.0, midT) * 0.55;
      }
    }
  }

  /** The search's tables for layer k + 1 once the first `upTo` states of layer k are relaxed. */
  ghost predicate Relaxed(s: Scene, net: Layers, k: nat, q: nat, upTo: nat, cost: Extended, from: int, control: real) {
    && (cost, from) == Scan(net, k + 1, q, upTo)
    && (from >= 0 ==> IsControl(s, from, q, control))
  }

  /** `control` is the steering target of the move between two states. */
  ghost predicate IsControl(s: Scene, from: nat, to: nat, control: real) {
    && IsState(s, from) && IsState(s, to)
    && ReachableTarget(s, s.lanes[LaneOf(s, from)], s.lanes[LaneOf(s, to)]) == Some(control)
  }

  /** Scores the move from state `p` to lane `j` and relaxes the state it leads to. */
  method RelaxMove(s: Scene, ghost net: Layers, k: nat, p: nat, base: real, j: nat,
                   next: array<Extended>, from: array<int>, controls: array<real>)
    requires IsState(s, p) && j < |s.lanes| && net.width == 2 * |s.lanes|
    requires LaneRange(s, s.lanes[LaneOf(s, p)]).0 <= j <= LaneRange(s, s.lanes[LaneOf(s, p)]).1
    requires next.Length == from.Length == controls.Length == net.width
    requires forall q: nat | IsState(s, q) :: Edge(net, k + 1, p, q) == StateMove(s, k, p, q)
    requires Best(net, k, p) == Fin(base)
    requires forall q: nat | IsState(s, q) && LaneOf(s, q) == j :: Relaxed(s, net, k, q, p, next[q], from[q], controls[q])
    modifies next, from, controls
    ensures forall q: nat | IsState(s, q) && LaneOf(s, q) == j :: Relaxed(s, net, k, q, p + 1, next[q], from[q], controls[q])
    ensures forall q: nat | IsState(s, q) && LaneOf(s, q) != j ::
              next[q] == old(next[q]) && from[q] == old(from[q]) && controls[q] == old(controls[q])
  {
    hide Scan, Best, Edge, ReachableTarget, MoveCost, ScanHazards, Restores, LaneRange, Relaxed;
    var x0, x1, t := s.lanes[LaneOf(s, p)], s.lanes[j], Time(s, k);
    var shield := ShieldOf(s, p);
    ghost var move := Transition(s, k, shield, LaneOf(s, p), j);
    var target := ReachableTarget(s, x0, x1);
    var collision, localRisk := ScoreMove(s, t, x0, x1);
    if target.None? || (collision && !shield) {
      assert move.None?;
      forall q: nat | IsState(s, q) && LaneOf(s, q) == j
        ensures Relaxed(s, net, k, q, p + 1, next[q], from[q], controls[q])
      {
        assert Edge(net, k + 1, p, q) == StateMove(s, k, p, q) == Inf;
        RelaxedStep(s, net, k, q, p, next[q], from[q], controls[q]);
      }
      return;
    }
    var after := shield && !collision;
    var nextShield := after || Restores(s, x1, t, after);
    var q := StateOf(s, j, nextShield);
    var c := MoveCost(s, k, x0, x1, collision, localRisk, after);
    assert move == Some(Move(nextShield, c, target.value));
    ghost var other := StateOf(s, j, !nextShield);
    assert Edge(net, k + 1, p, q) == StateMove(s, k, p, q) == Fin(c);
    assert Edge(net, k + 1, p, other) == StateMove(s, k, p, other) == Inf;
    RelaxedStep(s, net, k, q, p, next[q], from[q], controls[q]);
    RelaxedStep(s, net, k, other, p, next[other], from[other], controls[other]);
    if Less(Fin(base + c), next[q]) {
      next[q] := Fin(base + c);
      from[q] := p;
      controls[q] := target.value;
      RelaxedUpdate(s, net, k, q, p, controls[q]);
    }
  }

  /** What one more predecessor does to an entry of the tables. */
  lemma RelaxedStep(s: Scene, net: Layers, k: nat, q: nat, p: nat, cost: Extended, from: int, control: real)
    requires Relaxed(s, net, k, q, p, cost, from, control)
    ensures var c := Plus(Best(net, k, p), Edge(net, k + 1, p, q));
            if Less(c, cost) then Scan(net, k + 1, q, p + 1) == (c, p)
            else Relaxed(s, net, k, q, p + 1, cost, from, control)
  {
    hide Edge, ReachableTarget;
  }

  lemma RelaxedUpdate(s: Scene, net: Layers, k: nat, q: nat, p: nat, control: real)
    requires Scan(net, k + 1, q, p + 1).1 == p && IsControl(s, p, q, control)
    ensures Relaxed(s, net, k, q, p + 1, Scan(net, k + 1, q, p + 1).0, p, control)
  {
    hide Edge, ReachableTarget;
  }

  /** Relaxes every move out of state `p` of layer `k`. */
  method RelaxFrom(s: Scene, ghost net: Layers, k: nat, p: nat, base: real,
                   next: array<Extended>, from: array<int>, controls: array<real>)
    requires IsState(s, p) && net.width == 2 * |s.lanes|
    requires next.Length == from.Length == controls.Length == net.width
    requires forall q: nat | IsState(s, q) :: Edge(net, k + 1, p, q) == StateMove(s, k, p, q)
    requires Best(net, k, p) == Fin(base)
    requires forall q: nat | IsState(s, q) :: Relaxed(s, net, k, q, p, next[q], from[q], controls[q])
    modifies next, from, controls
    ensures forall q: nat | IsState(s, q) :: Relaxed(s, net, k, q, p + 1, next[q], from[q], controls[q])
  {
    hide Scan, Best, Edge, StateMove, LaneRange, Relaxed;
    var x0 := s.lanes[LaneOf(s, p)];
    var lo, hi := ReachableLaneRange(s, x0);
    forall q: nat | IsState(s, q) && !(lo <= LaneOf(s, q) <= hi)
      ensures Relaxed(s, net, k, q, p + 1, next[q], from[q], controls[q])
    {
      OutOfRange(s, k, p, q);
      assert Edge(net, k + 1, p, q) == StateMove(s, k, p, q);
      RelaxedStep(s, net, k, q, p, next[q], from[q], controls[q]);
    }
    var j := lo;
    while j <= hi
      invariant lo <= j && 0 <= lo && hi < |s.lanes|
      invariant forall q: nat | IsState(s, q) && !(j <= LaneOf(s, q) <= hi) ::
                  Relaxed(s, net, k, q, p + 1, next[q], from[q], controls[q])
      invariant forall q: nat | IsState(s, q) && j <= LaneOf(s, q) <= hi ::
                  Relaxed(s, net, k, q, p, next[q], from[q], controls[q])
      decreases hi - j
    {
      RelaxMove(s, net, k, p, base, j, next, from, controls);
      j := j + 1;
    }
  }

  lemma OutOfRange(s: Scene, k: nat, p: nat, q: nat)
    requires IsState(s, p) && IsState(s, q)
    requires var range := LaneRange(s, s.lanes[LaneOf(s, p)]); !(range.0 <= LaneOf(s, q) <= range.1)
    ensures StateMove(s, k, p, q) == Inf
  {
    hide ReachableTarget, ScanHazards, MoveCost, Restores, LaneRange;
  }

  /** One time step: the costs, predecessors and controls of layer k + 1. */
  method NextLayer(s: Scene, ghost net: Layers, k: nat, prev: array<Extended>)
    returns (next: array<Extended>, from: array<int>, controls: array<real>)
    requires net.width == 2 * |s.lanes| == prev.Length
    requires forall p: nat, q: nat | IsState(s, p) && IsState(s, q) :: Edge(net, k + 1, p, q) == StateMove(s, k, p, q)
    requires forall p: nat | IsState(s, p) :: prev[p] == Best(net, k, p)
    ensures fresh(next) && fresh(from) && fresh(controls)
    ensures next.Length == from.Length == controls.Length == net.width
    ensures forall q: nat | IsState(s, q) :: next[q] == Best(net, k + 1, q)
    ensures forall q: nat | IsState(s, q) :: Relaxed(s, net, k, q, net.width, next[q], from[q], controls[q])
  {
    hide StateMove, Edge, IsControl;
    var n := prev.Length;
    next := new Extended[n](_ => Inf);
    from := new int[n](_ => -1);
    controls := new real[n](_ => 0.0);
    for p := 0 to n
      invariant forall q: nat | IsState(s, q) :: prev[q] == Best(net, k, q)
      invariant forall q: nat | IsState(s, q) :: Relaxed(s, net, k, q, p, next[q], from[q], controls[q])
    {
      assert IsState(s, p) && prev[p] == Best(net, k, p);
      if prev[p].Fin? {
        RelaxFrom(s, net, k, p, prev[p].v, next, from, controls);
      } else {
        forall q: nat | IsState(s, q)
          ensures Relaxed(s, net, k, q, p + 1, next[q], from[q], controls[q])
        {
          RelaxedStep(s, net, k, q, p, next[q], from[q], controls[q]);
        }
      }
    }
  }

  method CheapestState(ghost net: Layers, ghost layer: nat, costs: array<Extended>) returns (state: int, cost: Extended)
    requires costs.Length == net.width
    requires forall p: nat | p < costs.Length :: costs[p] == Best(net, layer, p)
    ensures (cost, state) == Select(net, layer, net.width)
  {
    state, cost := -1, Inf;
    for p := 0 to costs.Length
      invariant (cost, state) == Select(net, layer, p)
    {
      if Less(costs[p], cost) {
        state, cost := p, costs[p];
      }
    }
  }

  /** The tables of the first layers: predecessors with the control of the move from each. */
  ghost predicate Tables(s: Scene, net: Layers, parents: seq<array<int>>, targets: seq<array<real>>)
    reads parents, targets
  {
    && |parents| == |targets| && net.width == 2 * |s.lanes|
    && (forall k | 0 <= k < |parents| :: parents[k].Length == targets[k].Length == net.width)
    && forall k: nat, q: nat | k < |parents| && IsState(s, q) ::
         parents[k][q] == Scan(net, k + 1, q, net.width).1
         && (parents[k][q] >= 0 ==> IsControl(s, parents[k][q], q, targets[k][q]))
  }

  /** Each control steers the move into the state beside it, starting from `from`. */
  ghost predicate ControlsFit(s: Scene, from: nat, states: seq<nat>, controls: seq<real>)
    requires |states| == |controls|
    decreases |states|
  {
    states == [] || (IsControl(s, from, states[0], controls[0]) && ControlsFit(s, states[0], states[1..], controls[1..]))
  }

  lemma ControlsFitExtends(s: Scene, from: nat, to: nat, control: real, states: seq<nat>, controls: seq<real>)
    requires |states| == |controls| && ControlsFit(s, to, states, controls) && IsControl(s, from, to, control)
    ensures ControlsFit(s, from, [to] + states, [control] + controls)
  {
    hide IsControl;
    assert ([to] + states)[1..] == states && ([control] + controls)[1..] == controls;
  }

  lemma TraceStep(net: Layers, layer: nat, to: nat) returns (from: int)
    requires layer >= 1 && to < net.width && Best(net, layer, to).Fin?
    ensures from == Scan(net, layer, to, net.width).1 && 0 <= from < net.width
    ensures Trace(net, layer, to) == Trace(net, layer - 1, from) + [to] && Best(net, layer - 1, from).Fin?
  {
    hide Scan, Edge, Init;
    ScanIsMinimum(net, layer, to, net.width);
    from := Scan(net, layer, to, net.width).1;
  }

  /** Walks the recorded predecessors back to the start, collecting states and controls. */
  method Backtrack(s: Scene, ghost net: Layers, parents: seq<array<int>>, targets: seq<array<real>>, last: nat, start: nat)
    returns (states: seq<nat>, controls: seq<real>)
    requires Tables(s, net, parents, targets) && last < net.width && Best(net, |parents|, last).Fin?
    requires forall p: nat | p < net.width && Init(net, p).Fin? :: p == start
    ensures [start] + states == Trace(net, |parents|, last)
    ensures |controls| == |states| == |parents| && ControlsFit(s, start, states, controls)
  {
    hide IsControl, Scan, Edge, Init, Trace, ControlsFit;
    states, controls := [], [];
    var cur := last;
    var step := |parents|;
    NothingToFit(s, cur);
    assert Trace(net, |parents|, last) + states == Trace(net, step, cur);
    while step > 0
      invariant 0 <= step <= |parents| && 0 <= cur < net.width && Best(net, step, cur).Fin?
      invariant |states| == |controls| == |parents| - step
      invariant Trace(net, |parents|, last) == Trace(net, step, cur) + states
      invariant ControlsFit(s, cur, states, controls)
    {
      ghost var from := TraceStep(net, step, cur);
      assert IsState(s, cur) && parents[step - 1][cur] == from;
      ControlsFitExtends(s, from, cur, targets[step - 1][cur], states, controls);
      assert Trace(net, step, cur) + states == Trace(net, step - 1, from) + ([cur] + states);
      controls := [targets[step - 1][cur]] + controls;
      states := [cur] + states;
      cur := parents[step - 1][cur];
      if cur < 0 {
        cur := start;
      }
      step := step - 1;
    }
    TraceStart(net, cur);
  }

  lemma NothingToFit(s: Scene, from: nat)
    ensures ControlsFit(s, from, [], [])
  {}

  lemma TraceStart(net: Layers, j: nat)
    ensures Trace(net, 0, j) == [j] && Best(net, 0, j) == Init(net, j)
  {}

  /** The controls of a plan, replayed from the start lane, visit exactly its positions. */
  ghost predicate Replays(s: Scene, start: nat, plan: Plan)
    requires start < |s.lanes|
  {
    && |plan.xs| == |plan.controls|
    && forall k | 0 <= k < |plan.xs| :: Follow(s, Before(s, start, plan, k), plan.controls[k]) == plan.xs[k]
  }

  /** Where the car is before step `k` of a plan. */
  function Before(s: Scene, start: nat, plan: Plan, k: nat): real
    requires start < |s.lanes| && k <= |plan.xs|
  {
    if k == 0 then s.lanes[start] else plan.xs[k - 1]
  }

  /** The complete lane sequences the search may choose from. */
  ghost predicate Legal(s: Scene, start: nat, shield: bool, js: seq<nat>)
    requires start < |s.lanes|
  {
    |js| == s.steps && IsLanes(s, js) && Run(s, start, shield, js).Some?
  }

  /** The plan visits the lanes `js` and costs what running them costs. */
  ghost predicate Visits(s: Scene, start: nat, shield: bool, plan: Plan, js: seq<nat>)
    requires start < |s.lanes|
  {
    && Legal(s, start, shield, js)
    && plan.risk == Run(s, start, shield, js).value.cost
    && |plan.xs| == |js| && forall k | 0 <= k < |js| :: plan.xs[k] == s.lanes[js[k]]
  }

  /** The cheapest last state bounds every legal plan from below. */
  lemma OptimumIsLowerBound(s: Scene, start: nat, shield: bool, net: Layers, js: seq<nat>)
    requires start < |s.lanes| && IsGraph(s, start, shield, net) && Legal(s, start, shield, js)
    ensures var best := Select(net, s.steps, net.width);
            best.1 >= 0 && best.0.Fin? && best.0.v <= Run(s, start, shield, js).value.cost
  {
    hide Select, Run, PathCost, IsPath, IsGraph, IsLanes;
    var p := RunIsPath(s, start, shield, net, js);
    SelectIsLowerBound(net, p);
    SelectIsMinimum(net, s.steps, net.width);
  }

  /** The states walked back from the cheapest last state are a legal plan of that cost. */
  lemma OptimumIsAttained(s: Scene, start: nat, shield: bool, net: Layers, states: seq<nat>) returns (js: seq<nat>)
    requires start < |s.lanes| && IsGraph(s, start, shield, net)
    requires var best := Select(net, s.steps, net.width);
             best.1 >= 0 && [StateOf(s, start, shield)] + states == Trace(net, s.steps, best.1)
    ensures Legal(s, start, shield, js) && |states| == |js|
    ensures Select(net, s.steps, net.width).0 == Fin(Run(s, start, shield, js).value.cost)
    ensures forall k | 0 <= k < |js| :: IsState(s, states[k]) && LaneOf(s, states[k]) == js[k] < |s.lanes|
  {
    hide Select, Run, PathCost, Trace, Feasible, Init, Edge, StateMove;
    SelectionIsExact(net, s.steps);
    var p := [StateOf(s, start, shield)] + states;
    js := PathIsRun(s, start, shield, net, p);
    forall k | 0 <= k < |js|
      ensures IsState(s, states[k]) && LaneOf(s, states[k]) == js[k]
    {
      assert p[k + 1] == states[k];
      assert LaneBefore(start, js, k + 1) == js[k];
    }
  }

  lemma {:induction false} ControlsFitAt(s: Scene, from: nat, states: seq<nat>, controls: seq<real>, k: nat)
    requires |states| == |controls| && k < |states| && ControlsFit(s, from, states, controls)
    ensures IsControl(s, if k == 0 then from else states[k - 1], states[k], controls[k])
    decreases k
  {
    hide IsControl;
    if k > 0 {
      ControlsFitAt(s, states[0], states[1..], controls[1..], k - 1);
    }
  }

  lemma ControlsReplay(s: Scene, start: nat, shield: bool, states: seq<nat>, plan: Plan)
    requires start < |s.lanes|
    requires |plan.controls| == |plan.xs| == |states|
    requires ControlsFit(s, StateOf(s, start, shield), states, plan.controls)
    requires forall k | 0 <= k < |states| :: IsState(s, states[k]) && plan.xs[k] == s.lanes[LaneOf(s, states[k])]
    ensures Replays(s, start, plan)
  {
    hide ReachableTarget, Follow, ControlsFit;
    forall k | 0 <= k < |plan.xs|
      ensures Follow(s, Before(s, start, plan, k), plan.controls[k]) == plan.xs[k]
    {
      ControlsFitAt(s, StateOf(s, start, shield), states, plan.controls, k);
      var from := if k == 0 then StateOf(s, start, shield) else states[k - 1];
      assert s.lanes[LaneOf(s, from)] == Before(s, start, plan, k);
      ControlFollows(s, Before(s, start, plan, k), plan.xs[k]);
    }
  }

  lemma ControlFollows(s: Scene, x0: real, x1: real)
    ensures ReachableTarget(s, x0, x1).Some? ==> Follow(s, x0, ReachableTarget(s, x0, x1).value) == x1
  {
    hide Blend, Inverse;
    if s.alpha > 0.0 {
      BlendInverse(s.alpha, x0, x1);
    }
  }

  lemma NoTables(s: Scene, net: Layers)
    requires net.width == 2 * |s.lanes|
    ensures Tables(s, net, [], [])
  {}

  lemma TablesGrow(s: Scene, net: Layers, parents: seq<array<int>>, targets: seq<array<real>>,
                   next: array<Extended>, from: array<int>, controls: array<real>)
    requires Tables(s, net, parents, targets) && next.Length == from.Length == controls.Length == net.width
    requires forall q: nat | IsState(s, q) :: Relaxed(s, net, |parents|, q, net.width, next[q], from[q], controls[q])
    ensures Tables(s, net, parents + [from], targets + [controls])
  {
    hide IsControl, Scan;
  }

  /** All time steps of the search. */
  method FillTables(s: Scene, ghost net: Layers, startState: nat)
    returns (costs: array<Extended>, parents: seq<array<int>>, targets: seq<array<real>>)
    requires net.width == 2 * |s.lanes|
    requires forall p: nat | IsState(s, p) :: Init(net, p) == if p == startState then Fin(0.0) else Inf
    requires forall k: nat, p: nat, q: nat | k < s.steps && IsState(s, p) && IsState(s, q) ::
               Edge(net, k + 1, p, q) == StateMove(s, k, p, q)
    ensures costs.Length == net.width && forall p: nat | IsState(s, p) :: costs[p] == Best(net, s.steps, p)
    ensures |parents| == s.steps && Tables(s, net, parents, targets)
  {
    hide Edge, Init, StateMove, IsControl, Scan, Tables, Relaxed;
    NoTables(s, net);
    costs := new Extended[2 * |s.lanes|](p => if p == startState then Fin(0.0) else Inf);
    parents, targets := [], [];
    for k := 0 to s.steps
      invariant costs.Length == net.width && |parents| == k && Tables(s, net, parents, targets)
      invariant forall p: nat | IsState(s, p) :: costs[p] == Best(net, k, p)
    {
      var next, from, controls := NextLayer(s, net, k, costs);
      TablesGrow(s, net, parents, targets, next, from, controls);
      costs, parents, targets := next, parents + [from], targets + [controls];
    }
  }

  /** A complete plan, judged by tracks and powers alone. */
  ghost predicate IsPlan(s: Scene, start: nat, shield: bool, js: seq<nat>)
    requires start < |s.lanes|
  {
    |js| == s.steps && IsLanes(s, js) && SurvivesAll(s, start, shield, js)
  }

  ghost predicate IsPlanAt(s: Scene, start: nat, shield: bool, js: seq<nat>, plan: Plan)
    requires start < |s.lanes|
  {
    && IsPlan(s, start, shield, js) && plan.risk == Worth(s, start, shield, js, s.steps)
    && |plan.xs| == s.steps && forall k | 0 <= k < s.steps :: plan.xs[k] == s.lanes[js[k]]
  }

  /** Nothing iff there is no plan; otherwise the positions of one that is worth no more than any other. */
  ghost predicate IsBest(s: Scene, start: nat, shield: bool, r: Option<Plan>)
    requires start < |s.lanes|
  {
    match r
    case None => forall js :: !IsPlan(s, start, shield, js)
    case Some(plan) =>
      && (exists js :: IsPlanAt(s, start, shield, js, plan))
      && forall js | IsPlan(s, start, shield, js) :: plan.risk <= Worth(s, start, shield, js, s.steps)
  }

  lemma LegalIff(s: Scene, start: nat, shield: bool, js: seq<nat>)
    requires start < |s.lanes|
    ensures Legal(s, start, shield, js) <==> IsPlan(s, start, shield, js)
    ensures Legal(s, start, shield, js) ==> Run(s, start, shield, js).value.cost == Worth(s, start, shield, js, s.steps)
  {
    hide Run, SurvivesAll, Worth;
    if |js| == s.steps && IsLanes(s, js) {
      PlanIff(s, start, shield, js);
      if Run(s, start, shield, js).Some? {
        PlanCostAddsUp(s, start, shield, js);
      }
    }
  }

  lemma ResultIsBest(s: Scene, start: nat, shield: bool, r: Option<Plan>)
    requires start < |s.lanes|
    requires r.None? ==> forall js :: !Legal(s, start, shield, js)
    requires r.Some? ==>
               && (exists js :: Visits(s, start, shield, r.value, js))
               && (forall js | Legal(s, start, shield, js) :: r.value.risk <= Run(s, start, shield, js).value.cost)
    ensures IsBest(s, start, shield, r)
  {
    hide Run, SurvivesAll, Worth, IsLanes;
    forall js
      ensures Legal(s, start, shield, js) <==> IsPlan(s, start, shield, js)
      ensures Legal(s, start, shield, js) ==> Run(s, start, shield, js).value.cost == Worth(s, start, shield, js, s.steps)
    {
      LegalIff(s, start, shield, js);
    }
    hide Legal, IsPlan;
    if r.Some? {
      var js :| Visits(s, start, shield, r.value, js);
      assert IsPlanAt(s, start, shield, js, r.value);
    }
  }

  /** The planner. Without a result there is no legal plan; a result visits the lanes of a legal plan
      that costs no more than any other, and its controls steer exactly along it. */
  method BuildPlan(s: Scene, playerX: real, shieldVisual: bool) returns (r: Option<Plan>, start: nat)
    requires |s.lanes| >= 1
    ensures start < |s.lanes| && forall k | 0 <= k < |s.lanes| :: Abs(s.lanes[start] - playerX) <= Abs(s.lanes[k] - playerX)
    ensures IsBest(s, start, shieldVisual, r)
    ensures r.None? ==> forall js :: !Legal(s, start, shieldVisual, js)
    ensures r.Some? ==>
              && (exists js :: Visits(s, start, shieldVisual, r.value, js))
              && (forall js | Legal(s, start, shieldVisual, js) :: r.value.risk <= Run(s, start, shieldVisual, js).value.cost)
              && Replays(s, start, r.value)
  {
    hide Run, Edge, Init, StateMove, Graph, Replays, Tables, Scan, Trace, Select, IsLanes, ControlsFit, Best, IsBest;
    start := StartLane(s.lanes, playerX);
    ghost var net := Graph(s, start, shieldVisual);
    GraphIsGraph(s, start, shieldVisual);
    var startState := StateOf(s, start, shieldVisual);
    var costs, parents, targets := FillTables(s, net, startState);
    var last, cost := CheapestState(net, s.steps, costs);
    SelectIsMinimum(net, s.steps, net.width);
    forall js | Legal(s, start, shieldVisual, js)
      ensures last >= 0 && cost.v <= Run(s, start, shieldVisual, js).value.cost
    {
      OptimumIsLowerBound(s, start, shieldVisual, net, js);
    }
    if last < 0 {
      ResultIsBest(s, start, shieldVisual, None);
      return None, start;
    }
    var states, controls := Backtrack(s, net, parents, targets, last, startState);
    ghost var js := OptimumIsAttained(s, start, shieldVisual, net, states);
    var xs := seq(|states|, (k: nat) requires k < |states| && LaneOf(s, states[k]) < |s.lanes| => s.lanes[LaneOf(s, states[k])]);
    r := Some(Plan(xs, controls, cost.v));
    ControlsReplay(s, start, shieldVisual, states, r.value);
    assert Visits(s, start, shieldVisual, r.value, js);
    ResultIsBest(s, start, shieldVisual, r);
  }
}

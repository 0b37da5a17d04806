/** The V7 planner: an exact dynamic program over a lane/time grid, its rounded lane window,
    and the pointer position it steers to. */
module ExactPlanner {
  import opened Numbers
  import opened Geometry
  import opened Steering
  import opened Lanes
  import opened LayeredDP

  const MOVE_COST := 0.0032
  const PRIOR_TARGET_COST := 0.0011
  const POINTER_SLACK := 0.01
  const SAFETY_MARGIN := 10.0

  /** `alpha` is the share of the way to the pointer that the car covers in one step. */
  datatype Grid = Grid(minX: real, maxX: real, alpha: real, steps: nat, lanes: seq<real>,
                       risk: seq<seq<real>>, colliders: seq<seq<seq<nat>>>)

  predicate Shaped(g: Grid) {
    && |g.lanes| >= 1 && g.steps >= 1
    && |g.risk| == g.steps && |g.colliders| == g.steps
    && forall s | 0 <= s < g.steps :: |g.risk[s]| == |g.lanes| && |g.colliders[s]| == |g.lanes|
  }

  function Spacing(g: Grid): real
    requires |g.lanes| >= 2
  {
    (g.maxX - g.minX) / (|g.lanes| - 1) as real
  }

  /** The lanes of a road at least one pixel wide, as the grid builder lays them out. */
  predicate EvenLanes(g: Grid) {
    && |g.lanes| >= 2
    && g.maxX - g.minX >= 1.0
    && 0.001 <= g.alpha < 1.0
    && forall i | 0 <= i < |g.lanes| :: g.lanes[i] == g.minX + (g.maxX - g.minX) * i as real / (|g.lanes| - 1) as real
  }

  // ---------------------------------------------------------------------------
  // Collision table
  // ---------------------------------------------------------------------------

  /** Hazard samples far above or below the car are skipped. */
  predicate InBand(z: Disc, py: real) {
    py - 175.0 <= z.y <= py + 110.0
  }

  predicate Collides(z: Disc, x: real, py: real) {
    InBand(z, py) && CollisionAt(x, py, z, SAFETY_MARGIN)
  }

  predicate Ascending(hits: seq<nat>) {
    forall a, b | 0 <= a < b < |hits| :: hits[a] < hits[b]
  }

  /** Which hazards of the forecast collide with a car at `x` in step `s`, in order. */
  method CollidersAt(forecast: seq<seq<Disc>>, s: nat, x: real, py: real) returns (hits: seq<nat>)
    requires forall h | 0 <= h < |forecast| :: s < |forecast[h]|
    ensures forall h: nat :: h in hits <==> h < |forecast| && Collides(forecast[h][s], x, py)
    ensures Ascending(hits)
  {
    hits := [];
    for h := 0 to |forecast|
      invariant forall k: nat :: k in hits <==> k < h && Collides(forecast[k][s], x, py)
      invariant forall a, b | 0 <= a < b < |hits| :: hits[a] < hits[b]
      invariant forall a | 0 <= a < |hits| :: hits[a] < h
    {
      var z := forecast[h][s];
      if z.y < py - 175.0 || z.y > py + 110.0 {
        continue;
      }
      if CollisionAt(x, py, z, SAFETY_MARGIN) {
        hits := hits + [h];
      }
    }
  }

  method BuildColliders(forecast: seq<seq<Disc>>, steps: nat, lanes: seq<real>, py: real)
    returns (table: seq<seq<seq<nat>>>)
    requires forall h | 0 <= h < |forecast| :: |forecast[h]| == steps
    ensures |table| == steps && forall s | 0 <= s < steps :: |table[s]| == |lanes|
    ensures forall s, i, h: nat | 0 <= s < steps && 0 <= i < |lanes| ::
              h in table[s][i] <==> h < |forecast| && Collides(forecast[h][s], lanes[i], py)
    ensures forall s, i | 0 <= s < steps && 0 <= i < |lanes| :: Ascending(table[s][i])
  {
    table := [];
    for s := 0 to steps
      invariant |table| == s && forall k | 0 <= k < s :: |table[k]| == |lanes|
      invariant forall k, i | 0 <= k < s && 0 <= i < |lanes| :: Ascending(table[k][i])
      invariant forall k, i, h: nat | 0 <= k < s && 0 <= i < |lanes| ::
                  h in table[k][i] <==> h < |forecast| && Collides(forecast[h][k], lanes[i], py)
    {
      var row := [];
      for i := 0 to |lanes|
        invariant |row| == i && forall k | 0 <= k < i :: Ascending(row[k])
        invariant forall k, h: nat | 0 <= k < i ::
                    h in row[k] <==> h < |forecast| && Collides(forecast[h][s], lanes[k], py)
      {
        var hits := CollidersAt(forecast, s, lanes[i], py);
        row := row + [hits];
      }
      table := table + [row];
    }
  }

  // ---------------------------------------------------------------------------
  // Steering moves
  // ---------------------------------------------------------------------------

  function NearestLane(g: Grid, x: real): (lane: int)
    requires |g.lanes| >= 1
    ensures 0 <= lane < |g.lanes|
  {
    NearestMark(x - g.minX, g.maxX - g.minX, |g.lanes| - 1)
  }

  /** Where the car is one step after steering from `x` to a pointer. */
  function Follow(g: Grid, x: real, pointer: real): real {
    Blend(g.alpha, x, pointer)
  }

  /** The pointer position that takes the car from `fromX` to `toX` in one step. */
  function PointerForMove(g: Grid, fromX: real, toX: real): real {
    (toX - (1.0 - g.alpha) * fromX) / Max(0.001, g.alpha)
  }

  /** How far off the reachable interval a lane may lie under that pointer tolerance. */
  function Slack(g: Grid): real {
    g.alpha * POINTER_SLACK
  }

  predicate PointerInRoad(g: Grid, fromX: real, toX: real) {
    g.minX - POINTER_SLACK <= PointerForMove(g, fromX, toX) <= g.maxX + POINTER_SLACK
  }

  /** The first and last lane the search looks at from `fromX`. */
  function ReachableRange(g: Grid, fromX: real): (range: (int, int))
    requires |g.lanes| >= 1
    ensures 0 <= range.0 < |g.lanes| && 0 <= range.1 < |g.lanes|
  {
    (NearestLane(g, Follow(g, fromX, g.minX)), NearestLane(g, Follow(g, fromX, g.maxX)))
  }

  predicate InWindow(g: Grid, fromX: real, j: nat)
    requires |g.lanes| >= 1
  {
    ReachableRange(g, fromX).0 <= j <= ReachableRange(g, fromX).1
  }

  /** A move's pointer is in the road, up to the tolerance, iff the lane is within reach, up to
      the slack. */
  lemma PointerBounds(g: Grid, fromX: real, toX: real)
    requires 0.001 <= g.alpha < 1.0
    ensures PointerInRoad(g, fromX, toX)
            <==> Follow(g, fromX, g.minX) - Slack(g) <= toX <= Follow(g, fromX, g.maxX) + Slack(g)
  {
    assert PointerForMove(g, fromX, toX) == Inverse(g.alpha, fromX, toX);
    PointerIffReach(g.alpha, fromX, toX, g.minX, g.maxX, POINTER_SLACK);
  }

  lemma LanePosition(g: Grid, j: nat)
    requires EvenLanes(g) && j < |g.lanes|
    ensures Spacing(g) > 0.0
    ensures g.lanes[j] == g.minX + j as real * Spacing(g)
  {
    var w, n := g.maxX - g.minX, (|g.lanes| - 1) as real;
    assert w * j as real / n == j as real * (w / n);
  }

  /** Which side of lane j's half-spacing boundaries decides how a position rounds. */
  lemma NearestLaneBounds(g: Grid, x: real, j: nat)
    requires EvenLanes(g) && j < |g.lanes|
    ensures x < g.lanes[j] + 0.5 * Spacing(g) ==> NearestLane(g, x) <= j
    ensures x >= g.lanes[j] - 0.5 * Spacing(g) ==> NearestLane(g, x) >= j
  {
    hide NearestMark;
    LanePosition(g, j);
    NearestMarkBounds(x - g.minX, g.maxX - g.minX, |g.lanes| - 1, Spacing(g), j);
  }

  lemma LanesApart(g: Grid, i: nat, j: nat)
    requires EvenLanes(g) && i < j < |g.lanes|
    ensures g.lanes[j] >= g.lanes[i] + Spacing(g) && Spacing(g) > 0.0
  {
    LanePosition(g, i);
    LanePosition(g, j);
    hide Spacing;
    MulNonNegative((j - i - 1) as real, Spacing(g));
    assert j as real == i as real + 1.0 + (j - i - 1) as real;
    assert j as real * Spacing(g) == i as real * Spacing(g) + Spacing(g) + (j - i - 1) as real * Spacing(g);
  }

  lemma LaneMark(g: Grid, j: nat)
    requires EvenLanes(g) && j < |g.lanes|
    ensures g.lanes[j] == g.minX + MarkAt(j, Spacing(g))
  {
    LanePosition(g, j);
  }

  /** No lane is nearer to a position than the one it rounds to. */
  lemma NearestLaneIsNearest(g: Grid, x: real, j: nat)
    requires EvenLanes(g) && j < |g.lanes|
    ensures Abs(x - g.lanes[NearestLane(g, x)]) <= Abs(x - g.lanes[j])
  {
    hide NearestMark, MarkAt;
    LaneMark(g, j);
    LaneMark(g, NearestLane(g, x));
    NearestMarkIsNearest(x - g.minX, g.maxX - g.minX, |g.lanes| - 1, Spacing(g), j);
  }

  lemma LaneStep(g: Grid, i: nat)
    requires EvenLanes(g) && i + 1 < |g.lanes|
    ensures g.lanes[i + 1] == g.lanes[i] + Spacing(g)
  {
    LanePosition(g, i);
    LanePosition(g, i + 1);
    hide Spacing;
    assert (i + 1) as real == i as real + 1.0;
  }

  /** The window runs from the lane nearest to one end of the reachable interval to the lane nearest to
      the other. */
  lemma WindowEndsAreNearest(g: Grid, fromX: real, j: nat)
    requires EvenLanes(g) && j < |g.lanes|
    ensures var range, left, right := ReachableRange(g, fromX), Follow(g, fromX, g.minX), Follow(g, fromX, g.maxX);
            && range.0 <= range.1
            && Abs(left - g.lanes[range.0]) <= Abs(left - g.lanes[j])
            && Abs(right - g.lanes[range.1]) <= Abs(right - g.lanes[j])
  {
    assert 0.001 <= g.alpha && g.minX <= g.maxX;
    BlendOrder(g.alpha, fromX, g.minX, g.maxX);
    hide NearestLane, EvenLanes, Blend;
    var left, right := Follow(g, fromX, g.minX), Follow(g, fromX, g.maxX);
    NearestLaneIsNearest(g, left, j);
    NearestLaneIsNearest(g, right, j);
    NearestLaneMonotone(g, left, right);
  }

  lemma NearestLaneMonotone(g: Grid, x: real, y: real)
    requires EvenLanes(g) && x <= y
    ensures NearestLane(g, x) <= NearestLane(g, y)
  {
    hide NearestMark, Spacing;
    var c := NearestLane(g, x);
    hide NearestLane;
    if c > 0 {
      NearestLaneBounds(g, x, c - 1);
      LaneStep(g, c - 1);
      NearestLaneBounds(g, y, c);
    }
  }

  /** Lane spacing above 0.02 * alpha is enough for the window to hold every pointer-legal lane. */
  lemma WindowHoldsLegalLane(g: Grid, fromX: real, j: nat)
    requires EvenLanes(g) && Spacing(g) > 2.0 * Slack(g)
    requires j < |g.lanes| && PointerInRoad(g, fromX, g.lanes[j])
    ensures InWindow(g, fromX, j)
  {
    assert 0.001 <= g.alpha < 1.0;
    hide NearestLane, Slack, Spacing, Follow, PointerInRoad, EvenLanes;
    PointerBounds(g, fromX, g.lanes[j]);
    NearestLaneBounds(g, Follow(g, fromX, g.minX), j);
    NearestLaneBounds(g, Follow(g, fromX, g.maxX), j);
  }

  /** At or below that spacing some position rounds past lane 0 although it may steer there. */
  lemma NarrowSpacingLosesALane(g: Grid) returns (fromX: real)
    requires EvenLanes(g) && Spacing(g) <= 2.0 * Slack(g)
    ensures PointerInRoad(g, fromX, g.lanes[0]) && !InWindow(g, fromX, 0)
  {
    LanePosition(g, 0);
    LanePosition(g, 1);
    fromX := HalfLaneShift(g);
    assert 0.001 <= g.alpha < 1.0;
    hide NearestLane, Slack, Spacing, Follow, PointerInRoad, EvenLanes;
    NearestLaneBounds(g, Follow(g, fromX, g.minX), 1);
    PointerBounds(g, fromX, g.lanes[0]);
  }

  lemma HalfLaneShift(g: Grid) returns (fromX: real)
    requires EvenLanes(g)
    ensures Follow(g, fromX, g.minX) == g.minX + 0.5 * Spacing(g)
    ensures Follow(g, fromX, g.minX) <= Follow(g, fromX, g.maxX)
  {
    hide Spacing;
    var shift := 0.5 * Spacing(g) / (1.0 - g.alpha);
    assert (1.0 - g.alpha) * shift == 0.5 * Spacing(g);
    fromX := g.minX + shift;
    assert Blend(g.alpha, fromX, g.minX) == g.minX + (1.0 - g.alpha) * shift;
    BlendOrder(g.alpha, fromX, g.minX, g.maxX);
  }

  /** The lane window loses no legal lane, from any position, exactly when lanes are spaced more
      than 0.02 * alpha apart. */
  lemma WindowLosslessIff(g: Grid)
    requires EvenLanes(g)
    ensures (forall fromX: real, j: nat | j < |g.lanes| && PointerInRoad(g, fromX, g.lanes[j]) :: InWindow(g, fromX, j))
            <==> Spacing(g) > 2.0 * Slack(g)
  {
    hide PointerInRoad, InWindow, Slack, Spacing;
    if Spacing(g) > 2.0 * Slack(g) {
      forall fromX: real, j: nat | j < |g.lanes| && PointerInRoad(g, fromX, g.lanes[j])
        ensures InWindow(g, fromX, j)
      {
        WindowHoldsLegalLane(g, fromX, j);
      }
    } else {
      var fromX := NarrowSpacingLosesALane(g);
    }
  }

  const LANE_COUNT := 101

  /** With 101 lanes, and a car that covers less than half of the way in one step, lanes are far enough
      apart on every road of at least a pixel. */
  lemma ShippedLanesAreFarApart(g: Grid)
    requires EvenLanes(g) && |g.lanes| == LANE_COUNT && g.alpha < 0.5
    ensures Spacing(g) > 2.0 * Slack(g)
  {}

  // ---------------------------------------------------------------------------
  // Lane paths
  // ---------------------------------------------------------------------------

  /** Where the car is before step `s` of a lane path that starts at `x`. */
  function Before(g: Grid, x: real, p: seq<nat>, s: nat): real
    requires IsLanePath(g, p) && s <= |p|
  {
    if s == 0 then x else g.lanes[p[s - 1]]
  }

  predicate IsLanePath(g: Grid, p: seq<nat>) {
    forall s | 0 <= s < |p| :: p[s] < |g.lanes|
  }

  /** A move that ends in a lane free of hazards at that step, by a pointer inside the road. */
  predicate LegalMove(g: Grid, s: nat, fromX: real, j: nat)
    requires Shaped(g)
  {
    s < g.steps && j < |g.lanes| && g.colliders[s][j] == [] && PointerInRoad(g, fromX, g.lanes[j])
  }

  /** Collision-free at every step, with every move's pointer inside the road. */
  predicate LegalPath(g: Grid, x: real, p: seq<nat>)
    requires Shaped(g) && |p| <= g.steps
  {
    && IsLanePath(g, p)
    && forall s {:trigger Before(g, x, p, s)} | 0 <= s < |p| :: LegalMove(g, s, Before(g, x, p, s), p[s])
  }

  /** A legal move that also lies in the lane window the search scans. */
  predicate Allowed(g: Grid, s: nat, fromX: real, j: nat)
    requires Shaped(g)
  {
    LegalMove(g, s, fromX, j) && InWindow(g, fromX, j)
  }

  predicate WindowedPath(g: Grid, x: real, p: seq<nat>)
    requires Shaped(g) && |p| <= g.steps
  {
    && IsLanePath(g, p)
    && forall s {:trigger Before(g, x, p, s)} | 0 <= s < |p| :: Allowed(g, s, Before(g, x, p, s), p[s])
  }

  function PriorCost(prior: Option<real>, x: real): real {
    if prior.Some? then Abs(x - prior.value) * PRIOR_TARGET_COST else 0.0
  }

  function PathRisk(g: Grid, x: real, prior: Option<real>, p: seq<nat>): real
    requires Shaped(g) && 0 < |p| <= g.steps && IsLanePath(g, p)
  {
    var s := |p| - 1;
    var here := g.risk[s][p[s]] + Abs(g.lanes[p[s]] - Before(g, x, p, s)) * MOVE_COST;
    if s == 0 then here + PriorCost(prior, g.lanes[p[0]])
    else PathRisk(g, x, prior, p[..s]) + here
  }

  // ---------------------------------------------------------------------------
  // The same paths, from steering and risks themselves
  // ---------------------------------------------------------------------------

  /** Some pointer in the road, give or take 0.01, takes the car there in one step. */
  ghost predicate CanReach(g: Grid, fromX: real, toX: real) {
    exists pointer :: g.minX - 0.01 <= pointer <= g.maxX + 0.01 && Follow(g, fromX, pointer) == toX
  }

  lemma CanReachIff(g: Grid, fromX: real, toX: real)
    requires 0.001 <= g.alpha
    ensures CanReach(g, fromX, toX) <==> PointerInRoad(g, fromX, toX)
  {
    var p := PointerForMove(g, fromX, toX);
    assert p == Inverse(g.alpha, fromX, toX);
    BlendInverse(g.alpha, fromX, toX);
    assert Follow(g, fromX, p) == toX;
    if pointer :| g.minX - 0.01 <= pointer <= g.maxX + 0.01 && Follow(g, fromX, pointer) == toX {
      BlendOrder(g.alpha, fromX, pointer, p);
      BlendOrder(g.alpha, fromX, p, pointer);
      assert pointer == p;
    }
  }

  ghost predicate FreeAndReachable(g: Grid, x: real, p: seq<nat>, s: nat)
    requires Shaped(g) && s < |p| <= g.steps && IsLanePath(g, p)
  {
    g.colliders[s][p[s]] == [] && CanReach(g, Before(g, x, p, s), g.lanes[p[s]])
  }

  /** A path is legal iff every cell on it is free of hazards and can be reached from the one before. */
  lemma LegalIff(g: Grid, x: real, p: seq<nat>)
    requires Shaped(g) && |p| <= g.steps && 0.001 <= g.alpha
    ensures LegalPath(g, x, p) <==> IsLanePath(g, p) && forall s: nat | s < |p| :: FreeAndReachable(g, x, p, s)
  {
    hide CanReach, PointerInRoad, Shaped;
    if IsLanePath(g, p) {
      forall s: nat | s < |p|
        ensures FreeAndReachable(g, x, p, s) <==> LegalMove(g, s, Before(g, x, p, s), p[s])
      {
        CanReachIff(g, Before(g, x, p, s), g.lanes[p[s]]);
      }
    }
  }

  function RiskSum(g: Grid, p: seq<nat>): real
    requires Shaped(g) && |p| <= g.steps && IsLanePath(g, p)
  {
    if p == [] then 0.0 else RiskSum(g, p[..|p| - 1]) + g.risk[|p| - 1][p[|p| - 1]]
  }

  function Travel(g: Grid, x: real, p: seq<nat>): real
    requires IsLanePath(g, p)
  {
    if p == [] then 0.0 else Travel(g, x, p[..|p| - 1]) + Abs(g.lanes[p[|p| - 1]] - Before(g, x, p, |p| - 1))
  }

  /** A path's risk is the risks of its cells, 0.0032 a pixel of travel, and 0.0011 for every pixel its
      first lane is away from the previous target. */
  lemma {:induction false} PathRiskAddsUp(g: Grid, x: real, prior: Option<real>, p: seq<nat>)
    requires Shaped(g) && 0 < |p| <= g.steps && IsLanePath(g, p)
    ensures PathRisk(g, x, prior, p)
            == RiskSum(g, p) + Travel(g, x, p) * 0.0032
               + if prior.Some? then Abs(g.lanes[p[0]] - prior.value) * 0.0011 else 0.0
  {
    hide Abs, Shaped;
    var s := |p| - 1;
    if s > 0 {
      PathRiskAddsUp(g, x, prior, p[..s]);
    } else {
      assert p[..0] == [];
    }
  }

  // ---------------------------------------------------------------------------
  // The search as a layered graph
  // ---------------------------------------------------------------------------

  function StartCost(g: Grid, x: real, prior: Option<real>, j: nat): Extended
    requires Shaped(g)
  {
    if !Allowed(g, 0, x, j) then Inf
    else Fin(g.risk[0][j] + Abs(g.lanes[j] - x) * MOVE_COST + PriorCost(prior, g.lanes[j]))
  }

  function StepCost(g: Grid, s: nat, i: nat, j: nat): Extended
    requires Shaped(g)
  {
    if i >= |g.lanes| || !Allowed(g, s, g.lanes[i], j) then Inf
    else Fin(g.risk[s][j] + Abs(g.lanes[j] - g.lanes[i]) * MOVE_COST)
  }

  function Graph(g: Grid, x: real, prior: Option<real>): Layers
    requires Shaped(g)
  {
    var n := |g.lanes|;
    Layers(n, seq(n, (j: nat) => StartCost(g, x, prior, j)),
           seq(g.steps, (s: nat) => seq(n, (i: nat) => seq(n, (j: nat) => StepCost(g, s, i, j)))))
  }

  /** `net` is the graph of the search, entry by entry. */
  ghost predicate IsGraph(g: Grid, x: real, prior: Option<real>, net: Layers)
    requires Shaped(g)
  {
    && net.width == |g.lanes|
    && (forall j: nat | j < |g.lanes| :: Init(net, j) == StartCost(g, x, prior, j))
    && forall s: nat, i: nat, j: nat | s < g.steps && i < |g.lanes| && j < |g.lanes| ::
         Edge(net, s, i, j) == StepCost(g, s, i, j)
  }

  lemma GraphIsGraph(g: Grid, x: real, prior: Option<real>)
    requires Shaped(g)
    ensures IsGraph(g, x, prior, Graph(g, x, prior))
  {
    hide StartCost, StepCost, Shaped;
  }

  lemma {:induction false} PathCostIsRisk(g: Grid, x: real, prior: Option<real>, net: Layers, p: seq<nat>)
    requires Shaped(g) && IsGraph(g, x, prior, net)
    requires 0 < |p| <= g.steps && IsLanePath(g, p)
    ensures PathCost(net, p) == if WindowedPath(g, x, p) then Fin(PathRisk(g, x, prior, p)) else Inf
  {
    hide Allowed, Shaped, WindowedPath, Before, PriorCost, Init, Edge;
    var s := |p| - 1;
    if s == 0 {
      WindowedStart(g, x, p);
    } else {
      var q := p[..s];
      PathCostIsRisk(g, x, prior, net, q);
      WindowedExtends(g, x, p);
      assert Edge(net, s, p[s - 1], p[s]) == StepCost(g, s, p[s - 1], p[s]);
    }
  }

  lemma WindowedStart(g: Grid, x: real, p: seq<nat>)
    requires Shaped(g) && |p| == 1 && IsLanePath(g, p)
    ensures Before(g, x, p, 0) == x
    ensures WindowedPath(g, x, p) <==> Allowed(g, 0, x, p[0])
  {
    hide Allowed;
  }

  /** A path is windowed iff all but its last step are, and the last move is one the search allows. */
  lemma WindowedExtends(g: Grid, x: real, p: seq<nat>)
    requires Shaped(g) && 1 < |p| <= g.steps && IsLanePath(g, p)
    ensures Before(g, x, p, |p| - 1) == g.lanes[p[|p| - 2]]
    ensures WindowedPath(g, x, p)
            <==> WindowedPath(g, x, p[..|p| - 1]) && Allowed(g, |p| - 1, g.lanes[p[|p| - 2]], p[|p| - 1])
  {
    hide Allowed, Shaped;
    var q := p[..|p| - 1];
    assert forall k | 0 <= k < |q| :: q[k] == p[k] && Before(g, x, q, k) == Before(g, x, p, k);
    assert Before(g, x, p, |q|) == g.lanes[p[|p| - 2]];
  }

  /** With lanes far enough apart the windowed paths are exactly the legal ones. */
  lemma WindowedIffLegal(g: Grid, x: real, p: seq<nat>)
    requires Shaped(g) && EvenLanes(g) && Spacing(g) > 2.0 * Slack(g)
    requires |p| <= g.steps
    ensures WindowedPath(g, x, p) <==> LegalPath(g, x, p)
  {
    forall s | IsLanePath(g, p) && 0 <= s < |p|
      ensures Allowed(g, s, Before(g, x, p, s), p[s]) <==> LegalMove(g, s, Before(g, x, p, s), p[s])
    {
      if LegalMove(g, s, Before(g, x, p, s), p[s]) {
        WindowHoldsLegalLane(g, Before(g, x, p, s), p[s]);
      }
    }
    hide Allowed, LegalMove;
  }

  // ---------------------------------------------------------------------------
  // The search
  // ---------------------------------------------------------------------------

  datatype Plan = Plan(firstX: real, target: real, risk: real)

  function Target(g: Grid, x: real, firstX: real): real {
    Clamp(PointerForMove(g, x, firstX), g.minX, g.maxX)
  }

  /** Steering to the clamped pointer lands within 0.01 * alpha of the planned lane, and exactly
      on it iff the pointer needed no clamping. */
  lemma SteeringLandsOnPlannedLane(g: Grid, x: real, firstX: real)
    requires 0.001 <= g.alpha < 1.0 && g.minX <= g.maxX
    requires PointerInRoad(g, x, firstX)
    ensures Abs(Follow(g, x, Target(g, x, firstX)) - firstX) <= Slack(g)
    ensures Follow(g, x, Target(g, x, firstX)) == firstX
            <==> g.minX <= PointerForMove(g, x, firstX) <= g.maxX
  {
    var p, t := PointerForMove(g, x, firstX), Target(g, x, firstX);
    assert -POINTER_SLACK <= t - p <= POINTER_SLACK && (t == p <==> g.minX <= p <= g.maxX);
    assert p == Inverse(g.alpha, x, firstX);
    BlendInverse(g.alpha, x, firstX);
    BlendShift(g.alpha, x, p, t - p);
    hide PointerForMove, Target, Blend, PointerInRoad, Inverse;
    ScaledOffset(t - p, g.alpha, Slack(g));
  }

  lemma ScaledOffset(offset: real, k: real, bound: real)
    requires k > 0.0 && -POINTER_SLACK <= offset <= POINTER_SLACK && bound == k * POINTER_SLACK
    ensures Abs(k * offset) <= bound
    ensures k * offset == 0.0 <==> offset == 0.0
  {
    OrderScales(offset, POINTER_SLACK, k);
    OrderScales(-POINTER_SLACK, offset, k);
    assert -POINTER_SLACK * k == -bound;
  }

  /** A complete plan: legal, and scanned by the search if `scanned` is asked for. */
  ghost predicate Admissible(g: Grid, x: real, p: seq<nat>, scanned: bool)
    requires Shaped(g)
  {
    |p| == g.steps && IsLanePath(g, p) && if scanned then WindowedPath(g, x, p) else LegalPath(g, x, p)
  }

  /** `plan` follows the path `p`: it has its cost and steers towards its first lane. */
  ghost predicate Follows(g: Grid, x: real, prior: Option<real>, plan: Plan, p: seq<nat>)
    requires Shaped(g)
  {
    && |p| == g.steps && IsLanePath(g, p)
    && plan == Plan(g.lanes[p[0]], Target(g, x, g.lanes[p[0]]), PathRisk(g, x, prior, p))
  }

  /** No result iff there is no admissible path; otherwise the plan follows an admissible path
      that costs no more than any other. */
  ghost predicate Exact(g: Grid, x: real, prior: Option<real>, r: Option<Plan>, scanned: bool)
    requires Shaped(g)
  {
    match r
    case None => forall p :: !Admissible(g, x, p, scanned)
    case Some(plan) =>
      && (forall p | Admissible(g, x, p, scanned) :: plan.risk <= PathRisk(g, x, prior, p))
      && exists p :: Admissible(g, x, p, scanned) && Follows(g, x, prior, plan, p)
  }

  /** The plan read off the graph: the cheapest final lane and the first lane that leads to it. */
  ghost predicate IsSearchResult(g: Grid, x: real, net: Layers, r: Option<Plan>)
    requires Shaped(g)
  {
    var best := Select(net, g.steps - 1, |g.lanes|);
    if best.1 < 0 then r == None
    else
      var first := Trace(net, g.steps - 1, best.1)[0];
      first < |g.lanes| && best.0.Fin?
      && r == Some(Plan(g.lanes[first], Target(g, x, g.lanes[first]), best.0.v))
  }

  /** The graph's optimum bounds the risk of every path the search scans. */
  lemma OptimumIsLowerBound(g: Grid, x: real, prior: Option<real>, net: Layers, p: seq<nat>)
    requires Shaped(g) && IsGraph(g, x, prior, net) && Admissible(g, x, p, true)
    ensures var best := Select(net, g.steps - 1, |g.lanes|);
            best.1 >= 0 && best.0.Fin? && best.0.v <= PathRisk(g, x, prior, p)
  {
    assert g.steps >= 1;
    PathCostIsRisk(g, x, prior, net, p);
    hide WindowedPath, PathRisk, Shaped, Select, PathCost, Init, Edge;
    SelectIsLowerBound(net, p);
    SelectIsMinimum(net, g.steps - 1, |g.lanes|);
  }

  /** The traced path is scanned and attains the optimum. */
  lemma OptimumIsAttained(g: Grid, x: real, prior: Option<real>, net: Layers) returns (p: seq<nat>)
    requires Shaped(g) && IsGraph(g, x, prior, net) && Select(net, g.steps - 1, |g.lanes|).1 >= 0
    ensures var best := Select(net, g.steps - 1, |g.lanes|);
            && p == Trace(net, g.steps - 1, best.1)
            && Admissible(g, x, p, true) && best.0 == Fin(PathRisk(g, x, prior, p))
  {
    assert g.steps >= 1;
    hide WindowedPath, PathRisk, Shaped, Select, PathCost, Feasible, Trace, Init, Edge;
    SelectionIsExact(net, g.steps - 1);
    p := Trace(net, g.steps - 1, Select(net, g.steps - 1, |g.lanes|).1);
    PathCostIsRisk(g, x, prior, net, p);
  }

  /** The layered graph's optimum is exact over the paths the search scans. */
  lemma SearchIsExact(g: Grid, x: real, prior: Option<real>, net: Layers, r: Option<Plan>)
    requires Shaped(g) && IsGraph(g, x, prior, net) && IsSearchResult(g, x, net, r)
    ensures Exact(g, x, prior, r, true)
  {
    assert g.steps >= 1;
    hide WindowedPath, PathRisk, Shaped, Select, Trace, Target, LegalPath, IsLanePath, IsGraph;
    forall q | Admissible(g, x, q, true)
      ensures r.Some? && r.value.risk <= PathRisk(g, x, prior, q)
    {
      OptimumIsLowerBound(g, x, prior, net, q);
    }
    if r.Some? {
      var p := OptimumIsAttained(g, x, prior, net);
      assert Follows(g, x, prior, r.value, p);
    }
  }

  /** And it is exact over all legal paths when the lanes are far enough apart. */
  lemma SearchIsExactOverLegalPaths(g: Grid, x: real, prior: Option<real>, r: Option<Plan>)
    requires Shaped(g) && Exact(g, x, prior, r, true)
    requires EvenLanes(g) && Spacing(g) > 2.0 * Slack(g)
    ensures Exact(g, x, prior, r, false)
  {
    forall p
      ensures Admissible(g, x, p, true) <==> Admissible(g, x, p, false)
    {
      if |p| == g.steps {
        WindowedIffLegal(g, x, p);
      }
    }
    hide Admissible, PathRisk, Follows, Shaped;
  }

  /** Relaxes every move from lane `i` of step `s - 1`. */
  method RelaxFrom(g: Grid, ghost net: Layers, s: nat, i: nat, base: real, next: array<Extended>, from: array<int>)
    requires Shaped(g) && 1 <= s < g.steps && i < |g.lanes| == next.Length == from.Length
    requires forall k: nat | k < next.Length :: Edge(net, s, i, k) == StepCost(g, s, i, k)
    requires Best(net, s - 1, i) == Fin(base)
    requires forall k: nat | k < next.Length :: (next[k], from[k]) == Scan(net, s, k, i)
    modifies next, from
    ensures forall k: nat | k < next.Length :: (next[k], from[k]) == Scan(net, s, k, i + 1)
  {
    hide PointerInRoad, NearestLane;
    var xi := g.lanes[i];
    var window := ReachableRange(g, xi);
    var j := window.0;
    forall k: nat | k < next.Length && !Allowed(g, s, xi, k)
      ensures Scan(net, s, k, i + 1) == Scan(net, s, k, i)
    {
      assert Edge(net, s, i, k) == Inf;
    }
    while j <= window.1
      invariant window.0 <= j
      invariant forall k: nat | k < j && k < next.Length :: (next[k], from[k]) == Scan(net, s, k, i + 1)
      invariant forall k: nat | j <= k < next.Length :: (next[k], from[k]) == Scan(net, s, k, i)
      decreases window.1 - j
    {
      if g.colliders[s][j] == [] && PointerInRoad(g, xi, g.lanes[j]) {
        assert Edge(net, s, i, j) == StepCost(g, s, i, j);
        var c := Fin(base + (g.risk[s][j] + Abs(g.lanes[j] - xi) * MOVE_COST));
        if Less(c, next[j]) {
          next[j] := c;
          from[j] := i;
        }
      }
      j := j + 1;
    }
  }

  /** The costs of the first step, taken straight from the car's position. */
  method FirstStep(g: Grid, x: real, prior: Option<real>) returns (prev: array<Extended>, from: array<int>)
    requires Shaped(g)
    ensures fresh(prev) && fresh(from) && prev.Length == from.Length == |g.lanes|
    ensures forall k: nat | k < prev.Length :: prev[k] == StartCost(g, x, prior, k)
  {
    hide PointerInRoad, NearestLane;
    prev := new Extended[|g.lanes|](_ => Inf);
    from := new int[|g.lanes|](_ => -1);
    var window := ReachableRange(g, x);
    var j := window.0;
    while j <= window.1
      invariant window.0 <= j
      invariant forall k: nat | k < prev.Length :: prev[k] == if k < j then StartCost(g, x, prior, k) else Inf
      decreases window.1 - j
    {
      if g.colliders[0][j] == [] && PointerInRoad(g, x, g.lanes[j]) {
        var c := g.risk[0][j] + Abs(g.lanes[j] - x) * MOVE_COST;
        if prior.Some? {
          c := c + Abs(g.lanes[j] - prior.value) * PRIOR_TARGET_COST;
        }
        prev[j] := Fin(c);
        from[j] := -2;
      }
      j := j + 1;
    }
  }

  /** One sweep over all lanes of step `s - 1`: the costs and predecessors of step `s`. */
  method NextStep(g: Grid, ghost net: Layers, s: nat, prev: array<Extended>) returns (next: array<Extended>, from: array<int>)
    requires Shaped(g) && 1 <= s < g.steps && prev.Length == |g.lanes| == net.width
    requires forall i: nat, k: nat | i < net.width && k < net.width :: Edge(net, s, i, k) == StepCost(g, s, i, k)
    requires forall k: nat | k < prev.Length :: prev[k] == Best(net, s - 1, k)
    ensures fresh(next) && fresh(from) && next.Length == from.Length == prev.Length
    ensures forall k: nat | k < next.Length :: next[k] == Best(net, s, k) && from[k] == Scan(net, s, k, net.width).1
  {
    hide StepCost, Shaped;
    var n := prev.Length;
    next := new Extended[n](_ => Inf);
    from := new int[n](_ => -1);
    for i := 0 to n
      invariant forall k: nat | k < n :: (next[k], from[k]) == Scan(net, s, k, i)
      invariant forall k: nat | k < n :: prev[k] == Best(net, s - 1, k)
    {
      assert prev[i] == Best(net, s - 1, i);
      if prev[i].Inf? {
        continue;
      }
      RelaxFrom(g, net, s, i, prev[i].v, next, from);
    }
  }

  method CheapestLane(ghost net: Layers, ghost layer: nat, costs: array<Extended>) returns (lane: int, cost: Extended)
    requires costs.Length == net.width
    requires forall k: nat | k < costs.Length :: costs[k] == Best(net, layer, k)
    ensures (cost, lane) == Select(net, layer, net.width)
  {
    lane, cost := -1, Inf;
    for i := 0 to costs.Length
      invariant (cost, lane) == Select(net, layer, i)
    {
      if Less(costs[i], cost) {
        lane, cost := i, costs[i];
      }
    }
  }

  /** Walks the recorded predecessors back to the first step. */
  method FirstLane(ghost net: Layers, parents: seq<array<int>>, last: nat) returns (lane: nat)
    requires |parents| >= 1 && last < net.width && Best(net, |parents| - 1, last).Fin?
    requires forall q | 1 <= q < |parents| :: parents[q].Length == net.width
    requires forall q: nat, k: nat | 1 <= q < |parents| && k < net.width :: parents[q][k] == Scan(net, q, k, net.width).1
    ensures lane == Trace(net, |parents| - 1, last)[0] && lane < net.width
  {
    lane := last;
    var s := |parents| - 1;
    while s >= 1
      invariant 0 <= s < |parents| && lane < net.width
      invariant Best(net, s, lane).Fin?
      invariant Trace(net, s, lane)[0] == Trace(net, |parents| - 1, last)[0]
    {
      ScanIsMinimum(net, s, lane, net.width);
      var p := parents[s][lane];
      if p < 0 {
        break;
      }
      lane := p;
      s := s - 1;
    }
  }

  /** The costs of the last step, and the predecessors recorded on the way. */
  method FillTable(g: Grid, x: real, prior: Option<real>, ghost net: Layers)
    returns (prev: array<Extended>, parents: seq<array<int>>)
    requires Shaped(g) && IsGraph(g, x, prior, net)
    ensures prev.Length == net.width && |parents| == g.steps
    ensures forall k: nat | k < net.width :: prev[k] == Best(net, g.steps - 1, k)
    ensures forall q | 1 <= q < g.steps :: parents[q].Length == net.width
    ensures forall q: nat, k: nat | 1 <= q < g.steps && k < net.width :: parents[q][k] == Scan(net, q, k, net.width).1
  {
    assert g.steps >= 1;
    hide StartCost, StepCost, Shaped, Init, Edge;
    var start;
    prev, start := FirstStep(g, x, prior);
    parents := [start];
    for s := 1 to g.steps
      invariant prev.Length == net.width
      invariant |parents| == s && forall q | 1 <= q < s :: parents[q].Length == net.width
      invariant forall k: nat | k < net.width :: prev[k] == Best(net, s - 1, k)
      invariant forall q: nat, k: nat | 1 <= q < s && k < net.width :: parents[q][k] == Scan(net, q, k, net.width).1
    {
      var from;
      prev, from := NextStep(g, net, s, prev);
      parents := parents + [from];
    }
  }

  /** The dynamic program. Its result is exact over the paths whose lanes it scans, and hence over
      all collision-free, pointer-legal paths when the lanes are far enough apart. */
  method NormalDP(g: Grid, x: real, prior: Option<real>) returns (r: Option<Plan>)
    requires Shaped(g)
    ensures Exact(g, x, prior, r, true)
    ensures EvenLanes(g) && Spacing(g) > 2.0 * Slack(g) ==> Exact(g, x, prior, r, false)
  {
    assert g.steps >= 1;
    hide Target, Shaped, EvenLanes, Exact, Graph, Init, Edge, StartCost, StepCost, Scan, Best, Trace, Select;
    ghost var net := Graph(g, x, prior);
    GraphIsGraph(g, x, prior);
    var prev, parents := FillTable(g, x, prior, net);
    var bestLane, bestCost := CheapestLane(net, g.steps - 1, prev);
    SelectIsMinimum(net, g.steps - 1, net.width);
    r := None;
    if bestLane >= 0 {
      var firstLane := FirstLane(net, parents, bestLane);
      var firstX := g.lanes[firstLane];
      r := Some(Plan(firstX, Target(g, x, firstX), bestCost.v));
    }
    ResultIsExact(g, x, prior, net, r);
  }

  lemma ResultIsExact(g: Grid, x: real, prior: Option<real>, net: Layers, r: Option<Plan>)
    requires Shaped(g) && IsGraph(g, x, prior, net) && IsSearchResult(g, x, net, r)
    ensures Exact(g, x, prior, r, true)
    ensures EvenLanes(g) && Spacing(g) > 2.0 * Slack(g) ==> Exact(g, x, prior, r, false)
  {
    hide Shaped, IsGraph, IsSearchResult, Exact;
    SearchIsExact(g, x, prior, net, r);
    if EvenLanes(g) && Spacing(g) > 2.0 * Slack(g) {
      SearchIsExactOverLegalPaths(g, x, prior, r);
    }
  }

  /** So on the planner's own settings nothing is lost. */
  lemma ShippedSearchIsExact(g: Grid, x: real, prior: Option<real>, r: Option<Plan>)
    requires Shaped(g) && EvenLanes(g) && |g.lanes| == LANE_COUNT && g.alpha < 0.5
    requires Exact(g, x, prior, r, true)
    ensures Exact(g, x, prior, r, false)
  {
    ShippedLanesAreFarApart(g);
    hide Shaped, Exact, EvenLanes, Spacing, Slack;
    SearchIsExactOverLegalPaths(g, x, prior, r);
  }

  // ---------------------------------------------------------------------------
  // From forecast to plan
  // ---------------------------------------------------------------------------

  /** The grid's collision table is that of the forecast. */
  ghost predicate ShowsForecast(g: Grid, forecast: seq<seq<Disc>>, py: real)
    requires Shaped(g)
  {
    && (forall h | 0 <= h < |forecast| :: |forecast[h]| == g.steps)
    && forall s, i, h: nat | 0 <= s < g.steps && 0 <= i < |g.lanes| ::
         h in g.colliders[s][i] <==> h < |forecast| && Collides(forecast[h][s], g.lanes[i], py)
  }

  /** Hazards whose reach fits the band in which samples are looked at. */
  predicate FitsBand(z: Disc) {
    0.0 <= Radius(z, SAFETY_MARGIN) && HALF_HEIGHT + Radius(z, SAFETY_MARGIN) <= 110.0
  }

  /** A scanned path touches no hazard of the forecast at any of its steps. */
  lemma PathMissesForecast(g: Grid, x: real, p: seq<nat>, forecast: seq<seq<Disc>>, py: real, s: nat, h: nat)
    requires Shaped(g) && ShowsForecast(g, forecast, py) && |p| <= g.steps && WindowedPath(g, x, p)
    requires s < |p| && h < |forecast|
    ensures !Collides(forecast[h][s], g.lanes[p[s]], py)
    ensures FitsBand(forecast[h][s]) ==> !CollisionAt(g.lanes[p[s]], py, forecast[h][s], SAFETY_MARGIN)
  {
    hide CollisionAt, PointerInRoad, InWindow, Radius;
    assert Allowed(g, s, Before(g, x, p, s), p[s]);
    assert h !in g.colliders[s][p[s]];
    if FitsBand(forecast[h][s]) && CollisionAt(g.lanes[p[s]], py, forecast[h][s], SAFETY_MARGIN) {
      CollisionNeedsVerticalReach(g.lanes[p[s]], py, forecast[h][s], SAFETY_MARGIN);
    }
  }

  /** The plan follows a path that misses every hazard of the forecast at every step. */
  ghost predicate FollowsSafePath(g: Grid, x: real, prior: Option<real>, plan: Plan, forecast: seq<seq<Disc>>, py: real)
    requires Shaped(g) && ShowsForecast(g, forecast, py)
  {
    exists p :: Follows(g, x, prior, plan, p) && WindowedPath(g, x, p) && Misses(g, p, forecast, py)
  }

  ghost predicate Misses(g: Grid, p: seq<nat>, forecast: seq<seq<Disc>>, py: real)
    requires Shaped(g) && ShowsForecast(g, forecast, py) && |p| <= g.steps && IsLanePath(g, p)
  {
    forall s, h | 0 <= s < |p| && 0 <= h < |forecast| && FitsBand(forecast[h][s]) ::
      !CollisionAt(g.lanes[p[s]], py, forecast[h][s], SAFETY_MARGIN)
  }

  /** Builds the collision table of a forecast and plans on it: the plan is exact for that table, and
      really misses the forecast's hazards. */
  method PlanForForecast(minX: real, maxX: real, alpha: real, steps: nat, lanes: seq<real>, risk: seq<seq<real>>,
                         forecast: seq<seq<Disc>>, py: real, x: real, prior: Option<real>)
    returns (g: Grid, r: Option<Plan>)
    requires |lanes| >= 1 && steps >= 1 && |risk| == steps && forall s | 0 <= s < steps :: |risk[s]| == |lanes|
    requires forall h | 0 <= h < |forecast| :: |forecast[h]| == steps
    ensures Shaped(g) && ShowsForecast(g, forecast, py) && g == Grid(minX, maxX, alpha, steps, lanes, risk, g.colliders)
    ensures Exact(g, x, prior, r, true)
    ensures r.Some? ==> FollowsSafePath(g, x, prior, r.value, forecast, py)
  {
    hide Collides, Exact, FollowsSafePath;
    var colliders := BuildColliders(forecast, steps, lanes, py);
    g := Grid(minX, maxX, alpha, steps, lanes, risk, colliders);
    r := NormalDP(g, x, prior);
    if r.Some? {
      ExactPlanIsSafe(g, x, prior, r, forecast, py);
    }
  }

  lemma ExactPlanIsSafe(g: Grid, x: real, prior: Option<real>, r: Option<Plan>, forecast: seq<seq<Disc>>, py: real)
    requires Shaped(g) && ShowsForecast(g, forecast, py) && Exact(g, x, prior, r, true) && r.Some?
    ensures FollowsSafePath(g, x, prior, r.value, forecast, py)
  {
    hide WindowedPath, CollisionAt, Collides, FitsBand, PathRisk, Target;
    var p :| Admissible(g, x, p, true) && Follows(g, x, prior, r.value, p);
    forall s, h | 0 <= s < |p| && 0 <= h < |forecast| && FitsBand(forecast[h][s])
      ensures !CollisionAt(g.lanes[p[s]], py, forecast[h][s], SAFETY_MARGIN)
    {
      PathMissesForecast(g, x, p, forecast, py, s, h);
    }
    assert Misses(g, p, forecast, py);
  }
}

/** The beam searches of V8 and V12: states reached by steering towards lanes are expanded, merged by
    nearest lane and spent hazard, and cut to the cheapest few. At most one collision is allowed, with
    the one hazard that the shield then removes. The versions differ in where along a move the car is
    sampled, in the size of the band around it and in their cost constants. */
module Beam {
  import opened Numbers
  import opened Geometry
  import opened Steering
  import opened Lanes
  import opened Sorting

  /** A collision sample of a move: the share `q` of the hazard's step, and the share of the way to the
      pointer that the car has covered by then. */
  datatype Sample = Sample(q: real, share: real)

  /** `preference(x, step)` gathers the cost terms that depend only on where a step ends: power rewards,
      hysteresis and, in V12, edge reserve and mobility. */
  datatype Scene = Scene(playerX: real, py: real, minX: real, maxX: real, alpha: real, dt: real, steps: nat,
                         laneCount: nat, fan: nat, beamWidth: nat,
                         margin: real, bandAbove: real, bandBelow: real,
                         nearMissRadius: real, nearMissCost: real, minRiskTime: real, moveCost: real, turnCost: real,
                         reverseCost: real, shieldSpendCost: real,
                         samples: seq<Sample>, hazards: seq<Disc>, paths: seq<seq<Disc>>, previousDelta: real,
                         m: Analysis, preference: (real, nat) -> real)

  predicate WellFormed(s: Scene) {
    && s.laneCount >= 2 && s.beamWidth >= 1 && s.minRiskTime > 0.0
    && |s.paths| == |s.hazards| && forall h | 0 <= h < |s.paths| :: |s.paths[h]| == s.steps
  }

  function LaneX(s: Scene, i: int): real
    requires s.laneCount >= 2
  {
    s.minX + (s.maxX - s.minX) * i as real / (s.laneCount - 1) as real
  }

  function NearestLane(s: Scene, x: real): int {
    NearestMark(x - s.minX, s.maxX - s.minX, s.laneCount - 1)
  }

  lemma LanePosition(s: Scene, i: int)
    requires s.laneCount >= 2
    ensures LaneX(s, i) == s.minX + MarkAt(i, (s.maxX - s.minX) / (s.laneCount - 1) as real)
  {
    var w, n := s.maxX - s.minX, (s.laneCount - 1) as real;
    assert w * i as real / n == i as real * (w / n);
  }

  /** The lanes run evenly from one edge to the other, and no lane is nearer to a position than the one it
      rounds to. */
  lemma LanesSpanRoad(s: Scene, x: real, i: int)
    requires s.laneCount >= 2 && s.maxX - s.minX >= 1.0 && 0 <= i < s.laneCount
    ensures LaneX(s, 0) == s.minX && LaneX(s, s.laneCount - 1) == s.maxX
    ensures 0 <= NearestLane(s, x) < s.laneCount
    ensures Abs(x - LaneX(s, NearestLane(s, x))) <= Abs(x - LaneX(s, i))
  {
    hide NearestMark, LaneX, MarkAt;
    var spacing := (s.maxX - s.minX) / (s.laneCount - 1) as real;
    NearestMarkIsNearest(x - s.minX, s.maxX - s.minX, s.laneCount - 1, spacing, i);
    LanePosition(s, i);
    LanePosition(s, NearestLane(s, x));
    EndLanes(s);
  }

  lemma EndLanes(s: Scene)
    requires s.laneCount >= 2
    ensures LaneX(s, 0) == s.minX && LaneX(s, s.laneCount - 1) == s.maxX
  {}

  // ---------------------------------------------------------------------------
  // Moves
  // ---------------------------------------------------------------------------

  function Between(a: real, b: real, q: real): real {
    a + (b - a) * q
  }

  /** The point a share `q` of the way between two forecast positions. */
  function Along(start: Disc, end: Disc, q: real): Disc {
    Disc(Between(start.x, end.x, q), Between(start.y, end.y, q), end.size)
  }

  /** Hazard h a share `q` into a step, on the line between its forecast positions. */
  function HazardAt(s: Scene, step: nat, h: nat, q: real): Disc
    requires WellFormed(s) && step < s.steps && h < |s.paths|
  {
    var end := s.paths[h][step];
    var start := if step == 0 then s.hazards[h] else s.paths[h][step - 1];
    Along(start, end, q)
  }

  /** A hazard moves without jumps: a step starts where the one before ended, the first where the hazard is
      now, and ends at its forecast position. */
  lemma HazardMovesOn(s: Scene, step: nat, h: nat)
    requires WellFormed(s) && step < s.steps && h < |s.paths|
    ensures HazardAt(s, step, h, 1.0) == s.paths[h][step]
    ensures var start := HazardAt(s, step, h, 0.0);
            if step == 0 then start.x == s.hazards[h].x && start.y == s.hazards[h].y
            else start.x == s.paths[h][step - 1].x && start.y == s.paths[h][step - 1].y
    ensures forall q: real ::
              && HazardAt(s, step, h, q).size == s.paths[h][step].size
              && HazardAt(s, step, h, q).x == (1.0 - q) * HazardAt(s, step, h, 0.0).x + q * HazardAt(s, step, h, 1.0).x
              && HazardAt(s, step, h, q).y == (1.0 - q) * HazardAt(s, step, h, 0.0).y + q * HazardAt(s, step, h, 1.0).y
  {
    forall q: real
      ensures && HazardAt(s, step, h, q).x == (1.0 - q) * HazardAt(s, step, h, 0.0).x + q * HazardAt(s, step, h, 1.0).x
              && HazardAt(s, step, h, q).y == (1.0 - q) * HazardAt(s, step, h, 0.0).y + q * HazardAt(s, step, h, 1.0).y
    {
      var end := s.paths[h][step];
      var start := if step == 0 then s.hazards[h] else s.paths[h][step - 1];
      BetweenMixes(start.x, end.x, q);
      BetweenMixes(start.y, end.y, q);
    }
  }

  lemma BetweenMixes(a: real, b: real, q: real)
    ensures Between(a, b, q) == (1.0 - q) * a + q * b
    ensures Between(a, b, 0.0) == a && Between(a, b, 1.0) == b
  {}

  predicate InBand(s: Scene, z: Disc) {
    s.py - s.bandAbove <= z.y <= s.py + s.bandBelow
  }

  predicate HitAt(s: Scene, x: real, target: real, step: nat, i: nat, h: nat)
    requires WellFormed(s) && step < s.steps && i < |s.samples| && h < |s.paths|
  {
    var z := HazardAt(s, step, h, s.samples[i].q);
    InBand(s, z) && CollisionAt(Blend(s.samples[i].share, x, target), s.py, z, s.margin)
  }

  /** Is hazard h, unless it is the spent one, hit at any sample of a move? */
  predicate Hits(s: Scene, x: real, target: real, step: nat, spent: int, h: nat)
    requires WellFormed(s) && step < s.steps && h < |s.paths|
  {
    h != spent && exists i :: 0 <= i < |s.samples| && HitAt(s, x, target, step, i, h)
  }

  function HitSet(s: Scene, x: real, target: real, step: nat, spent: int): set<nat>
    requires WellFormed(s) && step < s.steps
  {
    set h: nat | h < |s.paths| && Hits(s, x, target, step, spent, h)
  }

  /** The penalty of passing a hazard at some clearance, spread over the samples of a move. */
  function NearMiss(s: Scene, clearance: real, step: nat, i: nat): real
    requires WellFormed(s) && i < |s.samples|
  {
    if clearance >= s.nearMissRadius then 0.0
    else PenaltyShare(s, s.m.decay(Max(0.0, clearance)), Max(s.minRiskTime, (step as real + s.samples[i].q) * s.dt))
  }

  /** One sample's share of the near-miss penalty. */
  function PenaltyShare(s: Scene, decay: real, time: real): real
    requires time > 0.0 && |s.samples| > 0
  {
    s.nearMissCost * decay / time / |s.samples| as real
  }

  /** Near-miss risk of one sample of one hazard; none where it is skipped or hit. */
  function SampleRisk(s: Scene, x: real, target: real, step: nat, spent: int, i: nat, h: nat): real
    requires WellFormed(s) && step < s.steps && i < |s.samples| && h < |s.paths|
  {
    var z := HazardAt(s, step, h, s.samples[i].q);
    if h == spent || !InBand(s, z) || HitAt(s, x, target, step, i, h) then 0.0
    else NearMiss(s, ClearanceAt(s.m, Blend(s.samples[i].share, x, target), s.py, z, s.margin), step, i)
  }

  /** Risk added up over the samples before (i, h) in scan order. */
  function Risk(s: Scene, x: real, target: real, step: nat, spent: int, i: nat, h: nat): real
    requires WellFormed(s) && step < s.steps
    requires h <= |s.paths| && (i < |s.samples| || (i == |s.samples| && h == 0))
    decreases i, h
  {
    if h > 0 then Risk(s, x, target, step, spent, i, h - 1) + SampleRisk(s, x, target, step, spent, i, h - 1)
    else if i > 0 then Risk(s, x, target, step, spent, i - 1, |s.paths|)
    else 0.0
  }

  function MoveRisk(s: Scene, x: real, target: real, step: nat, spent: int): real
    requires WellFormed(s) && step < s.steps
  {
    Risk(s, x, target, step, spent, |s.samples|, 0)
  }

  /** Scans a move sample by sample, collecting the distinct hazards hit and the risk of the others. */
  method ScanMove(s: Scene, x: real, target: real, step: nat, spent: int) returns (hits: set<nat>, risk: real)
    requires WellFormed(s) && step < s.steps
    ensures hits == HitSet(s, x, target, step, spent) && risk == MoveRisk(s, x, target, step, spent)
  {
    hide CollisionAt, ClearanceAt, Blend, HazardAt, NearMiss;
    hits, risk := {}, 0.0;
    for i := 0 to |s.samples|
      invariant risk == Risk(s, x, target, step, spent, i, 0)
      invariant forall h: nat :: h in hits <==>
                  h < |s.paths| && h != spent && exists k :: 0 <= k < i && HitAt(s, x, target, step, k, h)
    {
      for h := 0 to |s.paths|
        invariant risk == Risk(s, x, target, step, spent, i, h)
        invariant forall g: nat :: g in hits <==>
                    g < |s.paths| && g != spent
                    && ((exists k :: 0 <= k < i && HitAt(s, x, target, step, k, g)) || (g < h && HitAt(s, x, target, step, i, g)))
      {
        if h == spent {
          continue;
        }
        var z := HazardAt(s, step, h, s.samples[i].q);
        if z.y < s.py - s.bandAbove || z.y > s.py + s.bandBelow {
          continue;
        }
        var carX := Blend(s.samples[i].share, x, target);
        if CollisionAt(carX, s.py, z, s.margin) {
          hits := hits + {h};
          continue;
        }
        risk := risk + NearMiss(s, ClearanceAt(s.m, carX, s.py, z, s.margin), step, i);
      }
    }
  }

  /** The smallest member at or above `from`. */
  function Least(hits: set<nat>, from: nat, n: nat): (r: nat)
    requires from <= n && exists h :: h in hits && from <= h < n
    ensures r in hits && from <= r < n
    decreases n - from
  {
    if from in hits then from else Least(hits, from + 1, n)
  }

  datatype Evaluation = Evaluation(x: real, risk: real, spent: int, shieldCost: real)

  /** A move with a hit is blocked, unless the shield may pay for its single hazard. */
  function Transition(s: Scene, x: real, spent: int, target: real, step: nat, allowShield: bool): Option<Evaluation>
    requires WellFormed(s) && step < s.steps
  {
    var hits := HitSet(s, x, target, step, spent);
    var x1, risk := Blend(s.alpha, x, target), MoveRisk(s, x, target, step, spent);
    if hits == {} then Some(Evaluation(x1, risk, spent, 0.0))
    else if allowShield && spent < 0 && |hits| == 1 then
      Some(Evaluation(x1, risk, Least(hits, 0, |s.paths|), s.shieldSpendCost))
    else None
  }

  // ---------------------------------------------------------------------------
  // When a move is let through
  // ---------------------------------------------------------------------------

  /** The move hits hazard h, which is not the spent one, at some sample. */
  ghost predicate Meets(s: Scene, x: real, target: real, step: nat, spent: int, h: nat)
    requires WellFormed(s) && step < s.steps
  {
    h < |s.paths| && h != spent && exists i: nat :: i < |s.samples| && HitAt(s, x, target, step, i, h)
  }

  ghost predicate MeetsTwo(s: Scene, x: real, target: real, step: nat, spent: int)
    requires WellFormed(s) && step < s.steps
  {
    exists g: nat, h: nat :: g != h && Meets(s, x, target, step, spent, g) && Meets(s, x, target, step, spent, h)
  }

  /** Two hazards are met, or one is and the shield is not to be used or used already. */
  ghost predicate Blocked(s: Scene, x: real, spent: int, target: real, step: nat, allowShield: bool)
    requires WellFormed(s) && step < s.steps
  {
    || MeetsTwo(s, x, target, step, spent)
    || ((!allowShield || spent >= 0) && exists h: nat :: Meets(s, x, target, step, spent, h))
  }

  lemma MeetsIffInHitSet(s: Scene, x: real, target: real, step: nat, spent: int)
    requires WellFormed(s) && step < s.steps
    ensures forall h: nat :: Meets(s, x, target, step, spent, h) <==> h in HitSet(s, x, target, step, spent)
  {
    hide HitAt;
  }

  lemma TwoMembers(hits: set<nat>)
    ensures |hits| >= 2 <==> exists g: nat, h: nat :: g != h && g in hits && h in hits
  {
    if |hits| >= 2 {
      var g :| g in hits;
      assert hits == {g} + (hits - {g});
      var h :| h in hits - {g};
    }
    if g, h :| g != h && g in hits && h in hits {
      assert hits == {g, h} + (hits - {g, h});
    }
  }

  /** A move is refused exactly when it meets two hazards, or one that the shield cannot pay for. A hazard
      that is met otherwise is the one spent, at the shield's price; a move that meets none spends and pays
      nothing. */
  lemma TransitionIff(s: Scene, x: real, spent: int, target: real, step: nat, allowShield: bool)
    requires WellFormed(s) && step < s.steps
    ensures Transition(s, x, spent, target, step, allowShield).None? <==> Blocked(s, x, spent, target, step, allowShield)
    ensures Transition(s, x, spent, target, step, allowShield).Some? ==>
              var ev := Transition(s, x, spent, target, step, allowShield).value;
              && ev.x == Blend(s.alpha, x, target) && ev.risk == MoveRisk(s, x, target, step, spent)
              && (forall h: nat | Meets(s, x, target, step, spent, h) :: ev.spent == h && ev.shieldCost == s.shieldSpendCost)
              && ((forall h: nat :: !Meets(s, x, target, step, spent, h)) ==> ev.spent == spent && ev.shieldCost == 0.0)
  {
    hide HitSet, MoveRisk, Blend, Meets;
    var hits := HitSet(s, x, target, step, spent);
    MeetsIffInHitSet(s, x, target, step, spent);
    TwoMembers(hits);
    if hits != {} {
      var h :| h in hits;
      assert Meets(s, x, target, step, spent, h);
    }
    if Transition(s, x, spent, target, step, allowShield).Some? {
      forall h: nat | Meets(s, x, target, step, spent, h)
        ensures Transition(s, x, spent, target, step, allowShield).value.spent == h
      {
        OnlyMember(hits, h, Least(hits, 0, |s.paths|));
      }
    }
  }

  // ---------------------------------------------------------------------------
  // Search states
  // ---------------------------------------------------------------------------

  /** V12 keeps the parent, V8 carries the first target and position along; states here do both. */
  datatype Node =
    | Root(delta0: real)
    | Move(parent: Node, target: real, x: real, cost: real, delta: real, spent: int, firstTarget: real, firstX: real)

  function X(s: Scene, n: Node): real {
    if n.Root? then s.playerX else n.x
  }

  function Cost(n: Node): real {
    if n.Root? then 0.0 else n.cost
  }

  function Delta(n: Node): real {
    if n.Root? then n.delta0 else n.delta
  }

  function Spent(n: Node): int {
    if n.Root? then -1 else n.spent
  }

  function StepCost(s: Scene, n: Node, ev: Evaluation, step: nat): real {
    var delta := ev.x - X(s, n);
    ev.risk + ev.shieldCost + Abs(delta) * s.moveCost + Abs(delta - Delta(n)) * s.turnCost
    + (if Sign(Delta(n)) * Sign(delta) == -1 then s.reverseCost else 0.0)
    + s.preference(ev.x, step)
  }

  function Child(s: Scene, n: Node, target: real, step: nat, allowShield: bool): Option<Node>
    requires WellFormed(s) && step < s.steps
  {
    var ev := Transition(s, X(s, n), Spent(n), target, step, allowShield);
    if ev.None? then None
    else
      Some(Move(n, target, ev.value.x, Cost(n) + StepCost(s, n, ev.value, step), ev.value.x - X(s, n), ev.value.spent,
                if n.Root? then target else n.firstTarget, if n.Root? then ev.value.x else n.firstX))
  }

  function Key(s: Scene, n: Node): (int, int) {
    (NearestLane(s, X(s, n)), Spent(n))
  }

  /** Lanes tried from a position: both edges, a fan around the nearest lane, and every tenth lane. */
  predicate CandidateLane(s: Scene, x: real, i: int) {
    var center := NearestLane(s, x);
    && 0 <= i < s.laneCount
    && (i == 0 || i == s.laneCount - 1 || i % 10 == 0 || (center - s.fan <= i <= center + s.fan))
  }

  method CandidateLanes(s: Scene, x: real) returns (lanes: seq<int>)
    requires s.laneCount >= 2
    ensures forall i :: i in lanes <==> CandidateLane(s, x, i)
  {
    hide NearestLane;
    NearestLaneInRange(s, x);
    var last := s.laneCount - 1;
    var around := Fan(NearestLane(s, x), s.fan, last);
    lanes := around;
    var i := 0;
    while i < s.laneCount
      invariant 0 <= i && i % 10 == 0
      invariant forall k :: k in lanes <==> k in around || (0 <= k <= last && k < i && k % 10 == 0)
    {
      if i !in lanes {
        lanes := lanes + [i];
      }
      i := i + 10;
    }
  }

  /** Both edges, the lane the car is at and those up to `fan` lanes away. */
  method Fan(center: int, fan: nat, last: int) returns (lanes: seq<int>)
    requires 0 <= center <= last
    ensures forall i :: i in lanes <==> i == 0 || i == last || (0 <= i <= last && center - fan <= i <= center + fan)
  {
    lanes := [0, last, center];
    for k := -(fan as int) to fan + 1
      invariant forall i :: i in lanes <==>
                  i == 0 || i == last || i == center || (0 <= i <= last && center - fan <= i < center + k)
    {
      var i := ClampInt(center + k, 0, last);
      if i !in lanes {
        lanes := lanes + [i];
      }
    }
  }

  lemma NearestLaneInRange(s: Scene, x: real)
    requires s.laneCount >= 2
    ensures 0 <= NearestLane(s, x) < s.laneCount
  {
    hide Round;
  }

  /** A state the search can really reach in k moves. */
  ghost predicate ValidChain(s: Scene, n: Node, k: nat, allowShield: bool)
    requires WellFormed(s) && k <= s.steps
    decreases n
  {
    match n
    case Root(delta0) => k == 0 && delta0 == s.previousDelta
    case Move(parent, target, _, _, _, _, _, _) =>
      && k > 0 && ValidChain(s, parent, k - 1, allowShield)
      && (exists i :: 0 <= i < s.laneCount && target == LaneX(s, i))
      && Child(s, parent, target, k - 1, allowShield) == Some(n)
  }

  // ---------------------------------------------------------------------------
  // One expansion
  // ---------------------------------------------------------------------------

  /** The cheapest state found so far under each key, with the keys in order of first appearance. */
  datatype Table = Table(best: map<(int, int), Node>, keys: seq<(int, int)>)

  ghost predicate TableOk(s: Scene, t: Table) {
    && (forall k :: k in t.keys <==> k in t.best)
    && forall k | k in t.best :: Key(s, t.best[k]) == k
  }

  /** `n` is stored, or something no dearer under the same key. */
  predicate Covered(s: Scene, t: Table, n: Node) {
    Key(s, n) in t.best && Cost(t.best[Key(s, n)]) <= Cost(n)
  }

  /** A child of `st` by one of its candidate lanes. */
  ghost predicate IsChild(s: Scene, st: Node, step: nat, allowShield: bool, c: Node)
    requires WellFormed(s) && step < s.steps
  {
    exists i :: CandidateLane(s, X(s, st), i) && Child(s, st, LaneX(s, i), step, allowShield) == Some(c)
  }

  ghost predicate IsChildOf(s: Scene, beam: seq<Node>, step: nat, allowShield: bool, c: Node)
    requires WellFormed(s) && step < s.steps
  {
    exists b :: 0 <= b < |beam| && IsChild(s, beam[b], step, allowShield, c)
  }

  function Store(s: Scene, t: Table, c: Node): (r: Table)
    requires TableOk(s, t)
    ensures TableOk(s, r) && Covered(s, r, c)
    ensures forall n | Covered(s, t, n) :: Covered(s, r, n)
    ensures forall k | k in r.best :: r.best[k] == c || (k in t.best && r.best[k] == t.best[k])
  {
    var k := Key(s, c);
    if k !in t.best then Table(t.best[k := c], t.keys + [k])
    else if Cost(c) < Cost(t.best[k]) then Table(t.best[k := c], t.keys)
    else t
  }

  method ExpandNode(s: Scene, st: Node, step: nat, allowShield: bool, t: Table) returns (r: Table)
    requires WellFormed(s) && step < s.steps && TableOk(s, t)
    ensures TableOk(s, r)
    ensures forall c | IsChild(s, st, step, allowShield, c) :: Covered(s, r, c)
    ensures forall n | Covered(s, t, n) :: Covered(s, r, n)
    ensures forall k | k in r.best :: IsChild(s, st, step, allowShield, r.best[k]) || (k in t.best && r.best[k] == t.best[k])
  {
    hide CandidateLane, LaneX, HitSet, MoveRisk, StepCost, NearestLane, TableOk, Store, Covered, Blend;
    r := t;
    var lanes := CandidateLanes(s, X(s, st));
    for l := 0 to |lanes|
      invariant TableOk(s, r)
      invariant forall k | 0 <= k < l && Child(s, st, LaneX(s, lanes[k]), step, allowShield).Some? ::
                  Covered(s, r, Child(s, st, LaneX(s, lanes[k]), step, allowShield).value)
      invariant forall n | Covered(s, t, n) :: Covered(s, r, n)
      invariant forall k | k in r.best :: IsChild(s, st, step, allowShield, r.best[k]) || (k in t.best && r.best[k] == t.best[k])
    {
      var child := TryMove(s, st, LaneX(s, lanes[l]), step, allowShield);
      assert CandidateLane(s, X(s, st), lanes[l]);
      if child.Some? {
        assert IsChild(s, st, step, allowShield, child.value);
        r := Store(s, r, child.value);
      }
    }
  }

  method TryMove(s: Scene, st: Node, target: real, step: nat, allowShield: bool) returns (child: Option<Node>)
    requires WellFormed(s) && step < s.steps
    ensures child == Child(s, st, target, step, allowShield)
    ensures child.None? <==> Blocked(s, X(s, st), Spent(st), target, step, allowShield)
  {
    hide HitSet, MoveRisk, StepCost, Blend, Blocked;
    TransitionIff(s, X(s, st), Spent(st), target, step, allowShield);
    var hits, risk := ScanMove(s, X(s, st), target, step, Spent(st));
    var x1 := Blend(s.alpha, X(s, st), target);
    var spent, shieldCost := Spent(st), 0.0;
    if hits != {} {
      if allowShield && spent < 0 && |hits| == 1 {
        HitsInRange(s, X(s, st), target, step, spent);
        spent, shieldCost := Least(hits, 0, |s.paths|), s.shieldSpendCost;
      } else {
        return None;
      }
    }
    var ev := Evaluation(x1, risk, spent, shieldCost);
    child := Some(Move(st, target, x1, Cost(st) + StepCost(s, st, ev, step), x1 - X(s, st), spent,
                       if st.Root? then target else st.firstTarget, if st.Root? then x1 else st.firstX));
  }

  lemma HitsInRange(s: Scene, x: real, target: real, step: nat, spent: int)
    requires WellFormed(s) && step < s.steps
    ensures forall h | h in HitSet(s, x, target, step, spent) :: 0 <= h < |s.paths|
  {}

  // ---------------------------------------------------------------------------
  // The beam
  // ---------------------------------------------------------------------------

  ghost predicate SortedByCost(beam: seq<Node>) {
    forall i, j | 0 <= i < j < |beam| :: Cost(beam[i]) <= Cost(beam[j])
  }

  /** Something in the beam is no dearer under the same key, or the beam is full of cheaper states. */
  ghost predicate Represented(s: Scene, beam: seq<Node>, c: Node) {
    || (exists k :: 0 <= k < |beam| && Key(s, beam[k]) == Key(s, c) && Cost(beam[k]) <= Cost(c))
    || (|beam| == s.beamWidth && forall k | 0 <= k < |beam| :: Cost(beam[k]) <= Cost(c))
  }

  /** One step of the search: children of the beam, cheapest first, with every child represented. */
  ghost predicate Expands(s: Scene, beam: seq<Node>, step: nat, allowShield: bool, next: seq<Node>)
    requires WellFormed(s) && step < s.steps
  {
    && |next| <= s.beamWidth && SortedByCost(next)
    && (forall k | 0 <= k < |next| :: IsChildOf(s, beam, step, allowShield, next[k]))
    && forall c | IsChildOf(s, beam, step, allowShield, c) :: Represented(s, next, c)
  }

  method ExpandAll(s: Scene, beam: seq<Node>, step: nat, allowShield: bool) returns (t: Table)
    requires WellFormed(s) && step < s.steps
    ensures TableOk(s, t)
    ensures forall c | IsChildOf(s, beam, step, allowShield, c) :: Covered(s, t, c)
    ensures forall k | k in t.best :: IsChildOf(s, beam, step, allowShield, t.best[k])
  {
    hide IsChild, Covered, TableOk;
    t := Table(map[], []);
    EmptyTable(s);
    for b := 0 to |beam|
      invariant TableOk(s, t)
      invariant forall k, c | 0 <= k < b && IsChild(s, beam[k], step, allowShield, c) :: Covered(s, t, c)
      invariant forall k | k in t.best :: IsChildOf(s, beam, step, allowShield, t.best[k])
    {
      t := ExpandNode(s, beam[b], step, allowShield, t);
    }
  }

  lemma EmptyTable(s: Scene)
    ensures TableOk(s, Table(map[], []))
  {}

  /** The stored states in order of cost, cut to the beam width. */
  method SortAndCut(s: Scene, t: Table) returns (next: seq<Node>)
    requires TableOk(s, t)
    ensures |next| <= s.beamWidth && SortedByCost(next)
    ensures forall k | 0 <= k < |next| :: Key(s, next[k]) in t.best && next[k] == t.best[Key(s, next[k])]
    ensures forall c | Covered(s, t, c) :: Represented(s, next, c)
  {
    hide Key;
    var nodes := seq(|t.keys|, (i: nat) requires i < |t.keys| && t.keys[i] in t.best => t.best[t.keys[i]]);
    var costs := seq(|nodes|, (i: nat) requires i < |nodes| => Cost(nodes[i]));
    var order := StableOrder(costs);
    var width := if |order| < s.beamWidth then |order| else s.beamWidth;
    next := seq(width, (i: nat) requires i < width && width <= |order| && order[i] < |nodes| => nodes[order[i]]);
    forall i, j | 0 <= i < j < |next|
      ensures Cost(next[i]) <= Cost(next[j])
    {
      assert Before(costs, order[i], order[j]);
    }
    forall k | 0 <= k < |next|
      ensures Key(s, next[k]) in t.best && next[k] == t.best[Key(s, next[k])]
    {
      assert t.keys[order[k]] in t.keys;
    }
    forall c | Covered(s, t, c)
      ensures Represented(s, next, c)
    {
      CutRepresents(s, t, nodes, costs, order, next, c);
    }
  }

  lemma CutRepresents(s: Scene, t: Table, nodes: seq<Node>, costs: seq<real>, order: seq<nat>, next: seq<Node>, c: Node)
    requires TableOk(s, t) && Covered(s, t, c)
    requires |nodes| == |costs| == |t.keys| && IsPermutation(order, |nodes|) && InOrder(costs, order)
    requires forall i | 0 <= i < |nodes| :: t.keys[i] in t.best && nodes[i] == t.best[t.keys[i]] && costs[i] == Cost(nodes[i])
    requires |next| == (if |order| < s.beamWidth then |order| else s.beamWidth)
    requires forall i | 0 <= i < |next| :: next[i] == nodes[order[i]]
    ensures Represented(s, next, c)
  {
    hide Key;
    var d :| 0 <= d < |t.keys| && t.keys[d] == Key(s, c);
    assert d as nat in order;
    var k :| 0 <= k < |order| && order[k] == d;
    if k < |next| {
      assert Key(s, next[k]) == Key(s, c) && Cost(next[k]) <= Cost(c);
    } else {
      forall i | 0 <= i < |next|
        ensures Cost(next[i]) <= Cost(c)
      {
        assert Before(costs, order[i], order[k]);
      }
    }
  }

  method ExpandBeam(s: Scene, beam: seq<Node>, step: nat, allowShield: bool) returns (next: seq<Node>)
    requires WellFormed(s) && step < s.steps
    ensures Expands(s, beam, step, allowShield, next)
  {
    hide IsChildOf, Represented, TableOk, Covered, SortedByCost, Key;
    var t := ExpandAll(s, beam, step, allowShield);
    next := SortAndCut(s, t);
  }

  /** Every state in the beam can be reached in k moves. */
  ghost predicate Reachable(s: Scene, beam: seq<Node>, k: nat, allowShield: bool)
    requires WellFormed(s) && k <= s.steps
  {
    forall i | 0 <= i < |beam| :: ValidChain(s, beam[i], k, allowShield)
  }

  lemma ChildrenAreReachable(s: Scene, beam: seq<Node>, step: nat, allowShield: bool, next: seq<Node>)
    requires WellFormed(s) && step < s.steps
    requires Reachable(s, beam, step, allowShield) && Expands(s, beam, step, allowShield, next)
    ensures Reachable(s, next, step + 1, allowShield)
  {
    hide LaneX, Transition, StepCost, Represented, SortedByCost;
    forall k | 0 <= k < |next|
      ensures ValidChain(s, next[k], step + 1, allowShield)
    {
      assert IsChildOf(s, beam, step, allowShield, next[k]);
      var b :| 0 <= b < |beam| && IsChild(s, beam[b], step, allowShield, next[k]);
      var i :| CandidateLane(s, X(s, beam[b]), i) && Child(s, beam[b], LaneX(s, i), step, allowShield) == Some(next[k]);
      CandidateInRange(s, X(s, beam[b]), i);
    }
  }

  lemma CandidateInRange(s: Scene, x: real, i: int)
    requires CandidateLane(s, x, i)
    ensures 0 <= i < s.laneCount
  {}

  ghost predicate StepAt(s: Scene, beams: seq<seq<Node>>, k: nat, allowShield: bool)
    requires WellFormed(s) && k + 1 < |beams| <= s.steps + 1
  {
    Expands(s, beams[k], k, allowShield, beams[k + 1])
  }

  /** The beams of a search so far, each made from the one before. */
  ghost predicate IsHistory(s: Scene, beams: seq<seq<Node>>, allowShield: bool)
    requires WellFormed(s)
  {
    && 1 <= |beams| <= s.steps + 1 && beams[0] == [Root(s.previousDelta)]
    && forall k: nat | k + 1 < |beams| :: StepAt(s, beams, k, allowShield)
  }

  lemma HistoryGrows(s: Scene, beams: seq<seq<Node>>, next: seq<Node>, allowShield: bool)
    requires WellFormed(s) && IsHistory(s, beams, allowShield) && |beams| <= s.steps
    requires Expands(s, beams[|beams| - 1], |beams| - 1, allowShield, next)
    ensures IsHistory(s, beams + [next], allowShield)
  {
    hide Expands;
    forall k: nat | k + 1 < |beams + [next]|
      ensures StepAt(s, beams + [next], k, allowShield)
    {
      assert k + 1 < |beams| ==> StepAt(s, beams, k, allowShield);
    }
  }

  /** Whatever the search puts into a beam can really be reached. */
  lemma {:induction false} HistoryIsReachable(s: Scene, beams: seq<seq<Node>>, k: nat, allowShield: bool)
    requires WellFormed(s) && IsHistory(s, beams, allowShield) && k < |beams|
    ensures Reachable(s, beams[k], k, allowShield)
  {
    hide Reachable, Expands;
    if k == 0 {
      RootIsReachable(s, allowShield);
    } else {
      HistoryIsReachable(s, beams, k - 1, allowShield);
      assert StepAt(s, beams, k - 1, allowShield);
      ChildrenAreReachable(s, beams[k - 1], k - 1, allowShield, beams[k]);
    }
  }

  /** Every candidate move out of every state of a beam is blocked. */
  ghost predicate AllBlocked(s: Scene, beam: seq<Node>, step: nat, allowShield: bool)
    requires WellFormed(s) && step < s.steps
  {
    forall b, i | 0 <= b < |beam| && CandidateLane(s, X(s, beam[b]), i) ::
      Blocked(s, X(s, beam[b]), Spent(beam[b]), LaneX(s, i), step, allowShield)
  }

  lemma ChildlessIffAllBlocked(s: Scene, beam: seq<Node>, step: nat, allowShield: bool)
    requires WellFormed(s) && step < s.steps
    ensures (forall c :: !IsChildOf(s, beam, step, allowShield, c)) <==> AllBlocked(s, beam, step, allowShield)
  {
    hide CandidateLane, LaneX, Transition, Blocked, StepCost;
    forall b, i | 0 <= b < |beam| && CandidateLane(s, X(s, beam[b]), i)
      ensures Child(s, beam[b], LaneX(s, i), step, allowShield).None?
              <==> Blocked(s, X(s, beam[b]), Spent(beam[b]), LaneX(s, i), step, allowShield)
    {
      TransitionIff(s, X(s, beam[b]), Spent(beam[b]), LaneX(s, i), step, allowShield);
    }
    if !AllBlocked(s, beam, step, allowShield) {
      var b, i :| 0 <= b < |beam| && CandidateLane(s, X(s, beam[b]), i)
                  && !Blocked(s, X(s, beam[b]), Spent(beam[b]), LaneX(s, i), step, allowShield);
      var child := Child(s, beam[b], LaneX(s, i), step, allowShield).value;
      assert IsChild(s, beam[b], step, allowShield, child);
      assert IsChildOf(s, beam, step, allowShield, child);
    }
  }

  ghost predicate CheapestChild(s: Scene, best: Node, beam: seq<Node>, step: nat, allowShield: bool)
    requires WellFormed(s) && step < s.steps
  {
    && IsChildOf(s, beam, step, allowShield, best)
    && forall c | IsChildOf(s, beam, step, allowShield, c) :: Cost(best) <= Cost(c)
  }

  /** A search that has states left, short of the horizon, and finds every candidate move out of them
      blocked. */
  ghost predicate IsDeadEnd(s: Scene, beams: seq<seq<Node>>, allowShield: bool)
    requires WellFormed(s)
  {
    && IsHistory(s, beams, allowShield) && |beams| <= s.steps && |beams[|beams| - 1]| >= 1
    && AllBlocked(s, beams[|beams| - 1], |beams| - 1, allowShield)
  }

  ghost predicate DeadEnd(s: Scene, allowShield: bool)
    requires WellFormed(s)
  {
    exists beams :: IsDeadEnd(s, beams, allowShield)
  }

  /** A search up to the last step, and the cheapest child of its last beam. */
  ghost predicate IsCheapestOf(s: Scene, best: Node, beams: seq<seq<Node>>, allowShield: bool)
    requires WellFormed(s)
  {
    && IsHistory(s, beams, allowShield) && |beams| == s.steps >= 1
    && CheapestChild(s, best, beams[s.steps - 1], s.steps - 1, allowShield)
  }

  ghost predicate CheapestOfLast(s: Scene, best: Node, allowShield: bool)
    requires WellFormed(s)
  {
    exists beams :: IsCheapestOf(s, best, beams, allowShield)
  }

  /** The search. A result is a state really reached by a full plan, and the cheapest child of the last
      beam; without a result, every candidate move out of some beam was blocked. */
  method BeamPass(s: Scene, allowShield: bool) returns (best: Option<Node>)
    requires WellFormed(s) && s.steps >= 1
    ensures best.None? ==> DeadEnd(s, allowShield)
    ensures best.Some? ==> ValidChain(s, best.value, s.steps, allowShield) && CheapestOfLast(s, best.value, allowShield)
  {
    hide ValidChain, IsChildOf, Represented, SortedByCost, StepAt, AllBlocked;
    var beam := [Root(s.previousDelta)];
    ghost var beams: seq<seq<Node>> := [];
    for step := 0 to s.steps
      invariant |beams| == step && |beam| >= 1 && IsHistory(s, beams + [beam], allowShield)
      invariant step > 0 ==> IsHistory(s, beams, allowShield) && Expands(s, beams[step - 1], step - 1, allowShield, beam)
    {
      var next := ExpandBeam(s, beam, step, allowShield);
      beams := beams + [beam];
      if next == [] {
        NothingRepresents(s);
        ChildlessIffAllBlocked(s, beam, step, allowShield);
        assert IsDeadEnd(s, beams, allowShield);
        return None;
      }
      HistoryGrows(s, beams, next, allowShield);
      beam := next;
    }
    HistoryIsReachable(s, beams + [beam], s.steps, allowShield);
    FirstIsCheapest(s, beams[s.steps - 1], s.steps - 1, allowShield, beam);
    best := Some(beam[0]);
    assert IsCheapestOf(s, beam[0], beams, allowShield);
  }

  /** The two passes: a clean route if the search finds one, otherwise one that may use the shield. */
  method PlanMove(s: Scene, shield: bool) returns (plan: Option<Node>, rescue: bool)
    requires WellFormed(s) && s.steps >= 1
    ensures plan.None? ==> DeadEnd(s, false) && (shield ==> DeadEnd(s, true))
    ensures plan.Some? ==>
              && ValidChain(s, plan.value, s.steps, true) && Driven(s, plan.value) && Depth(plan.value) == s.steps
              && ClearExcept(s, plan.value, Spent(plan.value)) && MissesExcept(s, plan.value, Spent(plan.value))
              && (rescue <==> Spent(plan.value) >= 0)
    ensures rescue ==> plan.Some? && shield && DeadEnd(s, false)
    ensures plan.Some? ==> CheapestOfLast(s, plan.value, false)
                           || (shield && DeadEnd(s, false) && CheapestOfLast(s, plan.value, true))
  {
    hide ValidChain, DeadEnd, CheapestOfLast, ClearExcept, MissesExcept, Driven;
    rescue := false;
    plan := BeamPass(s, false);
    if plan.None? && shield {
      plan := BeamPass(s, true);
      rescue := plan.Some? && Spent(plan.value) >= 0;
    } else if plan.Some? {
      StrictPlanIsClear(s, plan.value, s.steps);
    }
    if plan.Some? {
      PlanIsDriven(s, plan.value, s.steps, true);
      PlanIsClear(s, plan.value, s.steps);
      ClearWayMisses(s, plan.value, Spent(plan.value));
    }
  }

  lemma RootIsReachable(s: Scene, allowShield: bool)
    requires WellFormed(s)
    ensures Reachable(s, [Root(s.previousDelta)], 0, allowShield)
  {}

  lemma NothingRepresents(s: Scene)
    requires WellFormed(s)
    ensures forall c :: !Represented(s, [], c)
  {}

  lemma FirstIsCheapest(s: Scene, beam: seq<Node>, step: nat, allowShield: bool, next: seq<Node>)
    requires WellFormed(s) && step < s.steps && Expands(s, beam, step, allowShield, next) && |next| >= 1
    ensures forall c | IsChildOf(s, beam, step, allowShield, c) :: Cost(next[0]) <= Cost(c)
  {
    hide IsChildOf, Key;
    forall c | IsChildOf(s, beam, step, allowShield, c)
      ensures Cost(next[0]) <= Cost(c)
    {
      assert Represented(s, next, c);
    }
  }

  // ---------------------------------------------------------------------------
  // What a plan guarantees
  // ---------------------------------------------------------------------------

  /** The number of moves that lead to a state. */
  function Depth(n: Node): nat {
    if n.Root? then 0 else Depth(n.parent) + 1
  }

  /** No sample of a move hits any hazard but `e` inside the band. */
  ghost predicate MoveClear(s: Scene, x: real, target: real, step: nat, e: int)
    requires WellFormed(s) && step < s.steps
  {
    forall i: nat, h: nat | i < |s.samples| && h < |s.paths| && h != e :: !HitAt(s, x, target, step, i, h)
  }

  /** No sample along the way to a state hits any hazard but `e` inside the band. */
  ghost predicate ClearExcept(s: Scene, n: Node, e: int)
    requires WellFormed(s) && Depth(n) <= s.steps
    decreases n
  {
    n.Move? ==> ClearExcept(s, n.parent, e) && MoveClear(s, X(s, n.parent), n.target, Depth(n.parent), e)
  }

  lemma {:induction false} StrictChainIsChain(s: Scene, n: Node, k: nat)
    requires WellFormed(s) && k <= s.steps && ValidChain(s, n, k, false)
    ensures ValidChain(s, n, k, true) && Spent(n) == -1
    decreases n
  {
    hide HitSet, MoveRisk, StepCost, LaneX, Blend;
    if n.Move? {
      StrictChainIsChain(s, n.parent, k - 1);
    }
  }

  lemma {:induction false} ClearStaysClear(s: Scene, n: Node, e: int)
    requires WellFormed(s) && Depth(n) <= s.steps && ClearExcept(s, n, -1)
    ensures ClearExcept(s, n, e)
    decreases n
  {
    hide HitAt;
    if n.Move? {
      ClearStaysClear(s, n.parent, e);
    }
  }

  /** A move that is not blocked hits nothing but the hazard spent before or by it; it spends a hazard
      only if none was spent before. */
  lemma TransitionClears(s: Scene, x: real, spent: int, target: real, step: nat, allowShield: bool)
    requires WellFormed(s) && step < s.steps && spent >= -1
    requires Transition(s, x, spent, target, step, allowShield).Some?
    ensures var spent' := Transition(s, x, spent, target, step, allowShield).value.spent;
            && spent' >= -1 && (spent >= 0 ==> spent' == spent)
            && MoveClear(s, x, target, step, spent')
  {
    hide HitAt, MoveRisk, Blend;
    var hits := HitSet(s, x, target, step, spent);
    var spent' := Transition(s, x, spent, target, step, allowShield).value.spent;
    forall i: nat, h: nat | i < |s.samples| && h < |s.paths| && h != spent' && HitAt(s, x, target, step, i, h)
      ensures false
    {
      if h != spent {
        assert Hits(s, x, target, step, spent, h) && h in hits;
        OnlyMember(hits, h, spent');
      }
    }
  }

  lemma OnlyMember(hits: set<nat>, a: nat, b: int)
    requires |hits| == 1 && a in hits && b >= 0 && b in hits
    ensures a == b
  {
    assert hits == {a} + (hits - {a});
  }

  /** Every state on the way is where following a lane's position for one step takes the car, the first move
      starting from the car itself. */
  ghost predicate Driven(s: Scene, n: Node)
    requires s.laneCount >= 2
    decreases n
  {
    n.Move? ==>
      && Driven(s, n.parent) && (exists i :: 0 <= i < s.laneCount && n.target == LaneX(s, i))
      && n.x == (1.0 - s.alpha) * (if n.parent.Root? then s.playerX else n.parent.x) + s.alpha * n.target
  }

  lemma {:induction false} PlanIsDriven(s: Scene, n: Node, k: nat, allowShield: bool)
    requires WellFormed(s) && k <= s.steps && ValidChain(s, n, k, allowShield)
    ensures Driven(s, n) && Depth(n) == k
    decreases n
  {
    hide HitSet, MoveRisk, StepCost, LaneX;
    if n.Move? {
      PlanIsDriven(s, n.parent, k - 1, allowShield);
    }
  }

  /** States are merged exactly when they are nearest to the same lane and have spent the same hazard, or both
      none. */
  lemma MergedIff(s: Scene, a: Node, b: Node)
    ensures Key(s, a) == Key(s, b) <==>
              && NearestLane(s, if a.Root? then s.playerX else a.x) == NearestLane(s, if b.Root? then s.playerX else b.x)
              && (if a.Root? then -1 else a.spent) == (if b.Root? then -1 else b.spent)
  {
    hide NearestLane;
  }

  /** Along a plan no sampled point hits a hazard in the band, but for the single spent one. */
  lemma {:induction false} PlanIsClear(s: Scene, n: Node, k: nat)
    requires WellFormed(s) && k <= s.steps && ValidChain(s, n, k, true)
    ensures Depth(n) == k && Spent(n) >= -1 && ClearExcept(s, n, Spent(n))
    decreases n
  {
    hide HitAt, Transition, StepCost, LaneX;
    if n.Move? {
      PlanIsClear(s, n.parent, k - 1);
      TransitionClears(s, X(s, n.parent), Spent(n.parent), n.target, k - 1, true);
      if Spent(n.parent) == -1 {
        ClearStaysClear(s, n.parent, Spent(n));
      }
    }
  }

  /** Skipping samples outside the band hides no collision with hazards small enough for it. */
  lemma BandHidesNothing(s: Scene, x: real, z: Disc)
    requires Radius(z, s.margin) >= 0.0
    requires HALF_HEIGHT + Radius(z, s.margin) <= Min(s.bandAbove, s.bandBelow)
    ensures !InBand(s, z) ==> !CollisionAt(x, s.py, z, s.margin)
  {
    hide CollisionAt, Radius;
    if CollisionAt(x, s.py, z, s.margin) {
      CollisionNeedsVerticalReach(x, s.py, z, s.margin);
    }
  }

  /** The reach of a hazard fits the band that samples are looked at in. */
  ghost predicate FitsBand(s: Scene, h: nat)
    requires WellFormed(s) && h < |s.paths|
  {
    forall k | 0 <= k < s.steps ::
      0.0 <= Radius(s.paths[h][k], s.margin) && HALF_HEIGHT + Radius(s.paths[h][k], s.margin) <= Min(s.bandAbove, s.bandBelow)
  }

  /** The car at sample i of a move, and the hazard then, collide: inside the band or not. */
  predicate CollidesAt(s: Scene, x: real, target: real, step: nat, i: nat, h: nat)
    requires WellFormed(s) && step < s.steps && i < |s.samples| && h < |s.paths|
  {
    CollisionAt(Blend(s.samples[i].share, x, target), s.py, HazardAt(s, step, h, s.samples[i].q), s.margin)
  }

  /** For hazards that fit the band nothing else is hit either. */
  ghost predicate MoveMisses(s: Scene, x: real, target: real, step: nat, e: int)
    requires WellFormed(s) && step < s.steps
  {
    forall i: nat, h: nat | i < |s.samples| && h < |s.paths| && h != e && FitsBand(s, h) ::
      !CollidesAt(s, x, target, step, i, h)
  }

  ghost predicate MissesExcept(s: Scene, n: Node, e: int)
    requires WellFormed(s) && Depth(n) <= s.steps
    decreases n
  {
    n.Move? ==> MissesExcept(s, n.parent, e) && MoveMisses(s, X(s, n.parent), n.target, Depth(n.parent), e)
  }

  lemma ClearMoveMisses(s: Scene, x: real, target: real, step: nat, e: int)
    requires WellFormed(s) && step < s.steps && MoveClear(s, x, target, step, e)
    ensures MoveMisses(s, x, target, step, e)
  {
    hide CollisionAt, Blend, Radius, Between;
    forall i: nat, h: nat | i < |s.samples| && h < |s.paths| && h != e && FitsBand(s, h)
      ensures !CollidesAt(s, x, target, step, i, h)
    {
      var z := HazardAt(s, step, h, s.samples[i].q);
      SameRadius(z, s.paths[h][step], s.margin);
      BandHidesNothing(s, Blend(s.samples[i].share, x, target), z);
      assert !HitAt(s, x, target, step, i, h);
    }
  }

  lemma SameRadius(a: Disc, b: Disc, margin: real)
    requires a.size == b.size
    ensures Radius(a, margin) == Radius(b, margin)
  {}

  lemma {:induction false} ClearWayMisses(s: Scene, n: Node, e: int)
    requires WellFormed(s) && Depth(n) <= s.steps && ClearExcept(s, n, e)
    ensures MissesExcept(s, n, e)
    decreases n
  {
    hide MoveClear, MoveMisses;
    if n.Move? {
      ClearWayMisses(s, n.parent, e);
      ClearMoveMisses(s, X(s, n.parent), n.target, Depth(n.parent), e);
    }
  }

  /** A plan collides nowhere, at any height, with any hazard that fits the band, but for the spent one. */
  lemma PlanNeverCollides(s: Scene, n: Node, k: nat)
    requires WellFormed(s) && k <= s.steps && ValidChain(s, n, k, true)
    ensures Depth(n) == k && MissesExcept(s, n, Spent(n))
  {
    hide ValidChain, ClearExcept, MissesExcept;
    PlanIsClear(s, n, k);
    ClearWayMisses(s, n, Spent(n));
  }

  /** A plan found without using the shield hits nothing at all in the band, and collides with nothing
      that fits it. */
  lemma StrictPlanIsClear(s: Scene, n: Node, k: nat)
    requires WellFormed(s) && k <= s.steps && ValidChain(s, n, k, false)
    ensures Depth(n) == k && ValidChain(s, n, k, true) && Spent(n) == -1
    ensures ClearExcept(s, n, -1) && MissesExcept(s, n, -1)
  {
    hide ValidChain, ClearExcept, MissesExcept;
    StrictChainIsChain(s, n, k);
    PlanIsClear(s, n, k);
    ClearWayMisses(s, n, -1);
  }

  // ---------------------------------------------------------------------------
  // What a plan costs
  // ---------------------------------------------------------------------------

  /** What hazard h adds at sample i of a move: nothing outside the band, in a collision or with the near-miss
      radius to spare; otherwise a share of the penalty, larger the nearer and the sooner. */
  function NearRisk(s: Scene, x: real, target: real, step: nat, i: nat, h: nat): real
    requires WellFormed(s) && step < s.steps && i < |s.samples| && h < |s.paths|
  {
    var z := HazardAt(s, step, h, s.samples[i].q);
    var c := ClearanceAt(s.m, Blend(s.samples[i].share, x, target), s.py, z, s.margin);
    if s.py - s.bandAbove <= z.y <= s.py + s.bandBelow && !CollidesAt(s, x, target, step, i, h) && c < s.nearMissRadius then
      var near := if c < 0.0 then 0.0 else c;
      var time := (step as real + s.samples[i].q) * s.dt;
      PenaltyShare(s, s.m.decay(near), if time < s.minRiskTime then s.minRiskTime else time)
    else 0.0
  }

  /** What one hazard adds over the first n samples. */
  function HazardRisk(s: Scene, x: real, target: real, step: nat, h: nat, n: nat): real
    requires WellFormed(s) && step < s.steps && h < |s.paths| && n <= |s.samples|
  {
    if n == 0 then 0.0 else HazardRisk(s, x, target, step, h, n - 1) + NearRisk(s, x, target, step, n - 1, h)
  }

  /** What the first m hazards but the spent one add over the first n samples. */
  function RiskByHazard(s: Scene, x: real, target: real, step: nat, spent: int, m: nat, n: nat): real
    requires WellFormed(s) && step < s.steps && m <= |s.paths| && n <= |s.samples|
  {
    if m == 0 then 0.0
    else RiskByHazard(s, x, target, step, spent, m - 1, n)
         + if m - 1 == spent then 0.0 else HazardRisk(s, x, target, step, m - 1, n)
  }

  lemma SampleAdds(s: Scene, x: real, target: real, step: nat, spent: int, i: nat, h: nat)
    requires WellFormed(s) && step < s.steps && i < |s.samples| && h < |s.paths|
    ensures SampleRisk(s, x, target, step, spent, i, h) == if h == spent then 0.0 else NearRisk(s, x, target, step, i, h)
  {
    hide CollisionAt, ClearanceAt, Blend, HazardAt, PenaltyShare;
  }

  lemma {:induction false} NoSamplesNoRisk(s: Scene, x: real, target: real, step: nat, spent: int, m: nat)
    requires WellFormed(s) && step < s.steps && m <= |s.paths|
    ensures RiskByHazard(s, x, target, step, spent, m, 0) == 0.0
  {
    if m > 0 {
      NoSamplesNoRisk(s, x, target, step, spent, m - 1);
    }
  }

  /** The scan adds up sample by sample; hazard by hazard it comes to the same. */
  lemma {:induction false} ScanAddsByHazard(s: Scene, x: real, target: real, step: nat, spent: int, i: nat, h: nat)
    requires WellFormed(s) && step < s.steps && h <= |s.paths| && i < |s.samples|
    requires Risk(s, x, target, step, spent, i, 0) == RiskByHazard(s, x, target, step, spent, |s.paths|, i)
    ensures Risk(s, x, target, step, spent, i, h) - Risk(s, x, target, step, spent, i, 0)
            == RiskByHazard(s, x, target, step, spent, h, i + 1) - RiskByHazard(s, x, target, step, spent, h, i)
  {
    hide SampleRisk, NearRisk;
    if h > 0 {
      ScanAddsByHazard(s, x, target, step, spent, i, h - 1);
      SampleAdds(s, x, target, step, spent, i, h - 1);
    }
  }

  lemma {:induction false} RiskSoFar(s: Scene, x: real, target: real, step: nat, spent: int, i: nat)
    requires WellFormed(s) && step < s.steps && i <= |s.samples|
    ensures Risk(s, x, target, step, spent, i, 0) == RiskByHazard(s, x, target, step, spent, |s.paths|, i)
  {
    hide SampleRisk, HazardRisk;
    if i == 0 {
      NoSamplesNoRisk(s, x, target, step, spent, |s.paths|);
    } else {
      RiskSoFar(s, x, target, step, spent, i - 1);
      ScanAddsByHazard(s, x, target, step, spent, i - 1, |s.paths|);
    }
  }

  /** The risk of a move is what its hazards add, the spent one left out. */
  lemma MoveRiskByHazard(s: Scene, x: real, target: real, step: nat, spent: int)
    requires WellFormed(s) && step < s.steps
    ensures MoveRisk(s, x, target, step, spent) == RiskByHazard(s, x, target, step, spent, |s.paths|, |s.samples|)
  {
    hide Risk, RiskByHazard;
    RiskSoFar(s, x, target, step, spent, |s.samples|);
  }

  /** How far the car moved last. */
  function Shift(s: Scene, n: Node): real {
    if n.Root? then s.previousDelta else X(s, n) - X(s, n.parent)
  }

  function Travel(s: Scene, n: Node): real {
    if n.Root? then 0.0 else Travel(s, n.parent) + Abs(Shift(s, n))
  }

  function Turning(s: Scene, n: Node): real {
    if n.Root? then 0.0 else Turning(s, n.parent) + Abs(Shift(s, n) - Shift(s, n.parent))
  }

  predicate TurnsBack(before: real, after: real) {
    before < 0.0 < after || after < 0.0 < before
  }

  function Reversals(s: Scene, n: Node): nat {
    if n.Root? then 0 else Reversals(s, n.parent) + if TurnsBack(Shift(s, n.parent), Shift(s, n)) then 1 else 0
  }

  /** How many hazards were spent along a chain. */
  function ShieldUses(n: Node): nat {
    if n.Root? then 0 else ShieldUses(n.parent) + if Spent(n) != Spent(n.parent) then 1 else 0
  }

  function RiskOf(s: Scene, n: Node): real
    requires WellFormed(s) && Depth(n) <= s.steps
    decreases n
  {
    if n.Root? then 0.0
    else
      RiskOf(s, n.parent)
      + RiskByHazard(s, X(s, n.parent), n.target, Depth(n.parent), Spent(n.parent), |s.paths|, |s.samples|)
  }

  function PreferenceOf(s: Scene, n: Node): real {
    if n.Root? then 0.0 else PreferenceOf(s, n.parent) + s.preference(X(s, n), Depth(n.parent))
  }

  /** The bill of a plan. */
  function Price(s: Scene, risk: real, travel: real, turning: real, reversals: nat, uses: nat, preference: real): real {
    risk + travel * s.moveCost + turning * s.turnCost + reversals as real * s.reverseCost
    + uses as real * s.shieldSpendCost + preference
  }

  lemma PriceAddsUp(s: Scene, r: real, t: real, u: real, v: nat, w: nat, p: real, r': real, t': real, u': real, v': nat, w': nat, p': real)
    ensures Price(s, r + r', t + t', u + u', v + v', w + w', p + p')
            == Price(s, r, t, u, v, w, p) + Price(s, r', t', u', v', w', p')
  {
    assert (t + t') * s.moveCost == t * s.moveCost + t' * s.moveCost;
    assert (u + u') * s.turnCost == u * s.turnCost + u' * s.turnCost;
    assert (v + v') as real * s.reverseCost == v as real * s.reverseCost + v' as real * s.reverseCost;
    assert (w + w') as real * s.shieldSpendCost == w as real * s.shieldSpendCost + w' as real * s.shieldSpendCost;
  }

  lemma OneStepCosts(s: Scene, n: Node, ev: Evaluation, step: nat, before: real, shift: real, uses: nat)
    requires before == Delta(n) && shift == ev.x - X(s, n) && uses <= 1
    requires ev.shieldCost == if uses == 1 then s.shieldSpendCost else 0.0
    ensures StepCost(s, n, ev, step)
            == Price(s, ev.risk, Abs(shift), Abs(shift - before), if TurnsBack(before, shift) then 1 else 0, uses,
                     s.preference(ev.x, step))
  {}

  lemma MeetsNothingOrSpends(s: Scene, x: real, spent: int, target: real, step: nat, allowShield: bool)
    requires WellFormed(s) && step < s.steps && spent >= -1
    requires Transition(s, x, spent, target, step, allowShield).Some?
    ensures var ev := Transition(s, x, spent, target, step, allowShield).value;
            ev.shieldCost == (if ev.spent != spent then s.shieldSpendCost else 0.0) && (ev.spent != spent ==> spent == -1 && ev.spent >= 0)
  {
    hide Transition, MoveRisk, Blend, HitAt;
    TransitionIff(s, x, spent, target, step, allowShield);
    if h: nat :| Meets(s, x, target, step, spent, h) {
    }
  }

  /** A plan costs its near-miss risk, its travel, its changes of speed, its reversals, the shield if a
      hazard was spent, which happens at most once, and its preference terms; nothing else. */
  lemma {:induction false} PlanCostAddsUp(s: Scene, n: Node, k: nat)
    requires WellFormed(s) && k <= s.steps && ValidChain(s, n, k, true)
    ensures Depth(n) == k && Delta(n) == Shift(s, n) && Spent(n) >= -1
    ensures ShieldUses(n) == if Spent(n) >= 0 then 1 else 0
    ensures Cost(n) == Price(s, RiskOf(s, n), Travel(s, n), Turning(s, n), Reversals(s, n), ShieldUses(n), PreferenceOf(s, n))
    decreases n
  {
    hide Transition, StepCost, LaneX, MoveRisk, RiskByHazard, Blend, Meets, Blocked, Price;
    if n.Root? {
      RootCostsNothing(s);
    } else {
      var p := n.parent;
      PlanCostAddsUp(s, p, k - 1);
      TransitionIff(s, X(s, p), Spent(p), n.target, k - 1, true);
      MoveRiskByHazard(s, X(s, p), n.target, k - 1, Spent(p));
      MeetsNothingOrSpends(s, X(s, p), Spent(p), n.target, k - 1, true);
      var ev := Transition(s, X(s, p), Spent(p), n.target, k - 1, true).value;
      var back: nat := if TurnsBack(Shift(s, p), Shift(s, n)) then 1 else 0;
      var use: nat := if Spent(n) != Spent(p) then 1 else 0;
      OneStepCosts(s, p, ev, k - 1, Shift(s, p), Shift(s, n), use);
      PriceAddsUp(s, RiskOf(s, p), Travel(s, p), Turning(s, p), Reversals(s, p), ShieldUses(p), PreferenceOf(s, p),
                  ev.risk, Abs(Shift(s, n)), Abs(Shift(s, n) - Shift(s, p)), back, use, s.preference(X(s, n), k - 1));
    }
  }

  lemma RootCostsNothing(s: Scene)
    ensures Price(s, 0.0, 0.0, 0.0, 0, 0, 0.0) == 0.0
  {}

  /** The car stays between the outer lanes. */
  lemma {:induction false} PlanStaysInRoad(s: Scene, n: Node, k: nat, allowShield: bool)
    requires WellFormed(s) && k <= s.steps && ValidChain(s, n, k, allowShield)
    requires s.minX <= s.playerX <= s.maxX && 0.0 <= s.alpha <= 1.0
    ensures s.minX <= X(s, n) <= s.maxX
    decreases n
  {
    hide HitSet, MoveRisk, StepCost, LaneX, Blend;
    if n.Move? {
      PlanStaysInRoad(s, n.parent, k - 1, allowShield);
      var i :| 0 <= i < s.laneCount && n.target == LaneX(s, i);
      LaneInRoad(s, i);
      BlendStaysBetween(s.alpha, X(s, n.parent), n.target, s.minX, s.maxX);
    }
  }

  lemma LaneInRoad(s: Scene, i: int)
    requires s.laneCount >= 2 && 0 <= i < s.laneCount && s.minX <= s.maxX
    ensures s.minX <= LaneX(s, i) <= s.maxX
  {
    hide LaneX, MarkAt;
    var spacing, last := (s.maxX - s.minX) / (s.laneCount - 1) as real, s.laneCount - 1;
    LanePosition(s, i);
    LanePosition(s, last);
    EndLanes(s);
    MarksBetween(i, last, spacing);
    SpacingNonNegative(s.maxX - s.minX, last);
  }

  lemma SpacingNonNegative(width: real, last: int)
    requires width >= 0.0 && last >= 1
    ensures width / last as real >= 0.0
  {}

  // ---------------------------------------------------------------------------
  // Reconstructing the trajectory
  // ---------------------------------------------------------------------------

  function Targets(n: Node): seq<real> {
    if n.Root? then [] else Targets(n.parent) + [n.target]
  }

  function Positions(n: Node): seq<real> {
    if n.Root? then [] else Positions(n.parent) + [n.x]
  }

  lemma {:induction false} ChainLengths(s: Scene, n: Node, k: nat, allowShield: bool)
    requires WellFormed(s) && k <= s.steps && ValidChain(s, n, k, allowShield)
    ensures |Targets(n)| == |Positions(n)| == k
    decreases n
  {
    hide Child, LaneX;
    if n.Move? {
      ChainLengths(s, n.parent, k - 1, allowShield);
    }
  }

  /** V12's walk along the parent pointers. */
  method ReconstructPlan(best: Node, maxSteps: nat, fallbackX: real) returns (trajectory: seq<real>, firstActualX: real)
    ensures trajectory == Targets(best)[..if maxSteps < |Targets(best)| then maxSteps else |Targets(best)|]
    ensures firstActualX == if Positions(best) == [] then fallbackX else Positions(best)[0]
  {
    var targets, xs: seq<real> := [], [];
    var cur := best;
    while cur.Move?
      invariant Targets(best) == Targets(cur) + targets
      invariant Positions(best) == Positions(cur) + xs
      decreases cur
    {
      targets, xs := [cur.target] + targets, [cur.x] + xs;
      cur := cur.parent;
    }
    trajectory := targets[..if maxSteps < |targets| then maxSteps else |targets|];
    firstActualX := if xs != [] then xs[0] else fallbackX;
  }

  /** The position V12 reports is where following the first returned target takes the car, and both are
      the ones V8 carries along from the first move. */
  lemma {:induction false} FirstStepIsConsistent(s: Scene, n: Node, k: nat, allowShield: bool)
    requires WellFormed(s) && 1 <= k <= s.steps && ValidChain(s, n, k, allowShield)
    ensures |Targets(n)| == |Positions(n)| == k
    ensures Positions(n)[0] == Blend(s.alpha, s.playerX, Targets(n)[0])
    ensures n.firstTarget == Targets(n)[0] && n.firstX == Positions(n)[0]
    decreases n
  {
    hide HitSet, MoveRisk, StepCost, LaneX, Blend;
    ChainLengths(s, n, k, allowShield);
    if k > 1 {
      ChainLengths(s, n.parent, k - 1, allowShield);
      FirstStepIsConsistent(s, n.parent, k - 1, allowShield);
    }
  }
}

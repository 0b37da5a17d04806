/** How the main-thread guard scores a steering target: V10 collects the set of hazards the car would
    hit, V11 and V12 stop at the second one. */
module GuardEvaluation {
  import opened Numbers
  import opened Geometry
  import opened Steering

  const GUARD_MARGIN := 3.0

  /** `paths[h][s]` is hazard h after guard step s + 1; `alpha` the car's share of the way per step. */
  datatype GuardPaths = GuardPaths(alpha: real, playerX: real, playerY: real, width: real, steps: nat,
                                   paths: seq<seq<Disc>>, m: Analysis)

  predicate Sampled(g: GuardPaths) {
    forall h | 0 <= h < |g.paths| :: |g.paths[h]| == g.steps
  }

  /** The car after `s` steps towards `target`. */
  function CarX(g: GuardPaths, target: real, s: nat): real {
    if s == 0 then g.playerX else Blend(g.alpha, CarX(g, target, s - 1), target)
  }

  predicate InBand(g: GuardPaths, z: Disc) {
    g.playerY - 170.0 <= z.y <= g.playerY + 100.0
  }

  predicate Hit(g: GuardPaths, target: real, s: nat, h: nat)
    requires Sampled(g) && s < g.steps && h < |g.paths|
  {
    InBand(g, g.paths[h][s]) && CollisionAt(CarX(g, target, s + 1), g.playerY, g.paths[h][s], GUARD_MARGIN)
  }

  /** The clearance a sample contributes; none if it is skipped or a hit. */
  function SampleClearance(g: GuardPaths, target: real, s: nat, h: nat): Extended
    requires Sampled(g) && s < g.steps && h < |g.paths|
  {
    if !InBand(g, g.paths[h][s]) || Hit(g, target, s, h) then Inf
    else Fin(ClearanceAt(g.m, CarX(g, target, s + 1), g.playerY, g.paths[h][s], GUARD_MARGIN))
  }

  /** Hazards hit by the samples that come before (s, h) in scan order. */
  function Hits(g: GuardPaths, target: real, s: nat, h: nat): set<nat>
    requires Sampled(g) && h <= |g.paths| && (s < g.steps || (s == g.steps && h == 0))
    decreases s, h
  {
    if h > 0 then Hits(g, target, s, h - 1) + (if Hit(g, target, s, h - 1) then {h - 1} else {})
    else if s > 0 then Hits(g, target, s - 1, |g.paths|)
    else {}
  }

  function Clearance(g: GuardPaths, target: real, s: nat, h: nat): Extended
    requires Sampled(g) && h <= |g.paths| && (s < g.steps || (s == g.steps && h == 0))
    decreases s, h
  {
    if h > 0 then MinExtended(Clearance(g, target, s, h - 1), SampleClearance(g, target, s, h - 1))
    else if s > 0 then Clearance(g, target, s - 1, |g.paths|)
    else Inf
  }

  function AllHits(g: GuardPaths, target: real): set<nat>
    requires Sampled(g)
  {
    Hits(g, target, g.steps, 0)
  }

  function LeastClearance(g: GuardPaths, target: real): Extended
    requires Sampled(g)
  {
    Clearance(g, target, g.steps, 0)
  }

  // ---------------------------------------------------------------------------
  // What the scans compute
  // ---------------------------------------------------------------------------

  predicate Scanned(s: nat, h: nat, s': nat, h': nat) {
    s < s' || (s == s' && h < h')
  }

  lemma {:induction false} HitsAreHits(g: GuardPaths, target: real, s: nat, h: nat)
    requires Sampled(g) && h <= |g.paths| && (s < g.steps || (s == g.steps && h == 0))
    ensures forall k: nat :: k in Hits(g, target, s, h)
              <==> k < |g.paths| && exists t: nat :: t < g.steps && Scanned(t, k, s, h) && Hit(g, target, t, k)
    decreases s, h
  {
    hide Hit;
    if h > 0 {
      HitsAreHits(g, target, s, h - 1);
      forall k: nat | k < |g.paths|
        ensures (exists t: nat :: t < g.steps && Scanned(t, k, s, h) && Hit(g, target, t, k))
                <==> (exists t: nat :: t < g.steps && Scanned(t, k, s, h - 1) && Hit(g, target, t, k))
                     || (k == h - 1 && Hit(g, target, s, k))
      {
        assert forall t: nat :: Scanned(t, k, s, h) <==> Scanned(t, k, s, h - 1) || (t == s && k == h - 1);
      }
    } else if s > 0 {
      HitsAreHits(g, target, s - 1, |g.paths|);
      assert forall t: nat, k: nat | k < |g.paths| :: Scanned(t, k, s, 0) <==> Scanned(t, k, s - 1, |g.paths|);
    }
  }

  /** A hazard is reported iff some sample of it in the car's band collides with the steered car. */
  lemma AllHitsMeaning(g: GuardPaths, target: real, k: nat)
    requires Sampled(g)
    ensures k in AllHits(g, target) <==> k < |g.paths| && exists t: nat :: t < g.steps && Hit(g, target, t, k)
  {
    hide Hit, Hits;
    HitsAreHits(g, target, g.steps, 0);
    assert forall t: nat | t < g.steps :: Scanned(t, k, g.steps, 0);
  }

  lemma {:induction false} ClearanceIsMinimum(g: GuardPaths, target: real, s: nat, h: nat)
    requires Sampled(g) && h <= |g.paths| && (s < g.steps || (s == g.steps && h == 0))
    ensures forall t: nat, k: nat | t < g.steps && k < |g.paths| && Scanned(t, k, s, h) ::
              AtMost(Clearance(g, target, s, h), SampleClearance(g, target, t, k))
    ensures Clearance(g, target, s, h).Fin? ==>
              exists t: nat, k: nat :: t < g.steps && k < |g.paths| && Clearance(g, target, s, h) == SampleClearance(g, target, t, k)
    decreases s, h
  {
    hide SampleClearance;
    if h > 0 {
      ClearanceIsMinimum(g, target, s, h - 1);
      forall t: nat, k: nat | t < g.steps && k < |g.paths| && Scanned(t, k, s, h)
        ensures AtMost(Clearance(g, target, s, h), SampleClearance(g, target, t, k))
      {
        assert Scanned(t, k, s, h - 1) || (t == s && k == h - 1);
      }
    } else if s > 0 {
      ClearanceIsMinimum(g, target, s - 1, |g.paths|);
      assert forall t: nat, k: nat | k < |g.paths| :: Scanned(t, k, s, 0) <==> Scanned(t, k, s - 1, |g.paths|);
    }
  }

  /** The reported clearance is the least one of any in-band sample that is not a hit. */
  lemma LeastClearanceMeaning(g: GuardPaths, target: real)
    requires Sampled(g)
    ensures forall t: nat, k: nat | t < g.steps && k < |g.paths| ::
              AtMost(LeastClearance(g, target), SampleClearance(g, target, t, k))
    ensures LeastClearance(g, target).Fin? ==>
              exists t: nat, k: nat :: t < g.steps && k < |g.paths| && LeastClearance(g, target) == SampleClearance(g, target, t, k)
  {
    hide SampleClearance, Clearance;
    ClearanceIsMinimum(g, target, g.steps, 0);
    assert forall t: nat, k: nat | t < g.steps :: Scanned(t, k, g.steps, 0);
  }

  lemma {:induction false} HitsGrow(g: GuardPaths, target: real, s: nat, h: nat, s': nat, h': nat)
    requires Sampled(g) && h <= |g.paths| && (s < g.steps || (s == g.steps && h == 0))
    requires h' <= |g.paths| && (s' < g.steps || (s' == g.steps && h' == 0))
    requires s < s' || (s == s' && h <= h')
    ensures Hits(g, target, s, h) <= Hits(g, target, s', h')
    decreases s', h'
  {
    hide Hit;
    if h' > 0 {
      if s < s' || h < h' {
        HitsGrow(g, target, s, h, s', h' - 1);
      }
    } else if s < s' {
      HitsGrow(g, target, s, h, s' - 1, |g.paths|);
    }
  }

  // ---------------------------------------------------------------------------
  // The two implementations
  // ---------------------------------------------------------------------------

  /** V10: scan everything. */
  method EvaluateAll(g: GuardPaths, target: real) returns (hits: set<nat>, minClearance: Extended, finalX: real)
    requires Sampled(g)
    ensures hits == AllHits(g, target) && minClearance == LeastClearance(g, target) && finalX == CarX(g, target, g.steps)
  {
    hide CollisionAt, ClearanceAt, Blend;
    finalX, minClearance, hits := g.playerX, Inf, {};
    for s := 0 to g.steps
      invariant finalX == CarX(g, target, s)
      invariant hits == Hits(g, target, s, 0) && minClearance == Clearance(g, target, s, 0)
    {
      finalX := Blend(g.alpha, finalX, target);
      for h := 0 to |g.paths|
        invariant hits == Hits(g, target, s, h) && minClearance == Clearance(g, target, s, h)
      {
        var z := g.paths[h][s];
        if z.y < g.playerY - 170.0 || z.y > g.playerY + 100.0 {
          continue;
        }
        if CollisionAt(finalX, g.playerY, z, GUARD_MARGIN) {
          hits := hits + {h};
          continue;
        }
        minClearance := MinExtended(minClearance, Fin(ClearanceAt(g.m, finalX, g.playerY, z, GUARD_MARGIN)));
      }
    }
  }

  datatype Evaluation = Evaluation(hitCount: nat, minClearance: Extended, finalX: real)

  /** The number of hazards hit, counted up to two. */
  function CappedHits(g: GuardPaths, target: real): nat
    requires Sampled(g)
  {
    if |AllHits(g, target)| >= 2 then 2 else |AllHits(g, target)|
  }

  /** V11 and V12: only the first hit hazard is remembered, and the scan returns at the second. */
  method EvaluateCapped(g: GuardPaths, target: real) returns (r: Evaluation)
    requires Sampled(g)
    ensures r.hitCount == CappedHits(g, target)
    ensures r.hitCount < 2 ==> r.minClearance == LeastClearance(g, target) && r.finalX == CarX(g, target, g.steps)
  {
    hide CollisionAt, ClearanceAt, Blend;
    var carX, minClearance := g.playerX, Inf;
    var firstHit, hitCount := -1, 0;
    for s := 0 to g.steps
      invariant carX == CarX(g, target, s) && firstHit >= -1
      invariant Hits(g, target, s, 0) == (if firstHit < 0 then {} else {firstHit})
      invariant hitCount == (if firstHit < 0 then 0 else 1) && minClearance == Clearance(g, target, s, 0)
    {
      carX := Blend(g.alpha, carX, target);
      for h := 0 to |g.paths|
        invariant firstHit >= -1
        invariant Hits(g, target, s, h) == (if firstHit < 0 then {} else {firstHit})
        invariant hitCount == (if firstHit < 0 then 0 else 1) && minClearance == Clearance(g, target, s, h)
      {
        var z := g.paths[h][s];
        if z.y < g.playerY - 170.0 || z.y > g.playerY + 100.0 {
          continue;
        }
        if CollisionAt(carX, g.playerY, z, GUARD_MARGIN) {
          assert Hit(g, target, s, h);
          if firstHit < 0 {
            firstHit, hitCount := h, 1;
          } else if firstHit != h {
            TwoHits(g, target, s, h, firstHit);
            return Evaluation(2, minClearance, carX);
          }
          continue;
        }
        minClearance := MinExtended(minClearance, Fin(ClearanceAt(g.m, carX, g.playerY, z, GUARD_MARGIN)));
      }
    }
    return Evaluation(hitCount, minClearance, carX);
  }

  lemma TwoHits(g: GuardPaths, target: real, s: nat, h: nat, first: nat)
    requires Sampled(g) && s < g.steps && h < |g.paths|
    requires first != h && first in Hits(g, target, s, h) && Hit(g, target, s, h)
    ensures CappedHits(g, target) == 2
  {
    hide Hit;
    assert {first, h} <= Hits(g, target, s, h + 1);
    HitsGrow(g, target, s, h + 1, g.steps, 0);
    SubsetSize({first, h}, AllHits(g, target));
  }

  lemma SubsetSize<T>(a: set<T>, b: set<T>)
    requires a <= b
    ensures |a| <= |b|
  {
    assert b == a + (b - a);
  }
}

/** V5's hazard tracking: greedy assignment of detections to predicted tracks by distance, and the
    update that carries track identities from frame to frame. */
module Tracks {
  import opened Numbers
  import opened Sorting

  const MAX_TRACK_DISTANCE := 125.0
  const MAX_TRACK_AGE_MS := 260.0
  const Y_WEIGHT := 1.22
  const SMOOTHING := 0.65
  const DEFAULT_VY := 340.0

  datatype Detection = Detection(x: real, y: real, size: real)
  datatype Track = Track(id: int, x: real, y: real, size: real, vx: real, vy: real, t: real, age: nat)

  datatype Pair = Pair(d: nat, t: nat, cost: real)

  /** Squared distance, heights weighing more, from a detection to where a track should be by now. */
  function PairCost(d: Detection, tr: Track, now: real): real {
    var dt := Max(0.0, (now - tr.t) / 1000.0);
    var dx := d.x - (tr.x + tr.vx * dt);
    var dy := d.y - (tr.y + tr.vy * dt);
    dx * dx + Y_WEIGHT * (dy * dy)
  }

  /** A recent track close enough to a detection; comparing the square root of the cost with the
      distance is comparing the cost with the distance squared. */
  predicate Gated(d: Detection, tr: Track, now: real) {
    now - tr.t <= MAX_TRACK_AGE_MS && PairCost(d, tr, now) <= MAX_TRACK_DISTANCE * MAX_TRACK_DISTANCE
  }

  /** The time since a track was last seen, in seconds; none if the clock went back. */
  function Elapsed(tr: Track, now: real): real {
    if now < tr.t then 0.0 else (now - tr.t) / 1000.0
  }

  /** A detection off by (a, b) from where its track has moved to costs a² + 1.22 b², and may be matched if that
      is at most 125² and the track at most 260 ms old. */
  lemma PairCostMeaning(tr: Track, now: real, a: real, b: real, size: real)
    ensures var d := Detection(tr.x + tr.vx * Elapsed(tr, now) + a, tr.y + tr.vy * Elapsed(tr, now) + b, size);
            && PairCost(d, tr, now) == a * a + 1.22 * (b * b)
            && (Gated(d, tr, now) <==> now <= tr.t + 260.0 && a * a + 1.22 * (b * b) <= 15625.0)
  {
    var dt := Max(0.0, (now - tr.t) / 1000.0);
    assert dt == Elapsed(tr, now);
    CostOfOffset(tr.x + tr.vx * dt, tr.y + tr.vy * dt, a, b);
  }

  lemma CostOfOffset(x: real, y: real, a: real, b: real)
    ensures var dx, dy := (x + a) - x, (y + b) - y;
            dx * dx + Y_WEIGHT * (dy * dy) == a * a + 1.22 * (b * b)
  {}

  predicate IsGatedPair(ds: seq<Detection>, trs: seq<Track>, now: real, p: Pair) {
    p.d < |ds| && p.t < |trs| && Gated(ds[p.d], trs[p.t], now) && p.cost == PairCost(ds[p.d], trs[p.t], now)
  }

  /** All gated pairs, detection by detection. */
  method GatedPairs(ds: seq<Detection>, trs: seq<Track>, now: real) returns (pairs: seq<Pair>)
    ensures forall p :: p in pairs <==> IsGatedPair(ds, trs, now, p)
  {
    hide PairCost, Gated;
    pairs := [];
    for di := 0 to |ds|
      invariant forall p :: p in pairs <==> IsGatedPair(ds, trs, now, p) && p.d < di
    {
      for ti := 0 to |trs|
        invariant forall p :: p in pairs <==> IsGatedPair(ds, trs, now, p) && (p.d < di || (p.d == di && p.t < ti))
      {
        if Gated(ds[di], trs[ti], now) {
          pairs := pairs + [Pair(di, ti, PairCost(ds[di], trs[ti], now))];
        }
      }
    }
  }

  // ---------------------------------------------------------------------------
  // Sorting
  // ---------------------------------------------------------------------------

  predicate SortedByCost(pairs: seq<Pair>) {
    forall i, j | 0 <= i < j < |pairs| :: pairs[i].cost <= pairs[j].cost
  }

  /** The pairs in order of cost, earlier ones first among equals. */
  method SortByCost(pairs: seq<Pair>) returns (sorted: seq<Pair>)
    ensures SortedByCost(sorted)
    ensures forall p :: p in sorted <==> p in pairs
  {
    var costs := seq(|pairs|, (i: nat) requires i < |pairs| => pairs[i].cost);
    var order := StableOrder(costs);
    sorted := seq(|order|, (i: nat) requires i < |order| && order[i] < |pairs| => pairs[order[i]]);
    forall i, j | 0 <= i < j < |sorted|
      ensures sorted[i].cost <= sorted[j].cost
    {
      assert Before(costs, order[i], order[j]);
    }
    forall p | p in pairs
      ensures p in sorted
    {
      var d :| 0 <= d < |pairs| && pairs[d] == p;
      assert d as nat in order;
      var k :| 0 <= k < |order| && order[k] == d;
      assert sorted[k] == p;
    }
  }

  // ---------------------------------------------------------------------------
  // Greedy assignment
  // ---------------------------------------------------------------------------

  /** Two pairs compete if they want the same detection or the same track. */
  predicate Compete(p: Pair, q: Pair) {
    p.d == q.d || p.t == q.t
  }

  predicate OneToOne(matches: seq<Pair>) {
    forall i, j | 0 <= i < j < |matches| :: !Compete(matches[i], matches[j])
  }

  /** Some chosen pair wants the same detection or track and costs no more; true of chosen pairs. */
  ghost predicate Settled(p: Pair, matches: seq<Pair>) {
    exists k :: 0 <= k < |matches| && Compete(p, matches[k]) && matches[k].cost <= p.cost
  }

  datatype Assignment = Assignment(matches: seq<Pair>, usedD: set<nat>, usedT: set<nat>)

  function DetectionsOf(matches: seq<Pair>): set<nat> {
    if matches == [] then {} else DetectionsOf(matches[..|matches| - 1]) + {matches[|matches| - 1].d}
  }

  function TracksOf(matches: seq<Pair>): set<nat> {
    if matches == [] then {} else TracksOf(matches[..|matches| - 1]) + {matches[|matches| - 1].t}
  }

  /** A detection or track is used iff some match has it. */
  lemma {:induction false} UsedMeaning(matches: seq<Pair>, x: nat)
    ensures x in DetectionsOf(matches) <==> exists k :: 0 <= k < |matches| && matches[k].d == x
    ensures x in TracksOf(matches) <==> exists k :: 0 <= k < |matches| && matches[k].t == x
  {
    if matches != [] {
      var shorter, last := matches[..|matches| - 1], |matches| - 1;
      UsedMeaning(shorter, x);
      assert forall k | 0 <= k < last :: shorter[k] == matches[k];
      assert matches[last].d == x ==> x in DetectionsOf(matches);
      assert matches[last].t == x ==> x in TracksOf(matches);
    }
  }

  predicate UsedBy(matches: seq<Pair>, usedD: set<nat>, usedT: set<nat>) {
    usedD == DetectionsOf(matches) && usedT == TracksOf(matches)
  }

  method ChooseGreedily(pairs: seq<Pair>) returns (a: Assignment)
    requires SortedByCost(pairs)
    ensures OneToOne(a.matches) && UsedBy(a.matches, a.usedD, a.usedT)
    ensures forall k | 0 <= k < |a.matches| :: a.matches[k] in pairs
    ensures forall i | 0 <= i < |pairs| :: Settled(pairs[i], a.matches)
  {
    hide OneToOne, Settled, SortedByCost, DetectionsOf, TracksOf;
    var usedD: set<nat>, usedT: set<nat>, matches := {}, {}, [];
    NothingMatched();
    for i := 0 to |pairs|
      invariant OneToOne(matches) && UsedBy(matches, usedD, usedT)
      invariant forall k | 0 <= k < |matches| :: matches[k] in pairs && (i < |pairs| ==> matches[k].cost <= pairs[i].cost)
      invariant forall k | 0 <= k < i :: Settled(pairs[k], matches)
    {
      var p := pairs[i];
      NextCostsMore(pairs, i);
      if p.d in usedD || p.t in usedT {
        LateComerLoses(p, matches);
      } else {
        NewMatch(p, matches);
        forall k | 0 <= k < i
          ensures Settled(pairs[k], matches + [p])
        {
          StaysSettled(pairs[k], matches, p);
        }
        usedD, usedT, matches := usedD + {p.d}, usedT + {p.t}, matches + [p];
      }
    }
    a := Assignment(matches, usedD, usedT);
  }

  lemma NothingMatched()
    ensures OneToOne([]) && UsedBy([], {}, {})
  {}

  lemma NextCostsMore(pairs: seq<Pair>, i: nat)
    requires SortedByCost(pairs) && i < |pairs|
    ensures i + 1 < |pairs| ==> pairs[i].cost <= pairs[i + 1].cost
  {}

  lemma LateComerLoses(p: Pair, matches: seq<Pair>)
    requires p.d in DetectionsOf(matches) || p.t in TracksOf(matches)
    requires forall k | 0 <= k < |matches| :: matches[k].cost <= p.cost
    ensures Settled(p, matches)
  {
    hide DetectionsOf, TracksOf;
    UsedMeaning(matches, p.d);
    UsedMeaning(matches, p.t);
    if p.d in DetectionsOf(matches) {
      var k :| 0 <= k < |matches| && matches[k].d == p.d;
      assert Compete(p, matches[k]);
    } else {
      var k :| 0 <= k < |matches| && matches[k].t == p.t;
      assert Compete(p, matches[k]);
    }
  }

  lemma NewMatch(p: Pair, matches: seq<Pair>)
    requires OneToOne(matches) && p.d !in DetectionsOf(matches) && p.t !in TracksOf(matches)
    ensures OneToOne(matches + [p]) && Settled(p, matches + [p])
    ensures UsedBy(matches + [p], DetectionsOf(matches) + {p.d}, TracksOf(matches) + {p.t})
  {
    var longer := matches + [p];
    assert longer[..|matches|] == matches;
    assert longer[|matches|] == p && Compete(p, p);
    forall k | 0 <= k < |matches|
      ensures !Compete(matches[k], p)
    {
      UsedMeaning(matches, p.d);
      UsedMeaning(matches, p.t);
    }
  }

  lemma StaysSettled(p: Pair, matches: seq<Pair>, q: Pair)
    requires Settled(p, matches)
    ensures Settled(p, matches + [q])
  {
    var k :| 0 <= k < |matches| && Compete(p, matches[k]) && matches[k].cost <= p.cost;
    assert (matches + [q])[k] == matches[k];
  }

  /** One-to-one, made of gated pairs, and stable: every gated pair is chosen, or competes with a
      chosen pair that costs no more. So it is also maximal, as no gated pair could be added. */
  ghost predicate GoodAssignment(ds: seq<Detection>, trs: seq<Track>, now: real, a: Assignment) {
    && OneToOne(a.matches) && UsedBy(a.matches, a.usedD, a.usedT)
    && (forall k | 0 <= k < |a.matches| :: IsGatedPair(ds, trs, now, a.matches[k]))
    && forall p | IsGatedPair(ds, trs, now, p) :: Settled(p, a.matches)
  }

  method GlobalAssign(ds: seq<Detection>, trs: seq<Track>, now: real) returns (a: Assignment)
    ensures GoodAssignment(ds, trs, now, a)
  {
    hide IsGatedPair, SortedByCost, OneToOne, Settled, UsedBy;
    var pairs := GatedPairs(ds, trs, now);
    var sorted := SortByCost(pairs);
    a := ChooseGreedily(sorted);
    forall p | IsGatedPair(ds, trs, now, p)
      ensures Settled(p, a.matches)
    {
      assert p in sorted;
    }
  }

  // ---------------------------------------------------------------------------
  // Track update
  // ---------------------------------------------------------------------------

  /** A matched track takes over the detection's position and blends in the observed velocity. */
  function Followed(tr: Track, d: Detection, now: real): Track {
    var dt := Max(0.003, (now - tr.t) / 1000.0);
    Track(tr.id, d.x, d.y, d.size,
          Clamp(tr.vx * (1.0 - SMOOTHING) + (d.x - tr.x) / dt * SMOOTHING, -180.0, 180.0),
          Clamp(tr.vy * (1.0 - SMOOTHING) + (d.y - tr.y) / dt * SMOOTHING, 25.0, 780.0),
          now, tr.age + 1)
  }

  function Started(id: int, d: Detection, now: real): Track {
    Track(id, d.x, d.y, d.size, 0.0, DEFAULT_VY, now, 1)
  }

  /** How a velocity is brought up to date: by 0.65 of what the movement since the last frame, taken to last 3 ms
      at least, differs from it; beyond its limits it stops at them. */
  predicate Updated(v: real, was: real, moved: real, elapsed: real, lo: real, hi: real)
    requires elapsed > 0.0
  {
    var wanted := was + 0.65 * (moved / elapsed - was);
    if wanted < lo then v == lo else if wanted > hi then v == hi else v == wanted
  }

  /** A followed track is the detection under the track's identity, one frame older, its velocities up to date. */
  lemma FollowedMeaning(tr: Track, d: Detection, now: real)
    ensures var next, elapsed := Followed(tr, d, now), if now < tr.t + 3.0 then 0.003 else (now - tr.t) / 1000.0;
            && next.id == tr.id && next.age == tr.age + 1 && next.t == now && StandsFor(next, d)
            && Updated(next.vx, tr.vx, d.x - tr.x, elapsed, -180.0, 180.0)
            && Updated(next.vy, tr.vy, d.y - tr.y, elapsed, 25.0, 780.0)
  {
    var elapsed := if now < tr.t + 3.0 then 0.003 else (now - tr.t) / 1000.0;
    assert elapsed == Max(0.003, (now - tr.t) / 1000.0);
    Smoothing(tr.vx, (d.x - tr.x) / elapsed);
    Smoothing(tr.vy, (d.y - tr.y) / elapsed);
  }

  lemma Smoothing(was: real, raw: real)
    ensures was * (1.0 - SMOOTHING) + raw * SMOOTHING == was + 0.65 * (raw - was)
  {}

  // ---------------------------------------------------------------------------
  // Following a hazard that keeps its velocity
  // ---------------------------------------------------------------------------

  /** Where a hazard moving at (vx, vy) from (x, y) is at a time in milliseconds. */
  function Moving(x: real, y: real, vx: real, vy: real, size: real, time: real): Detection {
    Detection(x + vx * (time / 1000.0), y + vy * (time / 1000.0), size)
  }

  /** A track that has been matched with the hazard at each of these times. */
  function FollowedThrough(tr: Track, x: real, y: real, vx: real, vy: real, size: real, times: seq<real>): Track {
    if times == [] then tr
    else
      var now := times[|times| - 1];
      Followed(FollowedThrough(tr, x, y, vx, vy, size, times[..|times| - 1]), Moving(x, y, vx, vy, size, now), now)
  }

  /** 0.35 to the power of k. */
  function Remaining(k: nat): real {
    if k == 0 then 1.0 else 0.35 * Remaining(k - 1)
  }

  /** Frames at least 3 ms apart, the first as long after `start`. */
  predicate Spaced(start: real, times: seq<real>) {
    times != [] ==>
      var before, now := times[..|times| - 1], times[|times| - 1];
      Spaced(start, before) && now >= (if before == [] then start else before[|before| - 1]) + 3.0
  }

  lemma ObservedVelocity(x: real, v: real, t0: real, t1: real)
    requires t1 >= t0 + 3.0
    ensures ((x + v * (t1 / 1000.0)) - (x + v * (t0 / 1000.0))) / ((t1 - t0) / 1000.0) == v
  {
    var dt := (t1 - t0) / 1000.0;
    assert v * (t1 / 1000.0) - v * (t0 / 1000.0) == v * dt;
  }

  /** With a true velocity within the limits, and an old estimate within them, nothing is cut off. */
  lemma VelocityCloser(v: real, now: real, was: real, moved: real, elapsed: real, lo: real, hi: real)
    requires elapsed > 0.0 && Updated(now, was, moved, elapsed, lo, hi) && moved / elapsed == v
    requires lo <= v <= hi && lo <= was <= hi
    ensures lo <= now <= hi && now - v == 0.35 * (was - v)
  {
    BlendInLimits(v, was, lo, hi);
  }

  lemma BlendInLimits(v: real, was: real, lo: real, hi: real)
    requires lo <= v <= hi && lo <= was <= hi
    ensures lo <= was + 0.65 * (v - was) <= hi
    ensures was + 0.65 * (v - was) - v == 0.35 * (was - v)
  {}

  lemma OneFrame(tr: Track, x: real, y: real, vx: real, vy: real, size: real, now: real)
    requires StandsFor(tr, Moving(x, y, vx, vy, size, tr.t)) && now >= tr.t + 3.0
    requires -180.0 <= vx <= 180.0 && 25.0 <= vy <= 780.0 && -180.0 <= tr.vx <= 180.0 && 25.0 <= tr.vy <= 780.0
    ensures var next := Followed(tr, Moving(x, y, vx, vy, size, now), now);
            && StandsFor(next, Moving(x, y, vx, vy, size, now)) && next.t == now && next.id == tr.id && next.age == tr.age + 1
            && -180.0 <= next.vx <= 180.0 && 25.0 <= next.vy <= 780.0
            && next.vx - vx == 0.35 * (tr.vx - vx) && next.vy - vy == 0.35 * (tr.vy - vy)
  {
    hide Followed, Updated;
    FollowedMeaning(tr, Moving(x, y, vx, vy, size, now), now);
    ObservedVelocity(x, vx, tr.t, now);
    ObservedVelocity(y, vy, tr.t, now);
    var next, d, elapsed := Followed(tr, Moving(x, y, vx, vy, size, now), now), Moving(x, y, vx, vy, size, now), (now - tr.t) / 1000.0;
    VelocityCloser(vx, next.vx, tr.vx, d.x - tr.x, elapsed, -180.0, 180.0);
    VelocityCloser(vy, next.vy, tr.vy, d.y - tr.y, elapsed, 25.0, 780.0);
  }

  /** Matched with the same hazard frame after frame, a track learns its velocity: 0.35 of the error is left after
      every frame. */
  lemma {:induction false} VelocityIsLearned(tr: Track, x: real, y: real, vx: real, vy: real, size: real, times: seq<real>)
    requires StandsFor(tr, Moving(x, y, vx, vy, size, tr.t)) && Spaced(tr.t, times)
    requires -180.0 <= vx <= 180.0 && 25.0 <= vy <= 780.0 && -180.0 <= tr.vx <= 180.0 && 25.0 <= tr.vy <= 780.0
    ensures var last := FollowedThrough(tr, x, y, vx, vy, size, times);
            && last.id == tr.id && last.age == tr.age + |times| && last.t == (if times == [] then tr.t else times[|times| - 1])
            && StandsFor(last, Moving(x, y, vx, vy, size, last.t))
            && -180.0 <= last.vx <= 180.0 && 25.0 <= last.vy <= 780.0
            && last.vx - vx == Remaining(|times|) * (tr.vx - vx) && last.vy - vy == Remaining(|times|) * (tr.vy - vy)
    decreases |times|
  {
    hide Followed, StandsFor, Moving;
    if times != [] {
      var before, now := times[..|times| - 1], times[|times| - 1];
      VelocityIsLearned(tr, x, y, vx, vy, size, before);
      var prev := FollowedThrough(tr, x, y, vx, vy, size, before);
      OneFrame(prev, x, y, vx, vy, size, now);
      ShareOfShare(Remaining(|before|), tr.vx - vx);
      ShareOfShare(Remaining(|before|), tr.vy - vy);
    }
  }

  lemma ShareOfShare(share: real, e: real)
    ensures 0.35 * (share * e) == 0.35 * share * e
  {}

  // ---------------------------------------------------------------------------
  // The tracks of the next frame
  // ---------------------------------------------------------------------------

  /** Distinct identities below the next one to be given out, and velocities within limits. */
  ghost predicate ValidTracks(trs: seq<Track>, nextId: int) {
    && (forall i, j | 0 <= i < j < |trs| :: trs[i].id != trs[j].id)
    && (forall i | 0 <= i < |trs| :: trs[i].id < nextId)
    && (forall i | 0 <= i < |trs| :: -180.0 <= trs[i].vx <= 180.0 && 25.0 <= trs[i].vy <= 780.0)
  }

  predicate StandsFor(tr: Track, d: Detection) {
    tr.x == d.x && tr.y == d.y && tr.size == d.size
  }

  /** The detections from `di` on that no match has used, in order. */
  function Unmatched(used: set<nat>, di: nat, n: nat): seq<nat>
    requires di <= n
    decreases n - di
  {
    if di == n then []
    else if di in used then Unmatched(used, di + 1, n)
    else [di] + Unmatched(used, di + 1, n)
  }

  /** They are the unused ones, in increasing order. */
  lemma {:induction false} UnmatchedMeaning(used: set<nat>, di: nat, n: nat)
    requires di <= n
    ensures var r := Unmatched(used, di, n);
            && (forall k | 0 <= k < |r| :: di <= r[k] < n && r[k] !in used)
            && (forall j, k | 0 <= j < k < |r| :: r[j] < r[k])
            && forall d: nat | di <= d < n && d !in used :: d in r
    decreases n - di
  {
    if di < n {
      UnmatchedMeaning(used, di + 1, n);
      if di !in used {
        assert Unmatched(used, di, n)[0] == di;
        forall d: nat | di < d < n && d !in used
          ensures d in Unmatched(used, di, n)
        {
          assert d in Unmatched(used, di + 1, n);
        }
      }
    }
  }

  ghost predicate Fits(ds: seq<Detection>, trs: seq<Track>, a: Assignment) {
    && OneToOne(a.matches) && UsedBy(a.matches, a.usedD, a.usedT)
    && forall k | 0 <= k < |a.matches| :: a.matches[k].d < |ds| && a.matches[k].t < |trs|
  }

  /** Which detection each track of the next frame stands for: the matched ones, then the rest. */
  function NextOrder(ds: seq<Detection>, a: Assignment): seq<nat> {
    seq(|a.matches|, (k: nat) requires k < |a.matches| => a.matches[k].d) + Unmatched(a.usedD, 0, |ds|)
  }

  function FollowedTracks(ds: seq<Detection>, trs: seq<Track>, now: real, a: Assignment): (r: seq<Track>)
    requires Fits(ds, trs, a)
    ensures |r| == |a.matches|
  {
    seq(|a.matches|, (k: nat) requires k < |a.matches| => Followed(trs[a.matches[k].t], ds[a.matches[k].d], now))
  }

  /** New tracks for the unused detections from `di` on, with consecutive identities. */
  function StartedTracks(ds: seq<Detection>, used: set<nat>, di: nat, now: real, id: int): seq<Track>
    requires di <= |ds|
    decreases |ds| - di
  {
    if di == |ds| then []
    else if di in used then StartedTracks(ds, used, di + 1, now, id)
    else [Started(id, ds[di], now)] + StartedTracks(ds, used, di + 1, now, id + 1)
  }

  lemma {:induction false} StartedCount(ds: seq<Detection>, used: set<nat>, di: nat, now: real, id: int)
    requires di <= |ds|
    ensures |StartedTracks(ds, used, di, now, id)| == |Unmatched(used, di, |ds|)|
    decreases |ds| - di
  {
    hide Started;
    if di < |ds| {
      StartedCount(ds, used, di + 1, now, if di in used then id else id + 1);
    }
  }

  lemma {:induction false} StartedAt(ds: seq<Detection>, used: set<nat>, di: nat, now: real, id: int, k: nat)
    requires di <= |ds| && k < |StartedTracks(ds, used, di, now, id)| && k < |Unmatched(used, di, |ds|)|
    ensures var d := Unmatched(used, di, |ds|)[k];
            d < |ds| && StartedTracks(ds, used, di, now, id)[k] == Started(id + k, ds[d], now)
    decreases |ds| - di
  {
    hide Started;
    if di in used {
      StartedAt(ds, used, di + 1, now, id, k);
    } else if k > 0 {
      StartedAt(ds, used, di + 1, now, id + 1, k - 1);
    }
  }

  lemma StartedMeaning(ds: seq<Detection>, used: set<nat>, now: real, id: int)
    ensures var r, rest := StartedTracks(ds, used, 0, now, id), Unmatched(used, 0, |ds|);
            |r| == |rest| && forall k | 0 <= k < |r| :: rest[k] < |ds| && r[k] == Started(id + k, ds[rest[k]], now)
  {
    hide StartedTracks, Unmatched, Started;
    StartedCount(ds, used, 0, now, id);
    forall k: nat | k < |Unmatched(used, 0, |ds|)|
      ensures var d := Unmatched(used, 0, |ds|)[k];
              d < |ds| && StartedTracks(ds, used, 0, now, id)[k] == Started(id + k, ds[d], now)
    {
      StartedAt(ds, used, 0, now, id, k);
    }
  }

  function NextTracks(ds: seq<Detection>, trs: seq<Track>, now: real, a: Assignment, nextId: int): seq<Track>
    requires Fits(ds, trs, a)
  {
    FollowedTracks(ds, trs, now, a) + StartedTracks(ds, a.usedD, 0, now, nextId)
  }

  function NextId(ds: seq<Detection>, a: Assignment, nextId: int): int {
    nextId + |Unmatched(a.usedD, 0, |ds|)|
  }

  class Tracker {
    var tracks: seq<Track>
    var nextId: int

    constructor ()
      ensures tracks == [] && nextId == 1
    {
      tracks, nextId := [], 1;
    }

    /** Replaces the tracks by those of a new frame. */
    method UpdateHazardTracks(ds: seq<Detection>, now: real) returns (ghost a: Assignment)
      modifies this
      ensures GoodAssignment(ds, old(tracks), now, a)
      ensures tracks == NextTracks(ds, old(tracks), now, a, old(nextId)) && nextId == NextId(ds, a, old(nextId))
    {
      hide Settled, IsGatedPair, NextTracks, GoodAssignment, Fits;
      var assignment := GlobalAssign(ds, tracks, now);
      a := assignment;
      AssignmentFits(ds, tracks, now, a);
      var next := FollowMatches(ds, tracks, now, assignment);
      tracks, nextId := StartRest(ds, tracks, now, assignment, next, nextId);
    }
  }

  method FollowMatches(ds: seq<Detection>, trs: seq<Track>, now: real, a: Assignment) returns (next: seq<Track>)
    requires Fits(ds, trs, a)
    ensures next == FollowedTracks(ds, trs, now, a)
  {
    hide Followed, OneToOne, UsedBy;
    next := [];
    for k := 0 to |a.matches|
      invariant next == FollowedTracks(ds, trs, now, a)[..k]
    {
      var m := a.matches[k];
      next := next + [Followed(trs[m.t], ds[m.d], now)];
    }
  }

  /** Gives every detection no match has used a track of its own. */
  method StartRest(ds: seq<Detection>, trs: seq<Track>, now: real, a: Assignment, followed: seq<Track>, firstId: int)
    returns (next: seq<Track>, nextId: int)
    requires Fits(ds, trs, a) && followed == FollowedTracks(ds, trs, now, a)
    ensures next == NextTracks(ds, trs, now, a, firstId) && nextId == NextId(ds, a, firstId)
  {
    hide Fits, FollowedTracks, Started;
    next, nextId := followed, firstId;
    for di := 0 to |ds|
      invariant nextId + |Unmatched(a.usedD, di, |ds|)| == NextId(ds, a, firstId)
      invariant next + StartedTracks(ds, a.usedD, di, now, nextId) == NextTracks(ds, trs, now, a, firstId)
    {
      if di !in a.usedD {
        ghost var rest := StartedTracks(ds, a.usedD, di + 1, now, nextId + 1);
        assert next + ([Started(nextId, ds[di], now)] + rest) == (next + [Started(nextId, ds[di], now)]) + rest;
        next := next + [Started(nextId, ds[di], now)];
        nextId := nextId + 1;
      }
    }
  }

  /** The next frame has one track per detection: track i stands for detection order[i], and the order
      is a permutation of the detections. */
  lemma TracksMatchDetections(ds: seq<Detection>, trs: seq<Track>, now: real, a: Assignment, nextId: int)
    requires Fits(ds, trs, a)
    ensures var next, order := NextTracks(ds, trs, now, a, nextId), NextOrder(ds, a);
            && IsPermutation(order, |ds|) && |next| == |order|
            && forall i | 0 <= i < |next| :: StandsFor(next[i], ds[order[i]])
  {
    hide Fits, IsPermutation, NextTracks, NextOrder, FollowedTracks;
    OrderIsPermutation(ds, trs, a);
    TracksFollowOrder(ds, trs, now, a, nextId);
  }

  lemma TracksFollowOrder(ds: seq<Detection>, trs: seq<Track>, now: real, a: Assignment, nextId: int)
    requires Fits(ds, trs, a)
    ensures var next, order := NextTracks(ds, trs, now, a, nextId), NextOrder(ds, a);
            && |next| == |order| && (forall i | 0 <= i < |order| :: order[i] < |ds|)
            && forall i | 0 <= i < |next| :: StandsFor(next[i], ds[order[i]])
  {
    hide OneToOne, UsedBy, StartedTracks, Unmatched;
    StartedMeaning(ds, a.usedD, now, nextId);
  }

  lemma OrderAt(ds: seq<Detection>, trs: seq<Track>, a: Assignment, i: nat)
    requires Fits(ds, trs, a) && i < |NextOrder(ds, a)|
    ensures NextOrder(ds, a)[i] < |ds| && |NextOrder(ds, a)| == |a.matches| + |Unmatched(a.usedD, 0, |ds|)|
    ensures i < |a.matches| ==> NextOrder(ds, a)[i] == a.matches[i].d && a.matches[i].d in a.usedD
    ensures i >= |a.matches| ==>
              NextOrder(ds, a)[i] == Unmatched(a.usedD, 0, |ds|)[i - |a.matches|] && NextOrder(ds, a)[i] !in a.usedD
  {
    hide DetectionsOf, TracksOf, Unmatched, OneToOne;
    UnmatchedMeaning(a.usedD, 0, |ds|);
    if i < |a.matches| {
      UsedMeaning(a.matches, a.matches[i].d);
    } else {
      assert NextOrder(ds, a)[i] == Unmatched(a.usedD, 0, |ds|)[i - |a.matches|];
    }
  }

  lemma OrderHas(ds: seq<Detection>, trs: seq<Track>, a: Assignment, d: nat)
    requires Fits(ds, trs, a) && d < |ds|
    ensures d in NextOrder(ds, a)
  {
    hide DetectionsOf, TracksOf, Unmatched, OneToOne;
    var order, n := NextOrder(ds, a), |a.matches|;
    if d in a.usedD {
      UsedMeaning(a.matches, d);
      var k :| 0 <= k < n && a.matches[k].d == d;
      assert order[k] == d;
    } else {
      UnmatchedMeaning(a.usedD, 0, |ds|);
      var k :| 0 <= k < |Unmatched(a.usedD, 0, |ds|)| && Unmatched(a.usedD, 0, |ds|)[k] == d;
      assert order[n + k] == d;
    }
  }

  lemma OrderIsPermutation(ds: seq<Detection>, trs: seq<Track>, a: Assignment)
    requires Fits(ds, trs, a)
    ensures IsPermutation(NextOrder(ds, a), |ds|)
  {
    hide DetectionsOf, TracksOf, Unmatched, NextOrder;
    var order, n := NextOrder(ds, a), |a.matches|;
    UnmatchedMeaning(a.usedD, 0, |ds|);
    forall i: nat | i < |order|
      ensures order[i] < |ds|
    {
      OrderAt(ds, trs, a, i);
    }
    forall i: nat, j: nat | i < j < |order|
      ensures order[i] != order[j]
    {
      OrderAt(ds, trs, a, i);
      OrderAt(ds, trs, a, j);
      if j < n {
        assert !Compete(a.matches[i], a.matches[j]);
      } else if i >= n {
        assert Unmatched(a.usedD, 0, |ds|)[i - n] < Unmatched(a.usedD, 0, |ds|)[j - n];
      }
    }
    forall d: nat | d < |ds|
      ensures d in order
    {
      OrderHas(ds, trs, a, d);
    }
  }

  /** Identities stay distinct and below the counter, which never goes back; velocities stay in limits;
      a matched track keeps its identity and is a frame older, and started ones get the next identities, falling
      straight down at 340 px a second. */
  lemma UpdateKeepsTracksValid(ds: seq<Detection>, trs: seq<Track>, now: real, a: Assignment, nextId: int)
    requires Fits(ds, trs, a) && ValidTracks(trs, nextId)
    ensures ValidTracks(NextTracks(ds, trs, now, a, nextId), NextId(ds, a, nextId)) && NextId(ds, a, nextId) >= nextId
    ensures var next := NextTracks(ds, trs, now, a, nextId);
            forall i | 0 <= i < |next| ::
              if i < |a.matches| then next[i].id == trs[a.matches[i].t].id && next[i].age == trs[a.matches[i].t].age + 1 && next[i].t == now
              else next[i].id == nextId + i - |a.matches| && next[i].vx == 0.0 && next[i].vy == 340.0 && next[i].age == 1 && next[i].t == now
  {
    hide DetectionsOf, TracksOf, Unmatched, StartedTracks;
    StartedMeaning(ds, a.usedD, now, nextId);
    var next, n := NextTracks(ds, trs, now, a, nextId), |a.matches|;
    forall i, j | 0 <= i < j < |next|
      ensures next[i].id != next[j].id
    {
      if j < n {
        assert !Compete(a.matches[i], a.matches[j]);
      }
    }
  }

  // ---------------------------------------------------------------------------
  // Whole runs
  // ---------------------------------------------------------------------------

  datatype Frame = Frame(ds: seq<Detection>, now: real, a: Assignment)

  /** The tracks and the next identity after the first `n` frames; None if some assignment does not fit. */
  ghost function After(frames: seq<Frame>, n: nat): Option<(seq<Track>, int)>
    requires n <= |frames|
  {
    if n == 0 then Some(([], 1))
    else
      var before, f := After(frames, n - 1), frames[n - 1];
      if before.None? || !GoodAssignment(f.ds, before.value.0, f.now, f.a) then None
      else
        AssignmentFits(f.ds, before.value.0, f.now, f.a);
        Some((NextTracks(f.ds, before.value.0, f.now, f.a, before.value.1), NextId(f.ds, f.a, before.value.1)))
  }

  lemma AssignmentFits(ds: seq<Detection>, trs: seq<Track>, now: real, a: Assignment)
    requires GoodAssignment(ds, trs, now, a)
    ensures Fits(ds, trs, a)
  {
    hide OneToOne, UsedBy, Settled, Gated, PairCost;
  }

  /** Over any run of frames the tracks stay valid, and after each frame they match its detections one
      for one. */
  lemma {:induction false} RunKeepsTracksValid(frames: seq<Frame>, n: nat)
    requires n <= |frames| && After(frames, n).Some?
    ensures ValidTracks(After(frames, n).value.0, After(frames, n).value.1)
    ensures n > 0 ==>
              var trs, order := After(frames, n).value.0, NextOrder(frames[n - 1].ds, frames[n - 1].a);
              && IsPermutation(order, |frames[n - 1].ds|) && |trs| == |order|
              && forall i | 0 <= i < |trs| :: StandsFor(trs[i], frames[n - 1].ds[order[i]])
  {
    hide GoodAssignment, Fits, NextTracks, NextId, ValidTracks, NextOrder, IsPermutation;
    if n == 0 {
      NoTracksValid();
    } else {
      RunKeepsTracksValid(frames, n - 1);
      var before, f := After(frames, n - 1).value, frames[n - 1];
      AssignmentFits(f.ds, before.0, f.now, f.a);
      UpdateKeepsTracksValid(f.ds, before.0, f.now, f.a, before.1);
      TracksMatchDetections(f.ds, before.0, f.now, f.a, before.1);
    }
  }

  lemma NoTracksValid()
    ensures ValidTracks([], 1)
  {}
}

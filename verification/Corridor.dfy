/** V12's safe-corridor extraction: sample steering targets across the road, split the acceptable ones
    into maximal runs, score the runs and aim for the middle of the best one. */
module Corridor {
  import opened Numbers
  import opened Geometry
  import opened GuardEvaluation

  const PLAYER_EDGE := 31.0
  const CANDIDATES: nat := 35
  const EDGE_RESERVE := 72.0
  const WIDTH_WEIGHT := 0.42
  const EDGE_PENALTY := 46.0
  const DIRECTION_FLIP_PENALTY := 150.0
  const MOVE_PENALTY := 0.008
  const CENTER_BIAS := 0.018

  datatype Row = Row(x: real, hits: nat, clearance: Extended)

  datatype Candidate = Candidate(target: real, score: Extended, hitCount: nat, clearance: Extended, direction: int)

  function MinX(g: GuardPaths): real { PLAYER_EDGE }

  function MaxX(g: GuardPaths): real { g.width - PLAYER_EDGE }

  // ---------------------------------------------------------------------------
  // Sampled rows
  // ---------------------------------------------------------------------------

  function Pitch(g: GuardPaths): real {
    (MaxX(g) - MinX(g)) / (CANDIDATES - 1) as real
  }

  function SampleX(g: GuardPaths, i: nat): real {
    MinX(g) + (MaxX(g) - MinX(g)) * i as real / (CANDIDATES - 1) as real
  }

  lemma SamplesAreEven(g: GuardPaths, i: nat)
    ensures SampleX(g, i) == MinX(g) + i as real * Pitch(g)
  {
    var w := MaxX(g) - MinX(g);
    assert w * i as real / 34.0 == i as real * (w / 34.0);
  }

  /** The samples run from one edge of the road to the other. */
  lemma SamplesSpanRoad(g: GuardPaths)
    ensures SampleX(g, 0) == PLAYER_EDGE && SampleX(g, CANDIDATES - 1) == g.width - PLAYER_EDGE
    ensures forall i: nat, j: nat :: SampleX(g, i + 1) - SampleX(g, i) == SampleX(g, j + 1) - SampleX(g, j)
  {
    hide SampleX;
    SamplesAreEven(g, 0);
    SamplesAreEven(g, CANDIDATES - 1);
    forall i: nat
      ensures SampleX(g, i + 1) - SampleX(g, i) == Pitch(g)
    {
      SamplesAreEven(g, i);
      SamplesAreEven(g, i + 1);
      assert (i + 1) as real * Pitch(g) == i as real * Pitch(g) + Pitch(g);
    }
  }

  lemma SampleInRoad(g: GuardPaths, i: nat)
    requires i < CANDIDATES && MinX(g) <= MaxX(g)
    ensures MinX(g) <= SampleX(g, i) <= MaxX(g)
  {
    SamplesAreEven(g, i);
    MulNonNegative(i as real, Pitch(g));
    MulNonNegative((CANDIDATES - 1 - i) as real, Pitch(g));
    assert (CANDIDATES - 1 - i) as real * Pitch(g) == 34.0 * Pitch(g) - i as real * Pitch(g);
  }

  /** A row reports the hits of its target, and their clearance unless it has two or more. */
  ghost predicate IsRow(g: GuardPaths, i: nat, row: Row)
    requires Sampled(g)
  {
    && row.x == SampleX(g, i) && row.hits == CappedHits(g, row.x)
    && (row.hits < 2 ==> row.clearance == LeastClearance(g, row.x))
  }

  ghost predicate AreRows(g: GuardPaths, rows: seq<Row>)
    requires Sampled(g)
  {
    |rows| == CANDIDATES && forall i | 0 <= i < |rows| :: IsRow(g, i, rows[i])
  }

  method SampleRows(g: GuardPaths) returns (rows: seq<Row>)
    requires Sampled(g)
    ensures AreRows(g, rows)
  {
    hide SampleX, CappedHits, LeastClearance;
    rows := [];
    for i := 0 to CANDIDATES
      invariant |rows| == i && forall k | 0 <= k < i :: IsRow(g, k, rows[k])
    {
      var x := SampleX(g, i);
      var ev := EvaluateCapped(g, x);
      rows := rows + [Row(x, ev.hitCount, ev.minClearance)];
    }
  }

  predicate Legal(row: Row, shield: bool) {
    row.hits == 0 || (shield && row.hits == 1)
  }

  /** A row with one hit is considered only when no legal row is clean. */
  predicate Acceptable(row: Row, shield: bool, hasClean: bool) {
    Legal(row, shield) && (!hasClean || row.hits != 1)
  }

  predicate HasClean(rows: seq<Row>, shield: bool) {
    exists i | 0 <= i < |rows| :: Legal(rows[i], shield) && rows[i].hits != 1
  }

  // ---------------------------------------------------------------------------
  // Corridors
  // ---------------------------------------------------------------------------

  /** Rows lo..hi-1. */
  datatype Run = Run(lo: nat, hi: nat)

  predicate InRun(r: Run, i: int) {
    r.lo <= i < r.hi
  }

  predicate IsMaximalRun(ok: seq<bool>, r: Run) {
    && r.lo < r.hi <= |ok|
    && (forall i | r.lo <= i < r.hi :: ok[i])
    && (r.lo > 0 ==> !ok[r.lo - 1])
    && (r.hi < |ok| ==> !ok[r.hi])
  }

  /** The runs are the maximal ones, in order, and every acceptable position lies in one. */
  ghost predicate AreMaximalRuns(ok: seq<bool>, runs: seq<Run>) {
    && (forall k | 0 <= k < |runs| :: IsMaximalRun(ok, runs[k]))
    && (forall j, k | 0 <= j < k < |runs| :: runs[j].hi < runs[k].lo)
    && forall i | 0 <= i < |ok| && ok[i] :: exists k | 0 <= k < |runs| :: InRun(runs[k], i)
  }

  /** Closed runs so far, and the run still open at position `n` if `start` is below it. */
  ghost predicate RunsSoFar(ok: seq<bool>, n: nat, runs: seq<Run>, start: nat)
    requires n <= |ok|
  {
    && start <= n
    && (forall k | 0 <= k < |runs| :: IsMaximalRun(ok, runs[k]) && runs[k].hi < (if start < n then start else n))
    && (forall j, k | 0 <= j < k < |runs| :: runs[j].hi < runs[k].lo)
    && (forall i | start <= i < n :: ok[i])
    && (start > 0 && start < n ==> !ok[start - 1])
    && (start == n && n > 0 ==> !ok[n - 1])
    && forall i | 0 <= i < start && ok[i] :: exists k | 0 <= k < |runs| :: InRun(runs[k], i)
  }

  ghost predicate AreSlices(rows: seq<Row>, ok: seq<bool>, runs: seq<Run>, corridors: seq<seq<Row>>)
    requires |ok| == |rows|
  {
    && AreMaximalRuns(ok, runs)
    && |corridors| == |runs| && forall k | 0 <= k < |runs| :: corridors[k] == rows[runs[k].lo..runs[k].hi]
  }

  /** The corridors are the rows of the maximal runs of acceptable positions. */
  ghost predicate AreCorridors(rows: seq<Row>, ok: seq<bool>, corridors: seq<seq<Row>>)
    requires |ok| == |rows|
  {
    exists runs :: AreSlices(rows, ok, runs, corridors)
  }

  /** The corridor split: the rows themselves, cut where an unacceptable row interrupts them. */
  method SplitCorridors(rows: seq<Row>, ok: seq<bool>) returns (corridors: seq<seq<Row>>)
    requires |ok| == |rows|
    ensures AreCorridors(rows, ok, corridors)
  {
    corridors := [];
    var current := [];
    ghost var runs, start := [], 0;
    for n := 0 to |rows|
      invariant RunsSoFar(ok, n, runs, start) && current == rows[start..n]
      invariant |corridors| == |runs| && forall k | 0 <= k < |runs| :: runs[k].hi <= |rows| && corridors[k] == rows[runs[k].lo..runs[k].hi]
    {
      if ok[n] {
        current := current + [rows[n]];
      } else {
        if current != [] {
          CloseRun(ok, n, runs, start);
          corridors, runs := corridors + [current], runs + [Run(start, n)];
          current := [];
        }
        start := n + 1;
      }
    }
    if current != [] {
      CloseLastRun(ok, runs, start);
      corridors, runs := corridors + [current], runs + [Run(start, |ok|)];
    }
    assert AreSlices(rows, ok, runs, corridors);
  }

  lemma CloseRun(ok: seq<bool>, n: nat, runs: seq<Run>, start: nat)
    requires n < |ok| && RunsSoFar(ok, n, runs, start) && start < n && !ok[n]
    ensures RunsSoFar(ok, n + 1, runs + [Run(start, n)], n + 1)
  {
    var longer := runs + [Run(start, n)];
    assert IsMaximalRun(ok, Run(start, n));
    forall i | 0 <= i < n + 1 && ok[i]
      ensures exists k | 0 <= k < |longer| :: InRun(longer[k], i)
    {
      if i < start {
        var k :| 0 <= k < |runs| && InRun(runs[k], i);
        assert longer[k] == runs[k];
      } else {
        assert InRun(longer[|runs|], i);
      }
    }
  }

  lemma CloseLastRun(ok: seq<bool>, runs: seq<Run>, start: nat)
    requires RunsSoFar(ok, |ok|, runs, start) && start < |ok|
    ensures AreMaximalRuns(ok, runs + [Run(start, |ok|)])
  {
    var longer := runs + [Run(start, |ok|)];
    assert IsMaximalRun(ok, Run(start, |ok|));
    forall i | 0 <= i < |ok| && ok[i]
      ensures exists k | 0 <= k < |longer| :: InRun(longer[k], i)
    {
      if i < start {
        var k :| 0 <= k < |runs| && InRun(runs[k], i);
        assert longer[k] == runs[k];
      } else {
        assert InRun(longer[|runs|], i);
      }
    }
  }

  // ---------------------------------------------------------------------------
  // Scoring
  // ---------------------------------------------------------------------------

  function BestClearance(corridor: seq<Row>, n: nat): Extended
    requires 1 <= n <= |corridor|
  {
    if n == 1 then corridor[0].clearance
    else MaxExtended(BestClearance(corridor, n - 1), corridor[n - 1].clearance)
  }

  function Center(corridor: seq<Row>): real
    requires |corridor| >= 1
  {
    (corridor[0].x + corridor[|corridor| - 1].x) / 2.0
  }

  function Direction(g: GuardPaths, center: real): int {
    if Abs(center - g.playerX) < 8.0 then 0 else Sign(center - g.playerX)
  }

  /** What a centre close to the road's edge costs. */
  function EdgePenalty(distance: real): real {
    if distance >= EDGE_RESERVE then 0.0
    else EDGE_PENALTY * Square(1.0 - distance / EDGE_RESERVE)
  }

  function Square(x: real): real {
    x * x
  }

  function EdgeDistance(g: GuardPaths, center: real): real {
    Min(center - MinX(g), MaxX(g) - center)
  }

  /** Everything in a corridor's score except its clearance. */
  function Preference(g: GuardPaths, corridor: seq<Row>, reference: Option<real>, locked: int): real
    requires |corridor| >= 1
  {
    var width := Max(0.0, corridor[|corridor| - 1].x - corridor[0].x);
    var center := Center(corridor);
    var direction := Direction(g, center);
    width * WIDTH_WEIGHT - EdgePenalty(EdgeDistance(g, center))
    - (if locked != 0 && direction != 0 && direction != locked then DIRECTION_FLIP_PENALTY else 0.0)
    - Abs(center - g.playerX) * MOVE_PENALTY
    - (if reference.Some? then Abs(center - reference.value) * CENTER_BIAS else 0.0)
  }

  function Score(g: GuardPaths, corridor: seq<Row>, reference: Option<real>, locked: int): Extended
    requires |corridor| >= 1
  {
    Plus(Fin(Preference(g, corridor, reference, locked)), BestClearance(corridor, |corridor|))
  }

  // ---------------------------------------------------------------------------
  // What the score prefers
  // ---------------------------------------------------------------------------

  /** The clearance that counts is the largest one of any row. */
  lemma {:induction false} BestClearanceMeaning(corridor: seq<Row>, n: nat)
    requires 1 <= n <= |corridor|
    ensures forall i | 0 <= i < n :: AtMost(corridor[i].clearance, BestClearance(corridor, n))
    ensures exists i :: 0 <= i < n && BestClearance(corridor, n) == corridor[i].clearance
  {
    if n == 1 {
      assert BestClearance(corridor, n) == corridor[0].clearance;
    } else {
      BestClearanceMeaning(corridor, n - 1);
      if !Less(BestClearance(corridor, n - 1), corridor[n - 1].clearance) {
        var i :| 0 <= i < n - 1 && BestClearance(corridor, n - 1) == corridor[i].clearance;
        assert BestClearance(corridor, n) == corridor[i].clearance;
      } else {
        assert BestClearance(corridor, n) == corridor[n - 1].clearance;
      }
    }
  }

  /** Between corridors with the same ends the larger best clearance decides, pixel for point; without any
      clearance to report the score is infinite. */
  lemma ClearanceDecides(g: GuardPaths, a: seq<Row>, b: seq<Row>, reference: Option<real>, locked: int)
    requires |a| >= 1 && |b| >= 1 && a[0].x == b[0].x && a[|a| - 1].x == b[|b| - 1].x
    ensures Score(g, a, reference, locked).Inf? <==> BestClearance(a, |a|).Inf?
    ensures BestClearance(a, |a|).Fin? && BestClearance(b, |b|).Fin? ==>
              Score(g, a, reference, locked).v - Score(g, b, reference, locked).v == BestClearance(a, |a|).v - BestClearance(b, |b|).v
  {
    hide BestClearance, EdgePenalty, Direction;
  }

  /** A corridor lies ahead of the car when its centre is within 8 px of it, otherwise to one side. */
  lemma DirectionMeaning(g: GuardPaths, center: real)
    ensures Direction(g, center) == 0 <==> g.playerX - 8.0 < center < g.playerX + 8.0
    ensures Direction(g, center) == 1 <==> center >= g.playerX + 8.0
    ensures Direction(g, center) == -1 <==> center <= g.playerX - 8.0
  {}

  /** Of two corridors with the same centre the wider is preferred, by 0.42 points per pixel. */
  lemma WidthIsPreferred(g: GuardPaths, a: seq<Row>, b: seq<Row>, reference: Option<real>, locked: int)
    requires |a| >= 1 && |b| >= 1 && a[0].x + a[|a| - 1].x == b[0].x + b[|b| - 1].x
    requires a[0].x <= a[|a| - 1].x && b[0].x <= b[|b| - 1].x
    ensures Preference(g, a, reference, locked) - Preference(g, b, reference, locked)
            == 0.42 * ((a[|a| - 1].x - a[0].x) - (b[|b| - 1].x - b[0].x))
  {
    hide EdgePenalty, Direction;
    assert Center(a) == Center(b);
  }

  /** Turning against the locked direction costs 150 points, distance from the reference target 0.018 per
      pixel; neither costs anything else. */
  lemma LockAndReferenceCost(g: GuardPaths, c: seq<Row>, reference: real, locked: int)
    requires |c| >= 1 && locked in {-1, 1}
    ensures Preference(g, c, None, 0) - Preference(g, c, None, locked)
            == if (locked == 1 && Center(c) <= g.playerX - 8.0) || (locked == -1 && Center(c) >= g.playerX + 8.0) then 150.0 else 0.0
    ensures forall d :: Preference(g, c, None, d) - Preference(g, c, Some(reference), d) == 0.018 * Abs(Center(c) - reference)
  {
    hide EdgePenalty, Center;
    DirectionMeaning(g, Center(c));
  }

  /** Of two corridors of the same width, without lock and reference, distance from the car costs 0.008 points
      per pixel and closeness to the edge its penalty. */
  lemma PlaceCosts(g: GuardPaths, a: seq<Row>, b: seq<Row>)
    requires |a| >= 1 && |b| >= 1 && a[|a| - 1].x - a[0].x == b[|b| - 1].x - b[0].x
    ensures Preference(g, a, None, 0) - Preference(g, b, None, 0)
            == 0.008 * (Abs(Center(b) - g.playerX) - Abs(Center(a) - g.playerX))
               + EdgePenalty(EdgeDistance(g, Center(b))) - EdgePenalty(EdgeDistance(g, Center(a)))
  {
    hide EdgePenalty, Direction, Center;
  }

  /** The penalty is due exactly within 72 px of an edge, 46 points at the edge itself, and falls the further a
      centre is inside: over a share k of the reserve it comes to 46 times the square of k. */
  lemma EdgePenaltyMeaning(g: GuardPaths, center: real, k: real)
    requires k >= 0.0
    ensures EdgePenalty(EdgeDistance(g, center)) == 0.0 <==> PLAYER_EDGE + 72.0 <= center <= g.width - PLAYER_EDGE - 72.0
    ensures EdgePenalty(72.0 * (1.0 - k)) == 46.0 * (k * k)
  {
    hide EdgePenalty;
    NoPenaltyIff(EdgeDistance(g, center));
    PenaltyOfShare(k);
  }

  lemma NoPenaltyIff(distance: real)
    ensures EdgePenalty(distance) == 0.0 <==> distance >= EDGE_RESERVE
  {
    hide Square;
    if distance < EDGE_RESERVE {
      SquareIsPositive(1.0 - distance / EDGE_RESERVE);
    }
  }

  lemma SquareIsPositive(x: real)
    requires x > 0.0
    ensures Square(x) > 0.0
  {
    SquareOrder(x, 0.0);
  }

  lemma PenaltyOfShare(k: real)
    requires k >= 0.0
    ensures EdgePenalty(72.0 * (1.0 - k)) == 46.0 * (k * k)
  {
    assert 72.0 * (1.0 - k) / EDGE_RESERVE == 1.0 - k;
  }

  // ---------------------------------------------------------------------------
  // The best corridor
  // ---------------------------------------------------------------------------

  /** The first corridor whose score no other exceeds. */
  method BestCorridor(g: GuardPaths, corridors: seq<seq<Row>>, reference: Option<real>, locked: int)
    returns (b: nat, score: Extended)
    requires |corridors| >= 1 && forall k | 0 <= k < |corridors| :: |corridors[k]| >= 1
    ensures b < |corridors| && score == Score(g, corridors[b], reference, locked)
    ensures forall k | 0 <= k < |corridors| :: AtMost(Score(g, corridors[k], reference, locked), score)
    ensures forall k | 0 <= k < b :: Less(Score(g, corridors[k], reference, locked), score)
  {
    hide Preference, BestClearance;
    b, score := 0, Score(g, corridors[0], reference, locked);
    for k := 1 to |corridors|
      invariant b < k && score == Score(g, corridors[b], reference, locked)
      invariant forall i | 0 <= i < k :: AtMost(Score(g, corridors[i], reference, locked), score)
      invariant forall i | 0 <= i < b :: Less(Score(g, corridors[i], reference, locked), score)
    {
      var s := Score(g, corridors[k], reference, locked);
      if Less(score, s) {
        b, score := k, s;
      }
    }
  }

  /** The first row nearest to a corridor's centre. */
  ghost predicate IsNearest(corridor: seq<Row>, center: real, c: nat) {
    && c < |corridor|
    && (forall i | 0 <= i < |corridor| :: Abs(corridor[c].x - center) <= Abs(corridor[i].x - center))
    && (forall i | 0 <= i < c :: Abs(corridor[c].x - center) < Abs(corridor[i].x - center))
  }

  method NearestRow(corridor: seq<Row>, center: real) returns (c: nat)
    requires |corridor| >= 1
    ensures IsNearest(corridor, center, c)
  {
    c := 0;
    for i := 0 to |corridor|
      invariant c < |corridor| && (c == 0 || c < i)
      invariant forall k | 0 <= k < i :: Abs(corridor[c].x - center) <= Abs(corridor[k].x - center)
      invariant forall k | 0 <= k < c :: Abs(corridor[c].x - center) < Abs(corridor[k].x - center)
    {
      if Abs(corridor[i].x - center) < Abs(corridor[c].x - center) {
        c := i;
      }
    }
  }

  /** Distance of row i from the centre of n evenly spaced rows. */
  function OffCentre(first: real, pitch: real, n: nat, i: int): real {
    Abs(first + i as real * pitch - (first + (first + (n - 1) as real * pitch)) / 2.0)
  }

  function Imbalance(n: nat, i: int): nat {
    if 2 * i >= n - 1 then 2 * i - (n - 1) else n - 1 - 2 * i
  }

  lemma OffCentreScales(first: real, pitch: real, n: nat, i: int)
    ensures 2.0 * OffCentre(first, pitch, n, i) == Imbalance(n, i) as real * Abs(pitch)
  {
    var k := (2 * i - (n - 1)) as real;
    var twice := 2.0 * (first + i as real * pitch - (first + (first + (n - 1) as real * pitch)) / 2.0);
    assert twice == k * pitch;
    ProductMagnitude(k, pitch);
  }

  lemma ProductMagnitude(a: real, b: real)
    ensures Abs(a * b) == Abs(a) * Abs(b)
  {
    if a >= 0.0 && b >= 0.0 {
      MulNonNegative(a, b);
    } else if a >= 0.0 {
      MulNonNegative(a, -b);
      assert a * -b == -(a * b);
    } else if b >= 0.0 {
      MulNonNegative(-a, b);
      assert -a * b == -(a * b);
    } else {
      MulNonNegative(-a, -b);
      assert -a * -b == a * b;
    }
  }

  lemma OffCentreOrder(first: real, pitch: real, n: nat, i: int, j: int)
    requires pitch != 0.0
    ensures OffCentre(first, pitch, n, i) <= OffCentre(first, pitch, n, j) <==> Imbalance(n, i) <= Imbalance(n, j)
  {
    hide OffCentre, Imbalance;
    OffCentreScales(first, pitch, n, i);
    OffCentreScales(first, pitch, n, j);
    OrderScales(Imbalance(n, i) as real, Imbalance(n, j) as real, Abs(pitch));
  }

  /** Rows at equal distances of `pitch`. */
  predicate Even(corridor: seq<Row>, pitch: real) {
    forall i | 0 <= i < |corridor| :: corridor[i].x == corridor[0].x + i as real * pitch
  }

  lemma RowOffCentre(corridor: seq<Row>, pitch: real, i: nat)
    requires i < |corridor| && Even(corridor, pitch)
    ensures Abs(corridor[i].x - Center(corridor)) == OffCentre(corridor[0].x, pitch, |corridor|, i)
  {
    assert corridor[|corridor| - 1].x == corridor[0].x + (|corridor| - 1) as real * pitch;
  }

  /** On evenly spaced rows the nearest one is the middle row, the left of the two middle rows when
      their number is even. */
  lemma NearestIsMiddle(corridor: seq<Row>, pitch: real, c: nat)
    requires pitch != 0.0 && Even(corridor, pitch)
    requires |corridor| >= 1 && IsNearest(corridor, Center(corridor), c)
    ensures c == (|corridor| - 1) / 2
  {
    hide Even, OffCentre, Center;
    var n := |corridor|;
    var middle := (n - 1) / 2;
    RowOffCentre(corridor, pitch, c);
    RowOffCentre(corridor, pitch, middle);
    OffCentreOrder(corridor[0].x, pitch, n, c, middle);
    OffCentreOrder(corridor[0].x, pitch, n, middle, c);
  }

  // ---------------------------------------------------------------------------
  // The candidate
  // ---------------------------------------------------------------------------

  ghost function Verdicts(rows: seq<Row>, shield: bool): (ok: seq<bool>)
    ensures |ok| == |rows|
  {
    seq(|rows|, (i: nat) requires i < |rows| => Acceptable(rows[i], shield, HasClean(rows, shield)))
  }

  /** Nothing is acceptable iff every sampled target hits two hazards, or one without a shield. */
  lemma NothingAcceptable(rows: seq<Row>, shield: bool)
    ensures (forall i | 0 <= i < |rows| :: !Verdicts(rows, shield)[i])
            <==> forall i | 0 <= i < |rows| :: rows[i].hits >= (if shield then 2 else 1)
  {
    if i :| 0 <= i < |rows| && rows[i].hits < (if shield then 2 else 1) {
      if HasClean(rows, shield) {
        var j :| 0 <= j < |rows| && Legal(rows[j], shield) && rows[j].hits != 1;
        assert Verdicts(rows, shield)[j];
      } else {
        assert Verdicts(rows, shield)[i];
      }
    }
  }

  /** Row `c` of a run supplies the candidate's target, and is the run's middle row. */
  ghost predicate IsMiddle(g: GuardPaths, rows: seq<Row>, run: Run, c: nat, r: Candidate) {
    && c < run.hi - run.lo && run.hi <= |rows|
    && (Pitch(g) != 0.0 ==> c == (run.hi - run.lo - 1) / 2)
    && r.target == rows[run.lo + c].x && r.hitCount == rows[run.lo + c].hits && r.clearance == rows[run.lo + c].clearance
  }

  /** The candidate is the middle row of a best-scoring maximal corridor. */
  ghost predicate IsMiddleOfBest(g: GuardPaths, rows: seq<Row>, runs: seq<Run>, b: nat, reference: Option<real>,
                                 locked: int, r: Candidate)
    requires forall k | 0 <= k < |runs| :: runs[k].lo < runs[k].hi <= |rows|
  {
    && b < |runs|
    && (forall k | 0 <= k < |runs| :: AtMost(Score(g, rows[runs[k].lo..runs[k].hi], reference, locked), r.score))
    && (forall k | 0 <= k < b :: Less(Score(g, rows[runs[k].lo..runs[k].hi], reference, locked), r.score))
    && r.score == Score(g, rows[runs[b].lo..runs[b].hi], reference, locked)
    && r.direction == Direction(g, Center(rows[runs[b].lo..runs[b].hi]))
    && exists c :: IsMiddle(g, rows, runs[b], c, r)
  }

  /** Picks the best corridor and its middle row. */
  method ChooseTarget(g: GuardPaths, rows: seq<Row>, corridors: seq<seq<Row>>, ghost runs: seq<Run>,
                      reference: Option<real>, locked: int)
    returns (r: Candidate, ghost b: nat, ghost i: nat)
    requires Sampled(g) && AreRows(g, rows)
    requires |corridors| == |runs| >= 1
    requires forall k | 0 <= k < |runs| :: runs[k].lo < runs[k].hi <= |rows| && corridors[k] == rows[runs[k].lo..runs[k].hi]
    ensures IsMiddleOfBest(g, rows, runs, b, reference, locked, r)
    ensures b < |runs| && InRun(runs[b], i)
    ensures r.target == rows[i].x && r.hitCount == rows[i].hits && r.clearance == rows[i].clearance
  {
    hide Score, Center, Direction, CappedHits, LeastClearance, SampleX, Pitch, IsRow, AreRows;
    var best, score := BestCorridor(g, corridors, reference, locked);
    var corridor := corridors[best];
    var center := Center(corridor);
    var c := NearestRow(corridor, center);
    if Pitch(g) != 0.0 {
      CorridorIsEven(g, rows, runs[best]);
      NearestIsMiddle(corridor, Pitch(g), c);
    }
    b, i := best, runs[best].lo + c;
    r := Candidate(corridor[c].x, score, corridor[c].hits, corridor[c].clearance, Direction(g, center));
    assert corridor[c] == rows[i];
    assert IsMiddle(g, rows, runs[b], c, r);
  }

  /** What a scan of the road comes to: no candidate iff every sample hits two hazards, or one without a
      shield; otherwise the middle row of a best-scoring maximal corridor, truthfully reported, hit-free if
      any row is, and inside a road that is not empty. */
  ghost predicate IsScan(g: GuardPaths, shield: bool, reference: Option<real>, locked: int, r: Option<Candidate>,
                         rows: seq<Row>, runs: seq<Run>, b: nat)
    requires Sampled(g)
  {
    && AreRows(g, rows) && AreMaximalRuns(Verdicts(rows, shield), runs)
    && (r.None? <==> forall i | 0 <= i < |rows| :: rows[i].hits >= (if shield then 2 else 1))
    && (r.Some? ==>
          && (forall k | 0 <= k < |runs| :: runs[k].lo < runs[k].hi <= |rows|)
          && IsMiddleOfBest(g, rows, runs, b, reference, locked, r.value)
          && r.value.hitCount == CappedHits(g, r.value.target) < (if shield then 2 else 1)
          && r.value.clearance == LeastClearance(g, r.value.target)
          && ((exists i | 0 <= i < |rows| :: rows[i].hits == 0) ==> r.value.hitCount == 0)
          && (MinX(g) <= MaxX(g) ==> MinX(g) <= r.value.target <= MaxX(g)))
  }

  method CandidateGuardTarget(g: GuardPaths, shield: bool, reference: Option<real>, locked: int)
    returns (r: Option<Candidate>, ghost rows: seq<Row>, ghost runs: seq<Run>, ghost b: nat)
    requires Sampled(g)
    ensures IsScan(g, shield, reference, locked, r, rows, runs, b)
  {
    hide IsMiddleOfBest, CappedHits, LeastClearance, AreRows, IsRow, AreMaximalRuns;
    var sampled := SampleRows(g);
    rows, b := sampled, 0;
    var ok := seq(|sampled|, (i: nat) requires i < |sampled| => Acceptable(sampled[i], shield, HasClean(sampled, shield)));
    assert ok == Verdicts(rows, shield);
    var corridors := SplitCorridors(sampled, ok);
    runs :| AreSlices(sampled, ok, runs, corridors);
    NothingAcceptable(rows, shield);
    NoRunsIffNothing(ok, runs);
    if corridors == [] {
      return None, rows, runs, b;
    }
    ghost var i: nat;
    var chosen;
    chosen, b, i := ChooseTarget(g, sampled, corridors, runs, reference, locked);
    AcceptedRow(g, rows, shield, runs, b, i);
    r := Some(chosen);
  }

  lemma NoRunsIffNothing(ok: seq<bool>, runs: seq<Run>)
    requires AreMaximalRuns(ok, runs)
    ensures runs == [] <==> forall i | 0 <= i < |ok| :: !ok[i]
    ensures forall k | 0 <= k < |runs| :: runs[k].lo < runs[k].hi <= |ok|
  {
    if runs != [] {
      assert IsMaximalRun(ok, runs[0]) && ok[runs[0].lo];
    }
  }

  /** What holds of any row inside a run of acceptable rows. */
  lemma AcceptedRow(g: GuardPaths, rows: seq<Row>, shield: bool, runs: seq<Run>, b: nat, i: nat)
    requires Sampled(g) && AreRows(g, rows) && AreMaximalRuns(Verdicts(rows, shield), runs)
    requires b < |runs| && InRun(runs[b], i)
    ensures i < |rows| && Verdicts(rows, shield)[i]
    ensures rows[i].hits <= 1 && rows[i].hits == CappedHits(g, rows[i].x) && rows[i].clearance == LeastClearance(g, rows[i].x)
    ensures rows[i].hits < (if shield then 2 else 1)
    ensures (exists k | 0 <= k < |rows| :: rows[k].hits == 0) ==> rows[i].hits == 0
    ensures MinX(g) <= MaxX(g) ==> MinX(g) <= rows[i].x <= MaxX(g)
  {
    hide CappedHits, LeastClearance, SampleX;
    assert IsMaximalRun(Verdicts(rows, shield), runs[b]);
    assert IsRow(g, i, rows[i]);
    if MinX(g) <= MaxX(g) {
      SampleInRoad(g, i);
    }
    if k :| 0 <= k < |rows| && rows[k].hits == 0 {
      assert Legal(rows[k], shield) && rows[k].hits != 1;
    }
  }

  lemma CorridorIsEven(g: GuardPaths, rows: seq<Row>, run: Run)
    requires Sampled(g) && AreRows(g, rows) && run.lo < run.hi <= |rows|
    ensures Even(rows[run.lo..run.hi], Pitch(g))
  {
    hide CappedHits, LeastClearance, SampleX, Pitch;
    var corridor := rows[run.lo..run.hi];
    forall i | 0 <= i < |corridor|
      ensures corridor[i].x == corridor[0].x + i as real * Pitch(g)
    {
      assert IsRow(g, run.lo, rows[run.lo]) && IsRow(g, run.lo + i, rows[run.lo + i]);
      SamplesAreEven(g, run.lo);
      SamplesAreEven(g, run.lo + i);
      assert (run.lo + i) as real * Pitch(g) == run.lo as real * Pitch(g) + i as real * Pitch(g);
    }
  }
}

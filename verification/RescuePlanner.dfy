/** V7's shield rescue: when no collision-free plan exists, the grid is searched for a plan that collides
    with at most one hazard, which the shield removes for good. States are merged by lane and consumed
    hazard and cut to the cheapest few after every step. */
module RescuePlanner {
  import opened Numbers
  import Sorting
  import opened ExactPlanner

  const SHIELD_COST := 190.0
  const RESCUE_BEAM := 520

  // ---------------------------------------------------------------------------
  // Plans with one consumed hazard
  // ---------------------------------------------------------------------------

  /** The hazards of a cell that are still there; -1 stands for an unused shield. */
  function Remaining(raw: seq<nat>, consumed: int): seq<nat> {
    if raw == [] then []
    else if consumed >= 0 && raw[|raw| - 1] == consumed then Remaining(raw[..|raw| - 1], consumed)
    else Remaining(raw[..|raw| - 1], consumed) + [raw[|raw| - 1]]
  }

  lemma {:induction false} RemainingMeaning(raw: seq<nat>, consumed: int)
    ensures forall h: nat :: h in Remaining(raw, consumed) <==> h in raw && !(consumed >= 0 && h == consumed)
  {
    if raw != [] {
      RemainingMeaning(raw[..|raw| - 1], consumed);
      assert raw == raw[..|raw| - 1] + [raw[|raw| - 1]];
    }
  }

  /** The hazard consumed by then and the cost so far. */
  datatype Tally = Tally(consumed: int, cost: real)

  /** Moves in the scanned window by a pointer inside the road. */
  predicate Steerable(g: Grid, fromX: real, j: nat) {
    j < |g.lanes| && InWindow(g, fromX, j) && PointerInRoad(g, fromX, g.lanes[j])
  }

  /** What a move in step `s` to lane `j` does to the tally; none if it would be fatal. */
  function MoveTally(g: Grid, s: nat, fromX: real, j: nat, t: Tally): Option<Tally>
    requires Shaped(g) && s < g.steps
  {
    if !Steerable(g, fromX, j) then None
    else
      var hits := Remaining(g.colliders[s][j], t.consumed);
      var cost := t.cost + g.risk[s][j] + Abs(g.lanes[j] - fromX) * MOVE_COST;
      if hits == [] then Some(Tally(t.consumed, cost))
      else if t.consumed >= 0 || |hits| != 1 then None
      else Some(Tally(hits[0], cost + SHIELD_COST))
  }

  /** The tally of a lane path, if it survives. */
  function RunTally(g: Grid, x: real, p: seq<nat>): Option<Tally>
    requires Shaped(g) && |p| <= g.steps && IsLanePath(g, p)
  {
    if p == [] then Some(Tally(-1, 0.0))
    else
      var s := |p| - 1;
      var before := RunTally(g, x, p[..s]);
      if before.None? then None else MoveTally(g, s, Before(g, x, p, s), p[s], before.value)
  }

  ghost predicate Survives(g: Grid, x: real, p: seq<nat>)
    requires Shaped(g)
  {
    |p| <= g.steps && IsLanePath(g, p) && RunTally(g, x, p).Some?
  }

  lemma PrefixSurvives(g: Grid, x: real, p: seq<nat>)
    requires Shaped(g) && Survives(g, x, p) && p != []
    ensures Survives(g, x, p[..|p| - 1])
    ensures Before(g, x, p, |p| - 1) == Before(g, x, p[..|p| - 1], |p| - 1)
  {
    hide MoveTally;
  }

  /** Beginnings of any length survive with the path. */
  lemma {:induction false} BeginningSurvives(g: Grid, x: real, p: seq<nat>, k: nat)
    requires Shaped(g) && Survives(g, x, p) && k <= |p|
    ensures Survives(g, x, p[..k])
    decreases |p|
  {
    hide Survives;
    if k == |p| {
      assert p[..k] == p;
    } else {
      PrefixSurvives(g, x, p);
      BeginningSurvives(g, x, p[..|p| - 1], k);
      assert p[..|p| - 1][..k] == p[..k];
    }
  }

  /** Every collision along a surviving path is with the one consumed hazard. */
  lemma {:induction false} OnlyConsumedIsHit(g: Grid, x: real, p: seq<nat>, s: nat, h: nat)
    requires Shaped(g) && Survives(g, x, p) && s < |p| && h in g.colliders[s][p[s]]
    ensures h == RunTally(g, x, p).value.consumed
    decreases |p|
  {
    hide Steerable, Before, Abs, Remaining;
    var k := |p| - 1;
    var t := RunTally(g, x, p[..k]).value;
    RemainingMeaning(g.colliders[k][p[k]], t.consumed);
    if s < k {
      OnlyConsumedIsHit(g, x, p[..k], s, h);
    }
  }

  // ---------------------------------------------------------------------------
  // The same paths, from the collision table itself
  // ---------------------------------------------------------------------------

  /** Every cell lists its hazards in order, as the grid builder does. */
  predicate CellsAscend(g: Grid)
    requires Shaped(g)
  {
    forall s, j | 0 <= s < g.steps && 0 <= j < |g.lanes| :: Ascending(g.colliders[s][j])
  }

  predicate SteerableAt(g: Grid, x: real, p: seq<nat>, s: nat)
    requires s < |p| && IsLanePath(g, p)
  {
    InWindow(g, Before(g, x, p, s), p[s]) && PointerInRoad(g, Before(g, x, p, s), g.lanes[p[s]])
  }

  /** Every move can be steered. */
  ghost predicate CanSteer(g: Grid, x: real, p: seq<nat>) {
    IsLanePath(g, p) && forall s: nat | s < |p| :: SteerableAt(g, x, p, s)
  }

  predicate CellWithin(g: Grid, p: seq<nat>, s: nat, h: int)
    requires Shaped(g) && s < |p| <= g.steps && IsLanePath(g, p)
  {
    forall k | 0 <= k < |g.colliders[s][p[s]]| :: g.colliders[s][p[s]][k] == h
  }

  /** No cell of the path holds a hazard other than `h`. */
  ghost predicate Within(g: Grid, p: seq<nat>, h: int)
    requires Shaped(g) && |p| <= g.steps && IsLanePath(g, p)
  {
    forall s: nat | s < |p| :: CellWithin(g, p, s, h)
  }

  /** No cell holds any hazard. */
  ghost predicate Unhit(g: Grid, p: seq<nat>)
    requires Shaped(g) && |p| <= g.steps && IsLanePath(g, p)
  {
    forall s: nat | s < |p| :: g.colliders[s][p[s]] == []
  }

  /** A path that can be steered and meets at most one hazard, however often. */
  ghost predicate OneHazard(g: Grid, x: real, p: seq<nat>)
    requires Shaped(g)
  {
    |p| <= g.steps && CanSteer(g, x, p) && exists h :: Within(g, p, h)
  }

  /** Risk, travel, and the shield if a hazard is really met. */
  ghost function RescueCost(g: Grid, x: real, p: seq<nat>): real
    requires Shaped(g) && |p| <= g.steps && IsLanePath(g, p)
  {
    RiskSum(g, p) + Travel(g, x, p) * 0.0032 + if Unhit(g, p) then 0.0 else 190.0
  }

  lemma CanSteerGrows(g: Grid, x: real, p: seq<nat>)
    requires IsLanePath(g, p) && p != []
    ensures CanSteer(g, x, p) <==> CanSteer(g, x, p[..|p| - 1]) && SteerableAt(g, x, p, |p| - 1)
  {
    hide InWindow, PointerInRoad;
    var q := p[..|p| - 1];
    forall s: nat | s < |q|
      ensures SteerableAt(g, x, q, s) == SteerableAt(g, x, p, s)
    {
      assert Before(g, x, q, s) == Before(g, x, p, s);
    }
  }

  lemma WithinGrows(g: Grid, p: seq<nat>, h: int)
    requires Shaped(g) && |p| <= g.steps && IsLanePath(g, p) && p != []
    ensures Within(g, p, h) <==> Within(g, p[..|p| - 1], h) && CellWithin(g, p, |p| - 1, h)
    ensures Unhit(g, p) <==> Unhit(g, p[..|p| - 1]) && g.colliders[|p| - 1][p[|p| - 1]] == []
  {
    hide Shaped;
    var q := p[..|p| - 1];
    assert forall s: nat | s < |q| :: CellWithin(g, q, s, h) == CellWithin(g, p, s, h);
    if Unhit(g, p) {
      assert forall s: nat | s < |q| :: q[s] == p[s];
    }
  }

  lemma UnhitIsWithin(g: Grid, p: seq<nat>, h: int)
    requires Shaped(g) && |p| <= g.steps && IsLanePath(g, p) && Unhit(g, p)
    ensures Within(g, p, h)
  {}

  /** Of two hazards within which a path lies there is only one, if any is met. */
  lemma WithinIsUnique(g: Grid, p: seq<nat>, a: int, b: int)
    requires Shaped(g) && |p| <= g.steps && IsLanePath(g, p) && !Unhit(g, p) && Within(g, p, a) && Within(g, p, b)
    ensures a == b
  {
    var s: nat :| s < |p| && g.colliders[s][p[s]] != [];
    assert CellWithin(g, p, s, a) && CellWithin(g, p, s, b);
    assert g.colliders[s][p[s]][0] == a;
  }

  /** What is left of an ascending cell. */
  lemma RemainingOfCell(raw: seq<nat>, consumed: int)
    requires Ascending(raw)
    ensures Remaining(raw, consumed) == [] <==> forall k | 0 <= k < |raw| :: consumed >= 0 && raw[k] == consumed
    ensures consumed < 0 ==> Remaining(raw, consumed) == raw
    ensures |raw| == 1 <==> raw != [] && forall k | 0 <= k < |raw| :: raw[k] == raw[0]
  {
    RemainingMeaning(raw, consumed);
    if Remaining(raw, consumed) == [] {
      assert forall k | 0 <= k < |raw| :: raw[k] in raw;
    } else {
      assert Remaining(raw, consumed)[0] in Remaining(raw, consumed);
    }
    if consumed < 0 {
      NothingLeavesUnused(raw, consumed);
    }
    if |raw| > 1 {
      assert raw[0] < raw[1];
    }
  }

  lemma {:induction false} NothingLeavesUnused(raw: seq<nat>, consumed: int)
    requires consumed < 0
    ensures Remaining(raw, consumed) == raw
  {
    if raw != [] {
      NothingLeavesUnused(raw[..|raw| - 1], consumed);
    }
  }

  /** The consumed hazard is the only one met, and none is consumed iff none is met. */
  ghost predicate Explains(g: Grid, p: seq<nat>, consumed: int)
    requires Shaped(g) && |p| <= g.steps && IsLanePath(g, p)
  {
    if Unhit(g, p) then consumed == -1 else consumed >= 0 && Within(g, p, consumed)
  }

  /** A path survives iff it can be steered and meets at most one hazard; the search charges its risk and
      travel, and the shield iff a hazard is met, which is then the consumed one. */
  lemma {:induction false} SurvivesIff(g: Grid, x: real, p: seq<nat>)
    requires Shaped(g) && CellsAscend(g)
    ensures Survives(g, x, p) <==> OneHazard(g, x, p)
    ensures Survives(g, x, p) ==>
              Explains(g, p, RunTally(g, x, p).value.consumed) && RunTally(g, x, p).value.cost == RescueCost(g, x, p)
  {
    hide InWindow, PointerInRoad, Remaining, Ascending, CanSteer, Within, Unhit, CellsAscend, Shaped, Before, Abs;
    if |p| <= g.steps && IsLanePath(g, p) {
      if p == [] {
        EmptyPath(g, x);
      } else {
        SurvivesIff(g, x, p[..|p| - 1]);
        CanSteerGrows(g, x, p);
        TravelGrows(g, x, p);
        OneMoreCell(g, x, p);
      }
    } else {
      NotAPath(g, x, p);
    }
  }

  lemma NotAPath(g: Grid, x: real, p: seq<nat>)
    requires Shaped(g) && !(|p| <= g.steps && IsLanePath(g, p))
    ensures !Survives(g, x, p) && !OneHazard(g, x, p)
  {}

  lemma EmptyPath(g: Grid, x: real)
    requires Shaped(g)
    ensures Survives(g, x, []) && OneHazard(g, x, []) && Explains(g, [], -1) && RescueCost(g, x, []) == 0.0
    ensures RunTally(g, x, []) == Some(Tally(-1, 0.0))
  {
    assert Within(g, [], 0);
  }

  lemma TravelGrows(g: Grid, x: real, p: seq<nat>)
    requires Shaped(g) && |p| <= g.steps && IsLanePath(g, p) && p != []
    ensures RiskSum(g, p) == RiskSum(g, p[..|p| - 1]) + g.risk[|p| - 1][p[|p| - 1]]
    ensures Travel(g, x, p) == Travel(g, x, p[..|p| - 1]) + Abs(g.lanes[p[|p| - 1]] - Before(g, x, p, |p| - 1))
  {}

  /** The step of the induction: the last cell decides. */
  lemma OneMoveMore(g: Grid, x: real, p: seq<nat>, t: Tally)
    requires Shaped(g) && CellsAscend(g) && |p| <= g.steps && IsLanePath(g, p) && p != []
    requires Explains(g, p[..|p| - 1], t.consumed)
    ensures var r := MoveTally(g, |p| - 1, Before(g, x, p, |p| - 1), p[|p| - 1], t);
            && (r.Some? <==> SteerableAt(g, x, p, |p| - 1) && exists h :: Within(g, p, h))
            && (r.Some? ==> Explains(g, p, r.value.consumed))
            && (r.Some? ==>
                  r.value.cost == t.cost + g.risk[|p| - 1][p[|p| - 1]]
                                  + Abs(g.lanes[p[|p| - 1]] - Before(g, x, p, |p| - 1)) * 0.0032
                                  + if Unhit(g, p[..|p| - 1]) && !Unhit(g, p) then 190.0 else 0.0)
  {
    hide InWindow, PointerInRoad, Remaining, Ascending, Within, Unhit, Before, Abs;
    var k := |p| - 1;
    var q, cell := p[..k], g.colliders[k][p[k]];
    RemainingOfCell(cell, t.consumed);
    forall h
      ensures Within(g, p, h) <==> Within(g, q, h) && CellWithin(g, p, k, h)
    {
      WithinGrows(g, p, h);
    }
    WithinGrows(g, p, 0);
    if Unhit(g, q) {
      forall h
        ensures Within(g, q, h)
      {
        UnhitIsWithin(g, q, h);
      }
      if cell == [] {
        assert Within(g, p, 0);
      } else if |cell| == 1 {
        assert Within(g, p, cell[0]);
      } else {
        TwoHazards(g, p);
      }
    } else {
      forall h | Within(g, q, h)
        ensures h == t.consumed
      {
        WithinIsUnique(g, q, h, t.consumed);
      }
    }
  }

  lemma TwoHazards(g: Grid, p: seq<nat>)
    requires Shaped(g) && |p| <= g.steps && IsLanePath(g, p) && p != []
    requires Ascending(g.colliders[|p| - 1][p[|p| - 1]]) && |g.colliders[|p| - 1][p[|p| - 1]]| > 1
    ensures forall h :: !Within(g, p, h)
  {
    var cell := g.colliders[|p| - 1][p[|p| - 1]];
    assert cell[0] < cell[1];
    forall h
      ensures !Within(g, p, h)
    {
      if Within(g, p, h) {
        LastCellWithin(g, p, h);
      }
    }
  }

  lemma LastCellWithin(g: Grid, p: seq<nat>, h: int)
    requires Shaped(g) && |p| <= g.steps && IsLanePath(g, p) && p != [] && Within(g, p, h)
    ensures CellWithin(g, p, |p| - 1, h)
  {}

  lemma OneMoreCell(g: Grid, x: real, p: seq<nat>)
    requires Shaped(g) && CellsAscend(g) && |p| <= g.steps && IsLanePath(g, p) && p != []
    requires var q := p[..|p| - 1];
             && (Survives(g, x, q) <==> OneHazard(g, x, q))
             && (Survives(g, x, q) ==>
                   Explains(g, q, RunTally(g, x, q).value.consumed) && RunTally(g, x, q).value.cost == RescueCost(g, x, q))
    requires CanSteer(g, x, p) <==> CanSteer(g, x, p[..|p| - 1]) && SteerableAt(g, x, p, |p| - 1)
    requires RiskSum(g, p) == RiskSum(g, p[..|p| - 1]) + g.risk[|p| - 1][p[|p| - 1]]
    requires Travel(g, x, p) == Travel(g, x, p[..|p| - 1]) + Abs(g.lanes[p[|p| - 1]] - Before(g, x, p, |p| - 1))
    ensures Survives(g, x, p) <==> OneHazard(g, x, p)
    ensures Survives(g, x, p) ==>
              Explains(g, p, RunTally(g, x, p).value.consumed) && RunTally(g, x, p).value.cost == RescueCost(g, x, p)
  {
    hide InWindow, PointerInRoad, CanSteer, Within, Unhit, CellsAscend, MoveTally, RiskSum, Travel, Abs, SteerableAt, CellWithin;
    var q := p[..|p| - 1];
    var survived := RunTally(g, x, q);
    if survived.Some? {
      OneMoveMore(g, x, p, survived.value);
      WithinGrows(g, p, 0);
    } else if OneHazard(g, x, p) {
      var h :| Within(g, p, h);
      WithinGrows(g, p, h);
    }
  }

  // ---------------------------------------------------------------------------
  // Search states
  // ---------------------------------------------------------------------------

  datatype State = State(lane: nat, x: real, consumed: int, cost: real, firstX: Option<real>)

  function Child(g: Grid, s: nat, st: State, j: nat): Option<State>
    requires Shaped(g) && s < g.steps
  {
    var t := MoveTally(g, s, st.x, j, Tally(st.consumed, st.cost));
    if t.None? || j >= |g.lanes| then None
    else Some(State(j, g.lanes[j], t.value.consumed, t.value.cost,
                    if st.firstX.None? then Some(g.lanes[j]) else st.firstX))
  }

  /** The path reaches the state with exactly its tally. */
  ghost predicate Realizes(g: Grid, x: real, p: seq<nat>, st: State)
    requires Shaped(g)
  {
    && Survives(g, x, p) && RunTally(g, x, p) == Some(Tally(st.consumed, st.cost))
    && st.x == Before(g, x, p, |p|)
    && st.firstX == (if p == [] then None else Some(g.lanes[p[0]]))
    && (p != [] ==> st.lane == p[|p| - 1])
  }

  /** The state is as good as the path: same position and consumed hazard, at no higher cost. */
  ghost predicate Dominates(g: Grid, x: real, st: State, p: seq<nat>)
    requires Shaped(g) && Survives(g, x, p)
  {
    && st.x == Before(g, x, p, |p|)
    && st.consumed == RunTally(g, x, p).value.consumed && st.cost <= RunTally(g, x, p).value.cost
  }

  ghost predicate IsRealized(g: Grid, x: real, k: nat, st: State)
    requires Shaped(g)
  {
    exists p :: |p| == k && Realizes(g, x, p, st)
  }

  ghost predicate Sound(g: Grid, x: real, k: nat, states: seq<State>)
    requires Shaped(g)
  {
    forall i | 0 <= i < |states| :: IsRealized(g, x, k, states[i])
  }

  ghost predicate IsDominated(g: Grid, x: real, states: seq<State>, p: seq<nat>)
    requires Shaped(g) && Survives(g, x, p)
  {
    exists i :: 0 <= i < |states| && Dominates(g, x, states[i], p)
  }

  lemma ChildIsRealized(g: Grid, x: real, s: nat, st: State, j: nat)
    requires Shaped(g) && s < g.steps && IsRealized(g, x, s, st) && Child(g, s, st, j).Some?
    ensures IsRealized(g, x, s + 1, Child(g, s, st, j).value)
  {
    hide MoveTally;
    var p :| |p| == s && Realizes(g, x, p, st);
    var q := p + [j];
    assert q[..s] == p;
    assert Before(g, x, q, s) == Before(g, x, p, s);
    assert Realizes(g, x, q, Child(g, s, st, j).value);
  }

  /** A state as good as a path has a child as good as each of the path's surviving extensions. */
  lemma DominanceExtends(g: Grid, x: real, s: nat, st: State, q: seq<nat>)
    requires Shaped(g) && Survives(g, x, q) && |q| == s + 1 && s < g.steps
    requires Survives(g, x, q[..s]) && Dominates(g, x, st, q[..s])
    ensures Child(g, s, st, q[s]).Some? && Dominates(g, x, Child(g, s, st, q[s]).value, q)
  {
    hide Steerable, Remaining, Abs;
    assert Before(g, x, q, s) == Before(g, x, q[..s], s);
  }

  // ---------------------------------------------------------------------------
  // One step of the search
  // ---------------------------------------------------------------------------

  datatype Table = Table(best: map<(nat, int), State>, keys: seq<(nat, int)>)

  function Key(st: State): (nat, int) {
    (st.lane, st.consumed)
  }

  ghost predicate TableOk(t: Table) {
    && (forall k :: k in t.keys <==> k in t.best) && (forall k | k in t.best :: Key(t.best[k]) == k)
    && forall i, j | 0 <= i < j < |t.keys| :: t.keys[i] != t.keys[j]
  }

  predicate Covered(t: Table, c: State) {
    Key(c) in t.best && t.best[Key(c)].cost <= c.cost
  }

  ghost predicate IsChild(g: Grid, s: nat, st: State, c: State)
    requires Shaped(g) && s < g.steps
  {
    exists j: nat :: Child(g, s, st, j) == Some(c)
  }

  ghost predicate IsChildOf(g: Grid, s: nat, states: seq<State>, c: State)
    requires Shaped(g) && s < g.steps
  {
    exists i :: 0 <= i < |states| && IsChild(g, s, states[i], c)
  }

  function Store(t: Table, c: State): (r: Table)
    requires TableOk(t)
    ensures TableOk(r) && Covered(r, c)
    ensures forall n | Covered(t, n) :: Covered(r, n)
    ensures forall k | k in r.best :: r.best[k] == c || (k in t.best && r.best[k] == t.best[k])
  {
    var k := Key(c);
    if k !in t.best then Table(t.best[k := c], t.keys + [k])
    else if c.cost < t.best[k].cost then Table(t.best[k := c], t.keys)
    else t
  }

  method ExpandState(g: Grid, s: nat, st: State, t: Table) returns (r: Table)
    requires Shaped(g) && s < g.steps && TableOk(t)
    ensures TableOk(r)
    ensures forall c | IsChild(g, s, st, c) :: Covered(r, c)
    ensures forall n | Covered(t, n) :: Covered(r, n)
    ensures forall k | k in r.best :: IsChild(g, s, st, r.best[k]) || (k in t.best && r.best[k] == t.best[k])
  {
    hide PointerInRoad, NearestLane, Store, TableOk, Covered, Remaining;
    r := t;
    var window := ReachableRange(g, st.x);
    var j := window.0;
    while j <= window.1
      invariant window.0 <= j && TableOk(r)
      invariant forall k: nat | k < j && Child(g, s, st, k).Some? :: Covered(r, Child(g, s, st, k).value)
      invariant forall n | Covered(t, n) :: Covered(r, n)
      invariant forall k | k in r.best :: IsChild(g, s, st, r.best[k]) || (k in t.best && r.best[k] == t.best[k])
      decreases window.1 - j
    {
      var child := TryMove(g, s, st, j);
      if child.Some? {
        assert IsChild(g, s, st, child.value);
        r := Store(r, child.value);
      }
      j := j + 1;
    }
    forall c | IsChild(g, s, st, c)
      ensures Covered(r, c)
    {
      var k: nat :| Child(g, s, st, k) == Some(c);
      assert k <= window.1;
    }
  }

  method TryMove(g: Grid, s: nat, st: State, j: nat) returns (child: Option<State>)
    requires Shaped(g) && s < g.steps && j < |g.lanes| && InWindow(g, st.x, j)
    ensures child == Child(g, s, st, j)
  {
    hide PointerInRoad, InWindow;
    var xj := g.lanes[j];
    if !PointerInRoad(g, st.x, xj) {
      return None;
    }
    var hits := Remaining(g.colliders[s][j], st.consumed);
    var consumed, shieldCost := st.consumed, 0.0;
    if hits != [] {
      if consumed >= 0 || |hits| != 1 {
        return None;
      }
      consumed, shieldCost := hits[0], SHIELD_COST;
    }
    var cost := st.cost + g.risk[s][j] + Abs(xj - st.x) * MOVE_COST + shieldCost;
    child := Some(State(j, xj, consumed, cost, if st.firstX.None? then Some(xj) else st.firstX));
  }

  method ExpandAll(g: Grid, s: nat, states: seq<State>) returns (t: Table)
    requires Shaped(g) && s < g.steps
    ensures TableOk(t)
    ensures forall c | IsChildOf(g, s, states, c) :: Covered(t, c)
    ensures forall k | k in t.best :: IsChildOf(g, s, states, t.best[k])
  {
    hide IsChild, Covered, TableOk, Shaped;
    t := Table(map[], []);
    EmptyTable();
    for i := 0 to |states|
      invariant TableOk(t)
      invariant forall k, c | 0 <= k < i && IsChild(g, s, states[k], c) :: Covered(t, c)
      invariant forall k | k in t.best :: IsChildOf(g, s, states, t.best[k])
    {
      t := ExpandState(g, s, states[i], t);
    }
  }

  lemma EmptyTable()
    ensures TableOk(Table(map[], []))
  {}

  ghost predicate SortedByCost(states: seq<State>) {
    forall i, j | 0 <= i < j < |states| :: states[i].cost <= states[j].cost
  }

  /** The beam is full of other states, none of them dearer. */
  ghost predicate CrowdedOut(next: seq<State>, width: nat, c: State) {
    |next| == width && c !in next && forall i | 0 <= i < |next| :: next[i].cost <= c.cost
  }

  /** The cheapest `width` states in order of cost. */
  method SortAndCut(t: Table, width: nat) returns (next: seq<State>)
    requires TableOk(t)
    ensures SortedByCost(next)
    ensures forall k | 0 <= k < |next| :: Key(next[k]) in t.best && next[k] == t.best[Key(next[k])]
    ensures forall i, j | 0 <= i < j < |next| :: Key(next[i]) != Key(next[j])
    ensures forall k | k in t.best :: t.best[k] in next || CrowdedOut(next, width, t.best[k])
  {
    hide Key;
    var states := seq(|t.keys|, (i: nat) requires i < |t.keys| && t.keys[i] in t.best => t.best[t.keys[i]]);
    var costs := seq(|states|, (i: nat) requires i < |states| => states[i].cost);
    var order := Sorting.StableOrder(costs);
    var size := if |order| < width then |order| else width;
    next := seq(size, (i: nat) requires i < size && size <= |order| && order[i] < |states| => states[order[i]]);
    forall i, j | 0 <= i < j < |next|
      ensures next[i].cost <= next[j].cost
    {
      assert Sorting.Before(costs, order[i], order[j]);
    }
    forall k | 0 <= k < |next|
      ensures Key(next[k]) == t.keys[order[k]] && Key(next[k]) in t.best && next[k] == t.best[Key(next[k])]
    {
      assert t.keys[order[k]] in t.keys;
    }
    forall i, j | 0 <= i < j < |next|
      ensures Key(next[i]) != Key(next[j])
    {
      DistinctPlaces(t.keys, order, i, j);
    }
    forall k | k in t.best
      ensures t.best[k] in next || CrowdedOut(next, width, t.best[k])
    {
      KeptOrCrowdedOut(t, states, costs, order, next, width, k);
    }
  }

  lemma DistinctPlaces(keys: seq<(nat, int)>, order: seq<nat>, i: nat, j: nat)
    requires forall a, b | 0 <= a < b < |keys| :: keys[a] != keys[b]
    requires Sorting.IsPermutation(order, |keys|) && i < j < |order|
    ensures keys[order[i]] != keys[order[j]]
  {
    assert order[i] != order[j];
  }

  lemma KeptOrCrowdedOut(t: Table, states: seq<State>, costs: seq<real>, order: seq<nat>, next: seq<State>, width: nat,
                         k: (nat, int))
    requires TableOk(t) && k in t.best && |costs| == |states| == |t.keys| == |order|
    requires Sorting.IsPermutation(order, |states|) && Sorting.InOrder(costs, order)
    requires |next| == (if |order| < width then |order| else width)
    requires forall i | 0 <= i < |states| :: t.keys[i] in t.best && states[i] == t.best[t.keys[i]] && costs[i] == states[i].cost
    requires forall i | 0 <= i < |next| :: next[i] == states[order[i]]
    ensures t.best[k] in next || CrowdedOut(next, width, t.best[k])
  {
    hide Key;
    assert k in t.keys;
    var d :| 0 <= d < |t.keys| && t.keys[d] == k;
    assert d as nat in order;
    var i :| 0 <= i < |order| && order[i] == d;
    if i < |next| {
      assert next[i] == t.best[k];
    } else if t.best[k] !in next {
      forall j | 0 <= j < |next|
        ensures next[j].cost <= t.best[k].cost
      {
        assert Sorting.Before(costs, order[j], order[i]);
      }
    }
  }

  // ---------------------------------------------------------------------------
  // Room in the beam
  // ---------------------------------------------------------------------------

  /** The collision table names only hazards below `hazards`. */
  ghost predicate HazardsBelow(g: Grid, hazards: nat)
    requires Shaped(g)
  {
    forall s, j, h: nat | 0 <= s < g.steps && 0 <= j < |g.lanes| && h in g.colliders[s][j] :: h < hazards
  }

  ghost predicate KeyReached(g: Grid, x: real, s: nat, lane: nat, consumed: int)
    requires Shaped(g)
  {
    exists p :: |p| == s && s > 0 && Survives(g, x, p) && p[s - 1] == lane && RunTally(g, x, p).value.consumed == consumed
  }

  /** The lanes and consumed hazards that surviving paths of length s end with. */
  ghost function ReachedKeys(g: Grid, x: real, s: nat, hazards: nat): set<(nat, int)>
    requires Shaped(g)
  {
    set lane: nat, consumed: int | lane < |g.lanes| && -1 <= consumed < hazards && KeyReached(g, x, s, lane, consumed) ::
      (lane, consumed)
  }

  /** No step has more of them than the beam keeps. */
  ghost predicate Roomy(g: Grid, x: real, width: nat, hazards: nat)
    requires Shaped(g)
  {
    forall s | 1 <= s <= g.steps :: |ReachedKeys(g, x, s, hazards)| <= width
  }

  lemma {:induction false} ConsumedInRange(g: Grid, x: real, p: seq<nat>, hazards: nat)
    requires Shaped(g) && HazardsBelow(g, hazards) && Survives(g, x, p)
    ensures -1 <= RunTally(g, x, p).value.consumed < hazards
    decreases |p|
  {
    hide Steerable, Before, Abs, Remaining;
    if p != [] {
      var k := |p| - 1;
      ConsumedInRange(g, x, p[..k], hazards);
      var before := RunTally(g, x, p[..k]).value.consumed;
      RemainingMeaning(g.colliders[k][p[k]], before);
      var hits := Remaining(g.colliders[k][p[k]], before);
      assert |hits| == 1 ==> hits[0] in hits && hits[0] in g.colliders[k][p[k]];
    }
  }

  /** Reached by a path of length s that costs no more than `limit`. */
  ghost predicate CheaplyReached(g: Grid, x: real, s: nat, lane: nat, consumed: int, limit: real)
    requires Shaped(g)
  {
    exists p ::
      && |p| == s && s > 0 && Survives(g, x, p) && p[s - 1] == lane
      && RunTally(g, x, p).value.consumed == consumed && RunTally(g, x, p).value.cost <= limit
  }

  /** The keys, other than its own, that some path as long as `q` reaches at no higher cost. */
  ghost function Rivals(g: Grid, x: real, q: seq<nat>, hazards: nat): set<(nat, int)>
    requires Shaped(g) && Survives(g, x, q) && q != []
  {
    set lane: nat, consumed: int |
      && lane < |g.lanes| && -1 <= consumed < hazards
      && (lane, consumed) != (q[|q| - 1], RunTally(g, x, q).value.consumed)
      && CheaplyReached(g, x, |q|, lane, consumed, RunTally(g, x, q).value.cost) ::
      (lane, consumed)
  }

  /** At length s the path has as many rivals as the beam has room. */
  ghost predicate CrowdedAt(g: Grid, x: real, p: seq<nat>, s: nat, width: nat, hazards: nat)
    requires Shaped(g)
  {
    0 < s <= |p| && Survives(g, x, p[..s]) && |Rivals(g, x, p[..s], hazards)| >= width
  }

  /** At some length it does. */
  ghost predicate Crowded(g: Grid, x: real, p: seq<nat>, width: nat, hazards: nat)
    requires Shaped(g)
  {
    exists s: nat :: CrowdedAt(g, x, p, s, width, hazards)
  }

  /** Every surviving path of length k is matched by a state, unless it was crowded on the way. */
  ghost predicate Complete(g: Grid, x: real, k: nat, states: seq<State>, width: nat, hazards: nat)
    requires Shaped(g)
  {
    forall p | |p| == k && Survives(g, x, p) :: IsDominated(g, x, states, p) || Crowded(g, x, p, width, hazards)
  }

  lemma CrowdedStaysCrowded(g: Grid, x: real, p: seq<nat>, k: nat, width: nat, hazards: nat)
    requires Shaped(g) && k <= |p| && Crowded(g, x, p[..k], width, hazards)
    ensures Crowded(g, x, p, width, hazards)
  {
    hide Shaped, Survives, Rivals;
    var s: nat :| CrowdedAt(g, x, p[..k], s, width, hazards);
    assert p[..k][..s] == p[..s];
    assert CrowdedAt(g, x, p, s, width, hazards);
  }

  /** With room for all keys no path is ever crowded. */
  lemma RoomyIsNotCrowded(g: Grid, x: real, p: seq<nat>, width: nat, hazards: nat)
    requires Shaped(g) && HazardsBelow(g, hazards) && Roomy(g, x, width, hazards) && |p| <= g.steps
    ensures !Crowded(g, x, p, width, hazards)
  {
    hide Shaped, HazardsBelow, Survives, RunTally, ReachedKeys, Rivals;
    forall s: nat
      ensures !CrowdedAt(g, x, p, s, width, hazards)
    {
      if 0 < s <= |p| && Survives(g, x, p[..s]) {
        RivalsAreFewer(g, x, p[..s], hazards);
      }
    }
  }

  lemma RivalsAreFewer(g: Grid, x: real, q: seq<nat>, hazards: nat)
    requires Shaped(g) && HazardsBelow(g, hazards) && Survives(g, x, q) && q != []
    ensures |Rivals(g, x, q, hazards)| < |ReachedKeys(g, x, |q|, hazards)|
  {
    hide HazardsBelow, RunTally;
    var own := (q[|q| - 1], RunTally(g, x, q).value.consumed);
    ConsumedInRange(g, x, q, hazards);
    assert KeyReached(g, x, |q|, own.0, own.1);
    var rivals, reached := Rivals(g, x, q, hazards), ReachedKeys(g, x, |q|, hazards);
    forall k | k in rivals
      ensures k in reached
    {
      CheapIsReached(g, x, |q|, k.0, k.1, RunTally(g, x, q).value.cost);
    }
    SubsetCount(rivals, reached - {own});
  }

  lemma CheapIsReached(g: Grid, x: real, s: nat, lane: nat, consumed: int, limit: real)
    requires Shaped(g) && CheaplyReached(g, x, s, lane, consumed, limit)
    ensures KeyReached(g, x, s, lane, consumed)
  {
    hide Shaped, RunTally;
    var p :| |p| == s && s > 0 && Survives(g, x, p) && p[s - 1] == lane
             && RunTally(g, x, p).value.consumed == consumed && RunTally(g, x, p).value.cost <= limit;
  }

  /** The states of a full beam that are no dearer than a path are rivals of it. */
  lemma FullBeamCrowds(g: Grid, x: real, q: seq<nat>, next: seq<State>, width: nat, hazards: nat)
    requires Shaped(g) && HazardsBelow(g, hazards) && Survives(g, x, q) && q != [] && |next| == width
    requires forall i | 0 <= i < |next| :: IsRealized(g, x, |q|, next[i]) && next[i].cost <= RunTally(g, x, q).value.cost
    requires forall i, j | 0 <= i < j < |next| :: Key(next[i]) != Key(next[j])
    requires forall i | 0 <= i < |next| :: Key(next[i]) != (q[|q| - 1], RunTally(g, x, q).value.consumed)
    ensures Crowded(g, x, q, width, hazards)
  {
    hide HazardsBelow, RunTally, IsRealized;
    var keys := seq(|next|, (i: nat) requires i < |next| => Key(next[i]));
    forall i | 0 <= i < |keys|
      ensures keys[i] in Rivals(g, x, q, hazards)
    {
      StateIsRival(g, x, q, next[i], hazards);
    }
    DistinctCount(keys, Rivals(g, x, q, hazards));
    assert q[..|q|] == q;
    assert CrowdedAt(g, x, q, |q|, width, hazards);
  }

  lemma StateIsRival(g: Grid, x: real, q: seq<nat>, c: State, hazards: nat)
    requires Shaped(g) && HazardsBelow(g, hazards) && Survives(g, x, q) && q != []
    requires IsRealized(g, x, |q|, c) && c.cost <= RunTally(g, x, q).value.cost
    requires Key(c) != (q[|q| - 1], RunTally(g, x, q).value.consumed)
    ensures Key(c) in Rivals(g, x, q, hazards)
  {
    hide HazardsBelow, RunTally;
    var p :| |p| == |q| && Realizes(g, x, p, c);
    ConsumedInRange(g, x, p, hazards);
    assert CheaplyReached(g, x, |q|, c.lane, c.consumed, RunTally(g, x, q).value.cost);
  }

  lemma {:induction false} DistinctCount(keys: seq<(nat, int)>, all: set<(nat, int)>)
    requires forall i, j | 0 <= i < j < |keys| :: keys[i] != keys[j]
    requires forall i | 0 <= i < |keys| :: keys[i] in all
    ensures |keys| <= |all|
  {
    if keys != [] {
      var last := keys[|keys| - 1];
      DistinctCount(keys[..|keys| - 1], all - {last});
    }
  }

  function Times(a: nat, b: nat): nat {
    a * b
  }

  lemma {:induction false} PairCount(lanes: nat, hazards: nat, keys: set<(nat, int)>)
    requires forall k | k in keys :: k.0 < lanes && -1 <= k.1 < hazards
    ensures |keys| <= Times(lanes, hazards + 1)
    decreases lanes
  {
    if lanes == 0 {
      assert keys == {};
    } else {
      var last := set k | k in keys && k.0 == lanes - 1;
      PairCount(lanes - 1, hazards, keys - last);
      LastCount(lanes - 1, hazards, last);
      assert keys == (keys - last) + last;
      assert Times(lanes, hazards + 1) == Times(lanes - 1, hazards + 1) + (hazards + 1);
    }
  }

  lemma {:induction false} LastCount(lane: nat, hazards: nat, keys: set<(nat, int)>)
    requires forall k | k in keys :: k.0 == lane && -1 <= k.1 < hazards
    ensures |keys| <= hazards + 1
    decreases hazards
  {
    if hazards == 0 {
      assert keys <= {(lane, -1)};
      SubsetCount(keys, {(lane, -1)});
    } else {
      LastCount(lane, hazards - 1, keys - {(lane, hazards - 1)});
    }
  }

  lemma SubsetCount(a: set<(nat, int)>, b: set<(nat, int)>)
    requires a <= b
    ensures |a| <= |b|
  {
    assert b == a + (b - a);
  }

  /** With few hazards for the width of the beam nothing is ever cut. */
  lemma FewHazardsAreRoomy(g: Grid, x: real, width: nat, hazards: nat)
    requires Shaped(g) && |g.lanes| * (hazards + 1) <= width
    ensures Roomy(g, x, width, hazards)
  {
    hide Shaped, KeyReached;
    forall s | 1 <= s <= g.steps
      ensures |ReachedKeys(g, x, s, hazards)| <= width
    {
      PairCount(|g.lanes|, hazards, ReachedKeys(g, x, s, hazards));
    }
  }

  /** Up to four hazards the planner's 520 states always suffice for its 101 lanes. */
  lemma ShippedBeamIsRoomy(g: Grid, x: real, hazards: nat)
    requires Shaped(g) && |g.lanes| == LANE_COUNT && hazards <= 4
    ensures Roomy(g, x, RESCUE_BEAM, hazards)
  {
    hide Shaped, Roomy;
    assert |g.lanes| * (hazards + 1) <= 101 * 5;
    FewHazardsAreRoomy(g, x, RESCUE_BEAM, hazards);
  }

  method RescueStep(g: Grid, ghost x: real, s: nat, states: seq<State>, width: nat, ghost hazards: nat) returns (next: seq<State>)
    requires Shaped(g) && s < g.steps && HazardsBelow(g, hazards)
    requires Sound(g, x, s, states) && Complete(g, x, s, states, width, hazards)
    ensures SortedByCost(next) && Sound(g, x, s + 1, next) && Complete(g, x, s + 1, next, width, hazards)
  {
    hide Shaped, IsRealized, IsChildOf, Covered, Survives, Dominates, Key, IsDominated, HazardsBelow, Crowded, CrowdedOut;
    var t := ExpandAll(g, s, states);
    next := SortAndCut(t, width);
    forall k | 0 <= k < |next|
      ensures IsRealized(g, x, s + 1, next[k])
    {
      ChildrenAreRealized(g, x, s, states, next[k]);
    }
    forall q | |q| == s + 1 && Survives(g, x, q)
      ensures IsDominated(g, x, next, q) || Crowded(g, x, q, width, hazards)
    {
      PrefixSurvives(g, x, q);
      if Crowded(g, x, q[..s], width, hazards) {
        CrowdedStaysCrowded(g, x, q, s, width, hazards);
      } else {
        PathStaysDominated(g, x, s, states, t, next, q, width, hazards);
      }
    }
  }

  lemma ChildrenAreRealized(g: Grid, x: real, s: nat, states: seq<State>, c: State)
    requires Shaped(g) && s < g.steps && Sound(g, x, s, states) && IsChildOf(g, s, states, c)
    ensures IsRealized(g, x, s + 1, c)
  {
    hide Shaped, IsRealized, Child;
    var i :| 0 <= i < |states| && IsChild(g, s, states[i], c);
    var j: nat :| Child(g, s, states[i], j) == Some(c);
    ChildIsRealized(g, x, s, states[i], j);
  }

  lemma PathStaysDominated(g: Grid, x: real, s: nat, states: seq<State>, t: Table, next: seq<State>, q: seq<nat>,
                           width: nat, hazards: nat)
    requires Shaped(g) && s < g.steps && HazardsBelow(g, hazards) && TableOk(t)
    requires forall c | IsChildOf(g, s, states, c) :: Covered(t, c)
    requires forall k | k in t.best :: IsChildOf(g, s, states, t.best[k])
    requires forall k | k in t.best :: t.best[k] in next || CrowdedOut(next, width, t.best[k])
    requires forall k | 0 <= k < |next| :: Key(next[k]) in t.best && next[k] == t.best[Key(next[k])]
    requires forall i, j | 0 <= i < j < |next| :: Key(next[i]) != Key(next[j])
    requires forall k | 0 <= k < |next| :: IsRealized(g, x, s + 1, next[k])
    requires |q| == s + 1 && Survives(g, x, q) && Survives(g, x, q[..s]) && IsDominated(g, x, states, q[..s])
    ensures IsDominated(g, x, next, q) || Crowded(g, x, q, width, hazards)
  {
    hide Shaped, Survives, RunTally, MoveTally, IsChildOf, IsRealized, HazardsBelow, Crowded;
    var kept := StoredForPath(g, x, s, states, t, q);
    if kept in next {
      var n :| 0 <= n < |next| && next[n] == kept;
      assert Dominates(g, x, next[n], q);
    } else {
      FullBeamCrowds(g, x, q, next, width, hazards);
    }
  }

  /** What the table holds under the key of a path whose beginning is matched. */
  lemma StoredForPath(g: Grid, x: real, s: nat, states: seq<State>, t: Table, q: seq<nat>) returns (kept: State)
    requires Shaped(g) && s < g.steps && TableOk(t)
    requires forall c | IsChildOf(g, s, states, c) :: Covered(t, c)
    requires forall k | k in t.best :: IsChildOf(g, s, states, t.best[k])
    requires |q| == s + 1 && Survives(g, x, q) && Survives(g, x, q[..s]) && IsDominated(g, x, states, q[..s])
    ensures Key(kept) in t.best && kept == t.best[Key(kept)] && Dominates(g, x, kept, q)
    ensures Key(kept) == (q[s], RunTally(g, x, q).value.consumed)
  {
    hide Shaped, Survives, RunTally, MoveTally, IsChildOf;
    var i :| 0 <= i < |states| && Dominates(g, x, states[i], q[..s]);
    DominanceExtends(g, x, s, states[i], q);
    var c := Child(g, s, states[i], q[s]).value;
    ChildOfState(g, s, states, i, q[s]);
    kept := t.best[Key(c)];
    StoredPosition(g, s, states, kept, c);
  }

  lemma ChildOfState(g: Grid, s: nat, states: seq<State>, i: nat, j: nat)
    requires Shaped(g) && s < g.steps && i < |states| && Child(g, s, states[i], j).Some?
    ensures IsChildOf(g, s, states, Child(g, s, states[i], j).value)
  {
    hide Child, Shaped;
    assert IsChild(g, s, states[i], Child(g, s, states[i], j).value);
  }

  /** States in the same lane are in the same position. */
  lemma StoredPosition(g: Grid, s: nat, states: seq<State>, a: State, b: State)
    requires Shaped(g) && s < g.steps && IsChildOf(g, s, states, a) && a.lane == b.lane < |g.lanes| && b.x == g.lanes[b.lane]
    ensures a.x == b.x
  {
    hide Shaped, MoveTally;
    var i :| 0 <= i < |states| && IsChild(g, s, states[i], a);
    var j: nat :| Child(g, s, states[i], j) == Some(a);
  }

  // ---------------------------------------------------------------------------
  // The rescue
  // ---------------------------------------------------------------------------

  datatype Rescue = Rescue(firstX: real, target: real, risk: real, usedShield: bool)

  /** The result follows a surviving path of full length. */
  ghost predicate FollowsPath(g: Grid, x: real, r: Rescue, p: seq<nat>)
    requires Shaped(g)
  {
    && |p| == g.steps && Survives(g, x, p)
    && RunTally(g, x, p).value.cost == r.risk && (r.usedShield <==> RunTally(g, x, p).value.consumed >= 0)
    && r.firstX == g.lanes[p[0]] && r.target == Target(g, x, r.firstX)
  }

  ghost predicate FollowsSomePath(g: Grid, x: real, r: Rescue)
    requires Shaped(g)
  {
    exists p :: FollowsPath(g, x, r, p)
  }

  /** The result follows a path of full length that can be steered and meets at most one hazard, and
      costs what that path costs. */
  ghost predicate FollowsOneHazard(g: Grid, x: real, r: Rescue, p: seq<nat>)
    requires Shaped(g)
  {
    && |p| == g.steps && OneHazard(g, x, p)
    && r.risk == RescueCost(g, x, p) && (r.usedShield <==> !Unhit(g, p))
    && r.firstX == g.lanes[p[0]] && r.target == Target(g, x, r.firstX)
  }

  ghost predicate IsRescue(g: Grid, x: real, r: Rescue)
    requires Shaped(g)
  {
    exists p :: FollowsOneHazard(g, x, r, p)
  }

  /** The rescue costs no more than the path. */
  ghost predicate Beats(g: Grid, x: real, r: Option<Rescue>, p: seq<nat>)
    requires Shaped(g) && OneHazard(g, x, p)
  {
    r.Some? && r.value.risk <= RescueCost(g, x, p)
  }

  lemma RescueInTerms(g: Grid, x: real, r: Option<Rescue>, width: nat, hazards: nat)
    requires Shaped(g) && CellsAscend(g)
    requires r.Some? ==> FollowsSomePath(g, x, r.value)
    ensures r.Some? ==> IsRescue(g, x, r.value)
    ensures (forall p | |p| == g.steps && Survives(g, x, p) :: CostsNoMore(g, x, r, p) || Crowded(g, x, p, width, hazards))
            ==> forall p | |p| == g.steps && OneHazard(g, x, p) :: Beats(g, x, r, p) || Crowded(g, x, p, width, hazards)
  {
    hide CellsAscend, Crowded, Explains, RescueCost, RunTally, Within, SteerableAt, Shaped;
    forall p
      ensures Survives(g, x, p) <==> OneHazard(g, x, p)
      ensures Survives(g, x, p) ==>
                Explains(g, p, RunTally(g, x, p).value.consumed) && RunTally(g, x, p).value.cost == RescueCost(g, x, p)
    {
      SurvivesIff(g, x, p);
    }
    if r.Some? {
      var p :| FollowsPath(g, x, r.value, p);
      ConsumedIffHit(g, p, RunTally(g, x, p).value.consumed);
      assert FollowsOneHazard(g, x, r.value, p);
    }
  }

  lemma ConsumedIffHit(g: Grid, p: seq<nat>, consumed: int)
    requires Shaped(g) && |p| <= g.steps && IsLanePath(g, p) && Explains(g, p, consumed)
    ensures consumed >= 0 <==> !Unhit(g, p)
  {}

  /** The rescue is no dearer than the path. */
  ghost predicate CostsNoMore(g: Grid, x: real, r: Option<Rescue>, p: seq<nat>)
    requires Shaped(g) && Survives(g, x, p)
  {
    r.Some? && r.value.risk <= RunTally(g, x, p).value.cost
  }

  /** The search itself, in terms of the tallies it keeps. */
  method SearchRescue(g: Grid, x: real, shieldActive: bool, width: nat, ghost hazards: nat) returns (r: Option<Rescue>)
    requires Shaped(g) && HazardsBelow(g, hazards)
    ensures !shieldActive ==> r.None?
    ensures r.Some? ==> FollowsSomePath(g, x, r.value)
    ensures shieldActive ==>
              forall p | |p| == g.steps && Survives(g, x, p) :: CostsNoMore(g, x, r, p) || Crowded(g, x, p, width, hazards)
  {
    assert g.steps >= 1 && |g.lanes| >= 1;
    hide Shaped, Complete, Sound, SortedByCost, RunTally, Target, NearestLane, FollowsSomePath, HazardsBelow, Crowded;
    if !shieldActive {
      return None;
    }
    var states := [State(NearestLane(g, x), x, -1, 0.0, None)];
    StartIsRealized(g, x, states[0], width, hazards);
    for s := 0 to g.steps
      invariant Sound(g, x, s, states) && Complete(g, x, s, states, width, hazards)
      invariant s > 0 ==> |states| >= 1 && SortedByCost(states)
    {
      states := RescueStep(g, x, s, states, width, hazards);
      if states == [] {
        NothingUncrowded(g, x, s + 1, width, hazards);
        return None;
      }
    }
    var best := states[0];
    BestIsRealized(g, x, states);
    r := Some(Rescue(best.firstX.value, Target(g, x, best.firstX.value), best.cost, best.consumed >= 0));
    forall p | |p| == g.steps && Survives(g, x, p)
      ensures CostsNoMore(g, x, r, p) || Crowded(g, x, p, width, hazards)
    {
      BestIsCheapest(g, x, states, p, width, hazards);
    }
  }

  /** A rescue always follows a path that can be steered and meets at most one hazard, and spends the
      shield iff it meets one. It costs no more than any such path that was not crowded out on the way; in
      particular no rescue means that all were. */
  method ShieldRescueDP(g: Grid, x: real, shieldActive: bool, width: nat, ghost hazards: nat) returns (r: Option<Rescue>)
    requires Shaped(g) && HazardsBelow(g, hazards) && CellsAscend(g)
    ensures !shieldActive ==> r.None?
    ensures r.Some? ==> IsRescue(g, x, r.value)
    ensures shieldActive ==>
              forall p | |p| == g.steps && OneHazard(g, x, p) :: Beats(g, x, r, p) || Crowded(g, x, p, width, hazards)
  {
    r := SearchRescue(g, x, shieldActive, width, hazards);
    RescueInTerms(g, x, r, width, hazards);
  }

  /** With room in the beam the rescue is exact: it costs no more than any path of full length that can be
      steered and meets at most one hazard, and there is none only if there is no such path. */
  lemma RoomyRescueIsExact(g: Grid, x: real, r: Option<Rescue>, width: nat, hazards: nat)
    requires Shaped(g) && HazardsBelow(g, hazards) && Roomy(g, x, width, hazards)
    requires forall p | |p| == g.steps && OneHazard(g, x, p) :: Beats(g, x, r, p) || Crowded(g, x, p, width, hazards)
    ensures forall p | |p| == g.steps && OneHazard(g, x, p) :: Beats(g, x, r, p)
    ensures r.None? ==> forall p | |p| == g.steps :: !OneHazard(g, x, p)
  {
    hide Shaped, HazardsBelow, Roomy, Crowded, OneHazard, RescueCost;
    forall p | |p| == g.steps && OneHazard(g, x, p)
      ensures Beats(g, x, r, p)
    {
      RoomyIsNotCrowded(g, x, p, width, hazards);
    }
  }

  lemma StartIsRealized(g: Grid, x: real, st: State, width: nat, hazards: nat)
    requires Shaped(g) && st == State(NearestLane(g, x), x, -1, 0.0, None)
    ensures Sound(g, x, 0, [st]) && Complete(g, x, 0, [st], width, hazards)
  {
    hide NearestLane, Shaped, Crowded;
    assert Realizes(g, x, [], st);
    forall p | |p| == 0 && Survives(g, x, p)
      ensures IsDominated(g, x, [st], p)
    {
      assert p == [];
      assert Dominates(g, x, [st][0], p);
    }
  }

  lemma NothingUncrowded(g: Grid, x: real, k: nat, width: nat, hazards: nat)
    requires Shaped(g) && k <= g.steps && Complete(g, x, k, [], width, hazards)
    ensures forall p | |p| == g.steps && Survives(g, x, p) :: Crowded(g, x, p, width, hazards)
  {
    hide Survives, Crowded;
    forall p | |p| == g.steps && Survives(g, x, p)
      ensures Crowded(g, x, p, width, hazards)
    {
      BeginningSurvives(g, x, p, k);
      CrowdedStaysCrowded(g, x, p, k, width, hazards);
    }
  }

  lemma BestIsRealized(g: Grid, x: real, states: seq<State>)
    requires Shaped(g) && Sound(g, x, g.steps, states) && |states| >= 1
    ensures var best := states[0];
            && best.firstX.Some?
            && FollowsSomePath(g, x, Rescue(best.firstX.value, Target(g, x, best.firstX.value), best.cost, best.consumed >= 0))
  {
    assert g.steps >= 1;
    hide Shaped, Survives, RunTally, Target;
    var best := states[0];
    assert IsRealized(g, x, g.steps, best);
    var p :| |p| == g.steps && Realizes(g, x, p, best);
    assert FollowsPath(g, x, Rescue(best.firstX.value, Target(g, x, best.firstX.value), best.cost, best.consumed >= 0), p);
  }

  lemma BestIsCheapest(g: Grid, x: real, states: seq<State>, p: seq<nat>, width: nat, hazards: nat)
    requires Shaped(g) && Complete(g, x, g.steps, states, width, hazards) && SortedByCost(states) && |states| >= 1
    requires |p| == g.steps && Survives(g, x, p)
    ensures states[0].cost <= RunTally(g, x, p).value.cost || Crowded(g, x, p, width, hazards)
  {
    hide Shaped, Survives, RunTally, Crowded;
    if !Crowded(g, x, p, width, hazards) {
      assert IsDominated(g, x, states, p);
      var i :| 0 <= i < |states| && Dominates(g, x, states[i], p);
    }
  }

  /** A rescue that leaves the shield unused follows a path that is collision-free altogether. */
  lemma {:induction false} UnusedShieldMeansClear(g: Grid, x: real, p: seq<nat>)
    requires Shaped(g) && Survives(g, x, p)
    ensures RunTally(g, x, p).value.consumed < 0 <==> WindowedPath(g, x, p)
    decreases |p|
  {
    hide PointerInRoad, InWindow, Abs;
    if p != [] {
      var k := |p| - 1;
      PrefixSurvives(g, x, p);
      UnusedShieldMeansClear(g, x, p[..k]);
      WindowedGrows(g, x, p);
      var raw := g.colliders[k][p[k]];
      NothingRemoved(raw);
    }
  }

  lemma {:induction false} NothingRemoved(raw: seq<nat>)
    ensures Remaining(raw, -1) == raw
  {
    if raw != [] {
      NothingRemoved(raw[..|raw| - 1]);
    }
  }

  lemma WindowedGrows(g: Grid, x: real, p: seq<nat>)
    requires Shaped(g) && 0 < |p| <= g.steps && IsLanePath(g, p)
    ensures WindowedPath(g, x, p)
            <==> WindowedPath(g, x, p[..|p| - 1]) && Allowed(g, |p| - 1, Before(g, x, p, |p| - 1), p[|p| - 1])
  {
    hide Allowed;
    if |p| == 1 {
      WindowedStart(g, x, p);
    } else {
      WindowedExtends(g, x, p);
    }
  }
}

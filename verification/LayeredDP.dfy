/** Exactness of forward dynamic programming over a layered graph. Both exact planners
    instantiate this theory: V7 with one state per lane, V4 with one per lane and shield. */
module LayeredDP {
  import opened Numbers

  /** `init[j]` is the cost of starting in state j of layer 0; `edges[s][i][j]` that of moving from
      state i of layer s - 1 to state j of layer s; `Inf` marks a forbidden choice. */
  datatype Layers = Layers(width: nat, init: seq<Extended>, edges: seq<seq<seq<Extended>>>)

  function Init(g: Layers, j: nat): Extended {
    if j < |g.init| then g.init[j] else Inf
  }

  function Edge(g: Layers, layer: nat, i: nat, j: nat): Extended {
    if layer < |g.edges| && i < |g.edges[layer]| && j < |g.edges[layer][i]| then g.edges[layer][i][j] else Inf
  }

  predicate IsPath(g: Layers, p: seq<nat>) {
    |p| > 0 && forall i | 0 <= i < |p| :: p[i] < g.width
  }

  function PathCost(g: Layers, p: seq<nat>): Extended
    requires |p| > 0
  {
    if |p| == 1 then Init(g, p[0])
    else Plus(PathCost(g, p[..|p| - 1]), Edge(g, |p| - 1, p[|p| - 2], p[|p| - 1]))
  }

  lemma SinglePath(g: Layers, j: nat)
    ensures IsPath(g, [j]) <==> j < g.width
    ensures PathCost(g, [j]) == Init(g, j)
  {
    assert [j][0] == j;
  }

  lemma ExtendPath(g: Layers, q: seq<nat>, last: nat)
    requires |q| > 0
    ensures IsPath(g, q + [last]) <==> IsPath(g, q) && last < g.width
    ensures PathCost(g, q + [last]) == Plus(PathCost(g, q), Edge(g, |q|, q[|q| - 1], last))
  {
    hide Edge, Init;
    var p := q + [last];
    assert p[..|p| - 1] == q;
    if IsPath(g, p) {
      assert forall i | 0 <= i < |q| :: q[i] == p[i];
      assert p[|q|] == last;
    }
  }

  /** The cheapest way into state `to` of `layer` from the first `upTo` predecessors, with the
      predecessor that offers it (-1 if none). Ties keep the earlier predecessor. */
  function Scan(g: Layers, layer: nat, to: nat, upTo: nat): (r: (Extended, int))
    requires layer >= 1
    decreases layer, upTo
  {
    if upTo == 0 then (Inf, -1)
    else
      var sofar := Scan(g, layer, to, upTo - 1);
      var c := Plus(Best(g, layer - 1, upTo - 1), Edge(g, layer, upTo - 1, to));
      if Less(c, sofar.0) then (c, upTo - 1) else sofar
  }

  /** Bellman's value of a state. */
  function Best(g: Layers, layer: nat, to: nat): Extended
    decreases layer, g.width + 1
  {
    if layer == 0 then Init(g, to) else Scan(g, layer, to, g.width).0
  }

  lemma {:induction false} ScanIsMinimum(g: Layers, layer: nat, to: nat, upTo: nat)
    requires layer >= 1
    ensures var r := Scan(g, layer, to, upTo);
            && (r.1 < 0 ==> r == (Inf, -1))
            && (r.1 >= 0 ==> r.0.Fin? && r.1 < upTo
                             && r.0 == Plus(Best(g, layer - 1, r.1), Edge(g, layer, r.1, to)))
            && forall i: nat | i < upTo :: AtMost(r.0, Plus(Best(g, layer - 1, i), Edge(g, layer, i, to)))
    decreases upTo
  {
    if upTo > 0 {
      ScanIsMinimum(g, layer, to, upTo - 1);
    }
  }

  lemma {:induction false} BestIsLowerBound(g: Layers, p: seq<nat>)
    requires IsPath(g, p)
    ensures AtMost(Best(g, |p| - 1, p[|p| - 1]), PathCost(g, p))
  {
    if |p| > 1 {
      var q := p[..|p| - 1];
      BestIsLowerBound(g, q);
      ScanIsMinimum(g, |p| - 1, p[|p| - 1], g.width);
      assert q[|q| - 1] == p[|p| - 2];
    }
  }

  /** The path found by walking the recorded predecessors backwards. */
  function Trace(g: Layers, layer: nat, to: nat): (p: seq<nat>)
    ensures |p| >= 1 && p[|p| - 1] == to
    decreases layer
  {
    if layer == 0 then [to]
    else
      var from := Scan(g, layer, to, g.width).1;
      if from < 0 then [to] else Trace(g, layer - 1, from) + [to]
  }

  lemma {:induction false} TraceAttainsBest(g: Layers, layer: nat, to: nat)
    requires to < g.width && Best(g, layer, to).Fin?
    ensures var p := Trace(g, layer, to);
            IsPath(g, p) && |p| == layer + 1 && PathCost(g, p) == Best(g, layer, to)
    decreases layer
  {
    hide Scan, PathCost, IsPath, Edge, Init;
    if layer == 0 {
      SinglePath(g, to);
    } else {
      ScanIsMinimum(g, layer, to, g.width);
      var from := Scan(g, layer, to, g.width).1;
      TraceAttainsBest(g, layer - 1, from);
      ExtendPath(g, Trace(g, layer - 1, from), to);
    }
  }

  /** The cheapest of the first `upTo` states of a layer, and which one it is (-1 if none). */
  function Select(g: Layers, layer: nat, upTo: nat): (Extended, int) {
    if upTo == 0 then (Inf, -1)
    else
      var sofar := Select(g, layer, upTo - 1);
      var c := Best(g, layer, upTo - 1);
      if Less(c, sofar.0) then (c, upTo - 1) else sofar
  }

  lemma {:induction false} SelectIsMinimum(g: Layers, layer: nat, upTo: nat)
    ensures var r := Select(g, layer, upTo);
            && (r.1 < 0 ==> r == (Inf, -1))
            && (r.1 >= 0 ==> r.0.Fin? && r.1 < upTo && r.0 == Best(g, layer, r.1))
            && forall i: nat | i < upTo :: AtMost(r.0, Best(g, layer, i))
  {
    if upTo > 0 {
      SelectIsMinimum(g, layer, upTo - 1);
    }
  }

  lemma SelectIsLowerBound(g: Layers, p: seq<nat>)
    requires IsPath(g, p)
    ensures AtMost(Select(g, |p| - 1, g.width).0, PathCost(g, p))
  {
    SelectIsMinimum(g, |p| - 1, g.width);
    BestIsLowerBound(g, p);
  }

  ghost predicate Feasible(g: Layers, layers: nat) {
    exists p: seq<nat> :: IsPath(g, p) && |p| == layers && PathCost(g, p).Fin?
  }

  /** Dynamic programming is exact: nothing is selected iff no finite-cost path of full length
      exists, and otherwise the selected value is the minimum over all of them, attained by the
      traced path. */
  lemma SelectionIsExact(g: Layers, layer: nat)
    ensures var r := Select(g, layer, g.width);
            && (r.1 < 0 <==> !Feasible(g, layer + 1))
            && (forall p: seq<nat> | IsPath(g, p) && |p| == layer + 1 :: AtMost(r.0, PathCost(g, p)))
            && (r.1 >= 0 ==> r.1 < g.width && r.0.Fin?
                             && var p := Trace(g, layer, r.1);
                                IsPath(g, p) && |p| == layer + 1 && PathCost(g, p) == r.0)
  {
    hide Select, Best, PathCost, IsPath, Trace;
    var r := Select(g, layer, g.width);
    SelectIsMinimum(g, layer, g.width);
    forall p: seq<nat> | IsPath(g, p) && |p| == layer + 1
      ensures AtMost(r.0, PathCost(g, p))
    {
      SelectIsLowerBound(g, p);
    }
    if r.1 >= 0 {
      TraceAttainsBest(g, layer, r.1);
    }
  }
}

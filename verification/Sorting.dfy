/** JavaScript's stable sort by a numeric cost, as the order in which it lists the indices. */
module Sorting {

  /** `order` lists every index below `n` exactly once. */
  ghost predicate IsPermutation(order: seq<nat>, n: nat) {
    && (forall i | 0 <= i < |order| :: order[i] < n)
    && (forall i, j | 0 <= i < j < |order| :: order[i] != order[j])
    && forall d: nat | d < n :: d in order
  }

  /** Cheaper, or equally cheap and earlier. */
  predicate Before(costs: seq<real>, a: nat, b: nat)
    requires a < |costs| && b < |costs|
  {
    costs[a] < costs[b] || (costs[a] == costs[b] && a < b)
  }

  ghost predicate InOrder(costs: seq<real>, order: seq<nat>) {
    && (forall i | 0 <= i < |order| :: order[i] < |costs|)
    && forall i, j | 0 <= i < j < |order| :: Before(costs, order[i], order[j])
  }

  /** Puts index `x`, later than all listed ones, behind everything that costs no more. */
  method Insert(costs: seq<real>, order: seq<nat>, x: nat) returns (r: seq<nat>)
    requires x < |costs| && InOrder(costs, order) && forall i | 0 <= i < |order| :: order[i] < x
    ensures InOrder(costs, r) && |r| == |order| + 1 && forall d: nat :: d in r <==> d in order || d == x
  {
    var k := |order|;
    while k > 0 && costs[x] < costs[order[k - 1]]
      invariant 0 <= k <= |order|
      invariant forall i | k <= i < |order| :: costs[x] < costs[order[i]]
    {
      k := k - 1;
    }
    r := order[..k] + [x] + order[k..];
    assert forall i | 0 <= i < k :: Before(costs, order[i], x) by {
      assert k > 0 ==> costs[order[k - 1]] <= costs[x];
      assert forall i | 0 <= i < k - 1 :: Before(costs, order[i], order[k - 1]);
    }
    InsertedMembers(order, k, x);
  }

  lemma InsertedMembers(order: seq<nat>, k: nat, x: nat)
    requires k <= |order|
    ensures forall d: nat :: d in order[..k] + [x] + order[k..] <==> d in order || d == x
  {
    assert order == order[..k] + order[k..];
  }

  method StableOrder(costs: seq<real>) returns (order: seq<nat>)
    ensures IsPermutation(order, |costs|) && |order| == |costs| && InOrder(costs, order)
  {
    order := [];
    for i := 0 to |costs|
      invariant InOrder(costs, order) && |order| == i && forall d: nat :: d in order <==> d < i
    {
      assert forall k | 0 <= k < |order| :: order[k] in order;
      order := Insert(costs, order, i);
    }
  }
}

/** Where orders come from: the items a cart collects, and the checks it must pass to become an order. */
module OrderSubmission {
  import opened Numbers
  import opened BillTotals

  datatype Cart = Cart(currency: string, items: seq<Item>)

  /** What the menu says about a cart item at submission. */
  datatype Quote = Quote(currency: string, unitPrice: int)

  /** Items are written with their line total, when they are added and when their quantity changes. */
  predicate LinesAddUp(items: seq<Item>) {
    forall i | 0 <= i < |items| :: items[i].lineTotal == items[i].unitPrice * items[i].quantity
  }

  function AddItem(cart: Cart, id: int, quantity: int, unitPrice: int, modifiersTotal: int, currency: string): (r: Cart)
    ensures LinesAddUp(cart.items) ==> LinesAddUp(r.items)
  {
    cart.(items := cart.items + [Item(id, quantity, unitPrice, modifiersTotal, unitPrice * quantity, currency)])
  }

  function ChangeQuantity(cart: Cart, i: nat, quantity: int): (r: Cart)
    requires i < |cart.items|
    ensures LinesAddUp(cart.items) ==> LinesAddUp(r.items)
  {
    var item := cart.items[i];
    cart.(items := cart.items[i := item.(quantity := quantity, lineTotal := item.unitPrice * quantity)])
  }

  /** An item passes if the menu still quotes it, in its own and the cart's currency, at its price. */
  predicate Passes(cart: Cart, item: Item, quote: Option<Quote>) {
    quote.Some? && quote.value.currency == item.currency == cart.currency && quote.value.unitPrice == item.unitPrice
  }

  /** The recalculated total; an item without a quote counts with its stored line. */
  function Recalculated(items: seq<Item>, quotes: seq<Option<Quote>>): int
    requires |quotes| == |items|
  {
    if items == [] then 0
    else
      var n := |items| - 1;
      Recalculated(items[..n], quotes[..n])
      + if quotes[n].Some? then quotes[n].value.unitPrice * items[n].quantity else items[n].lineTotal
  }

  /** Submits a cart with at least one item, all of which pass; `otherIssues` are problems of stock and
      availability, which only ever refuse. */
  method Submit(cart: Cart, quotes: seq<Option<Quote>>, otherIssues: bool, id: int) returns (order: Option<Order>)
    requires |quotes| == |cart.items|
    ensures order.Some? <==>
              && cart.items != [] && !otherIssues
              && forall i | 0 <= i < |quotes| :: Passes(cart, cart.items[i], quotes[i])
    ensures order.Some? && LinesAddUp(cart.items) ==>
              AsSubmitted(order.value) && order.value.items == cart.items && order.value.currency == cart.currency
              && order.value.status.Submitted?
  {
    hide ItemsTotal;
    if cart.items == [] {
      return None;
    }
    var valid, subtotal := !otherIssues, 0;
    for i := 0 to |cart.items|
      invariant valid <==> !otherIssues && forall k | 0 <= k < i :: Passes(cart, cart.items[k], quotes[k])
      invariant subtotal == Recalculated(cart.items[..i], quotes[..i])
    {
      var item, quote := cart.items[i], quotes[i];
      assert cart.items[..i + 1][..i] == cart.items[..i] && quotes[..i + 1][..i] == quotes[..i];
      if !Passes(cart, item, quote) {
        valid := false;
      }
      subtotal := subtotal + if quote.Some? then quote.value.unitPrice * item.quantity else item.lineTotal;
    }
    assert cart.items[..|cart.items|] == cart.items && quotes[..|quotes|] == quotes;
    if !valid {
      return None;
    }
    order := Some(Order(id, Submitted, cart.currency, subtotal, cart.items));
    if LinesAddUp(cart.items) {
      RecalculationAgrees(cart, cart.items, quotes);
    }
  }

  /** When every item passes, the recalculated total is the sum of the stored lines. */
  lemma {:induction false} RecalculationAgrees(cart: Cart, items: seq<Item>, quotes: seq<Option<Quote>>)
    requires |quotes| == |items| && LinesAddUp(items)
    requires forall i | 0 <= i < |items| :: Passes(cart, items[i], quotes[i])
    ensures Recalculated(items, quotes) == ItemsTotal(items)
  {
    if items != [] {
      var n := |items| - 1;
      RecalculationAgrees(cart, items[..n], quotes[..n]);
      assert items == items[..n] + [items[n]];
      ItemsTotalGrows(items[..n], items[n]);
      assert Passes(cart, items[n], quotes[n]);
    }
  }

  lemma {:induction false} ItemsTotalGrows(items: seq<Item>, item: Item)
    ensures ItemsTotal(items + [item]) == ItemsTotal(items) + item.lineTotal
  {
    if items != [] {
      ItemsTotalGrows(items[1..], item);
      assert (items + [item])[1..] == items[1..] + [item];
    }
  }
}

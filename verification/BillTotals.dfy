/** What a bill charges: totals over a session's billable orders, and the bill lines copied from their
    items. */
module BillTotals {

  datatype OrderStatus = Submitted | CashierAccepted | Preparing | Ready | Served | Completed | CashierRejected | OrderCancelled

  datatype Item = Item(id: int, quantity: int, unitPrice: int, modifiersTotal: int, lineTotal: int, currency: string)

  datatype Order = Order(id: int, status: OrderStatus, currency: string, subtotal: int, items: seq<Item>)

  datatype Line = Line(order: int, item: int, quantity: int, unitPrice: int, modifiersTotal: int, lineTotal: int,
                       currency: string)

  datatype Totals = Totals(subtotal: int, orderCount: nat, lineCount: nat, currency: string)

  datatype Result<+T> = Ok(value: T) | MixedCurrencies

  predicate IsBillable(status: OrderStatus) {
    status.CashierAccepted? || status.Preparing? || status.Ready? || status.Served? || status.Completed?
  }

  predicate IsTerminal(status: OrderStatus) {
    status.Completed? || status.CashierRejected? || status.OrderCancelled?
  }

  /** The billable orders, in order of submission. */
  function Billable(orders: seq<Order>): seq<Order> {
    if orders == [] then []
    else
      var before, last := Billable(orders[..|orders| - 1]), orders[|orders| - 1];
      if IsBillable(last.status) then before + [last] else before
  }

  /** Their places among all orders. */
  function BillablePlaces(orders: seq<Order>): seq<nat> {
    if orders == [] then []
    else
      var before, last := BillablePlaces(orders[..|orders| - 1]), |orders| - 1;
      if IsBillable(orders[last].status) then before + [last] else before
  }

  /** Billing keeps the billable orders, all of them, in their order. */
  lemma {:induction false} BillableIsSubsequence(orders: seq<Order>)
    ensures |BillablePlaces(orders)| == |Billable(orders)|
    ensures forall k | 0 <= k < |Billable(orders)| ::
              BillablePlaces(orders)[k] < |orders| && Billable(orders)[k] == orders[BillablePlaces(orders)[k]]
    ensures forall j, k | 0 <= j < k < |BillablePlaces(orders)| :: BillablePlaces(orders)[j] < BillablePlaces(orders)[k]
    ensures forall i: nat :: i in BillablePlaces(orders)
              <==> i < |orders| && orders[i].status !in {Submitted, CashierRejected, OrderCancelled}
  {
    if orders != [] {
      BillableIsSubsequence(orders[..|orders| - 1]);
    }
  }

  function ItemsTotal(items: seq<Item>): int {
    if items == [] then 0 else items[0].lineTotal + ItemsTotal(items[1..])
  }

  /** The nested sum over orders and their items. */
  function NestedTotal(orders: seq<Order>): int {
    if orders == [] then 0 else ItemsTotal(orders[0].items) + NestedTotal(orders[1..])
  }

  function ItemCount(orders: seq<Order>): nat {
    if orders == [] then 0 else |orders[0].items| + ItemCount(orders[1..])
  }

  /** Does every item of the order use this currency, and the order itself? */
  predicate UsesCurrency(order: Order, currency: string) {
    order.currency == currency && forall i | 0 <= i < |order.items| :: order.items[i].currency == currency
  }

  predicate SingleCurrency(orders: seq<Order>, currency: string) {
    forall o | 0 <= o < |orders| :: UsesCurrency(orders[o], currency)
  }

  /** The totals a bill is created with. Without orders there is nothing to compare and the currency
      defaults. */
  function BillableTotals(orders: seq<Order>): Result<Totals> {
    if orders == [] then Ok(Totals(0, 0, 0, "EGP"))
    else if !SingleCurrency(orders, orders[0].currency) then MixedCurrencies
    else Ok(Totals(NestedTotal(orders), |orders|, ItemCount(orders), orders[0].currency))
  }

  function ToLine(order: Order, item: Item): Line {
    Line(order.id, item.id, item.quantity, item.unitPrice, item.modifiersTotal, item.lineTotal, item.currency)
  }

  function OrderLines(order: Order): seq<Line> {
    seq(|order.items|, (i: nat) requires i < |order.items| => ToLine(order, order.items[i]))
  }

  function BillLines(orders: seq<Order>): seq<Line> {
    if orders == [] then [] else OrderLines(orders[0]) + BillLines(orders[1..])
  }

  function LinesTotal(lines: seq<Line>): int {
    if lines == [] then 0 else lines[0].lineTotal + LinesTotal(lines[1..])
  }

  lemma {:induction false} LinesTotalSplits(a: seq<Line>, b: seq<Line>)
    ensures LinesTotal(a + b) == LinesTotal(a) + LinesTotal(b)
  {
    if a == [] {
      assert a + b == b;
    } else {
      LinesTotalSplits(a[1..], b);
      assert (a + b)[1..] == a[1..] + b;
    }
  }

  lemma {:induction false} OrderLinesTotal(order: Order)
    ensures LinesTotal(OrderLines(order)) == ItemsTotal(order.items)
    decreases |order.items|
  {
    if order.items != [] {
      var rest := order.(items := order.items[1..]);
      OrderLinesTotal(rest);
      assert OrderLines(order)[1..] == OrderLines(rest);
    }
  }

  /** The lines are exactly the items, in order: item i of order o is line ItemCount(orders[..o]) + i. */
  lemma {:induction false} LineOfItem(orders: seq<Order>, o: nat, i: nat)
    requires o < |orders| && i < |orders[o].items|
    ensures |BillLines(orders)| == ItemCount(orders)
    ensures ItemCount(orders[..o]) + i < ItemCount(orders)
    ensures var line, item := BillLines(orders)[ItemCount(orders[..o]) + i], orders[o].items[i];
            && line.order == orders[o].id && line.item == item.id && line.currency == item.currency
            && line.quantity == item.quantity && line.unitPrice == item.unitPrice
            && line.modifiersTotal == item.modifiersTotal && line.lineTotal == item.lineTotal
  {
    LineCount(orders);
    if o > 0 {
      LineOfItem(orders[1..], o - 1, i);
      assert orders[1..][..o - 1] == orders[..o][1..];
    }
  }

  lemma {:induction false} LineCount(orders: seq<Order>)
    ensures |BillLines(orders)| == ItemCount(orders)
  {
    if orders != [] {
      LineCount(orders[1..]);
    }
  }

  lemma {:induction false} LinesSum(orders: seq<Order>)
    ensures LinesTotal(BillLines(orders)) == NestedTotal(orders)
  {
    if orders != [] {
      LinesSum(orders[1..]);
      OrderLinesTotal(orders[0]);
      LinesTotalSplits(OrderLines(orders[0]), BillLines(orders[1..]));
    }
  }

  predicate LinesIn(lines: seq<Line>, currency: string) {
    forall l | 0 <= l < |lines| :: lines[l].currency == currency
  }

  lemma {:induction false} LinesShareCurrency(orders: seq<Order>, currency: string)
    requires SingleCurrency(orders, currency)
    ensures LinesIn(BillLines(orders), currency)
  {
    if orders != [] {
      assert UsesCurrency(orders[0], currency);
      assert forall o | 0 <= o < |orders[1..]| :: orders[1..][o] == orders[o + 1];
      LinesShareCurrency(orders[1..], currency);
    }
  }

  lemma CurrencyOfFirst(orders: seq<Order>, c: string)
    requires orders != [] && SingleCurrency(orders, c)
    ensures c == orders[0].currency
  {
    assert UsesCurrency(orders[0], c);
  }

  /** A bill's totals agree with its lines, in one currency. They are refused exactly when two of the
      orders or items differ in currency. */
  lemma TotalsMatchLines(orders: seq<Order>)
    ensures BillableTotals(orders).MixedCurrencies? <==> !exists c :: SingleCurrency(orders, c)
    ensures BillableTotals(orders).Ok? ==>
              var t, lines := BillableTotals(orders).value, BillLines(orders);
              && t.subtotal == LinesTotal(lines) && t.lineCount == |lines| && t.orderCount == |orders|
              && LinesIn(lines, t.currency) && SingleCurrency(orders, t.currency)
  {
    LineCount(orders);
    LinesSum(orders);
    if orders == [] {
      assert SingleCurrency(orders, "EGP");
    } else if SingleCurrency(orders, orders[0].currency) {
      LinesShareCurrency(orders, orders[0].currency);
    } else {
      forall c | SingleCurrency(orders, c)
        ensures c == orders[0].currency
      {
        CurrencyOfFirst(orders, c);
      }
    }
  }

  // ---------------------------------------------------------------------------
  // The bill request's own totals
  // ---------------------------------------------------------------------------

  function OrderSubtotals(orders: seq<Order>): int {
    if orders == [] then 0 else orders[0].subtotal + OrderSubtotals(orders[1..])
  }

  /** A bill request trusts each order's stored subtotal and compares only the orders' currencies. */
  function RequestTotals(orders: seq<Order>): Result<Totals> {
    if orders == [] then Ok(Totals(0, 0, 0, "EGP"))
    else if exists o :: 0 <= o < |orders| && orders[o].currency != orders[0].currency then MixedCurrencies
    else Ok(Totals(OrderSubtotals(orders), |orders|, 0, orders[0].currency))
  }

  /** An order as it is stored at submission: its items are in its currency, each line is the unit price
      times the quantity, and the subtotal is the sum of the lines. */
  predicate AsSubmitted(o: Order) {
    && o.subtotal == ItemsTotal(o.items)
    && forall i | 0 <= i < |o.items| ::
         o.items[i].currency == o.currency && o.items[i].lineTotal == o.items[i].unitPrice * o.items[i].quantity
  }

  predicate AllSubmitted(orders: seq<Order>) {
    forall o | 0 <= o < |orders| :: AsSubmitted(orders[o])
  }

  lemma {:induction false} SubtotalsAddUp(orders: seq<Order>)
    requires AllSubmitted(orders)
    ensures OrderSubtotals(orders) == NestedTotal(orders)
  {
    if orders != [] {
      assert AsSubmitted(orders[0]);
      assert forall o | 0 <= o < |orders[1..]| :: orders[1..][o] == orders[o + 1];
      SubtotalsAddUp(orders[1..]);
    }
  }

  /** Whatever a bill accepts, a request over the same orders accepts too, in the same currency. For
      orders as they are submitted the converse holds as well, and the amounts agree. */
  lemma RequestAgreesWithBill(orders: seq<Order>)
    ensures BillableTotals(orders).Ok? ==>
              && RequestTotals(orders).Ok?
              && RequestTotals(orders).value.currency == BillableTotals(orders).value.currency
              && RequestTotals(orders).value.orderCount == BillableTotals(orders).value.orderCount
    ensures AllSubmitted(orders) ==> (RequestTotals(orders).Ok? <==> BillableTotals(orders).Ok?)
    ensures AllSubmitted(orders) && BillableTotals(orders).Ok? ==>
              RequestTotals(orders).value.subtotal == BillableTotals(orders).value.subtotal
  {
    hide ItemsTotal, OrderSubtotals, NestedTotal;
    if orders != [] {
      if BillableTotals(orders).Ok? {
        forall o | 0 <= o < |orders|
          ensures orders[o].currency == orders[0].currency
        {
          assert UsesCurrency(orders[o], orders[0].currency);
        }
      }
      if AllSubmitted(orders) {
        SubtotalsAddUp(orders);
        OrdersShareCurrency(orders);
      }
    }
  }

  lemma OrdersShareCurrency(orders: seq<Order>)
    requires orders != [] && AllSubmitted(orders)
    ensures RequestTotals(orders).Ok? ==> SingleCurrency(orders, orders[0].currency)
  {
    hide ItemsTotal;
    if RequestTotals(orders).Ok? {
      forall o | 0 <= o < |orders|
        ensures UsesCurrency(orders[o], orders[0].currency)
      {
        assert AsSubmitted(orders[o]) && orders[o].currency == orders[0].currency;
      }
    }
  }

  /** The same orders, whatever has become of their statuses. */
  predicate SameCharges(a: seq<Order>, b: seq<Order>) {
    |a| == |b| && forall o | 0 <= o < |a| :: a[o].(status := b[o].status) == b[o]
  }

  lemma {:induction false} SubtotalsIgnoreStatus(a: seq<Order>, b: seq<Order>)
    requires SameCharges(a, b)
    ensures OrderSubtotals(a) == OrderSubtotals(b)
  {
    if a != [] {
      assert a[0].(status := b[0].status) == b[0];
      assert forall o | 0 <= o < |a[1..]| :: a[1..][o] == a[o + 1] && b[1..][o] == b[o + 1];
      SubtotalsIgnoreStatus(a[1..], b[1..]);
    }
  }

  lemma RequestIgnoresStatus(a: seq<Order>, b: seq<Order>)
    requires SameCharges(a, b)
    ensures RequestTotals(a) == RequestTotals(b)
  {
    hide OrderSubtotals;
    SubtotalsIgnoreStatus(a, b);
    assert forall o | 0 <= o < |a| :: a[o].currency == b[o].currency;
  }

  /** The filter takes billable orders from submitted ones. */
  lemma {:induction false} BillableAreSubmitted(orders: seq<Order>)
    requires AllSubmitted(orders)
    ensures AllSubmitted(Billable(orders))
  {
    hide AsSubmitted;
    if orders != [] {
      BillableAreSubmitted(orders[..|orders| - 1]);
    }
  }
}

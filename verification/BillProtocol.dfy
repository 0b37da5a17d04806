/** What every run of the bill services keeps, whatever the order of transactions and however many
    settlers race between reading a bill and writing it. */
module BillProtocol {
  import opened Numbers
  import opened BillTotals
  import opened BillNumbers
  import opened BillOperations

  // ---------------------------------------------------------------------------
  // One request and everything that belongs to it
  // ---------------------------------------------------------------------------

  /** Sum and number of the payments accepted for a request's bill. */
  function PaidSum(payments: seq<Payment>, r: Id): int {
    if payments == [] then 0
    else
      var last := payments[|payments| - 1];
      PaidSum(payments[..|payments| - 1], r) + if last.request == r then last.amount else 0
  }

  function PaymentCount(payments: seq<Payment>, r: Id): nat {
    if payments == [] then 0
    else
      var last := payments[|payments| - 1];
      PaymentCount(payments[..|payments| - 1], r) + if last.request == r then 1 else 0
  }

  datatype Row = Row(request: Request, bill: Option<Bill>, paidSum: int, payments: nat, receipt: Option<string>)

  function RowOf(st: Store, r: Id): Row
    requires r in st.requests
  {
    Row(st.requests[r], if r in st.bills then Some(st.bills[r]) else None,
        PaidSum(st.payments, r), PaymentCount(st.payments, r),
        if r in st.receipts then Some(st.receipts[r]) else None)
  }

  /** A bill is paid in full or not at all, and charges what its lines say. */
  predicate MoneyOk(b: Bill) {
    && b.paid + b.balance == b.total
    && b.paid == (if IsSettled(b.status) then b.total else 0)
    && b.total == b.subtotal == LinesTotal(b.lines)
    && b.lineCount == |b.lines| && LinesIn(b.lines, b.currency)
  }

  /** The request is closed iff its bill is settled; the bill of a cancelled request is cancelled; the
      ledger holds one payment of the full total for a settled bill, none otherwise, and likewise one
      receipt, numbered after the bill. */
  predicate RowOk(row: Row) {
    var status := row.request.status;
    match row.bill
    case None =>
      !status.RequestClosed? && !status.RequestPresented? && row.paidSum == 0 && row.payments == 0 && row.receipt.None?
    case Some(b) =>
      && MoneyOk(b)
      && (status.RequestClosed? <==> IsSettled(b.status))
      && (status.RequestCancelled? ==> b.status.Cancelled?)
      && (status.RequestPresented? ==> IsPayable(b.status) || b.status.Cancelled?)
      && !b.status.Closed?
      && b.session == row.request.session && b.branch == row.request.branch
      && row.paidSum == b.paid && row.payments == (if IsSettled(b.status) then 1 else 0)
      && row.receipt == (if IsSettled(b.status) then Some(BaseReceiptNumber(b.number)) else None)
  }

  function Rank(s: RequestStatus): nat {
    match s
    case Open => 0
    case Acknowledged => 1
    case RequestPresented => 2
    case RequestClosed => 3
    case RequestCancelled => 3
  }

  /** The part of a bill that is fixed when it is created. */
  predicate SameCharge(a: Bill, b: Bill) {
    && a.session == b.session && a.branch == b.branch && a.number == b.number && a.currency == b.currency
    && a.subtotal == b.subtotal && a.total == b.total
    && a.orderCount == b.orderCount && a.lineCount == b.lineCount && a.lines == b.lines
  }

  /** How a request and its bill may change over any number of steps: the request never moves back and
      ends for good, the bill keeps its charge, and being settled or cancelled is final. */
  predicate RowStep(a: Row, b: Row) {
    && a.request.(status := b.request.status) == b.request
    && Rank(a.request.status) <= Rank(b.request.status)
    && (!IsActive(a.request.status) ==> b.request.status == a.request.status)
    && (a.bill.Some? ==>
          && b.bill.Some? && SameCharge(a.bill.value, b.bill.value)
          && (IsSettled(a.bill.value.status) ==> IsSettled(b.bill.value.status))
          && (a.bill.value.status.Cancelled? ==> b.bill.value.status.Cancelled?))
    && a.payments <= b.payments
    && (a.receipt.Some? ==> b.receipt == a.receipt)
  }

  lemma RowStepComposes(a: Row, b: Row, c: Row)
    requires RowStep(a, b) && RowStep(b, c)
    ensures RowStep(a, c)
  {}

  lemma RowStepReflexive(a: Row)
    ensures RowStep(a, a)
  {}

  // ---------------------------------------------------------------------------
  // The whole store
  // ---------------------------------------------------------------------------

  ghost predicate RowsOk(st: Store) {
    forall r | r in st.requests :: RowOk(RowOf(st, r))
  }

  /** Bills, payments and receipts all belong to known requests. */
  ghost predicate Linked(st: Store) {
    && st.bills.Keys <= st.requests.Keys && st.receipts.Keys <= st.bills.Keys
    && forall i | 0 <= i < |st.payments| :: st.payments[i].request in st.bills
  }

  predicate ActiveIn(st: Store, r: Id, session: Id) {
    r in st.requests && st.requests[r].session == session && IsActive(st.requests[r].status)
  }

  ghost predicate OneActiveRequest(st: Store) {
    forall a, b, s :: ActiveIn(st, a, s) && ActiveIn(st, b, s) ==> a == b
  }

  /** The creation order lists every bill once, and each branch numbers its bills without gaps. */
  ghost predicate Numbered(st: Store) {
    && (forall i, j | 0 <= i < j < |st.created| :: st.created[i] != st.created[j])
    && (forall r :: r in st.created <==> r in st.bills)
    && forall branch :: Consecutive(BranchNumbers(st, branch))
  }

  ghost predicate Inv(st: Store) {
    RowsOk(st) && Linked(st) && OneActiveRequest(st) && Numbered(st)
  }

  /** What settlers have read still holds of the bill's fixed part. */
  ghost predicate ReadingsOk(w: World) {
    forall s | s in w.readings :: ReadingOk(w.store, w.readings[s])
  }

  predicate ReadingOk(st: Store, m: Reading) {
    m.request in st.bills && st.bills[m.request].total == m.total && st.bills[m.request].session == m.session
  }

  ghost predicate Advances(st: Store, st': Store) {
    && st.payments <= st'.payments
    && forall r | r in st.requests :: r in st'.requests && RowStep(RowOf(st, r), RowOf(st', r))
  }

  lemma AdvancesComposes(a: Store, b: Store, c: Store)
    requires Advances(a, b) && Advances(b, c)
    ensures Advances(a, c)
  {
    hide RowStep, RowOf;
    forall r | r in a.requests
      ensures r in c.requests && RowStep(RowOf(a, r), RowOf(c, r))
    {
      RowStepComposes(RowOf(a, r), RowOf(b, r), RowOf(c, r));
    }
  }

  lemma AdvancesReflexive(st: Store)
    ensures Advances(st, st)
  {}

  // ---------------------------------------------------------------------------
  // Steps that touch one request
  // ---------------------------------------------------------------------------

  /** Only the request r, its bill and its receipt may differ. */
  ghost predicate Touches(st: Store, st': Store, r: Id) {
    && st'.requests.Keys == st.requests.Keys && st'.bills.Keys == st.bills.Keys && st'.created == st.created
    && st.payments <= st'.payments && (forall i | |st.payments| <= i < |st'.payments| :: st'.payments[i].request == r)
    && (forall k | k in st.requests && k != r :: st'.requests[k] == st.requests[k])
    && (forall k | k in st.bills && k != r :: st'.bills[k] == st.bills[k])
    && (forall k | k != r :: k in st.receipts <==> k in st'.receipts)
    && (forall k | k in st.receipts && k in st'.receipts && k != r :: st'.receipts[k] == st.receipts[k])
    && (r in st'.receipts ==> r in st.bills)
  }

  lemma {:induction false} OtherPayments(before: seq<Payment>, after: seq<Payment>, r: Id, k: Id)
    requires before <= after && (forall i | |before| <= i < |after| :: after[i].request == r) && k != r
    ensures PaidSum(after, k) == PaidSum(before, k) && PaymentCount(after, k) == PaymentCount(before, k)
    decreases |after|
  {
    if |after| > |before| {
      OtherPayments(before, after[..|after| - 1], r, k);
    } else {
      assert after == before;
    }
  }

  lemma {:induction false} NumbersUnchanged(bills: map<Id, Bill>, bills': map<Id, Bill>, created: seq<Id>, branch: Id)
    requires forall k | k in created :: k in bills && k in bills' && bills'[k].number == bills[k].number && bills'[k].branch == bills[k].branch
    ensures NumbersOf(bills', created, branch) == NumbersOf(bills, created, branch)
  {
    if created != [] {
      NumbersUnchanged(bills, bills', created[..|created| - 1], branch);
    }
  }

  /** A step on one request keeps everything if it keeps that request's row. */
  lemma TouchKeepsInv(st: Store, st': Store, r: Id)
    requires Inv(st) && Touches(st, st', r) && r in st.requests
    requires RowOk(RowOf(st', r)) && RowStep(RowOf(st, r), RowOf(st', r))
    ensures Inv(st') && Advances(st, st')
  {
    TouchKeepsRows(st, st', r);
    TouchKeepsActive(st, st', r);
    TouchKeepsNumbers(st, st', r);
    TouchKeepsLinks(st, st', r);
  }

  lemma TouchKeepsRows(st: Store, st': Store, r: Id)
    requires RowsOk(st) && Touches(st, st', r) && r in st.requests
    requires RowOk(RowOf(st', r)) && RowStep(RowOf(st, r), RowOf(st', r))
    ensures RowsOk(st') && Advances(st, st')
  {
    hide RowOk, PaidSum, PaymentCount, RowStep;
    forall k | k in st.requests && k != r
      ensures RowOf(st', k) == RowOf(st, k) && RowStep(RowOf(st, k), RowOf(st', k))
    {
      OtherPayments(st.payments, st'.payments, r, k);
      RowStepReflexive(RowOf(st, k));
    }
  }

  lemma TouchKeepsActive(st: Store, st': Store, r: Id)
    requires OneActiveRequest(st) && Touches(st, st', r) && r in st.requests
    requires RowStep(RowOf(st, r), RowOf(st', r))
    ensures OneActiveRequest(st')
  {
    hide PaidSum, PaymentCount, SameCharge;
    forall a, s | ActiveIn(st', a, s)
      ensures ActiveIn(st, a, s)
    {
      if a != r {
        assert st'.requests[a] == st.requests[a];
      }
    }
  }

  lemma TouchKeepsNumbers(st: Store, st': Store, r: Id)
    requires Numbered(st) && Touches(st, st', r) && r in st.requests
    requires RowStep(RowOf(st, r), RowOf(st', r))
    ensures Numbered(st')
  {
    hide PaidSum, PaymentCount, Consecutive, Rank;
    forall branch
      ensures BranchNumbers(st', branch) == BranchNumbers(st, branch)
    {
      NumbersUnchanged(st.bills, st'.bills, st.created, branch);
    }
    forall branch
      ensures Consecutive(BranchNumbers(st', branch))
    {
      assert Consecutive(BranchNumbers(st, branch));
    }
  }

  lemma TouchKeepsLinks(st: Store, st': Store, r: Id)
    requires Linked(st) && Touches(st, st', r) && r in st.requests
    requires RowOk(RowOf(st', r))
    ensures Linked(st')
  {
    hide PaidSum, MoneyOk, BaseReceiptNumber;
    forall k | k in st'.receipts
      ensures k in st'.bills
    {
      assert k != r ==> k in st.receipts.Keys;
    }
    forall i | 0 <= i < |st'.payments|
      ensures st'.payments[i].request in st'.bills
    {
      if i >= |st.payments| {
        var last := |st'.payments| - 1;
        assert st'.payments[last].request == r;
        assert PaymentCount(st'.payments, r) >= 1;
      } else {
        assert st'.payments[i] == st.payments[i];
      }
    }
  }

  // ---------------------------------------------------------------------------
  // The transactions
  // ---------------------------------------------------------------------------

  ghost predicate Good(st: Store, st': Store) {
    Inv(st') && Advances(st, st')
  }

  lemma StayIsGood(st: Store)
    requires Inv(st)
    ensures Good(st, st)
  {
    hide RowsOk, Linked, OneActiveRequest, Numbered;
    AdvancesReflexive(st);
  }

  lemma RowIsOk(st: Store, r: Id)
    requires Inv(st)
    ensures r in st.bills ==> r in st.requests
    ensures r in st.receipts ==> r in st.bills
    ensures r in st.requests ==> RowOk(RowOf(st, r))
  {}

  lemma AcknowledgeIsGood(st: Store, r: Id)
    requires Inv(st)
    ensures Good(st, After(st, Acknowledge(st, r)))
  {
    hide Inv, Good, PaidSum, PaymentCount, MoneyOk;
    var st' := After(st, Acknowledge(st, r));
    StayIsGood(st);
    RowIsOk(st, r);
    if st' != st {
      TouchIsGood(st, st', r);
    }
  }

  lemma TouchIsGood(st: Store, st': Store, r: Id)
    requires Inv(st) && Touches(st, st', r) && r in st.requests
    requires RowOk(RowOf(st', r)) && RowStep(RowOf(st, r), RowOf(st', r))
    ensures Good(st, st')
  {
    hide Inv, Advances;
    TouchKeepsInv(st, st', r);
  }

  lemma PresentBillIsGood(st: Store, r: Id)
    requires Inv(st)
    ensures Good(st, After(st, PresentBill(st, r)))
  {
    hide Inv, Good, PaidSum, PaymentCount, BaseReceiptNumber, LinesTotal, LinesIn;
    var st' := After(st, PresentBill(st, r));
    StayIsGood(st);
    RowIsOk(st, r);
    if st' != st {
      TouchIsGood(st, st', r);
    }
  }

  lemma PresentRequestIsGood(st: Store, r: Id)
    requires Inv(st)
    ensures Good(st, After(st, PresentRequest(st, r)))
  {
    hide Inv, Good, PaidSum, PaymentCount, BaseReceiptNumber, LinesTotal, LinesIn;
    var st' := After(st, PresentRequest(st, r));
    StayIsGood(st);
    RowIsOk(st, r);
    if st' != st {
      TouchIsGood(st, st', r);
    }
  }

  lemma CancelBillIsGood(st: Store, r: Id, reason: Option<string>)
    requires Inv(st)
    ensures Good(st, After(st, CancelBill(st, r, reason)))
  {
    hide Inv, Good, PaidSum, PaymentCount, BaseReceiptNumber, LinesTotal, LinesIn;
    var st' := After(st, CancelBill(st, r, reason));
    StayIsGood(st);
    RowIsOk(st, r);
    if st' != st {
      TouchIsGood(st, st', r);
    }
  }

  lemma CancelRequestIsGood(st: Store, r: Id, reason: Option<string>)
    requires Inv(st)
    ensures Good(st, After(st, CancelRequest(st, r, reason)))
  {
    hide Inv, Good, Touches, PaidSum, PaymentCount, BaseReceiptNumber, LinesTotal, LinesIn;
    var st' := After(st, CancelRequest(st, r, reason));
    StayIsGood(st);
    RowIsOk(st, r);
    if st' != st {
      CancelTouches(st, r, reason);
      TouchIsGood(st, st', r);
    }
  }

  lemma CancelTouches(st: Store, r: Id, reason: Option<string>)
    requires r in st.receipts ==> r in st.bills
    ensures Touches(st, After(st, CancelRequest(st, r, reason)), r)
  {}

  /** No reachable request can be closed by hand: paying its bill closed it already. */
  lemma CloseIsAlwaysRefused(st: Store, r: Id)
    requires Inv(st)
    ensures CloseRequest(st, r).Failed?
  {
    hide PaidSum, PaymentCount, MoneyOk, BaseReceiptNumber;
    RowIsOk(st, r);
  }

  lemma MarkPendingIsGood(st: Store, r: Id, balance: int)
    requires Inv(st)
    ensures Good(st, MarkPending(st, r, balance))
  {
    hide Inv, Good, PaidSum, PaymentCount, BaseReceiptNumber, LinesTotal, LinesIn;
    StayIsGood(st);
    RowIsOk(st, r);
    if MarkPending(st, r, balance) != st {
      TouchIsGood(st, MarkPending(st, r, balance), r);
    }
  }

  lemma RestorePresentedIsGood(st: Store, r: Id)
    requires Inv(st)
    ensures Good(st, RestorePresented(st, r))
  {
    hide Inv, Good, PaidSum, PaymentCount, BaseReceiptNumber, LinesTotal, LinesIn;
    StayIsGood(st);
    RowIsOk(st, r);
    if RestorePresented(st, r) != st {
      TouchIsGood(st, RestorePresented(st, r), r);
    }
  }

  /** In a reachable store asking for a receipt creates nothing: it succeeds exactly for a paid bill,
      which has its receipt already. */
  lemma ReceiptsAreComplete(st: Store, r: Id)
    requires Inv(st)
    ensures GenerateReceipt(st, r).Committed? <==> r in st.bills && st.bills[r].status.Paid?
    ensures GenerateReceipt(st, r).Committed? ==> r in st.receipts && GenerateReceipt(st, r).store == st
  {
    hide Inv, PaidSum, PaymentCount, MoneyOk, BaseReceiptNumber;
    RowIsOk(st, r);
  }

  lemma ElsewhereIsGood(st: Store, sessions: map<Id, Session>)
    requires Inv(st)
    ensures Good(st, st.(sessions := sessions))
  {
    hide RowOk, PaidSum, PaymentCount, RowStep;
    var st' := st.(sessions := sessions);
    forall r | r in st.requests
      ensures RowOf(st', r) == RowOf(st, r) && RowStep(RowOf(st, r), RowOf(st', r))
    {
      RowStepReflexive(RowOf(st, r));
    }
    ActiveElsewhere(st, st');
    forall branch
      ensures Consecutive(BranchNumbers(st', branch))
    {
      assert BranchNumbers(st', branch) == BranchNumbers(st, branch);
    }
  }

  lemma ActiveElsewhere(st: Store, st': Store)
    requires OneActiveRequest(st) && st'.requests == st.requests
    ensures OneActiveRequest(st')
  {
    forall a, s | ActiveIn(st', a, s)
      ensures ActiveIn(st, a, s)
    {}
  }

  // ---------------------------------------------------------------------------
  // Creating requests and bills
  // ---------------------------------------------------------------------------

  lemma {:induction false} NoPayments(payments: seq<Payment>, r: Id)
    requires forall i | 0 <= i < |payments| :: payments[i].request != r
    ensures PaidSum(payments, r) == 0 && PaymentCount(payments, r) == 0
  {
    if payments != [] {
      NoPayments(payments[..|payments| - 1], r);
    }
  }

  lemma RequestBillIsGood(st: Store, session: Id, id: Id)
    requires Inv(st) && id !in st.requests
    ensures Good(st, After(st, RequestBill(st, session, id)))
  {
    hide Inv, Good;
    StayIsGood(st);
    var st' := After(st, RequestBill(st, session, id));
    if st' != st {
      NewRequestIsGood(st, st', session, id);
    }
  }

  lemma NewRequestIsGood(st: Store, st': Store, session: Id, id: Id)
    requires Inv(st) && id !in st.requests && id in st'.requests && !HasActiveRequest(st, session)
    requires st' == st.(requests := st.requests[id := st'.requests[id]])
    requires st'.requests[id].session == session && st'.requests[id].status.Open?
    ensures Good(st, st')
  {
    hide PaidSum, PaymentCount, MoneyOk, RowStep;
    assert id !in st.bills;
    NoPayments(st.payments, id);
    forall r | r in st.requests
      ensures RowOf(st', r) == RowOf(st, r) && RowStep(RowOf(st, r), RowOf(st', r))
    {
      RowStepReflexive(RowOf(st, r));
    }
    forall a, b, s | ActiveIn(st', a, s) && ActiveIn(st', b, s)
      ensures a == b
    {
      assert a != id ==> ActiveIn(st, a, s);
      assert b != id ==> ActiveIn(st, b, s);
    }
    forall branch
      ensures Consecutive(BranchNumbers(st', branch))
    {
      assert BranchNumbers(st', branch) == BranchNumbers(st, branch);
    }
  }

  lemma EnsureBillIsGood(st: Store, r: Id)
    requires Inv(st)
    ensures Good(st, After(st, EnsureBill(st, r)))
  {
    hide Inv, Good, NewBill, BillableTotals;
    StayIsGood(st);
    var st' := After(st, EnsureBill(st, r));
    if st' != st {
      var q := st.requests[r];
      var orders := Billable(st.sessions[q.session].orders);
      NewBillIsGood(st, r, orders);
    }
  }

  lemma NewBillIsGood(st: Store, r: Id, orders: seq<Order>)
    requires Inv(st) && r in st.requests && r !in st.bills && IsActive(st.requests[r].status)
    requires BillableTotals(orders).Ok?
    ensures Good(st, st.(bills := st.bills[r := NewBill(st, st.requests[r], orders, BillableTotals(orders).value)],
                         created := st.created + [r]))
  {
    hide PaidSum, PaymentCount, MoneyOk, NewBill, BillableTotals, RowStep, NumbersOf, Consecutive;
    var b := NewBill(st, st.requests[r], orders, BillableTotals(orders).value);
    var st' := st.(bills := st.bills[r := b], created := st.created + [r]);
    NewBillCharges(st, st.requests[r], orders);
    assert RowOf(st', r) == RowOf(st, r).(bill := Some(b));
    assert RowOk(RowOf(st, r));
    NewBillAdvances(RowOf(st, r), b);
    forall k | k in st.requests && k != r
      ensures RowOf(st', k) == RowOf(st, k) && RowStep(RowOf(st, k), RowOf(st', k))
    {
      RowStepReflexive(RowOf(st, k));
    }
    ActiveElsewhere(st, st');
    forall branch
      ensures Consecutive(BranchNumbers(st', branch))
    {
      NewBillIsNumbered(st, r, b, branch);
    }
  }

  lemma NewBillAdvances(row: Row, b: Bill)
    requires row.bill.None?
    ensures RowStep(row, row.(bill := Some(b)))
  {}

  /** Whatever the orders, a new bill charges exactly its lines, in one currency. */
  lemma NewBillCharges(st: Store, q: Request, orders: seq<Order>)
    requires BillableTotals(orders).Ok?
    ensures var b := NewBill(st, q, orders, BillableTotals(orders).value);
            && MoneyOk(b) && b.status.Requested? && b.paid == 0 && b.session == q.session && b.branch == q.branch
            && b.orderCount == |orders| && SingleCurrency(orders, b.currency)
            && b.number == NextNumberAfter(BranchNumbers(st, q.branch))
  {
    TotalsMatchLines(orders);
  }

  lemma NewBillIsNumbered(st: Store, r: Id, b: Bill, branch: Id)
    requires Numbered(st) && r !in st.bills
    requires b.number == NextNumberAfter(BranchNumbers(st, b.branch))
    ensures Consecutive(NumbersOf(st.bills[r := b], st.created + [r], branch))
  {
    hide Consecutive, NextNumberAfter;
    var bills' := st.bills[r := b];
    NumbersUnchanged(st.bills, bills', st.created, branch);
    assert (st.created + [r])[..|st.created|] == st.created;
    assert Consecutive(BranchNumbers(st, branch));
    if b.branch == branch {
      IssueKeepsConsecutive(BranchNumbers(st, branch));
    }
  }

  // ---------------------------------------------------------------------------
  // Numbers are unique
  // ---------------------------------------------------------------------------

  lemma {:induction false} NumberAt(bills: map<Id, Bill>, created: seq<Id>, branch: Id, i: nat)
    requires i < |created| && created[i] in bills && bills[created[i]].branch == branch
    ensures var k := |NumbersOf(bills, created[..i], branch)|;
            k < |NumbersOf(bills, created, branch)| && NumbersOf(bills, created, branch)[k] == bills[created[i]].number
  {
    var n := |created| - 1;
    if i < n {
      assert created[..n][..i] == created[..i];
      NumberAt(bills, created[..n], branch, i);
    }
  }

  /** Two bills of a branch have different sequence numbers. */
  lemma NumbersAreUnique(st: Store, a: Id, b: Id) returns (na: nat, nb: nat)
    requires Numbered(st) && a in st.bills && b in st.bills && a != b && st.bills[a].branch == st.bills[b].branch
    ensures st.bills[a].number == Print(na) && st.bills[b].number == Print(nb) && na != nb
  {
    hide NumbersOf, Print;
    var branch := st.bills[a].branch;
    var i :| 0 <= i < |st.created| && st.created[i] == a;
    var j :| 0 <= j < |st.created| && st.created[j] == b;
    assert Consecutive(BranchNumbers(st, branch));
    NumberAt(st.bills, st.created, branch, i);
    NumberAt(st.bills, st.created, branch, j);
    na := |NumbersOf(st.bills, st.created[..i], branch)| + 1;
    nb := |NumbersOf(st.bills, st.created[..j], branch)| + 1;
    if i < j {
      assert st.created[..j][..i] == st.created[..i];
      NumberAt(st.bills, st.created[..j], branch, i);
    } else {
      assert st.created[..i][..j] == st.created[..j];
      NumberAt(st.bills, st.created[..i], branch, j);
    }
  }

  /** Bill numbers and receipt numbers never repeat within a branch. */
  lemma NumbersNeverRepeat(st: Store, a: Id, b: Id)
    requires Inv(st) && a in st.bills && b in st.bills && a != b && st.bills[a].branch == st.bills[b].branch
    ensures st.bills[a].number != st.bills[b].number
    ensures a in st.receipts && b in st.receipts ==> st.receipts[a] != st.receipts[b]
  {
    hide Print, PaidSum, PaymentCount, MoneyOk, BaseReceiptNumber;
    var na, nb := NumbersAreUnique(st, a, b);
    if Print(na) == Print(nb) {
      PrintIsInjective(na, nb);
    }
    RowIsOk(st, a);
    RowIsOk(st, b);
    if BaseReceiptNumber(Print(na)) == BaseReceiptNumber(Print(nb)) {
      BaseIsInjective(na, nb);
    }
  }

  /** A bill's own receipt number is still free, so its receipt needs no suffix. */
  lemma ReceiptNeedsNoSuffix(st: Store, r: Id)
    requires Inv(st) && r in st.bills && r !in st.receipts
    ensures NextReceiptNumber(st.bills[r].number, ReceiptNumbers(st, st.bills[r].branch)) == BaseReceiptNumber(st.bills[r].number)
  {
    hide Print, PaidSum, PaymentCount, MoneyOk, BaseReceiptNumber;
    var base := BaseReceiptNumber(st.bills[r].number);
    forall k | k in st.receipts && k in st.bills && st.bills[k].branch == st.bills[r].branch
      ensures st.receipts[k] != base
    {
      RowIsOk(st, k);
      var nk, nr := NumbersAreUnique(st, k, r);
      if st.receipts[k] == base {
        BaseIsInjective(nk, nr);
      }
    }
  }

  // ---------------------------------------------------------------------------
  // Settlement
  // ---------------------------------------------------------------------------

  /** The row after a settlement, component by component below. */
  function RowAfterSettlement(row: Row, m: Reading): Row
    requires row.bill.Some?
  {
    Row(row.request.(status := RequestClosed), Some(row.bill.value.(status := Paid, paid := m.total, balance := 0)),
        row.paidSum + m.amount, row.payments + 1, Some(BaseReceiptNumber(row.bill.value.number)))
  }

  /** Only the first write changes bills and payments. */
  lemma SettledBillAndLedger(st: Store, m: Reading)
    requires CommitSettlement(st, m).Committed?
    ensures var st' := CommitSettlement(st, m).store;
            && m.request in st.bills && st'.bills == WithPayment(st, m).bills && st'.payments == WithPayment(st, m).payments
  {
    hide NextReceiptNumber, ReceiptNumbers, SettleSession, IsActive;
  }

  /** Only the second changes requests. */
  lemma SettledRequest(st: Store, m: Reading)
    requires CommitSettlement(st, m).Committed? && m.request in st.requests && IsActive(st.requests[m.request].status)
    ensures var st' := CommitSettlement(st, m).store;
            m.request in st'.requests && st'.requests[m.request] == st.requests[m.request].(status := RequestClosed)
  {
    hide NextReceiptNumber, ReceiptNumbers, SettleSession, IsActive, IsPayable;
  }

  /** Only the last changes receipts, from a store whose receipt numbers are the ones from before. */
  lemma SettledReceipt(st: Store, m: Reading)
    requires Inv(st) && CommitSettlement(st, m).Committed? && m.request in st.bills && m.request !in st.receipts
    ensures var st' := CommitSettlement(st, m).store;
            m.request in st'.receipts && st'.receipts[m.request] == BaseReceiptNumber(st.bills[m.request].number)
  {
    hide Inv, NextReceiptNumber, ReceiptNumbers, CloseActiveRequest, WithSettledSession, BaseReceiptNumber;
    var mid := WithSettledSession(CloseActiveRequest(WithPayment(st, m), m.request), m.session);
    MiddleWrites(st, m);
    SettledReceiptNumbers(st, mid, m.request);
    ReceiptNeedsNoSuffix(st, m.request);
  }

  lemma MiddleWrites(st: Store, m: Reading)
    requires m.request in st.bills
    ensures var mid := WithSettledSession(CloseActiveRequest(WithPayment(st, m), m.request), m.session);
            mid.bills == WithPayment(st, m).bills && mid.receipts == st.receipts
  {
    hide SettleSession, IsActive;
  }

  lemma SettledReceiptNumbers(st: Store, mid: Store, r: Id)
    requires r in st.bills && r in mid.bills && mid.receipts == st.receipts
    requires mid.bills == st.bills[r := mid.bills[r]] && mid.bills[r].branch == st.bills[r].branch
    ensures ReceiptNumbers(mid, st.bills[r].branch) == ReceiptNumbers(st, st.bills[r].branch)
  {}

  lemma OnePaymentMore(payments: seq<Payment>, p: Payment)
    ensures PaidSum(payments + [p], p.request) == PaidSum(payments, p.request) + p.amount
    ensures PaymentCount(payments + [p], p.request) == PaymentCount(payments, p.request) + 1
  {
    assert (payments + [p])[..|payments|] == payments;
  }

  lemma SettledRow(st: Store, m: Reading)
    requires Inv(st) && ReadingOk(st, m) && CommitSettlement(st, m).Committed?
    ensures m.request in st.requests && m.request in st.bills && m.request in CommitSettlement(st, m).store.requests
    ensures RowOf(CommitSettlement(st, m).store, m.request) == RowAfterSettlement(RowOf(st, m.request), m)
  {
    hide Inv, MoneyOk, BaseReceiptNumber, WithReceipt, WithSettledSession, CloseActiveRequest, PaidSum, PaymentCount;
    RowIsOk(st, m.request);
    SettledBillAndLedger(st, m);
    SettledRequest(st, m);
    SettledReceipt(st, m);
    OnePaymentMore(st.payments, Payment(m.request, m.amount, m.source));
  }

  lemma SettledRowIsOk(row: Row, m: Reading)
    requires RowOk(row) && row.bill.Some? && IsPayable(row.bill.value.status)
    requires row.bill.value.balance == m.amount && row.bill.value.total == m.total
    ensures RowOk(RowAfterSettlement(row, m)) && RowStep(row, RowAfterSettlement(row, m))
  {
    hide BaseReceiptNumber;
  }

  lemma SettlementTouches(st: Store, m: Reading)
    requires m.request in st.bills && m.request in st.requests
    ensures Touches(st, After(st, CommitSettlement(st, m)), m.request)
  {
    hide CommitSettlement;
    if CommitSettlement(st, m).Committed? {
      SettledBillAndLedger(st, m);
      OtherRequestsAndReceipts(st, m);
    }
  }

  lemma OtherRequestsAndReceipts(st: Store, m: Reading)
    requires CommitSettlement(st, m).Committed?
    ensures var st' := CommitSettlement(st, m).store;
            && st'.requests.Keys == st.requests.Keys && st'.created == st.created
            && (forall k | k in st.requests && k != m.request :: st'.requests[k] == st.requests[k])
            && (forall k | k != m.request :: k in st.receipts <==> k in st'.receipts)
            && (forall k | k in st.receipts && k in st'.receipts && k != m.request :: st'.receipts[k] == st.receipts[k])
  {
    hide NextReceiptNumber, ReceiptNumbers, SettleSession, IsPayable, IsActive;
  }

  lemma SettlementIsGood(st: Store, m: Reading)
    requires Inv(st) && ReadingOk(st, m)
    ensures Good(st, After(st, CommitSettlement(st, m)))
  {
    hide Inv, Good, Touches, RowOk, RowStep, PaidSum, PaymentCount, BaseReceiptNumber, WithReceipt, RowAfterSettlement;
    StayIsGood(st);
    RowIsOk(st, m.request);
    if CommitSettlement(st, m).Committed? {
      SettledRow(st, m);
      SettledRowIsOk(RowOf(st, m.request), m);
      SettlementTouches(st, m);
      TouchIsGood(st, CommitSettlement(st, m).store, m.request);
    }
  }

  // ---------------------------------------------------------------------------
  // Runs
  // ---------------------------------------------------------------------------

  ghost predicate WorldOk(w: World) {
    Inv(w.store) && ReadingsOk(w) && OrdersSubmitted(w.store.sessions)
  }

  lemma {:induction false} StoreStepIsGood(w: World, a: Action)
    requires WorldOk(w)
    ensures Good(w.store, StoreAfter(w, a))
  {
    hide Inv, Good, RequestBill, Acknowledge, EnsureBill, PresentRequest, PresentBill, CancelRequest, CancelBill,
      CloseRequest, MarkPending, RestorePresented, CommitSettlement, GenerateReceipt, OrdersSubmitted;
    var st := w.store;
    StayIsGood(st);
    match a
    case DoRequest(s, id) =>
      if id !in st.requests {
        RequestBillIsGood(st, s, id);
      }
    case DoAcknowledge(r) => AcknowledgeIsGood(st, r);
    case DoEnsureBill(r) => EnsureBillIsGood(st, r);
    case DoPresentRequest(r) => PresentRequestIsGood(st, r);
    case DoPresentBill(r) => PresentBillIsGood(st, r);
    case DoCancelRequest(r, reason) => CancelRequestIsGood(st, r, reason);
    case DoCancelBill(r, reason) => CancelBillIsGood(st, r, reason);
    case DoCloseRequest(r) => CloseIsAlwaysRefused(st, r);
    case DoMarkPending(r, balance) => MarkPendingIsGood(st, r, balance);
    case DoRestorePresented(r) => RestorePresentedIsGood(st, r);
    case DoReadBill(_, _, _, _) =>
    case DoCommit(settler) =>
      if settler in w.readings {
        SettlementIsGood(st, w.readings[settler]);
      }
    case DoGenerateReceipt(r) => ReceiptsAreComplete(st, r);
    case Elsewhere(sessions) => ElsewhereIsGood(st, sessions);
  }

  /** What a settler read of the bill's charge stays true, however long it waits. */
  lemma ReadingSurvives(st: Store, st': Store, m: Reading)
    requires Inv(st) && Advances(st, st') && ReadingOk(st, m)
    ensures ReadingOk(st', m)
  {
    hide PaidSum, PaymentCount, RowOk, Rank;
    RowIsOk(st, m.request);
    assert RowStep(RowOf(st, m.request), RowOf(st', m.request));
  }

  /** Only settlements and the outside change orders, and settlements only their statuses. */
  lemma StepKeepsOrders(w: World, a: Action)
    requires WorldOk(w)
    ensures OrdersSubmitted(StoreAfter(w, a).sessions)
  {
    hide Inv, ReadingsOk, AsSubmitted, RequestTotals, NewBill, NextReceiptNumber, ReceiptNumbers, SettleSession;
    if a.DoCommit? && a.settler in w.readings && w.readings[a.settler].session in w.store.sessions {
      SettlementKeepsOrders(w.store.sessions[w.readings[a.settler].session]);
    }
  }

  lemma SettlementKeepsOrders(s: Session)
    requires AllSubmitted(s.orders)
    ensures AllSubmitted(SettleSession(s).orders)
  {
    hide ItemsTotal;
    forall i | 0 <= i < |s.orders|
      ensures AsSubmitted(CompleteAll(s.orders)[i])
    {
      assert AsSubmitted(s.orders[i]);
    }
  }

  lemma StepKeepsWorld(w: World, a: Action)
    requires WorldOk(w)
    ensures WorldOk(Apply(w, a)) && Advances(w.store, Apply(w, a).store)
  {
    hide Inv, Advances, StoreAfter, ReadingOk, OrdersSubmitted;
    StoreStepIsGood(w, a);
    StepKeepsOrders(w, a);
    var w' := Apply(w, a);
    forall s | s in w'.readings
      ensures ReadingOk(w'.store, w'.readings[s])
    {
      if s in w.readings && w'.readings[s] == w.readings[s] {
        ReadingSurvives(w.store, w'.store, w.readings[s]);
      } else {
        ReadingIsOk(w.store, a);
        ReadingSurvives(w.store, w'.store, w'.readings[s]);
      }
    }
  }

  lemma ReadingIsOk(st: Store, a: Action)
    requires a.DoReadBill? && ReadBill(st, a.request, a.amount, a.source).ReadOk?
    ensures ReadingOk(st, ReadBill(st, a.request, a.amount, a.source).reading)
  {}

  /** Every run from an empty store keeps the invariant. */
  lemma {:induction false} RunKeepsWorld(w: World, actions: seq<Action>)
    requires WorldOk(w)
    ensures WorldOk(Run(w, actions)) && Advances(w.store, Run(w, actions).store)
  {
    hide WorldOk, Advances, Apply;
    if actions == [] {
      WorldStays(w);
    } else {
      var before := actions[..|actions| - 1];
      RunKeepsWorld(w, before);
      StepKeepsWorld(Run(w, before), actions[|actions| - 1]);
      AdvancesComposes(w.store, Run(w, before).store, Run(w, actions).store);
    }
  }

  lemma WorldStays(w: World)
    requires WorldOk(w)
    ensures Advances(w.store, w.store)
  {
    AdvancesReflexive(w.store);
  }

  lemma EmptyWorldIsOk()
    ensures WorldOk(Initial())
  {
    assert Initial().store.sessions == map[];
    assert forall branch :: BranchNumbers(Initial().store, branch) == [];
  }

  ghost predicate Reachable(st: Store) {
    exists actions :: st == Run(Initial(), actions).store
  }

  /** In every reachable store, a request is closed exactly when its bill is paid, and the ledger holds
      exactly one payment for it, of the whole total, or none. */
  lemma ReachableIsSound(st: Store, r: Id)
    requires Reachable(st)
    ensures Inv(st)
    ensures r in st.requests ==> RowOk(RowOf(st, r))
    ensures r in st.bills ==>
              var b := st.bills[r];
              && r in st.requests && (st.requests[r].status.RequestClosed? <==> b.status.Paid?)
              && b.paid + b.balance == b.total && PaidSum(st.payments, r) == b.paid
              && PaymentCount(st.payments, r) == (if b.status.Paid? then 1 else 0)
  {
    hide Inv, PaidSum, PaymentCount, BaseReceiptNumber, Run, OrdersSubmitted, ReadingsOk;
    var actions :| st == Run(Initial(), actions).store;
    EmptyWorldIsOk();
    RunKeepsWorld(Initial(), actions);
    RowIsOk(st, r);
  }

  /** At most one request of a session is active, in every reachable store. */
  lemma ReachableHasOneActiveRequest(st: Store, a: Id, b: Id)
    requires Reachable(st) && a in st.requests && b in st.requests
    requires IsActive(st.requests[a].status) && IsActive(st.requests[b].status)
    requires st.requests[a].session == st.requests[b].session
    ensures a == b
  {
    ReachableIsSound(st, a);
    assert ActiveIn(st, a, st.requests[a].session) && ActiveIn(st, b, st.requests[a].session);
  }

  lemma {:induction false} RunAppends(w: World, a: seq<Action>, b: seq<Action>)
    ensures Run(w, a + b) == Run(Run(w, a), b)
  {
    hide Apply;
    if b == [] {
      assert a + b == a;
    } else {
      assert (a + b)[..|a + b| - 1] == a + b[..|b| - 1];
      RunAppends(w, a, b[..|b| - 1]);
    }
  }

  /** From any point of a run to any later one, no request moves back or leaves its final status, and
      no bill changes its charge or stops being settled or cancelled. */
  lemma NothingMovesBack(before: seq<Action>, after: seq<Action>, r: Id)
    requires r in Run(Initial(), before).store.requests
    ensures r in Run(Initial(), before + after).store.requests
    ensures RowStep(RowOf(Run(Initial(), before).store, r), RowOf(Run(Initial(), before + after).store, r))
  {
    hide WorldOk, RowStep, RowOf, Run;
    var w := Run(Initial(), before);
    EmptyWorldIsOk();
    RunKeepsWorld(Initial(), before);
    RunKeepsWorld(w, after);
    RunAppends(Initial(), before, after);
  }

  /** Once a settler has committed, every other one that read the same bill is refused, however the
      run continues and whatever it had read. */
  lemma SettledOnlyOnce(before: seq<Action>, settler: Id, after: seq<Action>, late: Reading)
    requires var w := Run(Initial(), before);
             && settler in w.readings && CommitSettlement(w.store, w.readings[settler]).Committed?
             && late.request == w.readings[settler].request
    ensures CommitSettlement(Run(Initial(), before + [DoCommit(settler)] + after).store, late) == Failed(AlreadyPaid)
  {
    hide Inv, Advances, Run, CommitSettlement, ReadingOk, OrdersSubmitted;
    var w := Run(Initial(), before);
    EmptyWorldIsOk();
    RunKeepsWorld(Initial(), before);
    var w' := Apply(w, DoCommit(settler));
    StepKeepsWorld(w, DoCommit(settler));
    SettledBill(w.store, w.readings[settler]);
    RunKeepsWorld(w', after);
    OneMore(before, DoCommit(settler));
    RunAppends(Initial(), before + [DoCommit(settler)], after);
    SettledForGood(w'.store, Run(w', after).store, late);
  }

  lemma OneMore(before: seq<Action>, a: Action)
    ensures Run(Initial(), before + [a]) == Apply(Run(Initial(), before), a)
  {
    assert (before + [a])[..|before|] == before;
  }

  lemma SettledBill(st: Store, m: Reading)
    requires CommitSettlement(st, m).Committed?
    ensures m.request in st.bills && m.request in CommitSettlement(st, m).store.bills
    ensures CommitSettlement(st, m).store.bills[m.request].status.Paid?
  {}

  lemma SettledForGood(st: Store, st': Store, late: Reading)
    requires Inv(st) && Advances(st, st') && late.request in st.bills && IsSettled(st.bills[late.request].status)
    ensures CommitSettlement(st', late) == Failed(AlreadyPaid)
  {
    hide RowOk, PaidSum, PaymentCount, Rank;
    RowIsOk(st, late.request);
    assert RowStep(RowOf(st, late.request), RowOf(st', late.request));
  }

  // ---------------------------------------------------------------------------
  // Single transactions
  // ---------------------------------------------------------------------------

  /** Asking twice creates nothing twice. */
  lemma CreationIsIdempotent(st: Store, r: Id, session: Id, id: Id, id2: Id)
    ensures EnsureBill(st, r).Committed? ==> EnsureBill(EnsureBill(st, r).store, r) == EnsureBill(st, r)
    ensures id !in st.requests && RequestBill(st, session, id).Committed? && id2 !in RequestBill(st, session, id).store.requests ==>
              RequestBill(RequestBill(st, session, id).store, session, id2) == RequestBill(st, session, id)
  {
    hide BillableTotals, RequestTotals, NewBill;
    if id !in st.requests && RequestBill(st, session, id).Committed? && !HasActiveRequest(st, session) {
      var st' := RequestBill(st, session, id).store;
      assert id in st'.requests && st'.requests[id].session == session && IsActive(st'.requests[id].status);
      assert HasActiveRequest(st', session);
    }
  }

  /** In a reachable store, presenting a request succeeds exactly when it is open or acknowledged and
      has a bill that is not cancelled; the bill is then payable. */
  lemma PresentRequestIff(st: Store, r: Id)
    requires Inv(st)
    ensures PresentRequest(st, r).Committed? <==>
              && r in st.requests && (st.requests[r].status.Open? || st.requests[r].status.Acknowledged?)
              && r in st.bills && !st.bills[r].status.Cancelled?
    ensures PresentRequest(st, r).Committed? ==>
              var st' := PresentRequest(st, r).store;
              && st'.requests[r].status.RequestPresented? && st'.bills[r].status in {Presented, PaymentPending}
              && (st.bills[r].status.PaymentPending? <==> st'.bills[r].status.PaymentPending?)
  {
    hide Inv, PaidSum, PaymentCount, MoneyOk, BaseReceiptNumber;
    RowIsOk(st, r);
  }

  ghost predicate SameOrderCurrency(orders: seq<Order>) {
    forall o | 0 <= o < |orders| :: orders[o].currency == orders[0].currency
  }

  /** A request is created exactly for an open session without an active one, with something to bill in
      one currency; it is open and asks for the sum of the stored subtotals. */
  lemma RequestBillIff(st: Store, session: Id, id: Id)
    requires id !in st.requests
    ensures var o := RequestBill(st, session, id);
            (o.Committed? && id in o.store.requests) <==>
              && session in st.sessions && (st.sessions[session].status.Active? || st.sessions[session].status.Idle?)
              && !HasActiveRequest(st, session)
              && Billable(st.sessions[session].orders) != [] && SameOrderCurrency(Billable(st.sessions[session].orders))
    ensures var o := RequestBill(st, session, id);
            o.Committed? && id in o.store.requests ==>
              var orders, q := Billable(st.sessions[session].orders), o.store.requests[id];
              && ActiveIn(o.store, id, session) && q.status.Open? && q.branch == st.sessions[session].branch
              && q.subtotal == OrderSubtotals(orders) && q.orderCount == |orders| && q.currency == orders[0].currency
  {
    hide Billable, OrderSubtotals;
  }

  /** A bill exists afterwards exactly if it existed, or the request is active and its session has
      something to bill, all in one currency. */
  lemma EnsureBillIff(st: Store, r: Id)
    ensures EnsureBill(st, r).Committed? <==>
              || r in st.bills
              || (&& r in st.requests && IsActive(st.requests[r].status) && st.requests[r].session in st.sessions
                  && var orders := Billable(st.sessions[st.requests[r].session].orders);
                     orders != [] && exists c :: SingleCurrency(orders, c))
    ensures EnsureBill(st, r).Committed? ==> r in EnsureBill(st, r).store.bills
  {
    hide Billable, NewBill, SingleCurrency, NestedTotal, ItemCount;
    if r in st.requests && st.requests[r].session in st.sessions {
      TotalsMatchLines(Billable(st.sessions[st.requests[r].session].orders));
      CountsOrders(Billable(st.sessions[st.requests[r].session].orders));
    }
  }

  lemma CountsOrders(orders: seq<Order>)
    ensures BillableTotals(orders).Ok? ==> BillableTotals(orders).value.orderCount == |orders|
  {}

  /** A request and its bill agree: if the request of a run is still active and has no bill, and the session's
      billable orders are the same ones as when it was raised, in whatever status now, then its bill can be
      created, for the amount and in the currency that was requested. */
  lemma RequestAndBillAgree(before: seq<Action>, session: Id, id: Id, between: seq<Action>)
    requires var st := Run(Initial(), before).store;
             && id !in st.requests && RequestBill(st, session, id).Committed? && id in RequestBill(st, session, id).store.requests
    requires var st := Run(Initial(), before).store;
             var later := Run(Initial(), before + [DoRequest(session, id)] + between).store;
             && id in later.requests && IsActive(later.requests[id].status) && id !in later.bills
             && session in st.sessions && session in later.sessions
             && SameCharges(Billable(st.sessions[session].orders), Billable(later.sessions[session].orders))
    ensures var later := Run(Initial(), before + [DoRequest(session, id)] + between).store;
            && EnsureBill(later, id).Committed? && id in EnsureBill(later, id).store.bills
            && var q, b := later.requests[id], EnsureBill(later, id).store.bills[id];
               b.total == q.subtotal && b.currency == q.currency && b.orderCount == q.orderCount
  {
    hide Inv, ReadingsOk, OrdersSubmitted, Advances, Run, RequestBill, EnsureBill, Billable, SameCharges;
    var w := Run(Initial(), before);
    var w' := Apply(w, DoRequest(session, id));
    EmptyWorldIsOk();
    RunKeepsWorld(Initial(), before);
    StepKeepsWorld(w, DoRequest(session, id));
    RunKeepsWorld(w', between);
    OneMore(before, DoRequest(session, id));
    RunAppends(Initial(), before + [DoRequest(session, id)], between);
    var later := Run(w', between).store;
    RequestBillIff(w.store, session, id);
    RequestSurvives(w'.store, later, id);
    RequestIgnoresStatus(Billable(w.store.sessions[session].orders), Billable(later.sessions[session].orders));
    RequestedTotals(w.store, session, id);
    BillFollowsRequest(later, session, id);
  }

  lemma RequestSurvives(st: Store, later: Store, r: Id)
    requires Advances(st, later) && r in st.requests
    ensures r in later.requests && later.requests[r] == st.requests[r].(status := later.requests[r].status)
  {
    hide PaidSum, PaymentCount, Rank, SameCharge;
    assert RowStep(RowOf(st, r), RowOf(later, r));
  }

  lemma RequestedTotals(st: Store, session: Id, id: Id)
    requires id !in st.requests && RequestBill(st, session, id).Committed? && id in RequestBill(st, session, id).store.requests
    ensures session in st.sessions
    ensures var q, totals := RequestBill(st, session, id).store.requests[id], RequestTotals(Billable(st.sessions[session].orders));
            totals.Ok? && q.session == session && totals.value.orderCount > 0
            && q.subtotal == totals.value.subtotal && q.currency == totals.value.currency && q.orderCount == totals.value.orderCount
  {
    hide Billable, RequestTotals;
  }

  lemma BillFollowsRequest(st: Store, session: Id, id: Id)
    requires OrdersSubmitted(st.sessions) && session in st.sessions && id in st.requests && id !in st.bills
    requires st.requests[id].session == session && IsActive(st.requests[id].status)
    requires RequestTotals(Billable(st.sessions[session].orders)).Ok?
    requires RequestTotals(Billable(st.sessions[session].orders)).value.orderCount > 0
    ensures EnsureBill(st, id).Committed? && id in EnsureBill(st, id).store.bills
    ensures var t, b := RequestTotals(Billable(st.sessions[session].orders)).value, EnsureBill(st, id).store.bills[id];
            b.total == t.subtotal && b.currency == t.currency && b.orderCount == t.orderCount
  {
    hide Billable, RequestTotals, BillableTotals, NextNumberAfter, BranchNumbers, BillLines;
    assert AllSubmitted(st.sessions[session].orders);
    BillableAreSubmitted(st.sessions[session].orders);
    RequestAgreesWithBill(Billable(st.sessions[session].orders));
  }

  /** In a reachable store every active request can be cancelled, and then so is its bill. */
  lemma CancelRequestIff(st: Store, r: Id, reason: Option<string>)
    requires Inv(st)
    ensures CancelRequest(st, r, reason).Committed? <==> r in st.requests && IsActive(st.requests[r].status)
    ensures CancelRequest(st, r, reason).Committed? ==>
              var st' := CancelRequest(st, r, reason).store;
              st'.requests[r].status.RequestCancelled? && (r in st'.bills ==> st'.bills[r].status.Cancelled?)
  {
    hide Inv, PaidSum, PaymentCount, MoneyOk, BaseReceiptNumber;
    RowIsOk(st, r);
  }

  /** A settlement commits exactly when the bill is payable and still due the amount that was read. */
  lemma SettlementIff(st: Store, m: Reading)
    requires Inv(st) && ReadingOk(st, m)
    ensures CommitSettlement(st, m).Committed? <==>
              st.bills[m.request].status in {Presented, PaymentPending} && m.amount == st.bills[m.request].total
    ensures !CommitSettlement(st, m).Committed? && IsSettled(st.bills[m.request].status) ==>
              CommitSettlement(st, m) == Failed(AlreadyPaid)
  {
    hide Inv, PaidSum, PaymentCount, BaseReceiptNumber, WithReceipt, WithSettledSession, CloseActiveRequest, LinesTotal;
    RowIsOk(st, m.request);
  }

  /** A settlement completes exactly the served orders of its session, and closes an open session
      exactly when every order is then in a final status. */
  lemma SettlementEffect(st: Store, m: Reading)
    requires CommitSettlement(st, m).Committed?
    ensures var st' := CommitSettlement(st, m).store;
            && st'.sessions.Keys == st.sessions.Keys
            && (forall k | k in st.sessions && k != m.session :: st'.sessions[k] == st.sessions[k])
            && (m.session in st.sessions ==> SessionSettled(st.sessions[m.session], st'.sessions[m.session]))
  {
    hide NextReceiptNumber, ReceiptNumbers;
    if m.session in st.sessions {
      SettleSessionMeaning(st.sessions[m.session]);
    }
  }

  ghost predicate SessionSettled(s: Session, s': Session) {
    && s'.branch == s.branch && |s'.orders| == |s.orders|
    && (forall i | 0 <= i < |s.orders| ::
          && !s'.orders[i].status.Served?
          && s'.orders[i] == if s.orders[i].status.Served? then s.orders[i].(status := Completed) else s.orders[i])
    && (s.status.SessionClosed? || s.status.Expired? ==> s'.status == s.status)
    && (s.status.Active? || s.status.Idle? ==>
          && (s'.status == s.status || s'.status.SessionClosed?)
          && (s'.status.SessionClosed? <==>
                forall i | 0 <= i < |s.orders| :: s.orders[i].status in {Served, Completed, CashierRejected, OrderCancelled}))
  }

  lemma SettleSessionMeaning(s: Session)
    ensures SessionSettled(s, SettleSession(s))
  {
    var done := CompleteAll(s.orders);
    assert forall i | 0 <= i < |s.orders| :: done[i] == CompleteServed(s.orders[i]);
    if AllTerminal(done) {
      forall i | 0 <= i < |s.orders|
        ensures s.orders[i].status in {Served, Completed, CashierRejected, OrderCancelled}
      {
        assert IsTerminal(done[i].status);
      }
    }
  }
}

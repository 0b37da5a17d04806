/** What single transactions need and what they leave behind, row by row. Nothing here speaks of the
    functions of `BillOperations` except to say when they commit and what store they return. */
module BillEffects {
  import opened Numbers
  import opened BillTotals
  import opened BillNumbers
  import opened BillOperations
  import opened BillProtocol

  // ---------------------------------------------------------------------------
  // Paying a bill
  // ---------------------------------------------------------------------------

  /** A payment is accepted for a presented or pending bill, and only of the whole balance; a cashier's must
      be positive. */
  predicate CanPay(st: Store, r: Id, amount: int, source: Source) {
    && r in st.bills && st.bills[r].status in {Presented, PaymentPending} && st.bills[r].balance == amount
    && (source == Manual ==> amount > 0)
  }

  /** Why a payment is refused. */
  function Refusal(st: Store, r: Id, amount: int, source: Source): Error
    requires !CanPay(st, r, amount, source)
  {
    if source == Manual && amount <= 0 then WrongAmount
    else if r !in st.bills then NotFound
    else
      match st.bills[r].status
      case Paid => AlreadyPaid
      case Closed => AlreadyPaid
      case Draft => NotPayable
      case Requested => NotPayable
      case Cancelled => NotPayable
      case _ => WrongAmount
  }

  lemma ReadBillIff(st: Store, r: Id, amount: int, source: Source)
    ensures ReadBill(st, r, amount, source)
            == if CanPay(st, r, amount, source) then ReadOk(Reading(r, amount, st.bills[r].total, st.bills[r].session, source))
               else ReadFailed(Refusal(st, r, amount, source))
  {}

  /** The bill is paid in full and one payment recorded; its request is closed if it was active, its session
      settled, and it has a receipt, under a number that no other bill of the branch uses. Nothing else changes. */
  ghost predicate PaidOff(st: Store, st': Store, r: Id, amount: int, source: Source)
    requires r in st.bills
  {
    var b := st.bills[r];
    && st'.bills == st.bills[r := b.(status := Paid, paid := b.total, balance := 0)]
    && st'.payments == st.payments + [Payment(r, amount, source)] && st'.created == st.created
    && RequestsAfter(st, st', r)
    && SessionsAfter(st, st', b.session)
    && ReceiptsAfter(st, st', r)
  }

  ghost predicate RequestsAfter(st: Store, st': Store, r: Id) {
    && st'.requests.Keys == st.requests.Keys
    && forall k | k in st.requests ::
         st'.requests[k]
         == if k == r && st.requests[k].status in {Open, Acknowledged, RequestPresented} then st.requests[k].(status := RequestClosed)
            else st.requests[k]
  }

  ghost predicate SessionsAfter(st: Store, st': Store, session: Id) {
    && st'.sessions.Keys == st.sessions.Keys
    && forall k | k in st.sessions ::
         if k == session then SessionSettled(st.sessions[k], st'.sessions[k]) else st'.sessions[k] == st.sessions[k]
  }

  ghost predicate ReceiptsAfter(st: Store, st': Store, r: Id)
    requires r in st.bills
  {
    && st'.receipts.Keys == st.receipts.Keys + {r}
    && (forall k | k in st.receipts :: st'.receipts[k] == st.receipts[k])
    && (r !in st.receipts ==>
          forall k | k in st.receipts && k in st.bills && st.bills[k].branch == st.bills[r].branch ::
            st.receipts[k] != st'.receipts[r])
  }

  lemma SettlementCommits(st: Store, m: Reading)
    ensures CommitSettlement(st, m).Committed? <==>
              m.request in st.bills && st.bills[m.request].status in {Presented, PaymentPending} && st.bills[m.request].balance == m.amount
    ensures CommitSettlement(st, m).Failed? ==>
              CommitSettlement(st, m).error
              == if m.request in st.bills && st.bills[m.request].status in {Paid, Closed} then AlreadyPaid else NoLongerPayable
  {
    hide WithReceipt, WithSettledSession, CloseActiveRequest, WithPayment;
  }

  lemma SettlementReceipts(st: Store, m: Reading)
    requires CommitSettlement(st, m).Committed?
    ensures m.request in st.bills && ReceiptsAfter(st, CommitSettlement(st, m).store, m.request)
  {
    hide SettleSession, ReceiptNumbers, NextReceiptNumber, CloseActiveRequest, WithSettledSession;
    var mid := WithSettledSession(CloseActiveRequest(WithPayment(st, m), m.request), m.session);
    MiddleWrites(st, m);
    if m.request !in st.receipts {
      var b := st.bills[m.request];
      SettledReceiptNumbers(st, mid, m.request);
      FreshReceipt(st, b.number, b.branch);
    }
  }

  lemma FreshReceipt(st: Store, number: string, branch: Id)
    ensures forall k | k in st.receipts && k in st.bills && st.bills[k].branch == branch ::
              st.receipts[k] != NextReceiptNumber(number, ReceiptNumbers(st, branch))
  {
    hide BaseReceiptNumber, ReceiptCandidate, FirstFreeSuffix;
    FirstFreeSuffixMeaning(ReceiptNumbers(st, branch), BaseReceiptNumber(number), 1);
  }

  lemma SettlementRequests(st: Store, m: Reading)
    requires CommitSettlement(st, m).Committed?
    ensures RequestsAfter(st, CommitSettlement(st, m).store, m.request)
  {
    hide NextReceiptNumber, ReceiptNumbers, SettleSession;
  }

  /** A settlement from a reading of the bill as it is pays it off. */
  lemma SettlementPaysOff(st: Store, m: Reading)
    requires CommitSettlement(st, m).Committed?
    requires m.request in st.bills && m.total == st.bills[m.request].total && m.session == st.bills[m.request].session
    ensures PaidOff(st, CommitSettlement(st, m).store, m.request, m.amount, m.source)
  {
    hide CommitSettlement, SessionSettled, RequestsAfter, ReceiptsAfter;
    SettledBillAndLedger(st, m);
    OtherRequestsAndReceipts(st, m);
    SettlementRequests(st, m);
    SettlementReceipts(st, m);
    SettlementEffect(st, m);
  }

  /** In a reachable store a bill takes a payment exactly when it is presented or pending and the amount is
      its positive total, or its total if paid online. It then has one payment, its first, of its whole total,
      and its own receipt; its request is closed. */
  lemma PaymentOfReachableBill(st: Store, r: Id, amount: int, source: Source)
    requires Inv(st)
    ensures ReadBill(st, r, amount, source).ReadOk? <==>
              && r in st.bills && st.bills[r].status in {Presented, PaymentPending} && amount == st.bills[r].total
              && (source == Manual ==> amount > 0)
    ensures ReadBill(st, r, amount, source).ReadOk? ==>
              var o := CommitSettlement(st, ReadBill(st, r, amount, source).reading);
              && o.Committed? && Inv(o.store) && PaidOff(st, o.store, r, amount, source)
              && PaymentCount(st.payments, r) == 0 && PaymentCount(o.store.payments, r) == 1
              && PaidSum(o.store.payments, r) == amount == st.bills[r].total
              && r in o.store.requests && o.store.requests[r].status == RequestClosed
              && r in o.store.receipts && o.store.receipts[r] == BaseReceiptNumber(st.bills[r].number)
  {
    hide Inv, CommitSettlement, PaymentCount, PaidSum, PaidOff, BaseReceiptNumber, LinesTotal, LinesIn;
    RowIsOk(st, r);
    ReadBillIff(st, r, amount, source);
    if CanPay(st, r, amount, source) {
      var m := ReadBill(st, r, amount, source).reading;
      SettlementCommits(st, m);
      SettlementPaysOff(st, m);
      SettledRow(st, m);
      GoodIsInv(st, m);
    }
  }

  lemma GoodIsInv(st: Store, m: Reading)
    requires Inv(st) && ReadingOk(st, m) && CommitSettlement(st, m).Committed?
    ensures Inv(CommitSettlement(st, m).store)
  {
    hide Inv, CommitSettlement, Advances;
    SettlementIsGood(st, m);
  }

  // ---------------------------------------------------------------------------
  // Online payments on the way
  // ---------------------------------------------------------------------------

  /** Starting an online payment turns exactly its own presented bill pending, if it is due what was read, and
      ending it without payment turns the bill back; a bill that was turned pending is as before. */
  lemma PendingAndBack(st: Store, r: Id, balance: int)
    ensures var st' := MarkPending(st, r, balance);
            && st' == st.(bills := st'.bills) && st'.bills.Keys == st.bills.Keys
            && forall k | k in st.bills ::
                 st'.bills[k] == if k == r && st.bills[k].status == Presented && st.bills[k].balance == balance
                                 then st.bills[k].(status := PaymentPending) else st.bills[k]
    ensures var st' := RestorePresented(st, r);
            && st' == st.(bills := st'.bills) && st'.bills.Keys == st.bills.Keys
            && forall k | k in st.bills ::
                 st'.bills[k] == if k == r && st.bills[k].status == PaymentPending then st.bills[k].(status := Presented) else st.bills[k]
    ensures MarkPending(st, r, balance) != st ==> RestorePresented(MarkPending(st, r, balance), r) == st
  {
    if MarkPending(st, r, balance) != st {
      assert st.bills[r := st.bills[r].(status := PaymentPending)][r := st.bills[r]] == st.bills;
    }
  }

  // ---------------------------------------------------------------------------
  // Requests and bills changing status
  // ---------------------------------------------------------------------------

  /** The store with one request in a new status. */
  ghost predicate OnlyRequest(st: Store, st': Store, r: Id, status: RequestStatus) {
    && st' == st.(requests := st'.requests) && st'.requests.Keys == st.requests.Keys
    && forall k | k in st.requests :: st'.requests[k] == if k == r then st.requests[k].(status := status) else st.requests[k]
  }

  /** The store with one bill in a new status. */
  ghost predicate OnlyBill(st: Store, st': Store, r: Id, status: BillStatus) {
    && st' == st.(bills := st'.bills) && st'.bills.Keys == st.bills.Keys
    && forall k | k in st.bills :: st'.bills[k] == if k == r then st.bills[k].(status := status) else st.bills[k]
  }

  /** Exactly an open request can be acknowledged, and nothing else changes. */
  lemma AcknowledgeIff(st: Store, r: Id)
    ensures Acknowledge(st, r).Committed? <==> r in st.requests && st.requests[r].status == Open
    ensures Acknowledge(st, r).Committed? ==> OnlyRequest(st, Acknowledge(st, r).store, r, Acknowledged)
    ensures Acknowledge(st, r).Failed? ==> Acknowledge(st, r).error == if r in st.requests then NotAcknowledgeable else NotFound
  {}

  /** Every bill but a cancelled one can be presented. A paid, closed or pending one stays as it is, any other
      is presented afterwards, and nothing else changes. */
  lemma PresentBillIff(st: Store, r: Id)
    ensures PresentBill(st, r).Committed? <==> r in st.bills && st.bills[r].status != BillStatus.Cancelled
    ensures PresentBill(st, r).Committed? ==>
              var was := st.bills[r].status;
              OnlyBill(st, PresentBill(st, r).store, r, if was in {Paid, Closed, PaymentPending} then was else Presented)
    ensures PresentBill(st, r).Failed? ==> PresentBill(st, r).error == if r in st.bills then BillIsCancelled else NotFound
  {}

  /** Exactly an unsettled bill can be cancelled, with a reason unless it is cancelled already; nothing else
      changes. */
  lemma CancelBillIff(st: Store, r: Id, reason: Option<string>)
    ensures CancelBill(st, r, reason).Committed? <==>
              && r in st.bills && st.bills[r].status !in {Paid, Closed}
              && (st.bills[r].status == BillStatus.Cancelled || reason.Some?)
    ensures CancelBill(st, r, reason).Committed? ==> OnlyBill(st, CancelBill(st, r, reason).store, r, BillStatus.Cancelled)
    ensures CancelBill(st, r, reason).Failed? ==>
              CancelBill(st, r, reason).error
              == if r !in st.bills then NotFound else if st.bills[r].status in {Paid, Closed} then BillIsPaid else ReasonRequired
  {}

  /** Presenting a request turns it and its bill, and nothing else; without a bill to present it fails. */
  lemma PresentRequestEffect(st: Store, r: Id)
    ensures PresentRequest(st, r).Committed? <==>
              && r in st.requests && st.requests[r].status in {Open, Acknowledged}
              && r in st.bills && st.bills[r].status != BillStatus.Cancelled
    ensures PresentRequest(st, r).Committed? ==>
              var st', was := PresentRequest(st, r).store, st.bills[r].status;
              && OnlyRequest(st, st.(requests := st'.requests), r, RequestPresented)
              && OnlyBill(st.(requests := st'.requests), st', r, if was in {Paid, Closed, PaymentPending} then was else Presented)
    ensures PresentRequest(st, r).Failed? ==>
              PresentRequest(st, r).error
              == if r !in st.requests then NotFound
                 else if st.requests[r].status !in {Open, Acknowledged} then NotPresentable
                 else if r !in st.bills then NotFound else BillIsCancelled
  {
    hide PresentBill;
    if r in st.requests {
      PresentBillIff(WithRequestStatus(st, r, RequestPresented), r);
    }
  }

  /** Exactly an active request whose bill, if any, is unsettled can be cancelled; then the bill is cancelled
      too, and nothing else changes. */
  lemma CancelRequestEffect(st: Store, r: Id, reason: Option<string>)
    ensures CancelRequest(st, r, reason).Committed? <==>
              && r in st.requests && st.requests[r].status in {Open, Acknowledged, RequestPresented}
              && (r in st.bills ==> st.bills[r].status !in {Paid, Closed})
    ensures CancelRequest(st, r, reason).Committed? ==>
              var st' := CancelRequest(st, r, reason).store;
              && OnlyRequest(st, st.(requests := st'.requests), r, RequestCancelled)
              && OnlyBill(st.(requests := st'.requests), st', r, BillStatus.Cancelled)
    ensures CancelRequest(st, r, reason).Failed? ==>
              CancelRequest(st, r, reason).error
              == if r !in st.requests then NotFound
                 else if st.requests[r].status in {RequestClosed, RequestCancelled} then NotCancellable else BillIsPaid
  {
    hide CancelBill;
    CancelBillIff(st, r, Some(if reason.None? then "Bill request cancelled" else reason.value));
  }

  /** In any store, reachable or not, exactly an active request with a paid or closed bill can be closed by hand;
      both are closed then, and nothing else changes. */
  lemma CloseRequestIff(st: Store, r: Id)
    ensures CloseRequest(st, r).Committed? <==>
              && r in st.requests && st.requests[r].status in {Open, Acknowledged, RequestPresented}
              && r in st.bills && st.bills[r].status in {Paid, Closed}
    ensures CloseRequest(st, r).Committed? ==>
              var st' := CloseRequest(st, r).store;
              && OnlyRequest(st, st.(requests := st'.requests), r, RequestClosed)
              && OnlyBill(st.(requests := st'.requests), st', r, Closed)
    ensures CloseRequest(st, r).Failed? ==>
              CloseRequest(st, r).error
              == if r !in st.requests then NotFound
                 else if st.requests[r].status in {RequestClosed, RequestCancelled} then NotClosable
                 else if r !in st.bills then BillMissing else BillNotPaid
  {}

  // ---------------------------------------------------------------------------
  // Creating
  // ---------------------------------------------------------------------------

  ghost predicate HasActive(st: Store, session: Id) {
    exists q :: q in st.requests && st.requests[q].session == session
                && st.requests[q].status in {Open, Acknowledged, RequestPresented}
  }

  /** How asking for a bill ends, by the session's status, its active request and its billable orders. */
  lemma RequestBillOutcome(st: Store, session: Id, id: Id)
    requires id !in st.requests
    ensures var o := RequestBill(st, session, id);
            if session !in st.sessions then o == Failed(NotFound)
            else if st.sessions[session].status !in {Active, Idle} then o == Failed(SessionNotRequestable)
            else if HasActive(st, session) then o == Committed(st)
            else
              var orders := Billable(st.sessions[session].orders);
              if orders == [] then o == Failed(NothingToBill)
              else if !SameOrderCurrency(orders) then o == Failed(MixedOrderCurrencies)
              else
                o == Committed(st.(requests := st.requests[id := Request(session, st.sessions[session].branch, Open,
                                                                           OrderSubtotals(orders), |orders|, orders[0].currency)]))
  {
    hide Billable, OrderSubtotals;
    assert HasActive(st, session) <==> HasActiveRequest(st, session);
  }

  /** How asking for a request's bill ends; a new bill lists the items of the session's billable orders. */
  lemma EnsureBillOutcome(st: Store, r: Id)
    ensures var o := EnsureBill(st, r);
            if r in st.bills then o == Committed(st)
            else if r !in st.requests then o == Failed(NotFound)
            else if st.requests[r].status == RequestClosed then o == Failed(RequestIsClosed)
            else if st.requests[r].status == RequestCancelled then o == Failed(RequestIsCancelled)
            else if st.requests[r].session !in st.sessions then o == Failed(NothingToBill)
            else
              var orders := Billable(st.sessions[st.requests[r].session].orders);
              if orders == [] then o == Failed(NothingToBill)
              else if !exists c :: SingleCurrency(orders, c) then o == Failed(MixedOrderCurrencies)
              else o.Committed? && r in o.store.bills && IsFreshBill(st, o.store, r, o.store.bills[r], orders)
  {
    hide Billable, SingleCurrency, NestedTotal, ItemCount, BillLines, BranchNumbers, NextNumberAfter;
    if r in st.requests && r !in st.bills && st.requests[r].session in st.sessions {
      var orders := Billable(st.sessions[st.requests[r].session].orders);
      TotalsMatchLines(orders);
      CountsOrders(orders);
    }
  }

  /** The one row added: an unpaid bill in status requested, over the lines of these orders. */
  ghost predicate IsFreshBill(st: Store, st': Store, r: Id, b: Bill, orders: seq<Order>) {
    && st' == st.(bills := st.bills[r := b], created := st.created + [r])
    && r in st.requests && b.session == st.requests[r].session && b.branch == st.requests[r].branch
    && b.number == NextNumberAfter(BranchNumbers(st, b.branch))
    && b.status == Requested && b.paid == 0 && b.balance == b.total == b.subtotal == LinesTotal(b.lines)
    && b.lines == BillLines(orders) && b.lineCount == |b.lines| && b.orderCount == |orders|
    && SingleCurrency(orders, b.currency)
  }
}

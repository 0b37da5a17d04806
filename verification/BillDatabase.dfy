/** The services as they write rows, one statement after another, inside transactions that restore
    everything when they throw. Each transaction does what its function in `BillOperations` says. */
module BillDatabase {
  import opened Numbers
  import opened BillTotals
  import opened BillNumbers
  import opened BillOperations
  import opened BillProtocol
  import opened BillEffects

  /** `before` became `after`: the outcome's store, or nothing changed and its error was thrown. */
  predicate Ends(o: Outcome, thrown: Option<Error>, before: Store, after: Store) {
    if o.Committed? then thrown.None? && after == o.store else thrown == Some(o.error) && after == before
  }

  class Database {
    var sessions: map<Id, Session>
    var requests: map<Id, Request>
    var bills: map<Id, Bill>
    var created: seq<Id>
    var payments: seq<Payment>
    var receipts: map<Id, string>

    function Contents(): Store
      reads this
    {
      Store(sessions, requests, bills, created, payments, receipts)
    }

    constructor ()
      ensures Contents() == Initial().store
    {
      sessions, requests, bills := map[], map[], map[];
      created, payments, receipts := [], [], map[];
    }

    method Rollback(saved: Store)
      modifies this
      ensures Contents() == saved
    {
      sessions, requests, bills := saved.sessions, saved.requests, saved.bills;
      created, payments, receipts := saved.created, saved.payments, saved.receipts;
    }

    // -------------------------------------------------------------------------
    // Requests
    // -------------------------------------------------------------------------

    /** The second transaction of presenting: the request is written first, and a cancelled bill undoes
        that. */
    method PresentRequest(r: Id) returns (thrown: Option<Error>)
      modifies this
      ensures Ends(BillOperations.PresentRequest(old(Contents()), r), thrown, old(Contents()), Contents())
    {
      var saved := Contents();
      if r !in requests {
        return Some(NotFound);
      }
      if requests[r].status != Open && requests[r].status != Acknowledged {
        return Some(NotPresentable);
      }
      requests := requests[r := requests[r].(status := RequestPresented)];
      thrown := PresentBill(r);
      if thrown.Some? {
        Rollback(saved);
      }
    }

    method CancelRequest(r: Id, reason: Option<string>) returns (thrown: Option<Error>)
      modifies this`requests, this`bills
      ensures Ends(BillOperations.CancelRequest(old(Contents()), r, reason), thrown, old(Contents()), Contents())
    {
      if r !in requests {
        return Some(NotFound);
      }
      if requests[r].status == RequestClosed || requests[r].status == RequestCancelled {
        return Some(NotCancellable);
      }
      if r in bills {
        thrown := CancelBill(r, Some(if reason.None? then "Bill request cancelled" else reason.value));
        if thrown.Some? {
          return;
        }
      }
      requests := requests[r := requests[r].(status := RequestCancelled)];
      thrown := None;
    }

    // -------------------------------------------------------------------------
    // Bills
    // -------------------------------------------------------------------------

    method EnsureBill(r: Id) returns (thrown: Option<Error>)
      modifies this`bills, this`created
      ensures Ends(BillOperations.EnsureBill(old(Contents()), r), thrown, old(Contents()), Contents())
    {
      hide BillableTotals, Billable, BillLines, NextBillNumber, NumbersOf, Used;
      if r in bills {
        return None;
      }
      if r !in requests {
        return Some(NotFound);
      }
      var request := requests[r];
      if request.status == RequestClosed {
        return Some(RequestIsClosed);
      }
      if request.status == RequestCancelled {
        return Some(RequestIsCancelled);
      }
      if request.session !in sessions {
        return Some(NothingToBill);
      }
      var orders := Billable(sessions[request.session].orders);
      var totals := BillableTotals(orders);
      if totals.MixedCurrencies? {
        return Some(MixedOrderCurrencies);
      }
      if totals.value.orderCount == 0 {
        return Some(NothingToBill);
      }
      var t := totals.value;
      var numbers := BranchNumbers(Contents(), request.branch);
      var number := GenerateBillNumber(if numbers == [] then "" else numbers[|numbers| - 1], Used(numbers));
      var bill := Bill(request.session, request.branch, number, Requested, t.currency, t.subtotal, t.subtotal, 0, t.subtotal,
                       t.orderCount, t.lineCount, BillLines(orders));
      bills, created := bills[r := bill], created + [r];
      thrown := None;
    }

    method PresentBill(r: Id) returns (thrown: Option<Error>)
      modifies this`bills
      ensures Ends(BillOperations.PresentBill(old(Contents()), r), thrown, old(Contents()), Contents())
    {
      if r !in bills {
        return Some(NotFound);
      }
      var status := bills[r].status;
      if status == BillStatus.Cancelled {
        return Some(BillIsCancelled);
      }
      if status == Paid || status == Closed {
        return None;
      }
      bills := bills[r := bills[r].(status := if status == PaymentPending then PaymentPending else Presented)];
      thrown := None;
    }

    method CancelBill(r: Id, reason: Option<string>) returns (thrown: Option<Error>)
      modifies this`bills
      ensures Ends(BillOperations.CancelBill(old(Contents()), r, reason), thrown, old(Contents()), Contents())
    {
      if r !in bills {
        return Some(NotFound);
      }
      if bills[r].status == Paid || bills[r].status == Closed {
        return Some(BillIsPaid);
      }
      if bills[r].status == BillStatus.Cancelled {
        return None;
      }
      if reason.None? {
        return Some(ReasonRequired);
      }
      bills := bills[r := bills[r].(status := BillStatus.Cancelled)];
      thrown := None;
    }

    // -------------------------------------------------------------------------
    // Settlement
    // -------------------------------------------------------------------------

    /** The guarded write and, when it matched, everything that follows from it. */
    method CommitSettlement(m: Reading) returns (thrown: Option<Error>)
      modifies this
      ensures Ends(BillOperations.CommitSettlement(old(Contents()), m), thrown, old(Contents()), Contents())
    {
      hide WithReceipt, WithSettledSession, CloseActiveRequest;
      if m.request !in bills {
        return Some(NoLongerPayable);
      }
      var b := bills[m.request];
      if !IsPayable(b.status) || b.balance != m.amount {
        return Some(if b.status == Paid || b.status == Closed then AlreadyPaid else NoLongerPayable);
      }
      bills := bills[m.request := b.(status := Paid, paid := m.total, balance := 0)];
      payments := payments + [Payment(m.request, m.amount, m.source)];
      ghost var paid := Contents();
      CloseLinkedRequest(m.request);
      SettleSessionRow(m.session);
      MiddleKeepsBill(paid, m.request, m.session);
      PaidBillGetsReceipt(Contents(), m.request);
      thrown := EnsureReceipt(m.request);
    }

    /** Reading and writing without interruption: exactly a presented or pending bill is paid, by exactly its
        balance. */
    method RecordPayment(r: Id, amount: int, source: Source) returns (thrown: Option<Error>)
      modifies this
      ensures thrown.None? <==> CanPay(old(Contents()), r, amount, source)
      ensures thrown.None? ==> PaidOff(old(Contents()), Contents(), r, amount, source)
      ensures thrown.Some? ==> Contents() == old(Contents()) && thrown.value == Refusal(old(Contents()), r, amount, source)
      ensures old(Inv(Contents())) ==> (thrown.None? ==> PaymentCount(payments, r) == 1 && Inv(Contents()))
    {
      hide BillOperations.CommitSettlement, PaidOff, PaymentCount, Inv;
      ghost var before := Contents();
      ReadBillIff(before, r, amount, source);
      var read := ReadBill(Contents(), r, amount, source);
      if read.ReadFailed? {
        return Some(read.error);
      }
      SettlementCommits(before, read.reading);
      SettlementPaysOff(before, read.reading);
      if Inv(before) {
        PaymentOfReachableBill(before, r, amount, source);
      }
      thrown := CommitSettlement(read.reading);
    }

    method CloseLinkedRequest(r: Id)
      modifies this`requests
      ensures Contents() == CloseActiveRequest(old(Contents()), r)
    {
      if r !in requests || !IsActive(requests[r].status) {
        return;
      }
      requests := requests[r := requests[r].(status := RequestClosed)];
    }

    method SettleSessionRow(session: Id)
      modifies this`sessions
      ensures Contents() == WithSettledSession(old(Contents()), session)
    {
      hide CompleteAll, AllTerminal;
      CompleteServedOrders(session);
      CloseSessionIfSettled(session);
    }

    /** Finds the session's served orders, then completes each of them that is still served. */
    method CompleteServedOrders(session: Id)
      modifies this`sessions
      ensures sessions == if session in old(sessions)
                          then old(sessions)[session := old(sessions)[session].(orders := CompleteAll(old(sessions)[session].orders))]
                          else old(sessions)
    {
      if session !in sessions {
        return;
      }
      ghost var was := sessions;
      var orders := sessions[session].orders;
      var served := ServedOrders(orders);
      ghost var now := orders;
      assert was == was[session := was[session].(orders := now)];
      for k := 0 to |served|
        invariant |now| == |orders| && sessions == was[session := was[session].(orders := now)]
        invariant forall i | 0 <= i < |orders| :: now[i] == if i in served[..k] then CompleteServed(orders[i]) else orders[i]
      {
        var i := served[k];
        assert i in served;
        assert served[..k + 1] == served[..k] + [i];
        var current := sessions[session];
        if current.orders[i].status == Served {
          now := now[i := now[i].(status := Completed)];
          sessions := sessions[session := current.(orders := current.orders[i := current.orders[i].(status := Completed)])];
        }
      }
      assert served[..|served|] == served;
      assert now == CompleteAll(orders);
    }

    method CloseSessionIfSettled(session: Id)
      modifies this`sessions
      ensures sessions == if session in old(sessions) && AllTerminal(old(sessions)[session].orders)
                             && (old(sessions)[session].status.Active? || old(sessions)[session].status.Idle?)
                          then old(sessions)[session := old(sessions)[session].(status := SessionClosed)]
                          else old(sessions)
    {
      if session !in sessions || !AllTerminal(sessions[session].orders) {
        return;
      }
      if sessions[session].status == Active || sessions[session].status == Idle {
        sessions := sessions[session := sessions[session].(status := SessionClosed)];
      }
    }

    /** An existing receipt is left alone, and none is issued for a bill that is not paid. */
    method EnsureReceipt(r: Id) returns (thrown: Option<Error>)
      modifies this`receipts
      ensures Ends(GenerateReceipt(old(Contents()), r), thrown, old(Contents()), Contents())
    {
      hide NextReceiptNumber;
      if r in receipts {
        return None;
      }
      if r !in bills {
        return Some(NotFound);
      }
      if bills[r].status != Paid && bills[r].status != Closed {
        return Some(ReceiptNeedsPayment);
      }
      var number := GenerateReceiptNumber(bills[r].number, ReceiptNumbers(Contents(), bills[r].branch));
      receipts := receipts[r := number];
      thrown := None;
    }
  }

  lemma PaidBillGetsReceipt(st: Store, r: Id)
    requires r in st.bills && IsSettled(st.bills[r].status)
    ensures GenerateReceipt(st, r) == Committed(WithReceipt(st, r))
  {}

  lemma MiddleKeepsBill(st: Store, r: Id, session: Id)
    ensures WithSettledSession(CloseActiveRequest(st, r), session).bills == st.bills
  {}

  method ServedOrders(orders: seq<Order>) returns (served: seq<nat>)
    ensures forall i: nat :: i in served <==> i < |orders| && orders[i].status.Served?
  {
    served := [];
    for i := 0 to |orders|
      invariant forall k: nat :: k in served <==> k < i && orders[k].status.Served?
    {
      if orders[i].status == Served {
        served := served + [i];
      }
    }
  }
}

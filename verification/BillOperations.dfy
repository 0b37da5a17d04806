/** The bill and bill-request services: every database transaction as a function from store to store.
    A transaction that throws is rolled back and leaves nothing but its error. */
module BillOperations {
  import opened Numbers
  import opened BillTotals
  import opened BillNumbers

  type Id = int

  datatype SessionStatus = Active | Idle | SessionClosed | Expired

  datatype RequestStatus = Open | Acknowledged | RequestPresented | RequestClosed | RequestCancelled

  datatype BillStatus = Draft | Requested | Presented | PaymentPending | Paid | Closed | Cancelled

  datatype Session = Session(branch: Id, status: SessionStatus, orders: seq<Order>)

  datatype Request = Request(session: Id, branch: Id, status: RequestStatus, subtotal: int, orderCount: nat, currency: string)

  datatype Bill = Bill(session: Id, branch: Id, number: string, status: BillStatus, currency: string,
                       subtotal: int, total: int, paid: int, balance: int,
                       orderCount: nat, lineCount: nat, lines: seq<Line>)

  datatype Source = Manual | Online

  datatype Payment = Payment(request: Id, amount: int, source: Source)

  /** Bills are keyed by the bill request they belong to, which the database keeps unique; `created`
      lists them in order of creation. */
  datatype Store = Store(sessions: map<Id, Session>, requests: map<Id, Request>, bills: map<Id, Bill>, created: seq<Id>,
                         payments: seq<Payment>, receipts: map<Id, string>)

  datatype Error =
    | NotFound | SessionNotRequestable | NothingToBill | MixedOrderCurrencies
    | NotAcknowledgeable | NotPresentable | NotClosable | NotCancellable
    | RequestIsClosed | RequestIsCancelled | BillMissing | BillIsCancelled | BillNotPaid | BillIsPaid | ReasonRequired
    | AlreadyPaid | NotPayable | WrongAmount | NoLongerPayable | ReceiptNeedsPayment

  datatype Outcome = Committed(store: Store) | Failed(error: Error)

  predicate IsActive(s: RequestStatus) {
    s.Open? || s.Acknowledged? || s.RequestPresented?
  }

  predicate IsPayable(s: BillStatus) {
    s.Presented? || s.PaymentPending?
  }

  predicate IsSettled(s: BillStatus) {
    s.Paid? || s.Closed?
  }

  predicate HasActiveRequest(st: Store, session: Id) {
    exists r :: r in st.requests && st.requests[r].session == session && IsActive(st.requests[r].status)
  }

  // ---------------------------------------------------------------------------
  // Requesting a bill
  // ---------------------------------------------------------------------------

  /** A guest asks for the bill. While the session has an active request, that one is returned instead
      of creating `id`. */
  function RequestBill(st: Store, session: Id, id: Id): Outcome
    requires id !in st.requests
  {
    if session !in st.sessions then Failed(NotFound)
    else
      var s := st.sessions[session];
      if !s.status.Active? && !s.status.Idle? then Failed(SessionNotRequestable)
      else if HasActiveRequest(st, session) then Committed(st)
      else
        var totals := RequestTotals(Billable(s.orders));
        if totals.MixedCurrencies? then Failed(MixedOrderCurrencies)
        else if totals.value.orderCount == 0 then Failed(NothingToBill)
        else
          var t := totals.value;
          Committed(st.(requests := st.requests[id := Request(session, s.branch, Open, t.subtotal, t.orderCount, t.currency)]))
  }

  function WithRequestStatus(st: Store, r: Id, status: RequestStatus): Store
    requires r in st.requests
  {
    st.(requests := st.requests[r := st.requests[r].(status := status)])
  }

  function WithBillStatus(st: Store, r: Id, status: BillStatus): Store
    requires r in st.bills
  {
    st.(bills := st.bills[r := st.bills[r].(status := status)])
  }

  function Acknowledge(st: Store, r: Id): Outcome {
    if r !in st.requests then Failed(NotFound)
    else if !st.requests[r].status.Open? then Failed(NotAcknowledgeable)
    else Committed(WithRequestStatus(st, r, Acknowledged))
  }

  // ---------------------------------------------------------------------------
  // The bill of a request
  // ---------------------------------------------------------------------------

  /** Numbers of a branch's bills in order of creation. */
  function NumbersOf(bills: map<Id, Bill>, created: seq<Id>, branch: Id): seq<string> {
    if created == [] then []
    else
      var before, last := NumbersOf(bills, created[..|created| - 1], branch), created[|created| - 1];
      if last in bills && bills[last].branch == branch then before + [bills[last].number] else before
  }

  function BranchNumbers(st: Store, branch: Id): seq<string> {
    NumbersOf(st.bills, st.created, branch)
  }

  function NewBill(st: Store, request: Request, orders: seq<Order>, t: Totals): Bill {
    Bill(request.session, request.branch, NextNumberAfter(BranchNumbers(st, request.branch)),
         Requested, t.currency, t.subtotal, t.subtotal, 0, t.subtotal, t.orderCount, t.lineCount, BillLines(orders))
  }

  /** Returns the request's bill, creating it first if there is none. */
  function EnsureBill(st: Store, r: Id): Outcome {
    if r in st.bills then Committed(st)
    else if r !in st.requests then Failed(NotFound)
    else
      var request := st.requests[r];
      if request.status.RequestClosed? then Failed(RequestIsClosed)
      else if request.status.RequestCancelled? then Failed(RequestIsCancelled)
      else if request.session !in st.sessions then Failed(NothingToBill)
      else
        var orders := Billable(st.sessions[request.session].orders);
        var totals := BillableTotals(orders);
        if totals.MixedCurrencies? then Failed(MixedOrderCurrencies)
        else if totals.value.orderCount == 0 then Failed(NothingToBill)
        else
          Committed(st.(bills := st.bills[r := NewBill(st, request, orders, totals.value)], created := st.created + [r]))
  }

  /** Presenting a settled bill changes nothing; a pending payment stays pending. */
  function PresentBill(st: Store, r: Id): Outcome {
    if r !in st.bills then Failed(NotFound)
    else
      var status := st.bills[r].status;
      if status.Cancelled? then Failed(BillIsCancelled)
      else if IsSettled(status) then Committed(st)
      else Committed(WithBillStatus(st, r, if status.PaymentPending? then PaymentPending else Presented))
  }

  /** The second transaction of presenting a request; the first one ensured its bill. */
  function PresentRequest(st: Store, r: Id): Outcome {
    if r !in st.requests then Failed(NotFound)
    else if !st.requests[r].status.Open? && !st.requests[r].status.Acknowledged? then Failed(NotPresentable)
    else PresentBill(WithRequestStatus(st, r, RequestPresented), r)
  }

  /** `reason` is the trimmed text, absent if blank. */
  function CancelBill(st: Store, r: Id, reason: Option<string>): Outcome {
    if r !in st.bills then Failed(NotFound)
    else
      var status := st.bills[r].status;
      if IsSettled(status) then Failed(BillIsPaid)
      else if status.Cancelled? then Committed(st)
      else if reason.None? then Failed(ReasonRequired)
      else Committed(WithBillStatus(st, r, Cancelled))
  }

  function CancelRequest(st: Store, r: Id, reason: Option<string>): Outcome {
    if r !in st.requests then Failed(NotFound)
    else if !IsActive(st.requests[r].status) then Failed(NotCancellable)
    else
      var cancelled :=
        if r !in st.bills then Committed(st)
        else CancelBill(st, r, Some(if reason.None? then "Bill request cancelled" else reason.value));
      if cancelled.Failed? then cancelled else Committed(WithRequestStatus(cancelled.store, r, RequestCancelled))
  }

  function CloseActiveRequest(st: Store, r: Id): Store {
    if r in st.requests && IsActive(st.requests[r].status) then WithRequestStatus(st, r, RequestClosed) else st
  }

  function CloseRequest(st: Store, r: Id): Outcome {
    if r !in st.requests then Failed(NotFound)
    else if !IsActive(st.requests[r].status) then Failed(NotClosable)
    else if r !in st.bills then Failed(BillMissing)
    else if !IsSettled(st.bills[r].status) then Failed(BillNotPaid)
    else Committed(CloseActiveRequest(if st.bills[r].status.Paid? then WithBillStatus(st, r, Closed) else st, r))
  }

  // ---------------------------------------------------------------------------
  // Online payment intents
  // ---------------------------------------------------------------------------

  /** A payment intent marks its bill pending, if it is still presented with the balance that was read. */
  function MarkPending(st: Store, r: Id, balance: int): Store {
    if r in st.bills && st.bills[r].status.Presented? && st.bills[r].balance == balance
    then WithBillStatus(st, r, PaymentPending) else st
  }

  /** When the last intent ends without payment. */
  function RestorePresented(st: Store, r: Id): Store {
    if r in st.bills && st.bills[r].status.PaymentPending? then WithBillStatus(st, r, Presented) else st
  }

  // ---------------------------------------------------------------------------
  // Settlement
  // ---------------------------------------------------------------------------

  /** What a settler remembers from reading the bill. */
  datatype Reading = Reading(request: Id, amount: int, total: int, session: Id, source: Source)

  datatype ReadOutcome = ReadOk(reading: Reading) | ReadFailed(error: Error)

  /** A manual payment's amount is validated to be positive before anything is read. */
  function ReadBill(st: Store, r: Id, amount: int, source: Source): ReadOutcome {
    if source.Manual? && amount < 1 then ReadFailed(WrongAmount)
    else if r !in st.bills then ReadFailed(NotFound)
    else
      var b := st.bills[r];
      if IsSettled(b.status) then ReadFailed(AlreadyPaid)
      else if !IsPayable(b.status) then ReadFailed(NotPayable)
      else if amount != b.balance then ReadFailed(WrongAmount)
      else ReadOk(Reading(r, amount, b.total, b.session, source))
  }

  function CompleteServed(o: Order): Order {
    if o.status.Served? then o.(status := Completed) else o
  }

  function CompleteAll(orders: seq<Order>): seq<Order> {
    seq(|orders|, (i: nat) requires i < |orders| => CompleteServed(orders[i]))
  }

  predicate AllTerminal(orders: seq<Order>) {
    forall i | 0 <= i < |orders| :: IsTerminal(orders[i].status)
  }

  function SettleSession(s: Session): Session {
    var orders := CompleteAll(s.orders);
    Session(s.branch, if AllTerminal(orders) && (s.status.Active? || s.status.Idle?) then SessionClosed else s.status, orders)
  }

  /** Receipt numbers issued in a branch. */
  function ReceiptNumbers(st: Store, branch: Id): set<string> {
    set r | r in st.receipts && r in st.bills && st.bills[r].branch == branch :: st.receipts[r]
  }

  function WithReceipt(st: Store, r: Id): Store
    requires r in st.bills
  {
    if r in st.receipts then st
    else st.(receipts := st.receipts[r := NextReceiptNumber(st.bills[r].number, ReceiptNumbers(st, st.bills[r].branch))])
  }

  /** The receipt of a bill, issued if there is none yet. */
  function GenerateReceipt(st: Store, r: Id): Outcome {
    if r in st.receipts then Committed(st)
    else if r !in st.bills then Failed(NotFound)
    else if !IsSettled(st.bills[r].status) then Failed(ReceiptNeedsPayment)
    else Committed(WithReceipt(st, r))
  }

  function WithSettledSession(st: Store, session: Id): Store {
    if session in st.sessions then st.(sessions := st.sessions[session := SettleSession(st.sessions[session])]) else st
  }

  /** The store right after the guarded write matched: the bill is paid and the payment recorded. */
  function WithPayment(st: Store, m: Reading): Store
    requires m.request in st.bills
  {
    st.(bills := st.bills[m.request := st.bills[m.request].(status := Paid, paid := m.total, balance := 0)],
        payments := st.payments + [Payment(m.request, m.amount, m.source)])
  }

  /** The guarded write, from values read earlier, and the writes that depend on it. */
  function CommitSettlement(st: Store, m: Reading): Outcome {
    if m.request !in st.bills then Failed(NoLongerPayable)
    else
      var b := st.bills[m.request];
      if IsPayable(b.status) && b.balance == m.amount then
        Committed(WithReceipt(WithSettledSession(CloseActiveRequest(WithPayment(st, m), m.request), m.session), m.request))
      else Failed(if IsSettled(b.status) then AlreadyPaid else NoLongerPayable)
  }

  // ---------------------------------------------------------------------------
  // Runs
  // ---------------------------------------------------------------------------

  /** The store and what settlers in mid-transaction have read. */
  datatype World = World(store: Store, readings: map<Id, Reading>)

  datatype Action =
    | DoRequest(session: Id, id: Id)
    | DoAcknowledge(request: Id)
    | DoEnsureBill(request: Id)
    | DoPresentRequest(request: Id)
    | DoPresentBill(request: Id)
    | DoCancelRequest(request: Id, reason: Option<string>)
    | DoCancelBill(request: Id, reason: Option<string>)
    | DoCloseRequest(request: Id)
    | DoMarkPending(request: Id, balance: int)
    | DoRestorePresented(request: Id)
    | DoReadBill(settler: Id, request: Id, amount: int, source: Source)
    | DoCommit(settler: Id)
    | DoGenerateReceipt(request: Id)
    | Elsewhere(sessions: map<Id, Session>)

  function After(st: Store, o: Outcome): Store {
    if o.Committed? then o.store else st
  }

  /** Every stored order came from a submitted cart. */
  ghost predicate OrdersSubmitted(sessions: map<Id, Session>) {
    forall s | s in sessions :: AllSubmitted(sessions[s].orders)
  }

  /** One step of a run. `Elsewhere` lets orders and sessions change in any way between steps, as long as
      orders are ones that the order service stores. */
  ghost function StoreAfter(w: World, a: Action): Store {
    var st := w.store;
    match a
    case DoRequest(s, id) => if id in st.requests then st else After(st, RequestBill(st, s, id))
    case DoAcknowledge(r) => After(st, Acknowledge(st, r))
    case DoEnsureBill(r) => After(st, EnsureBill(st, r))
    case DoPresentRequest(r) => After(st, PresentRequest(st, r))
    case DoPresentBill(r) => After(st, PresentBill(st, r))
    case DoCancelRequest(r, reason) => After(st, CancelRequest(st, r, reason))
    case DoCancelBill(r, reason) => After(st, CancelBill(st, r, reason))
    case DoCloseRequest(r) => After(st, CloseRequest(st, r))
    case DoMarkPending(r, balance) => MarkPending(st, r, balance)
    case DoRestorePresented(r) => RestorePresented(st, r)
    case DoReadBill(_, _, _, _) => st
    case DoCommit(settler) => if settler in w.readings then After(st, CommitSettlement(st, w.readings[settler])) else st
    case DoGenerateReceipt(r) => After(st, GenerateReceipt(st, r))
    case Elsewhere(sessions) => if OrdersSubmitted(sessions) then st.(sessions := sessions) else st
  }

  function ReadingsAfter(w: World, a: Action): map<Id, Reading> {
    match a
    case DoReadBill(settler, r, amount, source) =>
      var read := ReadBill(w.store, r, amount, source);
      if read.ReadOk? then w.readings[settler := read.reading] else w.readings
    case _ => w.readings
  }

  ghost function Apply(w: World, a: Action): World {
    World(StoreAfter(w, a), ReadingsAfter(w, a))
  }

  ghost function Run(w: World, actions: seq<Action>): World {
    if actions == [] then w else Apply(Run(w, actions[..|actions| - 1]), actions[|actions| - 1])
  }

  function Initial(): World {
    World(Store(map[], map[], map[], [], [], map[]), map[])
  }
}

/** One bill under statement-level interleaving: any number of transactions that have read it and not yet
    written it. Settlement writes under a guard; presenting, cancelling and closing do not. The ledger
    survives every interleaving, the status does not. */
module SettlementRaces {
  import opened BillOperations

  /** A transaction between its read and its write. */
  datatype Thread =
    | Presenting(seen: BillStatus)
    | Cancelling
    | Closing
    | Settling(amount: int, total: int)

  datatype Race = Race(status: BillStatus, total: int, paid: int, balance: int, payments: seq<int>, threads: map<Id, Thread>)

  datatype Action =
    | StartPresent(t: Id)
    | StartCancel(t: Id)
    | StartClose(t: Id)
    | StartSettle(t: Id, amount: int)
    | Finish(t: Id)
    | MarkPending(balance: int)
    | RestorePresented

  /** Reads and checks of a transaction; a failed check ends it. */
  function Start(w: Race, t: Id, thread: Thread, allowed: bool): Race {
    if allowed then w.(threads := w.threads[t := thread]) else w
  }

  function Write(w: Race, thread: Thread): Race {
    match thread
    case Presenting(seen) => w.(status := if seen.PaymentPending? then PaymentPending else Presented)
    case Cancelling => w.(status := BillStatus.Cancelled)
    case Closing => w.(status := Closed)
    case Settling(amount, total) =>
      if IsPayable(w.status) && w.balance == amount
      then w.(status := Paid, paid := total, balance := 0, payments := w.payments + [amount])
      else w
  }

  function Apply(w: Race, a: Action): Race {
    match a
    case StartPresent(t) => Start(w, t, Presenting(w.status), !w.status.Cancelled? && !IsSettled(w.status))
    case StartCancel(t) => Start(w, t, Cancelling, !w.status.Cancelled? && !IsSettled(w.status))
    case StartClose(t) => Start(w, t, Closing, w.status.Paid?)
    case StartSettle(t, amount) => Start(w, t, Settling(amount, w.total), IsPayable(w.status) && amount == w.balance)
    case Finish(t) => if t in w.threads then Write(w.(threads := w.threads - {t}), w.threads[t]) else w
    case MarkPending(balance) =>
      if w.status.Presented? && w.balance == balance then w.(status := PaymentPending) else w
    case RestorePresented => if w.status.PaymentPending? then w.(status := Presented) else w
  }

  function Run(w: Race, actions: seq<Action>): Race
    decreases |actions|
  {
    if actions == [] then w else Run(Apply(w, actions[0]), actions[1..])
  }

  function NewBill(total: int): Race {
    Race(Requested, total, 0, total, [], map[])
  }

  // ---------------------------------------------------------------------------
  // The ledger
  // ---------------------------------------------------------------------------

  function Sum(payments: seq<int>): int {
    if payments == [] then 0 else Sum(payments[..|payments| - 1]) + payments[|payments| - 1]
  }

  function NonZero(payments: seq<int>): nat {
    if payments == [] then 0
    else NonZero(payments[..|payments| - 1]) + if payments[|payments| - 1] != 0 then 1 else 0
  }

  /** The payments accepted make up what is paid, and at most one of them moved any money. */
  ghost predicate LedgerOk(w: Race) {
    && w.paid + w.balance == w.total && Sum(w.payments) == w.paid
    && (w.balance == w.total || w.balance == 0)
    && NonZero(w.payments) == (if w.balance == 0 && w.total != 0 then 1 else 0)
    && forall t | t in w.threads && w.threads[t].Settling? :: w.threads[t].total == w.total
  }

  lemma WriteKeepsLedger(w: Race, thread: Thread)
    requires LedgerOk(w) && (thread.Settling? ==> thread.total == w.total)
    ensures LedgerOk(Write(w, thread)) && Write(w, thread).total == w.total && Write(w, thread).threads == w.threads
  {
    if thread.Settling? {
      var grown := w.payments + [thread.amount];
      assert grown[..|grown| - 1] == w.payments;
    }
  }

  lemma StepKeepsLedger(w: Race, a: Action)
    requires LedgerOk(w)
    ensures LedgerOk(Apply(w, a)) && Apply(w, a).total == w.total
  {
    hide Sum, NonZero, Write;
    if a.Finish? && a.t in w.threads {
      WriteKeepsLedger(w.(threads := w.threads - {a.t}), w.threads[a.t]);
    }
  }

  lemma {:induction false} RunKeepsLedger(w: Race, actions: seq<Action>)
    requires LedgerOk(w)
    ensures LedgerOk(Run(w, actions)) && Run(w, actions).total == w.total
    decreases |actions|
  {
    hide LedgerOk, Apply;
    if actions != [] {
      StepKeepsLedger(w, actions[0]);
      RunKeepsLedger(Apply(w, actions[0]), actions[1..]);
    }
  }

  /** Under every interleaving what is paid and what is due make up the total, the accepted payments make
      up what is paid, and money moves at most once. */
  lemma LedgerSurvivesRaces(total: int, actions: seq<Action>)
    ensures var w := Run(NewBill(total), actions);
            && w.paid + w.balance == total && Sum(w.payments) == w.paid
            && NonZero(w.payments) <= 1 && (NonZero(w.payments) == 1 ==> w.paid == total)
  {
    hide Sum, NonZero;
    NothingPaid();
    RunKeepsLedger(NewBill(total), actions);
  }

  lemma NothingPaid()
    ensures Sum([]) == 0 && NonZero([]) == 0
  {}

  // ---------------------------------------------------------------------------
  // The status
  // ---------------------------------------------------------------------------

  /** Transactions that will overwrite the status with one that is not settled. */
  predicate IsStaleWriter(thread: Thread) {
    thread.Presenting? || thread.Cancelling?
  }

  ghost predicate NoStaleWriters(w: Race) {
    forall t | t in w.threads :: !IsStaleWriter(w.threads[t])
  }

  ghost predicate SettledForGood(w: Race) {
    forall actions :: IsSettled(Run(w, actions).status)
  }

  lemma {:induction false} SettledRun(w: Race, actions: seq<Action>)
    requires IsSettled(w.status) && NoStaleWriters(w)
    ensures IsSettled(Run(w, actions).status)
    decreases |actions|
  {
    if actions != [] {
      SettledRun(Apply(w, actions[0]), actions[1..]);
    }
  }

  /** A settled bill stays settled on every continuation exactly when no transaction that presents or
      cancels it read it before the settlement and has still to write. */
  lemma SettledForGoodIff(w: Race)
    requires IsSettled(w.status)
    ensures SettledForGood(w) <==> NoStaleWriters(w)
  {
    if NoStaleWriters(w) {
      forall actions
        ensures IsSettled(Run(w, actions).status)
      {
        SettledRun(w, actions);
      }
    } else {
      var t :| t in w.threads && IsStaleWriter(w.threads[t]);
      OneStep(w, Finish(t));
      assert !IsSettled(Run(w, [Finish(t)]).status);
    }
  }

  lemma OneStep(w: Race, a: Action)
    ensures Run(w, [a]) == Apply(w, a)
  {
    assert [a][1..] == [];
    assert Run(Apply(w, a), []) == Apply(w, a);
  }

  lemma {:induction false} RunSteps(w: Race, a: Action, rest: seq<Action>)
    ensures Run(w, [a] + rest) == Run(Apply(w, a), rest)
  {
    assert ([a] + rest)[1..] == rest;
  }

  /** A bill paid in full can end up presented again: one cashier presents it again while another takes
      the payment. */
  lemma PaidBillPresentedAgain(total: int)
    ensures var w := Run(NewBill(total), [StartPresent(1), Finish(1), StartPresent(1), StartSettle(2, total), Finish(2), Finish(1)]);
            w.status.Presented? && w.paid == total && w.balance == 0 && w.payments == [total]
  {
    var w0 := NewBill(total);
    var w1 := Apply(w0, StartPresent(1));
    var w2 := Apply(w1, Finish(1));
    var w3 := Apply(w2, StartPresent(1));
    var w4 := Apply(w3, StartSettle(2, total));
    var w5 := Apply(w4, Finish(2));
    RunSteps(w0, StartPresent(1), [Finish(1), StartPresent(1), StartSettle(2, total), Finish(2), Finish(1)]);
    RunSteps(w1, Finish(1), [StartPresent(1), StartSettle(2, total), Finish(2), Finish(1)]);
    RunSteps(w2, StartPresent(1), [StartSettle(2, total), Finish(2), Finish(1)]);
    RunSteps(w3, StartSettle(2, total), [Finish(2), Finish(1)]);
    RunSteps(w4, Finish(2), [Finish(1)]);
    OneStep(w5, Finish(1));
  }
}

/** Payments behind the idempotent endpoint: even unlocked runs leave the tables as one payment would. */
module IdempotentPayments {
  import opened Tables
  import opened Booking
  import opened Idempotency
  import BookingTheorems

  function PaymentOutcome(o: Booking.Outcome<bool>): HandlerOutcome {
    if o.Done? then Replies(Answer(204, "null")) else Raises
  }

  /** The handler is `confirm_payment` of one order. */
  ghost predicate Pays(s: System, step: Step, orderId: nat) {
    step.Execute? || step.Rerun? ==>
      var (db, outcome) := ConfirmPayment(s.db, orderId);
      step.db == db && step.outcome == PaymentOutcome(outcome)
  }

  ghost predicate PaymentRun(s: System, steps: seq<Step>, orderId: nat)
    decreases |steps|
  {
    steps == [] || (Pays(s, steps[0], orderId) && PaymentRun(Do(s, steps[0], orderId), steps[1..], orderId))
  }

  /** A handler that answered: only a successful payment does. */
  predicate HasReply(p: Phase) {
    p.Executed? || p.Releasing? || p.Answered?
  }

  function Inserted(txns: seq<Txn>, k: nat, txn: Txn): seq<Txn>
    requires k <= |txns|
  {
    txns[..k] + [txn] + txns[k..]
  }

  /** The transactions that count are the others, with at most one payment among them. */
  ghost predicate OnePaymentAmong(kept: seq<Txn>, others: seq<Txn>, changes: nat, orderId: nat) {
    || (changes == 0 && kept == others)
    || (changes == 1 && exists k :: 0 <= k <= |others| && kept == Inserted(others, k, TxnConfirm(orderId)))
  }

  ghost predicate PaymentInv(s: System, db0: Db, others: seq<Txn>, orderId: nat) {
    && s.db == Serial(db0, s.kept)
    && OnePaymentAmong(s.kept, others, s.changes, orderId)
    && (s.changes == 1 ==> BookingTheorems.HasStatus(s.db, orderId, Paid))
    && (s.cached.Some? ==> BookingTheorems.HasStatus(s.db, orderId, Paid))
    && (forall id :: id in s.requests && HasReply(s.requests[id]) ==> BookingTheorems.HasStatus(s.db, orderId, Paid))
  }

  function Others(steps: seq<Step>): seq<Txn> {
    if steps == [] then []
    else (if steps[0].Elsewhere? then [steps[0].txn] else []) + Others(steps[1..])
  }

  lemma SerialMore(db0: Db, txns: seq<Txn>, txn: Txn)
    ensures Serial(db0, txns + [txn]) == Exec(Serial(db0, txns), txn)
  {
    assert (txns + [txn])[..|txns|] == txns;
  }

  lemma ConfirmFacts(db: Db, orderId: nat)
    ensures var (db', outcome) := ConfirmPayment(db, orderId);
            && (outcome.Done? ==> BookingTheorems.HasStatus(db', orderId, Paid))
            && (BookingTheorems.HasStatus(db, orderId, Paid) ==> db' == db)
            && (!outcome.Done? ==> db' == db)
  {
  }

  lemma OneMoreAmong(kept: seq<Txn>, others: seq<Txn>, changes: nat, orderId: nat, txn: Txn)
    requires OnePaymentAmong(kept, others, changes, orderId)
    ensures OnePaymentAmong(kept + [txn], others + [txn], changes, orderId)
    ensures changes == 0 ==> OnePaymentAmong(kept + [TxnConfirm(orderId)], others, 1, orderId)
  {
    if changes == 0 {
      assert kept + [TxnConfirm(orderId)] == Inserted(others, |others|, TxnConfirm(orderId));
    } else {
      var k :| 0 <= k <= |others| && kept == Inserted(others, k, TxnConfirm(orderId));
      assert kept + [txn] == Inserted(others + [txn], k, TxnConfirm(orderId));
    }
  }

  lemma WorkKeepsPayment(s: System, db0: Db, others: seq<Txn>, orderId: nat)
    requires PaymentInv(s, db0, others, orderId)
    ensures var (db, outcome) := ConfirmPayment(s.db, orderId);
            PaymentInv(Worked(s, db, orderId), db0, others, orderId)
            && (outcome.Done? ==> BookingTheorems.HasStatus(db, orderId, Paid))
  {
    var (db, outcome) := ConfirmPayment(s.db, orderId);
    ConfirmFacts(s.db, orderId);
    if db != s.db {
      SerialMore(db0, s.kept, TxnConfirm(orderId));
      OneMoreAmong(s.kept, others, s.changes, orderId, TxnConfirm(orderId));
    }
  }

  lemma ElsewhereKeepsPayment(s: System, txn: Txn, db0: Db, others: seq<Txn>, orderId: nat)
    requires PaymentInv(s, db0, others, orderId)
    ensures PaymentInv(s.(db := Exec(s.db, txn), kept := s.kept + [txn]), db0, others + [txn], orderId)
  {
    SerialMore(db0, s.kept, txn);
    OneMoreAmong(s.kept, others, s.changes, orderId, txn);
    PaidStaysPaid(s.db, txn, orderId);
  }

  lemma PaidStaysPaid(db: Db, txn: Txn, orderId: nat)
    ensures BookingTheorems.HasStatus(db, orderId, Paid) ==> BookingTheorems.HasStatus(Exec(db, txn), orderId, Paid)
  {
    if orderId in db.orders { BookingTheorems.ExecStatus(db, txn, orderId); }
  }

  /** Moving requests, locks and stored answers around invents no reply. */
  lemma MoveKeepsPayment(s: System, step: Step, db0: Db, others: seq<Txn>, orderId: nat)
    requires PaymentInv(s, db0, others, orderId)
    requires !step.Elsewhere? && !step.Execute? && !step.Rerun?
    ensures PaymentInv(Do(s, step, orderId), db0, others, orderId)
  {
    var s' := Do(s, step, orderId);
    assert s'.db == s.db && s'.kept == s.kept && s'.changes == s.changes;
    match step
    case Arrive(_) =>
    case Check(_) =>
    case Acquire(_) =>
    case GiveUp(_) =>
    case Recheck(_) =>
    case Save(_) =>
    case SaveFails(_) =>
    case Release(_) =>
    case LockExpires =>
    case EntryExpires =>
  }

  lemma StepKeepsPayment(s: System, step: Step, db0: Db, others: seq<Txn>, orderId: nat)
    requires PaymentInv(s, db0, others, orderId) && Pays(s, step, orderId)
    ensures PaymentInv(Do(s, step, orderId), db0, others + Others([step]), orderId)
  {
    OthersOfOne(step);
    if step.Elsewhere? {
      ElsewhereKeepsPayment(s, step.txn, db0, others, orderId);
    } else {
      assert others + [] == others;
      if step.Execute? || step.Rerun? {
        HandlerKeepsPayment(s, step, db0, others, orderId);
      } else {
        MoveKeepsPayment(s, step, db0, others, orderId);
      }
    }
  }

  lemma OthersOfOne(step: Step)
    ensures Others([step]) == if step.Elsewhere? then [step.txn] else []
  {
    assert [step][1..] == [] && Others([]) == [];
  }

  lemma HandlerKeepsPayment(s: System, step: Step, db0: Db, others: seq<Txn>, orderId: nat)
    requires PaymentInv(s, db0, others, orderId) && Pays(s, step, orderId) && (step.Execute? || step.Rerun?)
    ensures PaymentInv(Do(s, step, orderId), db0, others, orderId)
  {
    WorkKeepsPayment(s, db0, others, orderId);
  }

  lemma {:induction false} RunKeepsPayment(s: System, steps: seq<Step>, db0: Db, others: seq<Txn>, orderId: nat)
    requires PaymentInv(s, db0, others, orderId) && PaymentRun(s, steps, orderId)
    ensures PaymentInv(Run(s, steps, orderId), db0, others + Others(steps), orderId)
    decreases |steps|
  {
    if steps == [] {
      assert others + [] == others;
    } else {
      var next, more := Do(s, steps[0], orderId), others + Others([steps[0]]);
      OthersSplit(steps);
      assert more + Others(steps[1..]) == others + Others(steps);
      StepKeepsPayment(s, steps[0], db0, others, orderId);
      RunKeepsPayment(next, steps[1..], db0, more, orderId);
    }
  }

  lemma OthersSplit(steps: seq<Step>)
    requires steps != []
    ensures Others(steps) == Others([steps[0]]) + Others(steps[1..])
  {
    assert [steps[0]][1..] == [];
  }

  /**
   * Whatever is contended, expires or is repeated: the tables are those of the other transactions with at most one
   * payment among them, and a request that was answered means the order is paid.
   */
  lemma RepeatedPaymentIsOne(db0: Db, steps: seq<Step>, orderId: nat)
    requires PaymentRun(Start(db0), steps, orderId)
    ensures var s, others := Run(Start(db0), steps, orderId), Others(steps);
            && (s.db == Serial(db0, others)
                || exists k :: 0 <= k <= |others| && s.db == Serial(db0, Inserted(others, k, TxnConfirm(orderId))))
            && (forall id :: id in s.requests && s.requests[id].Answered? ==> BookingTheorems.HasStatus(s.db, orderId, Paid))
  {
    RunKeepsPayment(Start(db0), steps, db0, [], orderId);
    assert [] + Others(steps) == Others(steps);
  }

  // ---- One call of the wrapper around `confirm_payment`, undisturbed.

  class PaymentEndpoint {
    var cached: Option<Answer>
    var locked: bool
    var db: Db

    constructor (db: Db)
      ensures this.db == db && cached == None && !locked
    {
      this.db, cached, locked := db, None, false;
    }

    method Handle(orderId: nat) returns (outcome: HandlerOutcome)
      modifies this`db
      ensures db == ConfirmPayment(old(db), orderId).0
      ensures outcome == PaymentOutcome(ConfirmPayment(old(db), orderId).1)
    {
      var result := ConfirmPayment(db, orderId);
      db := result.0;
      outcome := PaymentOutcome(result.1);
    }

    /** The stored answer, or one payment; a payment that fails is tried once more, to the same effect. */
    method Pay(orderId: nat) returns (outcome: HandlerOutcome)
      modifies this
      ensures old(cached).Some? ==> outcome == Replies(old(cached).value) && db == old(db) && cached == old(cached)
      ensures old(cached).None? ==> db == ConfirmPayment(old(db), orderId).0
      ensures old(cached).None? ==> outcome == PaymentOutcome(ConfirmPayment(old(db), orderId).1)
      ensures old(cached).None? && !old(locked) ==>
                cached == if outcome.Replies? then Some(outcome.answer) else None
      ensures locked == old(locked)
    {
      if cached.Some? { return Replies(cached.value); }
      if !locked {
        locked := true;
        outcome := Handle(orderId);
        if outcome.Replies? && Success(outcome.answer) {
          cached := Some(outcome.answer);
        }
        locked := false;
        if outcome.Replies? { return; }
      }
      outcome := Handle(orderId);
    }
  }
}

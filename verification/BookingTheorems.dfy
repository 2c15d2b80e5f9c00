/** What holds in every interleaved run of the booking protocol. */
module BookingTheorems {
  import opened Tables
  import opened Booking
  import opened Conservation
  import opened Capacity
  import opened BookingConcurrency
  import Reservations
  import BookingEffects

  // ---------------------------------------------------------------- no overselling

  /** Requests name each category once, and a total is never set below what the category holds at that moment. */
  ghost predicate PrudentStep(s: Sys, step: Step) {
    match step
    case StartCreate(lines, _, _) => DistinctCategories(lines)
    case Admit(a) => Prudent(s.db, TxnAdmin(a))
    case _ => true
  }

  ghost predicate Orderly(steps: seq<Step>) {
    steps == [] || (Orderly(steps[..|steps| - 1]) && PrudentStep(Run(steps[..|steps| - 1]), steps[|steps| - 1]))
  }

  ghost predicate AllDistinct(txs: seq<Tx>) {
    forall t :: 0 <= t < |txs| && (txs[t].Locking? || txs[t].Writing?) ==> DistinctCategories(txs[t].lines)
  }

  lemma StepKeepsDistinct(s: Sys, step: Step)
    requires AllDistinct(s.txs) && PrudentStep(s, step)
    ensures AllDistinct(Do(s, step).txs)
  {
  }

  lemma StepKeepsWithin(s: Sys, step: Step)
    requires Inv(s) && AllDistinct(s.txs) && PrudentStep(s, step) && Within(s.db)
    ensures Within(Do(s, step).db)
  {
    if Enabled(s, step) {
      StepIsSerial(s, step);
      if Label(s, step).Some? {
        assert Prudent(s.db, Label(s, step).value);
        ExecKeepsWithin(s.db, Label(s, step).value);
      }
    }
  }

  lemma {:induction false} OrderlyRunsStayWithin(steps: seq<Step>)
    requires Orderly(steps)
    ensures Within(Run(steps).db) && AllDistinct(Run(steps).txs)
  {
    if steps != [] {
      var (earlier, last) := (steps[..|steps| - 1], steps[|steps| - 1]);
      OrderlyRunsStayWithin(earlier);
      RunKeepsInv(earlier);
      StepKeepsWithin(Run(earlier), last);
      StepKeepsDistinct(Run(earlier), last);
    }
  }

  /** Tickets of category `c` a transaction has inserted and not yet committed. */
  function InFlight(c: nat): Tx -> nat {
    (tx: Tx) => if tx.Writing? then Ordered(tx.lines, c) else 0
  }

  lemma InFlightFits(s: Sys, t: nat, c: nat)
    requires Inv(s) && AllDistinct(s.txs) && Within(s.db) && t < |s.txs| && c in s.db.categories
    ensures InFlight(c)(s.txs[t]) <= s.db.categories[c].total - Occupied(s.db, c)
    ensures InFlight(c)(s.txs[t]) > 0 ==> c in CategoryLocks(s.txs[t])
  {
    var tx := s.txs[t];
    assert Sound(s.db, tx);
    if tx.Writing? {
      DistinctTestsAll(tx.lines, c);
      if c in Requested(tx.lines) {
        assert c in tx.found && c in Selected(s.db, tx.lines);
      }
    }
  }

  /** In every orderly interleaving, committed plus in-flight tickets of a category never exceed its total. */
  lemma NoOverselling(steps: seq<Step>, c: nat)
    requires Orderly(steps) && c in Run(steps).db.categories
    ensures Occupied(Run(steps).db, c) + Sum(Run(steps).txs, InFlight(c)) <= Run(steps).db.categories[c].total
  {
    var s := Run(steps);
    RunKeepsInv(steps);
    OrderlyRunsStayWithin(steps);
    var left := s.db.categories[c].total - Occupied(s.db, c);
    forall t | 0 <= t < |s.txs|
      ensures InFlight(c)(s.txs[t]) <= left && (InFlight(c)(s.txs[t]) > 0 ==> c in CategoryLocks(s.txs[t]))
    {
      InFlightFits(s, t, c);
    }
    forall j, k | 0 <= j < k < |s.txs| ensures InFlight(c)(s.txs[j]) == 0 || InFlight(c)(s.txs[k]) == 0 {
      assert Apart(s.txs[j], s.txs[k]);
    }
    SumAtMostOne(s.txs, InFlight(c), left);
  }

  // ---------------------------------------------------------------- pay against expire

  predicate HasStatus(db: Db, o: nat, status: OrderStatus) {
    o in db.orders && db.orders[o].status == status
  }

  lemma ExecStatus(db: Db, txn: Txn, o: nat)
    requires o in db.orders
    ensures o in Exec(db, txn).orders
    ensures db.orders[o].status != Pending ==> Exec(db, txn).orders[o].status == db.orders[o].status
  {
    if txn.TxnAdmin? {
      AdminLeavesRows(db, txn.admin);
    }
  }

  /** PAID and CANCELLED are absorbing, so an order leaves PENDING at most once, whatever payments and expiries race. */
  lemma {:induction false} SettledForever(steps: seq<Step>, more: seq<Step>, o: nat, status: OrderStatus)
    requires HasStatus(Run(steps).db, o, status) && status != Pending
    ensures HasStatus(Run(steps + more).db, o, status)
  {
    if more == [] {
      assert steps + more == steps;
    } else {
      var (earlier, last) := (steps + more[..|more| - 1], more[|more| - 1]);
      assert (steps + more)[..|steps + more| - 1] == earlier;
      SettledForever(steps, more[..|more| - 1], o, status);
      RunKeepsInv(earlier);
      if Enabled(Run(earlier), last) {
        StepIsSerial(Run(earlier), last);
        if Label(Run(earlier), last).Some? {
          ExecStatus(Run(earlier).db, Label(Run(earlier), last).value, o);
        }
      }
    }
  }

  // ---------------------------------------------------------------- owners

  /** In every interleaving an order has exactly one owner: a user or an address. */
  lemma OneOwnerAlways(steps: seq<Step>, o: nat)
    requires o in Run(steps).db.orders
    ensures Run(steps).db.orders[o].userId.Some? <==> Run(steps).db.orders[o].anonymousEmail.None?
  {
    RunKeepsInv(steps);
  }

  /** In every interleaving an order's owner changes only at a migration of its address, to the user of that address. */
  lemma OwnersChangeAtMigration(steps: seq<Step>, step: Step, o: nat)
    requires o in Run(steps).db.orders
    ensures var (before, after) := (Run(steps).db, Run(steps + [step]).db);
            && o in after.orders
            && (BookingEffects.OwnerOf(after.orders[o]) != BookingEffects.OwnerOf(before.orders[o]) ==>
                  && step.Migrate? && before.orders[o].anonymousEmail == Some(step.anonymousEmail)
                  && step.anonymousEmail in before.users
                  && BookingEffects.OwnerOf(after.orders[o]) == (Some(before.users[step.anonymousEmail]), None))
  {
    assert (steps + [step])[..|steps|] == steps;
    RunKeepsInv(steps);
    if Enabled(Run(steps), step) {
      StepIsSerial(Run(steps), step);
      if Label(Run(steps), step).Some? { OwnersAt(Run(steps), step, o); }
    }
  }

  lemma OwnersAt(s: Sys, step: Step, o: nat)
    requires Enabled(s, step) && o in s.db.orders && Label(s, step).Some?
    ensures var after := Exec(s.db, Label(s, step).value);
            && o in after.orders
            && (BookingEffects.OwnerOf(after.orders[o]) != BookingEffects.OwnerOf(s.db.orders[o]) ==>
                  && step.Migrate? && s.db.orders[o].anonymousEmail == Some(step.anonymousEmail)
                  && step.anonymousEmail in s.db.users
                  && BookingEffects.OwnerOf(after.orders[o]) == (Some(s.db.users[step.anonymousEmail]), None))
  {
    BookingEffects.OwnersStay(s.db, Label(s, step).value, o);
    assert Label(s, step).value.TxnMigrate? ==> step.Migrate? && Label(s, step).value.email == step.anonymousEmail;
  }

  function MailFor(o: nat): Tx -> nat {
    (tx: Tx) => if tx == MustMail(o) then 1 else 0
  }

  /** A paid order has one confirmation mail, sent or about to be sent; any other order has none. */
  ghost predicate MailMatches(s: Sys, o: nat) {
    s.mails[o] + Sum(s.txs, MailFor(o)) == if HasStatus(s.db, o, Paid) then 1 else 0
  }

  /** The order a step marks as paid. */
  function PaidBy(s: Sys, step: Step): set<nat> {
    if step.Commit? && step.t < |s.txs| && s.txs[step.t].PayMarking? then {s.txs[step.t].orderId} else {}
  }

  lemma StepPays(s: Sys, step: Step, o: nat)
    requires Inv(s) && Enabled(s, step)
    ensures HasStatus(Fire(s, step).db, o, Paid) <==> HasStatus(s.db, o, Paid) || o in PaidBy(s, step)
    ensures o in PaidBy(s, step) ==> !HasStatus(s.db, o, Paid)
  {
    StepIsSerial(s, step);
    if step.Commit? {
      assert Sound(s.db, s.txs[step.t]);
      if s.txs[step.t].PayMarking? {
        assert s.txs[step.t].orderId in OrderLocks(s.txs[step.t]);
      }
    }
    if step.Admit? {
      AdminLeavesRows(s.db, step.admin);
    }
  }

  lemma StepMails(s: Sys, step: Step, o: nat)
    requires Inv(s) && Enabled(s, step)
    ensures var after := Fire(s, step);
            after.mails[o] + Sum(after.txs, MailFor(o)) ==
            s.mails[o] + Sum(s.txs, MailFor(o)) + if o in PaidBy(s, step) then 1 else 0
  {
    var after := Fire(s, step);
    if |after.txs| == |s.txs| + 1 {
      SumAppend(s.txs, [after.txs[|s.txs|]], MailFor(o));
      SumOne(after.txs[|s.txs|], MailFor(o));
    } else if step.Examine? || step.Insert? || step.Refuse? || step.GuardedUpdate? || step.ReadItems?
              || step.Commit? || step.Abort? || step.Enqueue? {
      SumOfUpdate(s.txs, step.t, after.txs[step.t], MailFor(o));
    }
  }

  lemma {:induction false} MailsAlwaysMatch(steps: seq<Step>)
    ensures forall o :: MailMatches(Run(steps), o)
  {
    if steps != [] {
      var (earlier, last) := (steps[..|steps| - 1], steps[|steps| - 1]);
      MailsAlwaysMatch(earlier);
      RunKeepsInv(earlier);
      if Enabled(Run(earlier), last) {
        forall o ensures MailMatches(Fire(Run(earlier), last), o) {
          assert MailMatches(Run(earlier), o);
          StepPays(Run(earlier), last, o);
          StepMails(Run(earlier), last, o);
        }
      }
    }
  }

  /** In every run, tickets mirror their order's status, and one mail is enqueued exactly for the paid orders. */
  lemma PaidExactlyOnce(steps: seq<Step>, o: nat)
    requires o in Run(steps).db.orders
    ensures var s := Run(steps);
            && (forall t :: t in s.db.tickets && t.orderItemId in ItemIds(s.db.items, o) ==>
                  t.status == TicketStatusOf(s.db.orders[o].status) && s.db.orders[o].status != Cancelled)
            && ((forall k :: 0 <= k < |s.txs| ==> !s.txs[k].MustMail?) ==>
                  s.mails[o] == if s.db.orders[o].status == Paid then 1 else 0)
  {
    var s := Run(steps);
    RunKeepsInv(steps);
    MailsAlwaysMatch(steps);
    forall t | t in s.db.tickets && t.orderItemId in ItemIds(s.db.items, o)
      ensures t.status == TicketStatusOf(s.db.orders[o].status) && s.db.orders[o].status != Cancelled
    {
      InItemIds(s.db, t, o);
      assert Belongs(s.db, t);
    }
    if forall k :: 0 <= k < |s.txs| ==> !s.txs[k].MustMail? {
      SumZero(s.txs, MailFor(o));
    }
    assert MailMatches(s, o);
  }

  // ---------------------------------------------------------------- reservations are always released or paid

  predicate Scheduled(s: Sys, o: nat) {
    o in s.cancelTasks || exists t :: 0 <= t < |s.txs| && s.txs[t] == MustScheduleCancel(o)
  }

  ghost predicate PendingScheduled(s: Sys) {
    forall o :: HasStatus(s.db, o, Pending) ==> Scheduled(s, o)
  }

  lemma StepSchedules(s: Sys, step: Step, o: nat)
    requires Inv(s) && Enabled(s, step) && (HasStatus(s.db, o, Pending) ==> Scheduled(s, o))
    ensures HasStatus(Fire(s, step).db, o, Pending) ==> Scheduled(Fire(s, step), o)
  {
    var after := Fire(s, step);
    StepIsSerial(s, step);
    if step.Admit? {
      AdminLeavesRows(s.db, step.admin);
    }
    if HasStatus(after.db, o, Pending) {
      if HasStatus(s.db, o, Pending) {
        if o !in after.cancelTasks && o !in s.cancelTasks {
          var t :| 0 <= t < |s.txs| && s.txs[t] == MustScheduleCancel(o);
          assert after.txs[t] == MustScheduleCancel(o);
        }
      } else {
        assert step.Commit? && s.txs[step.t].Writing? && after.txs[step.t] == MustScheduleCancel(o);
      }
    }
  }

  lemma {:induction false} PendingIsScheduled(steps: seq<Step>)
    ensures PendingScheduled(Run(steps))
  {
    if steps != [] {
      var (earlier, last) := (steps[..|steps| - 1], steps[|steps| - 1]);
      PendingIsScheduled(earlier);
      RunKeepsInv(earlier);
      if Enabled(Run(earlier), last) {
        forall o {
          StepSchedules(Run(earlier), last, o);
        }
      }
    }
  }

  /** After any orderly run, once every task is enqueued, running the cancel tasks leaves exactly the paid seats taken. */
  lemma ReservationsDrain(steps: seq<Step>, tasks: seq<nat>, c: nat)
    requires Orderly(steps) && c in Run(steps).db.categories
    requires forall k :: 0 <= k < |Run(steps).txs| ==> !Run(steps).txs[k].MustScheduleCancel?
    requires forall o :: o in Run(steps).cancelTasks ==> o in tasks
    ensures var db := Run(steps).db;
            var after := Reservations.Drain(db, tasks);
            && (forall o :: !HasStatus(after, o, Pending))
            && c in after.categories
            && Available(after, c) == db.categories[c].total - Sum(db.items, QuantityWith(db.orders, {Paid}, c))
  {
    RunKeepsInv(steps);
    OrderlyRunsStayWithin(steps);
    PendingIsScheduled(steps);
    forall o | Reservations.StillPending(Run(steps).db, o) ensures o in tasks {
      assert HasStatus(Run(steps).db, o, Pending);
    }
    Reservations.DrainedAvailability(Run(steps).db, tasks, c);
    forall o ensures !HasStatus(Reservations.Drain(Run(steps).db, tasks), o, Pending) {
      assert !Reservations.StillPending(Reservations.Drain(Run(steps).db, tasks), o);
    }
  }
}

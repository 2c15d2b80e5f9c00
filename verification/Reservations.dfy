/** Delayed cancel tasks drain every unpaid reservation. */
module Reservations {
  import opened Tables
  import opened Booking
  import opened Conservation
  import opened Capacity

  /** The worker runs the outstanding `cancel_reservation` tasks one after the other. */
  function Drain(db: Db, tasks: seq<nat>): Db
    decreases tasks
  {
    if tasks == [] then db else Drain(ExpireOrder(db, tasks[0]).0, tasks[1..])
  }

  predicate StillPending(db: Db, o: nat) {
    o in db.orders && db.orders[o].status == Pending
  }

  /** Payments, items and categories survive an expiry; nothing becomes pending. */
  lemma ExpiryKeepsPaid(db: Db, o: nat)
    ensures var after := ExpireOrder(db, o).0;
            && after.items == db.items && after.categories == db.categories && after.orders.Keys == db.orders.Keys
            && !StillPending(after, o)
            && (forall p :: p in db.orders ==> (after.orders[p].status == Paid <==> db.orders[p].status == Paid))
            && (forall p :: StillPending(after, p) ==> StillPending(db, p))
  {
  }

  lemma {:induction false} DrainKeepsPaid(db: Db, tasks: seq<nat>)
    requires Consistent(db) && Within(db)
    requires forall o :: StillPending(db, o) ==> o in tasks
    ensures var after := Drain(db, tasks);
            && Consistent(after) && Within(after)
            && after.items == db.items && after.categories == db.categories && after.orders.Keys == db.orders.Keys
            && (forall o :: !StillPending(after, o))
            && (forall p :: p in db.orders ==> (after.orders[p].status == Paid <==> db.orders[p].status == Paid))
    decreases tasks
  {
    if tasks != [] {
      var next := ExpireOrder(db, tasks[0]).0;
      ExpireKeepsConsistent(db, tasks[0]);
      ExecKeepsWithin(db, TxnExpire(tasks[0]));
      ExpiryKeepsPaid(db, tasks[0]);
      forall o | StillPending(next, o) ensures o in tasks[1..] {
        assert StillPending(db, o) && o in tasks && tasks == [tasks[0]] + tasks[1..];
      }
      DrainKeepsPaid(next, tasks[1..]);
    }
  }

  /** Running every outstanding task leaves no pending order; what is then available is the total minus what was paid. */
  lemma DrainedAvailability(db: Db, tasks: seq<nat>, c: nat)
    requires Consistent(db) && Within(db) && c in db.categories
    requires forall o :: StillPending(db, o) ==> o in tasks
    ensures var after := Drain(db, tasks);
            && (forall o :: !StillPending(after, o))
            && c in after.categories
            && Available(after, c) == db.categories[c].total - Sum(db.items, QuantityWith(db.orders, {Paid}, c))
  {
    var after := Drain(db, tasks);
    DrainKeepsPaid(db, tasks);
    OccupiedIsLiveQuantity(after, c);
    forall i | i in after.items
      ensures QuantityWith(after.orders, LIVE, c)(i) == QuantityWith(db.orders, {Paid}, c)(i)
    {
      assert !StillPending(after, i.orderId);
      assert i.orderId in db.orders;
    }
    SumAgree(after.items, QuantityWith(after.orders, LIVE, c), QuantityWith(db.orders, {Paid}, c));
  }
}

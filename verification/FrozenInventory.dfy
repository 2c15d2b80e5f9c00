/** Once an event leaves DRAFT, its inventory and the prices of later purchases are settled for good. */
module FrozenInventory {
  import opened Tables
  import opened Booking

  /** The event lifecycle: states reachable by moderation and cancellation. */
  predicate Leads(a: EventState, b: EventState) {
    a == b
    || (a == Draft && b != Draft)
    || (a == OnModeration && b in {Approved, Rejected, EventCancelled})
  }

  predicate InEvent(db: Db, c: nat, event: nat) {
    c in db.categories && db.categories[c].eventId == event
  }

  /** Everything the rest of a run leaves settled about `event`, compared with an earlier state. */
  ghost predicate SettledSince(before: Db, after: Db, event: nat)
    requires event in before.events
  {
    && event in after.events
    && Leads(before.events[event].state, after.events[event].state)
    && (forall c :: InEvent(before, c, event) <==> InEvent(after, c, event))
    && (forall c :: InEvent(before, c, event) ==> after.categories[c] == before.categories[c])
    && before.items <= after.items
    && (forall k :: |before.items| <= k < |after.items| && InEvent(after, after.items[k].categoryId, event)
          ==> after.items[k].price == after.categories[after.items[k].categoryId].price)
  }

  /** A new item takes the price of its category row; an earlier one had it before. */
  lemma PriceAt(before: Db, db: Db, lines: seq<Line>, orderId: nat, itemIds: seq<nat>, event: nat, k: nat)
    requires event in before.events && SettledSince(before, db, event)
    requires CategoryIds(lines) <= db.categories.Keys && |itemIds| == |lines|
    requires var items := db.items + NewItems(lines, db.categories, orderId, itemIds);
             |before.items| <= k < |items| && InEvent(db, items[k].categoryId, event)
    ensures var items := db.items + NewItems(lines, db.categories, orderId, itemIds);
            items[k].price == db.categories[items[k].categoryId].price
  {
    var added := NewItems(lines, db.categories, orderId, itemIds);
    var items := db.items + added;
    if k < |db.items| {
      assert items[k] == db.items[k];
    } else {
      assert items[k] == added[k - |db.items|];
    }
  }

  lemma CreateSettles(before: Db, db: Db, txn: Txn, event: nat)
    requires event in before.events && SettledSince(before, db, event) && txn.TxnCreate?
    ensures SettledSince(before, Exec(db, txn), event)
  {
    var after := Exec(db, txn);
    if after != db {
      assert after.categories == db.categories && after.events == db.events;
      assert after.items == db.items + NewItems(txn.lines, db.categories, txn.orderId, txn.itemIds);
      forall k | |before.items| <= k < |after.items| && InEvent(after, after.items[k].categoryId, event)
        ensures after.items[k].price == after.categories[after.items[k].categoryId].price
      {
        PriceAt(before, db, txn.lines, txn.orderId, txn.itemIds, event, k);
      }
    }
  }

  /** An administrative step cannot touch the inventory of an event that is no draft. */
  lemma AdminSparesSettled(db: Db, a: Admin, event: nat)
    requires event in db.events && db.events[event].state != Draft
    ensures var after := Administer(db, a);
            && after.items == db.items && after.orders == db.orders
            && event in after.events && Leads(db.events[event].state, after.events[event].state)
            && after.events[event].state != Draft
            && (forall c :: InEvent(db, c, event) <==> InEvent(after, c, event))
            && (forall c :: InEvent(db, c, event) ==> after.categories[c] == db.categories[c])
  {
    match a
    case AddCategory(id, userId, row) =>
    case EditCategory(id, userId, name, price, total) =>
    case DropCategory(id, userId) =>
    case _ =>
  }

  /** Every event that has left DRAFT keeps its categories, with names, prices and totals, and moves along the lifecycle. */
  ghost predicate KeepsSettled(before: Db, after: Db) {
    && after.items == before.items && after.orders == before.orders
    && forall event :: event in before.events && before.events[event].state != Draft ==> KeepsEvent(before, after, event)
  }

  ghost predicate KeepsEvent(before: Db, after: Db, event: nat)
    requires event in before.events
  {
    && event in after.events && Leads(before.events[event].state, after.events[event].state)
    && after.events[event].state != Draft
    && (forall c :: InEvent(before, c, event) <==> InEvent(after, c, event))
    && (forall c :: InEvent(before, c, event) ==> after.categories[c] == before.categories[c])
  }

  lemma AdminKeepsSettled(db: Db, a: Admin)
    ensures KeepsSettled(db, Administer(db, a))
  {
    var after := Administer(db, a);
    AdminLeavesOrders(db, a);
    forall event | event in db.events && db.events[event].state != Draft ensures KeepsEvent(db, after, event) {
      AdminSparesSettled(db, a, event);
    }
  }

  lemma CategoryEditKeepsSettled(db: Db, id: nat, userId: nat, name: Option<string>, price: Option<Positive>,
                                 total: Option<Positive>)
    ensures KeepsSettled(db, UpdateCategory(db, id, userId, name, price, total).0)
  {
    AdminKeepsSettled(db, EditCategory(id, userId, name, price, total));
  }

  lemma AdminLeavesOrders(db: Db, a: Admin)
    ensures Administer(db, a).items == db.items && Administer(db, a).orders == db.orders
  {
  }

  lemma AdminSettles(before: Db, db: Db, after: Db, event: nat)
    requires event in before.events && SettledSince(before, db, event) && before.events[event].state != Draft
    requires after.items == db.items && event in after.events && Leads(db.events[event].state, after.events[event].state)
    requires forall c :: InEvent(db, c, event) <==> InEvent(after, c, event)
    requires forall c :: InEvent(db, c, event) ==> c in after.categories && after.categories[c] == db.categories[c]
    ensures SettledSince(before, after, event)
  {
    forall k | |before.items| <= k < |after.items| && InEvent(after, after.items[k].categoryId, event)
      ensures after.items[k].price == after.categories[after.items[k].categoryId].price
    {
      assert InEvent(db, db.items[k].categoryId, event);
    }
  }

  lemma ExecSettles(before: Db, db: Db, txn: Txn, event: nat)
    requires event in before.events && SettledSince(before, db, event) && before.events[event].state != Draft
    ensures SettledSince(before, Exec(db, txn), event)
  {
    match txn
    case TxnCreate(_, _, _, _, _) => CreateSettles(before, db, txn, event);
    case TxnAdmin(a) =>
      AdminSparesSettled(db, a, event);
      AdminSettles(before, db, Administer(db, a), event);
    case _ =>
  }

  lemma SettledNow(db: Db, event: nat)
    requires event in db.events
    ensures SettledSince(db, db, event)
  {
  }

  /** In every serial run, whatever happens after an event left DRAFT keeps its inventory and prices settled. */
  lemma {:induction false} InventoryIsFrozen(before: Db, txns: seq<Txn>, event: nat)
    requires event in before.events && before.events[event].state != Draft
    ensures SettledSince(before, Serial(before, txns), event)
  {
    if txns == [] {
      SettledNow(before, event);
    } else {
      var prefix := txns[..|txns| - 1];
      InventoryIsFrozen(before, prefix, event);
      ExecSettles(before, Serial(before, prefix), txns[|prefix|], event);
    }
  }
}

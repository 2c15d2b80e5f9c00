/** Tickets are conserved: what every committed transaction keeps, and what follows for the ticket counts. */
module Conservation {
  import opened Tables
  import opened Booking

  /** Tickets item `i` must own: its quantity while its order is pending or paid, none once cancelled. */
  function Due(orders: map<nat, Order>, i: OrderItem): nat
    requires i.orderId in orders
  {
    if orders[i.orderId].status == Cancelled then 0 else i.quantity
  }

  function TicketStatusOf(status: OrderStatus): TicketStatus {
    if status == Paid then TicketPaid else Reserved
  }

  /** A ticket belongs to an item of its own category, in a live order whose status it mirrors. */
  predicate Belongs(db: Db, t: Ticket) {
    var item := ItemOf(db.items, t.orderItemId);
    && item.Some?
    && item.value.categoryId == t.categoryId
    && item.value.orderId in db.orders
    && db.orders[item.value.orderId].status != Cancelled
    && t.status == TicketStatusOf(db.orders[item.value.orderId].status)
  }

  ghost predicate Consistent(db: Db) {
    && DistinctIds(db.items)
    && (forall i :: i in db.items ==> i.orderId in db.orders && i.categoryId in db.categories)
    && (forall t :: t in db.tickets ==> Belongs(db, t))
    && (forall i :: i in db.items ==> Sum(db.tickets, OfItem(i.id)) == Due(db.orders, i))
    && (forall c :: c in db.categories ==> db.categories[c].eventId in db.events && 1 <= db.categories[c].total <= 100000)
    && (forall o :: o in db.orders ==> (db.orders[o].userId.Some? <==> db.orders[o].anonymousEmail.None?))
    && UniqueNames(db.categories)
  }

  /** UNIQUE on (event, name). */
  ghost predicate UniqueNames(categories: map<nat, Category>) {
    forall c, d :: c in categories && d in categories && c != d && categories[c].eventId == categories[d].eventId ==>
      categories[c].name != categories[d].name
  }

  // ---------------------------------------------------------------- finding items

  lemma {:induction false} ItemOfMember(items: seq<OrderItem>, id: nat)
    ensures ItemOf(items, id).Some? ==> ItemOf(items, id).value in items && ItemOf(items, id).value.id == id
    ensures ItemOf(items, id).None? <==> forall i :: i in items ==> i.id != id
  {
    if items != [] {
      ItemOfMember(items[1..], id);
      assert items == [items[0]] + items[1..];
    }
  }

  lemma ItemOfDistinct(items: seq<OrderItem>, i: OrderItem)
    requires DistinctIds(items) && i in items
    ensures ItemOf(items, i.id) == Some(i)
  {
    ItemOfMember(items, i.id);
    var j :| 0 <= j < |items| && items[j] == i;
    var found := ItemOf(items, i.id).value;
    var k :| 0 <= k < |items| && items[k] == found;
    assert j == k;
  }

  lemma {:induction false} ItemOfAppend(a: seq<OrderItem>, b: seq<OrderItem>, id: nat)
    ensures ItemOf(a + b, id) == if ItemOf(a, id).Some? then ItemOf(a, id) else ItemOf(b, id)
  {
    if a == [] {
      assert a + b == b;
    } else {
      ItemOfAppend(a[1..], b, id);
      assert (a + b)[1..] == a[1..] + b;
    }
  }

  lemma InItemIds(db: Db, t: Ticket, orderId: nat)
    requires Consistent(db) && t in db.tickets
    ensures t.orderItemId in ItemIds(db.items, orderId) <==> ItemOf(db.items, t.orderItemId).value.orderId == orderId
  {
    ItemOfMember(db.items, t.orderItemId);
    assert Belongs(db, t);
    if i :| i in db.items && i.orderId == orderId && i.id == t.orderItemId {
      ItemOfDistinct(db.items, i);
    }
  }

  lemma OwnId(items: seq<OrderItem>, i: OrderItem, orderId: nat)
    requires DistinctIds(items) && i in items
    ensures i.id in ItemIds(items, orderId) <==> i.orderId == orderId
  {
    ItemOfDistinct(items, i);
    if j :| j in items && j.orderId == orderId && j.id == i.id {
      ItemOfDistinct(items, j);
    }
  }

  // ---------------------------------------------------------------- new tickets

  lemma {:induction false} SumOfCopies(t: Ticket, n: nat, weight: Ticket -> nat)
    ensures Sum(Copies(t, n), weight) == n * weight(t)
  {
    if n > 0 {
      SumOfCopies(t, n - 1, weight);
      assert Copies(t, n)[1..] == Copies(t, n - 1);
    }
  }

  lemma {:induction false} NewTicketsByCategory(items: seq<OrderItem>, c: nat)
    ensures Sum(NewTickets(items), InCategory(c)) == Sum(items, QuantityIn(c))
  {
    if items != [] {
      var t := Ticket(items[0].categoryId, items[0].id, Reserved);
      SumAppend(Copies(t, items[0].quantity), NewTickets(items[1..]), InCategory(c));
      SumOfCopies(t, items[0].quantity, InCategory(c));
      NewTicketsByCategory(items[1..], c);
    }
  }

  lemma {:induction false} NewTicketsByItem(items: seq<OrderItem>, id: nat)
    requires DistinctIds(items)
    ensures Sum(NewTickets(items), OfItem(id)) == if ItemOf(items, id).Some? then ItemOf(items, id).value.quantity else 0
    ensures forall t :: t in NewTickets(items) ==>
              exists i :: i in items && t == Ticket(i.categoryId, i.id, Reserved)
  {
    if items != [] {
      var t := Ticket(items[0].categoryId, items[0].id, Reserved);
      SumAppend(Copies(t, items[0].quantity), NewTickets(items[1..]), OfItem(id));
      SumOfCopies(t, items[0].quantity, OfItem(id));
      NewTicketsByItem(items[1..], id);
      ItemOfMember(items[1..], id);
      assert items[0] in items;
    }
  }

  // ---------------------------------------------------------------- every transaction keeps consistency

  lemma PlacedItem(db: Db, lines: seq<Line>, userId: Option<nat>, email: Option<string>, orderId: nat, itemIds: seq<nat>)
    requires Consistent(db) && |itemIds| == |lines| && Unused(db, orderId, itemIds)
    requires CategoryIds(lines) <= db.categories.Keys
    ensures var after := Place(db, lines, db.categories, userId, email, orderId, itemIds);
            DistinctIds(after.items) && DistinctIds(NewItems(lines, db.categories, orderId, itemIds))
  {
    var added := NewItems(lines, db.categories, orderId, itemIds);
    assert forall k :: 0 <= k < |added| ==> added[k].id == itemIds[k];
    var all := db.items + added;
    forall j, k | 0 <= j < k < |all| ensures all[j].id != all[k].id {
      if j < |db.items| <= k {
        assert all[j] in db.items;
        assert all[k].id == itemIds[k - |db.items|];
      }
    }
  }

  lemma PlacedTicketsBelong(db: Db, lines: seq<Line>, userId: Option<nat>, email: Option<string>,
                            orderId: nat, itemIds: seq<nat>)
    requires Consistent(db) && |itemIds| == |lines| && Unused(db, orderId, itemIds)
    requires CategoryIds(lines) <= db.categories.Keys
    ensures var after := Place(db, lines, db.categories, userId, email, orderId, itemIds);
            forall t :: t in after.tickets ==> Belongs(after, t)
  {
    var after := Place(db, lines, db.categories, userId, email, orderId, itemIds);
    var added := NewItems(lines, db.categories, orderId, itemIds);
    PlacedItem(db, lines, userId, email, orderId, itemIds);
    forall t | t in after.tickets ensures Belongs(after, t) {
      ItemOfAppend(db.items, added, t.orderItemId);
      ItemOfMember(db.items, t.orderItemId);
      if t in db.tickets {
        assert Belongs(db, t);
        assert ItemOf(db.items, t.orderItemId).value.orderId != orderId;
      } else {
        NewTicketsByItem(added, t.orderItemId);
        var i :| i in added && t == Ticket(i.categoryId, i.id, Reserved);
        ItemOfDistinct(added, i);
      }
    }
  }

  lemma PlacedItemsOwn(db: Db, lines: seq<Line>, userId: Option<nat>, email: Option<string>,
                       orderId: nat, itemIds: seq<nat>)
    requires Consistent(db) && |itemIds| == |lines| && Unused(db, orderId, itemIds)
    requires CategoryIds(lines) <= db.categories.Keys
    ensures var after := Place(db, lines, db.categories, userId, email, orderId, itemIds);
            forall i :: i in after.items ==> i.orderId in after.orders && i.categoryId in after.categories
                                             && Sum(after.tickets, OfItem(i.id)) == Due(after.orders, i)
  {
    var after := Place(db, lines, db.categories, userId, email, orderId, itemIds);
    var added := NewItems(lines, db.categories, orderId, itemIds);
    PlacedItem(db, lines, userId, email, orderId, itemIds);
    forall i | i in added ensures i.orderId == orderId && i.categoryId in db.categories && i.id in itemIds {
      var k :| 0 <= k < |added| && added[k] == i;
      assert lines[k] in lines && itemIds[k] in itemIds;
    }
    forall i | i in after.items ensures Sum(after.tickets, OfItem(i.id)) == Due(after.orders, i) {
      SumAppend(db.tickets, NewTickets(added), OfItem(i.id));
      NewTicketsByItem(added, i.id);
      ItemOfMember(added, i.id);
      if i in db.items {
        assert ItemOf(added, i.id).None?;
      } else {
        ItemOfDistinct(added, i);
        NoTicketsYet(db, i.id);
      }
    }
  }

  lemma PlaceKeepsConsistent(db: Db, lines: seq<Line>, userId: Option<nat>, email: Option<string>,
                             orderId: nat, itemIds: seq<nat>)
    requires Consistent(db) && |itemIds| == |lines| && Unused(db, orderId, itemIds)
    requires CategoryIds(lines) <= db.categories.Keys && userId.None? != email.None?
    ensures Consistent(Place(db, lines, db.categories, userId, email, orderId, itemIds))
  {
    PlacedItem(db, lines, userId, email, orderId, itemIds);
    PlacedTicketsBelong(db, lines, userId, email, orderId, itemIds);
    PlacedItemsOwn(db, lines, userId, email, orderId, itemIds);
  }

  /** An item key that is not in the table owns no ticket. */
  lemma NoTicketsYet(db: Db, id: nat)
    requires Consistent(db) && forall i :: i in db.items ==> i.id != id
    ensures Sum(db.tickets, OfItem(id)) == 0
  {
    forall t | t in db.tickets ensures OfItem(id)(t) == 0 {
      assert Belongs(db, t);
      ItemOfMember(db.items, t.orderItemId);
    }
    SumZero(db.tickets, OfItem(id));
  }

  lemma ConfirmKeepsConsistent(db: Db, orderId: nat)
    requires Consistent(db)
    ensures Consistent(ConfirmPayment(db, orderId).0)
  {
    if orderId in db.orders && db.orders[orderId].status == Pending {
      var mine := ItemIds(db.items, orderId);
      var after := ConfirmPayment(db, orderId).0;
      forall t | t in after.tickets ensures Belongs(after, t) {
        var k :| 0 <= k < |after.tickets| && after.tickets[k] == t;
        var was := db.tickets[k];
        assert was in db.tickets && t == MarkPaid(mine)(was);
        InItemIds(db, was, orderId);
        assert Belongs(db, was);
      }
      forall i | i in db.items ensures Sum(after.tickets, OfItem(i.id)) == Due(after.orders, i) {
        SumOfEach(db.tickets, MarkPaid(mine), OfItem(i.id));
      }
    }
  }

  lemma ExpireKeepsConsistent(db: Db, orderId: nat)
    requires Consistent(db)
    ensures Consistent(ExpireOrder(db, orderId).0)
  {
    if orderId in db.orders && db.orders[orderId].status == Pending {
      var mine := ItemIds(db.items, orderId);
      var after := ExpireOrder(db, orderId).0;
      KeepMembers(db.tickets, NotOf(mine));
      forall t | t in after.tickets ensures Belongs(after, t) {
        assert t in db.tickets && t.orderItemId !in mine;
        InItemIds(db, t, orderId);
        assert Belongs(db, t);
      }
      forall i | i in db.items ensures Sum(after.tickets, OfItem(i.id)) == Due(after.orders, i) {
        OwnId(db.items, i, orderId);
        SumOfKeep(db.tickets, NotOf(mine), OfItem(i.id));
      }
    }
  }

  lemma MigrateKeepsConsistent(db: Db, email: string)
    requires Consistent(db)
    ensures Consistent(MigrateAnonymousOrders(db, email).0)
  {
    var after := MigrateAnonymousOrders(db, email).0;
    assert forall o :: o in db.orders ==> o in after.orders && after.orders[o].status == db.orders[o].status;
    forall t | t in db.tickets ensures Belongs(after, t) {
      assert Belongs(db, t);
    }
  }

  lemma AdminKeepsConsistent(db: Db, a: Admin)
    requires Consistent(db)
    ensures Consistent(Administer(db, a))
  {
    var after := Administer(db, a);
    assert after.items == db.items && after.tickets == db.tickets && after.orders == db.orders;
    forall t | t in db.tickets ensures Belongs(after, t) {
      assert Belongs(db, t);
    }
  }

  lemma ExecKeepsConsistent(db: Db, txn: Txn)
    requires Consistent(db)
    ensures Consistent(Exec(db, txn))
  {
    match txn
    case TxnCreate(lines, userId, email, orderId, itemIds) =>
      if |itemIds| == |lines| && Unused(db, orderId, itemIds) && userId.None? != email.None?
         && CategoryIds(lines) <= Selected(db, lines) {
        PlaceKeepsConsistent(db, lines, userId, email, orderId, itemIds);
      }
    case TxnConfirm(orderId) => ConfirmKeepsConsistent(db, orderId);
    case TxnExpire(orderId) => ExpireKeepsConsistent(db, orderId);
    case TxnMigrate(email) => MigrateKeepsConsistent(db, email);
    case TxnAdmin(a) => AdminKeepsConsistent(db, a);
  }

  // ---------------------------------------------------------------- counting the same tickets two ways

  /** One ticket belongs to exactly one item, so it is counted once among the items of its category. */
  lemma {:induction false} CountedOnce(items: seq<OrderItem>, t: Ticket, c: nat)
    requires DistinctIds(items)
    ensures Sum(items, OwnerOf(t, c)) ==
            if ItemOf(items, t.orderItemId).Some? && ItemOf(items, t.orderItemId).value.categoryId == c then 1 else 0
  {
    if items != [] {
      assert DistinctIds(items[1..]);
      CountedOnce(items[1..], t, c);
      ItemOfMember(items[1..], t.orderItemId);
    }
  }

  function OwnerOf(t: Ticket, c: nat): OrderItem -> nat {
    (i: OrderItem) => if i.categoryId == c && i.id == t.orderItemId then 1 else 0
  }

  /** Tickets among `tickets` owned by item `i`, when `i` is in category `c`. */
  function OwnedBy(tickets: seq<Ticket>, c: nat): OrderItem -> nat {
    (i: OrderItem) => if i.categoryId == c then Sum(tickets, OfItem(i.id)) else 0
  }

  lemma {:induction false} SumOfSums(items: seq<OrderItem>, t: Ticket, rest: seq<Ticket>, c: nat)
    ensures Sum(items, OwnedBy([t] + rest, c)) == Sum(items, OwnerOf(t, c)) + Sum(items, OwnedBy(rest, c))
  {
    if items != [] {
      assert ([t] + rest)[1..] == rest;
      SumOfSums(items[1..], t, rest, c);
    }
  }

  lemma {:induction false} CountTwoWays(db: Db, tickets: seq<Ticket>, c: nat)
    requires DistinctIds(db.items)
    requires forall t :: t in tickets ==>
               ItemOf(db.items, t.orderItemId).Some? && ItemOf(db.items, t.orderItemId).value.categoryId == t.categoryId
    ensures Sum(tickets, InCategory(c)) == Sum(db.items, OwnedBy(tickets, c))
  {
    if tickets == [] {
      SumZero(db.items, OwnedBy(tickets, c));
    } else {
      assert tickets == [tickets[0]] + tickets[1..];
      CountTwoWays(db, tickets[1..], c);
      CountedOnce(db.items, tickets[0], c);
      SumOfSums(db.items, tickets[0], tickets[1..], c);
    }
  }

  const LIVE: set<OrderStatus> := {Pending, Paid}

  /** The SQL count of a category is the quantity over its items in live orders. */
  lemma OccupiedIsLiveQuantity(db: Db, c: nat)
    requires Consistent(db)
    ensures Occupied(db, c) == Sum(db.items, QuantityWith(db.orders, LIVE, c))
  {
    forall t | t in db.tickets
      ensures ItemOf(db.items, t.orderItemId).Some? && ItemOf(db.items, t.orderItemId).value.categoryId == t.categoryId
    {
      assert Belongs(db, t);
    }
    CountTwoWays(db, db.tickets, c);
    SumAgree(db.items, OwnedBy(db.tickets, c), QuantityWith(db.orders, LIVE, c));
  }

  lemma {:induction false} SplitByStatus(items: seq<OrderItem>, orders: map<nat, Order>, c: nat)
    requires forall i :: i in items ==> i.orderId in orders
    ensures Sum(items, QuantityIn(c)) ==
            Sum(items, QuantityWith(orders, LIVE, c)) + Sum(items, QuantityWith(orders, {Cancelled}, c))
  {
    if items != [] {
      assert items == [items[0]] + items[1..];
      var status := orders[items[0].orderId].status;
      assert status.Pending? || status.Paid? || status.Cancelled?;
      SplitByStatus(items[1..], orders, c);
    }
  }

  /** The Python count over loaded items agrees with the SQL count exactly when no item of the category was cancelled. */
  lemma LoadedCountAgreesIff(db: Db, c: nat)
    requires Consistent(db)
    ensures LoadedOccupied(db, c) >= Occupied(db, c)
    ensures LoadedOccupied(db, c) == Occupied(db, c) <==>
            forall i :: i in db.items && i.categoryId == c ==> db.orders[i.orderId].status != Cancelled
  {
    OccupiedIsLiveQuantity(db, c);
    SplitByStatus(db.items, db.orders, c);
    SumZero(db.items, QuantityWith(db.orders, {Cancelled}, c));
    forall i | i in db.items
      ensures QuantityWith(db.orders, {Cancelled}, c)(i) == 0 <==>
              (i.categoryId == c ==> db.orders[i.orderId].status != Cancelled)
    {
    }
  }

  // ---------------------------------------------------------------- whole runs

  /** In every state a serial run reaches from empty tables, tickets are conserved. */
  lemma {:induction false} SerialConservation(txns: seq<Txn>)
    ensures Consistent(Serial(EMPTY, txns))
  {
    if txns != [] {
      SerialConservation(txns[..|txns| - 1]);
      ExecKeepsConsistent(Serial(EMPTY, txns[..|txns| - 1]), txns[|txns| - 1]);
    }
  }
}

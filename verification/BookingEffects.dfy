/** What each booking and catalog transaction does to every row, column by column, said without the functions that do it. */
module BookingEffects {
  import opened Tables
  import opened Booking
  import opened Conservation

  // ---------------------------------------------------------------- create

  ghost predicate SameBesidesOrders(before: Db, after: Db) {
    after.users == before.users && after.events == before.events && after.categories == before.categories
  }

  /** One more order, pending, of the given user, or of the given address when there is no user; the others as before. */
  ghost predicate OrderAdded(before: map<nat, Order>, after: map<nat, Order>, orderId: nat,
                             userId: Option<nat>, email: Option<string>)
  {
    && orderId !in before && after.Keys == before.Keys + {orderId}
    && after[orderId].status == Pending && after[orderId].userId == userId
    && after[orderId].anonymousEmail == (if userId.None? then email else None)
    && forall o :: o in before ==> after[o] == before[o]
  }

  /** One item a line, in line order, behind the items there were, at the price of the line's category. */
  ghost predicate ItemsAdded(before: seq<OrderItem>, after: seq<OrderItem>, lines: seq<Line>, categories: map<nat, Category>,
                             orderId: nat, itemIds: seq<nat>)
  {
    && |itemIds| == |lines| && |after| == |before| + |lines| && before <= after
    && (forall k :: 0 <= k < |lines| ==> lines[k].categoryId in categories)
    && forall k :: 0 <= k < |lines| ==>
         ItemIs(after[|before| + k], itemIds[k], orderId, lines[k], categories[lines[k].categoryId].price)
  }

  predicate ItemIs(i: OrderItem, id: nat, orderId: nat, line: Line, price: int) {
    i.id == id && i.orderId == orderId && i.categoryId == line.categoryId && i.quantity == line.quantity && i.price == price
  }

  /** Behind the tickets there were, as many reserved tickets of its category for each new item as its quantity. */
  ghost predicate TicketsAdded(before: seq<Ticket>, after: seq<Ticket>, lines: seq<Line>, itemIds: seq<nat>)
    requires |itemIds| == |lines|
  {
    && before <= after
    && (forall t :: t in after[|before|..] ==> t.status == Reserved)
    && (forall t :: t in after[|before|..] ==>
          exists k :: 0 <= k < |lines| && t.orderItemId == itemIds[k] && t.categoryId == lines[k].categoryId)
    && forall k :: 0 <= k < |lines| ==> Sum(after[|before|..], OfItem(itemIds[k])) == lines[k].quantity
  }

  ghost predicate Booked(before: Db, after: Db, lines: seq<Line>, userId: Option<nat>, email: Option<string>,
                         orderId: nat, itemIds: seq<nat>)
  {
    && SameBesidesOrders(before, after)
    && OrderAdded(before.orders, after.orders, orderId, userId, email)
    && ItemsAdded(before.items, after.items, lines, before.categories, orderId, itemIds)
    && TicketsAdded(before.tickets, after.tickets, lines, itemIds)
  }

  /** A booking is refused for its owner, refused for lack of tickets, or placed; refused, it changes nothing. */
  ghost predicate CreateEffect(before: Db, after: Db, reply: Outcome<nat>, lines: seq<Line>, userId: Option<nat>,
                               email: Option<string>, orderId: nat, itemIds: seq<nat>)
  {
    && (reply.Failed? ==> after == before && (reply.error.OwnerNotExactlyOne? || reply.error.NoTicketsAvailable?))
    && (reply == Failed(OwnerNotExactlyOne) <==> (userId.Some? && email.Some?) || (userId.None? && email.None?))
    && (reply.Done? ==> reply.value == orderId && Booked(before, after, lines, userId, email, orderId, itemIds))
  }

  lemma AddedTicketIsReserved(items: seq<OrderItem>, t: Ticket)
    requires DistinctIds(items) && t in NewTickets(items)
    ensures t.status == Reserved && exists k :: 0 <= k < |items| && t.orderItemId == items[k].id && t.categoryId == items[k].categoryId
  {
    NewTicketsByItem(items, t.orderItemId);
    var i :| i in items && t == Ticket(i.categoryId, i.id, Reserved);
    var k :| 0 <= k < |items| && items[k] == i;
  }

  lemma AddedTicketsOf(items: seq<OrderItem>, k: nat)
    requires DistinctIds(items) && k < |items|
    ensures Sum(NewTickets(items), OfItem(items[k].id)) == items[k].quantity
  {
    NewTicketsByItem(items, items[k].id);
    assert items[k] in items;
    ItemOfDistinct(items, items[k]);
  }

  lemma NewTicketsAreAdded(before: seq<Ticket>, lines: seq<Line>, rows: map<nat, Category>, orderId: nat, itemIds: seq<nat>)
    requires CategoryIds(lines) <= rows.Keys && |itemIds| == |lines|
    requires forall j, k :: 0 <= j < k < |itemIds| ==> itemIds[j] != itemIds[k]
    ensures TicketsAdded(before, before + NewTickets(NewItems(lines, rows, orderId, itemIds)), lines, itemIds)
  {
    var items := NewItems(lines, rows, orderId, itemIds);
    var added := NewTickets(items);
    assert (before + added)[|before|..] == added;
    forall t | t in added
      ensures t.status == Reserved
      ensures exists k :: 0 <= k < |lines| && t.orderItemId == itemIds[k] && t.categoryId == lines[k].categoryId
    {
      AddedTicketIsReserved(items, t);
    }
    forall k | 0 <= k < |lines| ensures Sum(added, OfItem(itemIds[k])) == lines[k].quantity {
      AddedTicketsOf(items, k);
    }
  }

  lemma PlaceBooks(db: Db, lines: seq<Line>, userId: Option<nat>, email: Option<string>, orderId: nat, itemIds: seq<nat>)
    requires CategoryIds(lines) <= db.categories.Keys && |itemIds| == |lines| && Unused(db, orderId, itemIds)
    ensures Booked(db, Place(db, lines, db.categories, userId, email, orderId, itemIds), lines, userId, email, orderId, itemIds)
  {
    var after := Place(db, lines, db.categories, userId, email, orderId, itemIds);
    var items := NewItems(lines, db.categories, orderId, itemIds);
    forall k | 0 <= k < |lines|
      ensures lines[k].categoryId in db.categories
      ensures after.items[|db.items| + k] == items[k]
    {
      assert lines[k] in lines && lines[k].categoryId in CategoryIds(lines);
    }
    NewTicketsAreAdded(db.tickets, lines, db.categories, orderId, itemIds);
  }

  lemma CreateHasEffect(db: Db, lines: seq<Line>, userId: Option<nat>, email: Option<string>, orderId: nat, itemIds: seq<nat>)
    requires |itemIds| == |lines| && Unused(db, orderId, itemIds)
    ensures var (after, reply) := CreateOrder(db, lines, userId, email, orderId, itemIds);
            CreateEffect(db, after, reply, lines, userId, email, orderId, itemIds)
  {
    if CategoryIds(lines) <= Selected(db, lines) {
      PlaceBooks(db, lines, userId, email, orderId, itemIds);
    }
  }

  // ---------------------------------------------------------------- payment and expiry

  /** Only the status of one order may change. */
  ghost predicate OnlyStatusMoves(before: map<nat, Order>, after: map<nat, Order>, orderId: nat, status: OrderStatus) {
    && after.Keys == before.Keys
    && (forall o :: o in before && o != orderId ==> after[o] == before[o])
    && (orderId in before ==> after[orderId].status == status && after[orderId].userId == before[orderId].userId
                              && after[orderId].anonymousEmail == before[orderId].anonymousEmail)
  }

  /** The ticket belongs to an item of the order. */
  predicate TicketOf(items: seq<OrderItem>, t: Ticket, orderId: nat) {
    exists i :: i in items && i.id == t.orderItemId && i.orderId == orderId
  }

  /** The tickets of the order become paid, and nothing else about any ticket changes. */
  ghost predicate TicketsPaid(items: seq<OrderItem>, before: seq<Ticket>, after: seq<Ticket>, orderId: nat) {
    && |after| == |before|
    && forall k :: 0 <= k < |before| ==>
         && after[k].categoryId == before[k].categoryId && after[k].orderItemId == before[k].orderItemId
         && after[k].status == if TicketOf(items, before[k], orderId) then TicketPaid else before[k].status
  }

  /** The tickets of the order are gone; all others are there as often as before. */
  ghost predicate TicketsReleased(items: seq<OrderItem>, before: seq<Ticket>, after: seq<Ticket>, orderId: nat) {
    forall t :: multiset(after)[t] == if TicketOf(items, t, orderId) then 0 else multiset(before)[t]
  }

  ghost predicate PaymentEffect(before: Db, after: Db, reply: Outcome<bool>, orderId: nat) {
    && SameBesidesOrders(before, after) && after.items == before.items
    && (orderId !in before.orders ==> after == before && reply == Failed(ObjectNotFound))
    && (orderId in before.orders && before.orders[orderId].status == Paid ==> after == before && reply == Done(true))
    && (orderId in before.orders && before.orders[orderId].status == Cancelled ==> after == before && reply == Failed(WrongState))
    && (orderId in before.orders && before.orders[orderId].status == Pending ==>
          && reply == Done(true) && OnlyStatusMoves(before.orders, after.orders, orderId, Paid)
          && TicketsPaid(before.items, before.tickets, after.tickets, orderId))
  }

  ghost predicate ExpiryEffect(before: Db, after: Db, reply: Outcome<bool>, orderId: nat) {
    && SameBesidesOrders(before, after) && after.items == before.items
    && (orderId !in before.orders ==> after == before && reply == Failed(ObjectNotFound))
    && (orderId in before.orders && before.orders[orderId].status == Paid ==> after == before && reply == Done(false))
    && (orderId in before.orders && before.orders[orderId].status == Cancelled ==> after == before && reply == Done(true))
    && (orderId in before.orders && before.orders[orderId].status == Pending ==>
          && reply == Done(true) && OnlyStatusMoves(before.orders, after.orders, orderId, Cancelled)
          && TicketsReleased(before.items, before.tickets, after.tickets, orderId))
  }

  lemma OwnTickets(items: seq<OrderItem>, t: Ticket, orderId: nat)
    ensures t.orderItemId in ItemIds(items, orderId) <==> TicketOf(items, t, orderId)
  {
  }

  lemma {:induction false} KeptOccurrences(tickets: seq<Ticket>, p: Ticket -> bool, t: Ticket)
    ensures multiset(Keep(tickets, p))[t] == if p(t) then multiset(tickets)[t] else 0
  {
    if tickets != [] {
      KeptOccurrences(tickets[1..], p, t);
      assert tickets == [tickets[0]] + tickets[1..];
    }
  }

  lemma PaymentHasEffect(db: Db, orderId: nat)
    ensures PaymentEffect(db, ConfirmPayment(db, orderId).0, ConfirmPayment(db, orderId).1, orderId)
  {
    forall t: Ticket ensures t.orderItemId in ItemIds(db.items, orderId) <==> TicketOf(db.items, t, orderId) {
      OwnTickets(db.items, t, orderId);
    }
  }

  lemma ExpiryHasEffect(db: Db, orderId: nat)
    ensures ExpiryEffect(db, ExpireOrder(db, orderId).0, ExpireOrder(db, orderId).1, orderId)
  {
    forall t
      ensures multiset(Keep(db.tickets, NotOf(ItemIds(db.items, orderId))))[t]
              == if TicketOf(db.items, t, orderId) then 0 else multiset(db.tickets)[t]
    {
      OwnTickets(db.items, t, orderId);
      KeptOccurrences(db.tickets, NotOf(ItemIds(db.items, orderId)), t);
    }
  }

  // ---------------------------------------------------------------- migration

  /** Exactly the orders of the address get its user and lose the address; the reply is how many they are. */
  ghost predicate MigrationEffect(before: Db, after: Db, reply: Outcome<nat>, email: string) {
    && SameBesidesOrders(before, after) && after.items == before.items && after.tickets == before.tickets
    && (email !in before.users ==> after == before && reply == Failed(ObjectNotFound))
    && (email in before.users ==>
          && after.orders.Keys == before.orders.Keys
          && (forall o :: o in before.orders ==> OrderMigrates(before.orders[o], after.orders[o], email, before.users[email]))
          && reply == Done(|set o | o in before.orders && before.orders[o].anonymousEmail == Some(email)|))
  }

  predicate OrderMigrates(before: Order, after: Order, email: string, userId: nat) {
    if before.anonymousEmail == Some(email)
    then after.userId == Some(userId) && after.anonymousEmail == None && after.status == before.status
    else after == before
  }

  lemma MigrationHasEffect(db: Db, email: string)
    ensures MigrationEffect(db, MigrateAnonymousOrders(db, email).0, MigrateAnonymousOrders(db, email).1, email)
  {
    assert OrdersOfEmail(db.orders, email) == set o | o in db.orders && db.orders[o].anonymousEmail == Some(email);
  }

  // ---------------------------------------------------------------- events

  ghost predicate OnlyEvent(before: Db, after: Db, id: nat) {
    && after == before.(events := after.events) && after.events.Keys == before.events.Keys
    && forall e :: e in before.events && e != id ==> after.events[e] == before.events[e]
  }

  predicate MayTouch(db: Db, id: nat, owner: Option<nat>) {
    id in db.events && (owner == None || owner == Some(db.events[id].userId))
  }

  /** The event of the owner moves from one of the states to the other, keeping its details; else nothing changes. */
  ghost predicate MoveEffect(before: Db, after: Db, reply: Outcome<bool>, id: nat, owner: Option<nat>,
                             from: set<EventState>, to: EventState)
  {
    && OnlyEvent(before, after, id)
    && (!MayTouch(before, id, owner) ==> after == before && reply == Failed(ObjectNotFound))
    && (MayTouch(before, id, owner) ==>
          var (was, now) := (before.events[id], after.events[id]);
          && now.userId == was.userId && now.details == was.details
          && (was.state in from ==> now.state == to && reply == Done(true))
          && (was.state !in from ==> now == was && reply == if was.state == to then Done(true) else Failed(WrongState)))
  }

  lemma MoveHasEffect(db: Db, id: nat, owner: Option<nat>, from: set<EventState>, to: EventState)
    ensures var (after, reply) := MoveEvent(db, id, owner, from, to);
            MoveEffect(db, after, reply, id, owner, from, to)
  {
  }

  /** A draft of the owner gets exactly the given details; else nothing changes. */
  ghost predicate EditEffect(before: Db, after: Db, reply: Outcome<bool>, id: nat, userId: nat, changes: map<string, string>) {
    && OnlyEvent(before, after, id)
    && (!MayTouch(before, id, Some(userId)) ==> after == before && reply == Failed(ObjectNotFound))
    && (MayTouch(before, id, Some(userId)) ==>
          var (was, now) := (before.events[id], after.events[id]);
          && now.userId == was.userId && now.state == was.state
          && (was.state != Draft ==> now == was && reply == Failed(WrongState))
          && (was.state == Draft ==>
                && reply == Done(true) && now.details.Keys == was.details.Keys + changes.Keys
                && forall k :: k in now.details ==> now.details[k] == if k in changes then changes[k] else was.details[k]))
  }

  lemma EditHasEffect(db: Db, id: nat, userId: nat, changes: map<string, string>)
    ensures var (after, reply) := UpdateEvent(db, id, userId, changes);
            EditEffect(db, after, reply, id, userId, changes)
  {
  }

  /** A new event is a draft of its creator with the given details, beside the events there were. */
  lemma NewEventIsDraft(db: Db, id: nat, userId: nat, details: map<string, string>)
    requires id !in db.events
    ensures var after := CreateEvent(db, id, userId, details);
            && after == db.(events := after.events) && after.events.Keys == db.events.Keys + {id}
            && (forall e :: e in db.events ==> after.events[e] == db.events[e])
            && after.events[id].userId == userId && after.events[id].details == details && after.events[id].state == Draft
  {
  }

  // ---------------------------------------------------------------- ticket categories

  ghost predicate OnlyCategory(before: Db, after: Db, id: nat) {
    && after == before.(categories := after.categories)
    && forall c :: c != id ==> (c in after.categories <==> c in before.categories)
                               && (c in before.categories ==> after.categories[c] == before.categories[c])
  }

  /** The event exists, belongs to the user, and is a draft. */
  predicate Editable(db: Db, eventId: nat, userId: nat) {
    MayTouch(db, eventId, Some(userId)) && db.events[eventId].state == Draft
  }

  predicate RefusedFor(db: Db, eventId: nat, userId: nat, error: Failure) {
    error == if MayTouch(db, eventId, Some(userId)) then WrongState else ObjectNotFound
  }

  /** Within 1 to 100000 tickets, under a name no other category of the event has. */
  ghost predicate Admissible(categories: map<nat, Category>, id: nat, row: Category) {
    && 1 <= row.total && row.total <= 100000
    && !exists c :: c in categories && c != id && categories[c].eventId == row.eventId && categories[c].name == row.name
  }

  /** A new category in a draft of the user, as given; else nothing changes. */
  ghost predicate AddEffect(before: Db, after: Db, reply: Outcome<nat>, id: nat, userId: nat, row: Category) {
    && OnlyCategory(before, after, id)
    && (reply.Failed? ==> after == before)
    && (!Editable(before, row.eventId, userId) ==> reply.Failed? && RefusedFor(before, row.eventId, userId, reply.error))
    && (Editable(before, row.eventId, userId) ==>
          (reply == Done(id) <==> id !in before.categories && Admissible(before.categories, id, row))
          && (reply != Done(id) ==> reply == Failed(ConstraintViolated)))
    && (reply.Done? ==> id in after.categories && after.categories[id] == row)
  }

  lemma AddHasEffect(db: Db, id: nat, userId: nat, row: Category)
    ensures AddEffect(db, CreateCategory(db, id, userId, row).0, CreateCategory(db, id, userId, row).1, id, userId, row)
  {
  }

  /** The given columns of the row get the given values, the others keep theirs. */
  predicate PatchedTo(was: Category, now: Category, name: Option<string>, price: Option<Positive>, total: Option<Positive>) {
    && now.eventId == was.eventId
    && (name.Some? ==> now.name == name.value) && (name.None? ==> now.name == was.name)
    && (price.Some? ==> now.price == price.value) && (price.None? ==> now.price == was.price)
    && (total.Some? ==> now.total == total.value) && (total.None? ==> now.total == was.total)
  }

  ghost predicate PatchEffect(before: Db, after: Db, reply: Outcome<bool>, id: nat, userId: nat, name: Option<string>,
                              price: Option<Positive>, total: Option<Positive>)
  {
    && OnlyCategory(before, after, id) && (reply.Failed? ==> after == before)
    && (id in after.categories <==> id in before.categories)
    && (id !in before.categories ==> reply == Failed(ObjectNotFound))
    && (id in before.categories ==>
          var event := before.categories[id].eventId;
          && (!Editable(before, event, userId) ==> reply.Failed? && RefusedFor(before, event, userId, reply.error))
          && (Editable(before, event, userId) ==> reply == Done(true) || reply == Failed(ConstraintViolated))
          && (Editable(before, event, userId) ==>
                (reply == Done(true) <==> forall row :: PatchedTo(before.categories[id], row, name, price, total) ==>
                                            Admissible(before.categories, id, row)))
          && (reply.Done? ==> PatchedTo(before.categories[id], after.categories[id], name, price, total)))
  }

  lemma PatchHasEffect(db: Db, id: nat, userId: nat, name: Option<string>, price: Option<Positive>, total: Option<Positive>)
    ensures var (after, reply) := UpdateCategory(db, id, userId, name, price, total);
            PatchEffect(db, after, reply, id, userId, name, price, total)
  {
    if id in db.categories {
      var row := Patched(db.categories[id], name, price, total);
      assert PatchedTo(db.categories[id], row, name, price, total);
      assert forall other :: PatchedTo(db.categories[id], other, name, price, total) ==> other == row;
      assert Storable(db.categories, id, row) <==> Admissible(db.categories, id, row);
    }
  }

  /** No item and no ticket of the category, and it is a category of a draft of the user: it is removed. */
  ghost predicate DropEffect(before: Db, after: Db, reply: Outcome<bool>, id: nat, userId: nat) {
    && OnlyCategory(before, after, id) && (reply.Failed? ==> after == before)
    && (id !in before.categories ==> reply == Failed(ObjectNotFound))
    && (id in before.categories ==>
          var event := before.categories[id].eventId;
          && (!Editable(before, event, userId) ==> reply.Failed? && RefusedFor(before, event, userId, reply.error))
          && (Editable(before, event, userId) ==>
                && (reply == Done(true) <==> (forall i :: i in before.items ==> i.categoryId != id)
                                             && forall t :: t in before.tickets ==> t.categoryId != id)
                && (reply != Done(true) ==> reply == Failed(ConstraintViolated))))
    && (reply.Done? ==> id !in after.categories)
  }

  lemma DropHasEffect(db: Db, id: nat, userId: nat)
    ensures DropEffect(db, DeleteCategory(db, id, userId).0, DeleteCategory(db, id, userId).1, id, userId)
  {
  }

  // ---------------------------------------------------------------- owners

  /** Who the order belongs to: a user or an address. */
  function OwnerOf(o: Order): (Option<nat>, Option<string>) {
    (o.userId, o.anonymousEmail)
  }

  /** An order's owner changes only when the orders of its address are migrated to the user of that address. */
  lemma OwnersStay(db: Db, txn: Txn, o: nat)
    requires o in db.orders
    ensures var after := Exec(db, txn);
            && o in after.orders
            && (OwnerOf(after.orders[o]) != OwnerOf(db.orders[o]) ==>
                  && txn.TxnMigrate? && txn.email in db.users && db.orders[o].anonymousEmail == Some(txn.email)
                  && OwnerOf(after.orders[o]) == (Some(db.users[txn.email]), None))
  {
    match txn
    case TxnCreate(lines, userId, email, orderId, itemIds) =>
      if |itemIds| == |lines| && Unused(db, orderId, itemIds) {
        CreateHasEffect(db, lines, userId, email, orderId, itemIds);
      }
    case TxnConfirm(orderId) => PaymentHasEffect(db, orderId);
    case TxnExpire(orderId) => ExpiryHasEffect(db, orderId);
    case TxnMigrate(email) => MigrationHasEffect(db, email);
    case TxnAdmin(a) => AdminSparesOrders(db, a);
  }

  lemma AdminSparesOrders(db: Db, a: Admin)
    ensures Administer(db, a).orders == db.orders
  {
  }
}

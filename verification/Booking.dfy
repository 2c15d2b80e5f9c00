/** The booking tables and the effect of each committed transaction on them. */
module Booking {
  import opened Tables

  datatype OrderStatus = Pending | Paid | Cancelled
  datatype TicketStatus = Reserved | TicketPaid | CheckedIn | Blocked
  datatype EventState = Draft | OnModeration | Approved | Rejected | EventCancelled

  /** `details` are the columns an owner may edit: title, format, address, dates and so on. */
  datatype Event = Event(userId: nat, details: map<string, string>, state: EventState)
  datatype Category = Category(eventId: nat, name: string, price: int, total: int)
  datatype Order = Order(userId: Option<nat>, anonymousEmail: Option<string>, status: OrderStatus)
  datatype OrderItem = OrderItem(id: nat, orderId: nat, categoryId: nat, quantity: Positive, price: int)
  datatype Ticket = Ticket(categoryId: nat, orderItemId: nat, status: TicketStatus)

  /** Tables with a primary key that is looked up are maps; items and tickets keep their insertion order. */
  datatype Db = Db(
    users: map<string, nat>,
    events: map<nat, Event>,
    categories: map<nat, Category>,
    orders: map<nat, Order>,
    items: seq<OrderItem>,
    tickets: seq<Ticket>)

  /** One requested line of an order. */
  datatype Line = Line(categoryId: nat, quantity: Positive)

  datatype Failure =
    | OwnerNotExactlyOne
    | NoTicketsAvailable(categoryId: nat, available: nat, requested: nat)
    | ObjectNotFound
    | WrongState
    | ConstraintViolated

  datatype Outcome<+T> = Done(value: T) | Failed(error: Failure)

  const EMPTY := Db(map[], map[], map[], map[], [], [])

  // ---------------------------------------------------------------- columns and aggregates

  function InCategory(c: nat): Ticket -> nat {
    (t: Ticket) => if t.categoryId == c then 1 else 0
  }

  function OfItem(item: nat): Ticket -> nat {
    (t: Ticket) => if t.orderItemId == item then 1 else 0
  }

  function QuantityIn(c: nat): OrderItem -> nat {
    (i: OrderItem) => if i.categoryId == c then i.quantity else 0
  }

  /** Quantity of an item of category `c` whose order has one of the given statuses. */
  function QuantityWith(orders: map<nat, Order>, statuses: set<OrderStatus>, c: nat): OrderItem -> nat {
    (i: OrderItem) =>
      if i.categoryId == c && i.orderId in orders && orders[i.orderId].status in statuses then i.quantity else 0
  }

  /** `SELECT count(id) FROM tickets WHERE category_id = c`. */
  function Occupied(db: Db, c: nat): nat {
    Sum(db.tickets, InCategory(c))
  }

  /** The Python form of `occupied_count`, over loaded items. */
  function LoadedOccupied(db: Db, c: nat): nat {
    Sum(db.items, QuantityIn(c))
  }

  /** `greatest(0, total_quantity - occupied_count)`. */
  function Available(db: Db, c: nat): nat
    requires c in db.categories
  {
    if db.categories[c].total < Occupied(db, c) then 0 else db.categories[c].total - Occupied(db, c)
  }

  function ItemOf(items: seq<OrderItem>, id: nat): Option<OrderItem> {
    if items == [] then None
    else if items[0].id == id then Some(items[0])
    else ItemOf(items[1..], id)
  }

  function ItemIds(items: seq<OrderItem>, orderId: nat): set<nat> {
    set i | i in items && i.orderId == orderId :: i.id
  }

  // ---------------------------------------------------------------- create

  function CategoryIds(lines: seq<Line>): set<nat> {
    set l | l in lines :: l.categoryId
  }

  /** The dictionary comprehension `{category_id: quantity}`: a later line of the same category overwrites. */
  function Requested(lines: seq<Line>): (r: map<nat, nat>)
    ensures r.Keys == CategoryIds(lines)
  {
    if lines == [] then map[]
    else
      var n := |lines| - 1;
      assert lines == lines[..n] + [lines[n]];
      Requested(lines[..n])[lines[n].categoryId := lines[n].quantity]
  }

  /** The requested categories the locking select returns. */
  function Selected(db: Db, lines: seq<Line>): set<nat> {
    var requested := Requested(lines);
    set c | c in requested && c in db.categories && requested[c] <= Available(db, c)
  }

  function FirstMissing(lines: seq<Line>, found: set<nat>): Line
    requires !(CategoryIds(lines) <= found)
  {
    if lines[0].categoryId !in found then lines[0]
    else
      assert lines == [lines[0]] + lines[1..];
      FirstMissing(lines[1..], found)
  }

  function NewItems(lines: seq<Line>, rows: map<nat, Category>, orderId: nat, ids: seq<nat>): (r: seq<OrderItem>)
    requires CategoryIds(lines) <= rows.Keys
    requires |ids| == |lines|
    ensures |r| == |lines|
    ensures forall k :: 0 <= k < |lines| ==>
              r[k] == OrderItem(ids[k], orderId, lines[k].categoryId, lines[k].quantity, rows[lines[k].categoryId].price)
  {
    if lines == [] then []
    else
      assert lines == [lines[0]] + lines[1..];
      [OrderItem(ids[0], orderId, lines[0].categoryId, lines[0].quantity, rows[lines[0].categoryId].price)]
      + NewItems(lines[1..], rows, orderId, ids[1..])
  }

  /** The items depend on the category rows only through the rows of the requested categories. */
  lemma SamePrices(lines: seq<Line>, rows: map<nat, Category>, all: map<nat, Category>, orderId: nat, ids: seq<nat>)
    requires CategoryIds(lines) <= rows.Keys && |ids| == |lines|
    requires forall c :: c in CategoryIds(lines) ==> c in all && all[c] == rows[c]
    ensures NewItems(lines, rows, orderId, ids) == NewItems(lines, all, orderId, ids)
  {
    forall k | 0 <= k < |lines| ensures rows[lines[k].categoryId] == all[lines[k].categoryId] {
      assert lines[k] in lines && lines[k].categoryId in CategoryIds(lines);
    }
  }

  function Copies(t: Ticket, n: nat): (r: seq<Ticket>)
    ensures |r| == n && forall x :: x in r ==> x == t
  {
    if n == 0 then [] else [t] + Copies(t, n - 1)
  }

  /** One reserved ticket for every unit of every item. */
  function NewTickets(items: seq<OrderItem>): seq<Ticket> {
    if items == [] then []
    else Copies(Ticket(items[0].categoryId, items[0].id, Reserved), items[0].quantity) + NewTickets(items[1..])
  }

  ghost predicate DistinctIds(items: seq<OrderItem>) {
    forall j, k :: 0 <= j < k < |items| ==> items[j].id != items[k].id
  }

  /** The sequences hand out primary keys no row has. */
  ghost predicate Unused(db: Db, orderId: nat, itemIds: seq<nat>) {
    && orderId !in db.orders
    && (forall j, k :: 0 <= j < k < |itemIds| ==> itemIds[j] != itemIds[k])
    && (forall i :: i in db.items ==> i.id !in itemIds)
  }

  function Place(db: Db, lines: seq<Line>, rows: map<nat, Category>, userId: Option<nat>, email: Option<string>,
                 orderId: nat, itemIds: seq<nat>): Db
    requires CategoryIds(lines) <= rows.Keys
    requires |itemIds| == |lines|
  {
    var items := NewItems(lines, rows, orderId, itemIds);
    db.(orders := db.orders[orderId := Order(userId, if userId.Some? then None else email, Pending)],
        items := db.items + items,
        tickets := db.tickets + NewTickets(items))
  }

  function CreateOrder(db: Db, lines: seq<Line>, userId: Option<nat>, email: Option<string>,
                       orderId: nat, itemIds: seq<nat>): (Db, Outcome<nat>)
    requires |itemIds| == |lines|
  {
    if userId.None? == email.None? then (db, Failed(OwnerNotExactlyOne))
    else
      var found := Selected(db, lines);
      if CategoryIds(lines) <= found then
        (Place(db, lines, db.categories, userId, email, orderId, itemIds), Done(orderId))
      else
        var line := FirstMissing(lines, found);
        (db, Failed(NoTicketsAvailable(line.categoryId, 0, line.quantity)))
  }

  // ---------------------------------------------------------------- payment, expiry, migration

  function MarkPaid(itemIds: set<nat>): Ticket -> Ticket {
    (t: Ticket) => if t.orderItemId in itemIds then t.(status := TicketPaid) else t
  }

  function NotOf(itemIds: set<nat>): Ticket -> bool {
    (t: Ticket) => t.orderItemId !in itemIds
  }

  function SetStatus(orders: map<nat, Order>, orderId: nat, status: OrderStatus): map<nat, Order>
    requires orderId in orders
  {
    orders[orderId := orders[orderId].(status := status)]
  }

  function ConfirmPayment(db: Db, orderId: nat): (Db, Outcome<bool>) {
    if orderId !in db.orders then (db, Failed(ObjectNotFound))
    else match db.orders[orderId].status
      case Pending =>
        (db.(orders := SetStatus(db.orders, orderId, Paid),
             tickets := Each(db.tickets, MarkPaid(ItemIds(db.items, orderId)))), Done(true))
      case Paid => (db, Done(true))
      case Cancelled => (db, Failed(WrongState))
  }

  function ExpireOrder(db: Db, orderId: nat): (Db, Outcome<bool>) {
    if orderId !in db.orders then (db, Failed(ObjectNotFound))
    else match db.orders[orderId].status
      case Pending =>
        (db.(orders := SetStatus(db.orders, orderId, Cancelled),
             tickets := Keep(db.tickets, NotOf(ItemIds(db.items, orderId)))), Done(true))
      case Cancelled => (db, Done(true))
      case Paid => (db, Done(false))
  }

  function OrdersOfEmail(orders: map<nat, Order>, email: string): set<nat> {
    set o | o in orders && orders[o].anonymousEmail == Some(email)
  }

  function MigrateAnonymousOrders(db: Db, email: string): (Db, Outcome<nat>) {
    if email !in db.users then (db, Failed(ObjectNotFound))
    else
      var mine := OrdersOfEmail(db.orders, email);
      (db.(orders := map o | o in db.orders ::
             if o in mine then db.orders[o].(userId := Some(db.users[email]), anonymousEmail := None) else db.orders[o]),
       Done(|mine|))
  }

  // ---------------------------------------------------------------- events and ticket categories

  function CreateEvent(db: Db, id: nat, userId: nat, details: map<string, string>): Db {
    if id in db.events then db else db.(events := db.events[id := Event(userId, details, Draft)])
  }

  /** `filter(id, user_id?, state in from).update(state=to)`, and the reply when no row matched. */
  function MoveEvent(db: Db, id: nat, owner: Option<nat>, from: set<EventState>, to: EventState): (Db, Outcome<bool>) {
    if id !in db.events || (owner.Some? && db.events[id].userId != owner.value) then (db, Failed(ObjectNotFound))
    else if db.events[id].state in from then
      (db.(events := db.events[id := db.events[id].(state := to)]), Done(true))
    else if db.events[id].state == to then (db, Done(true))
    else (db, Failed(WrongState))
  }

  function UpdateEvent(db: Db, id: nat, userId: nat, changes: map<string, string>): (Db, Outcome<bool>) {
    if id !in db.events || db.events[id].userId != userId then (db, Failed(ObjectNotFound))
    else if db.events[id].state != Draft then (db, Failed(WrongState))
    else (db.(events := db.events[id := db.events[id].(details := db.events[id].details + changes)]), Done(true))
  }

  /** The CHECK on the total and the UNIQUE on (event, name). */
  predicate Storable(categories: map<nat, Category>, id: nat, row: Category) {
    && 1 <= row.total <= 100000
    && forall c :: c in categories && c != id ==> !(categories[c].eventId == row.eventId && categories[c].name == row.name)
  }

  predicate OwnDraft(db: Db, eventId: nat, userId: nat) {
    eventId in db.events && db.events[eventId].userId == userId && db.events[eventId].state == Draft
  }

  function DraftFailure(db: Db, eventId: nat, userId: nat): Failure {
    if eventId in db.events && db.events[eventId].userId == userId then WrongState else ObjectNotFound
  }

  function CreateCategory(db: Db, id: nat, userId: nat, row: Category): (Db, Outcome<nat>) {
    if !OwnDraft(db, row.eventId, userId) then (db, Failed(DraftFailure(db, row.eventId, userId)))
    else if id in db.categories || !Storable(db.categories, id, row) then (db, Failed(ConstraintViolated))
    else (db.(categories := db.categories[id := row]), Done(id))
  }

  function Patched(row: Category, name: Option<string>, price: Option<Positive>, total: Option<Positive>): Category {
    Category(row.eventId, if name.Some? then name.value else row.name,
             if price.Some? then price.value else row.price, if total.Some? then total.value else row.total)
  }

  function UpdateCategory(db: Db, id: nat, userId: nat, name: Option<string>, price: Option<Positive>,
                          total: Option<Positive>): (Db, Outcome<bool>) {
    if id !in db.categories then (db, Failed(ObjectNotFound))
    else
      var event := db.categories[id].eventId;
      var row := Patched(db.categories[id], name, price, total);
      if !OwnDraft(db, event, userId) then (db, Failed(DraftFailure(db, event, userId)))
      else if !Storable(db.categories, id, row) then (db, Failed(ConstraintViolated))
      else (db.(categories := db.categories[id := row]), Done(true))
  }

  /** Order items and tickets refer to categories with ON DELETE RESTRICT. */
  predicate Referenced(db: Db, c: nat) {
    (exists i :: i in db.items && i.categoryId == c) || (exists t :: t in db.tickets && t.categoryId == c)
  }

  function DeleteCategory(db: Db, id: nat, userId: nat): (Db, Outcome<bool>) {
    if id !in db.categories then (db, Failed(ObjectNotFound))
    else
      var event := db.categories[id].eventId;
      if !OwnDraft(db, event, userId) then (db, Failed(DraftFailure(db, event, userId)))
      else if Referenced(db, id) then (db, Failed(ConstraintViolated))
      else (db.(categories := db.categories - {id}), Done(true))
  }

  // ---------------------------------------------------------------- transactions

  datatype Txn =
    | TxnCreate(lines: seq<Line>, userId: Option<nat>, anonymousEmail: Option<string>, orderId: nat, itemIds: seq<nat>)
    | TxnConfirm(orderId: nat)
    | TxnExpire(orderId: nat)
    | TxnMigrate(email: string)
    | TxnAdmin(admin: Admin)

  datatype Admin =
    | AddEvent(id: nat, userId: nat, details: map<string, string>)
    | Publish(id: nat, userId: nat)
    | EditEvent(id: nat, userId: nat, changes: map<string, string>)
    | CancelEvent(id: nat, userId: nat)
    | Moderate(id: nat, approve: bool)
    | AddCategory(id: nat, userId: nat, row: Category)
    | EditCategory(id: nat, userId: nat, name: Option<string>, price: Option<Positive>, total: Option<Positive>)
    | DropCategory(id: nat, userId: nat)

  function Administer(db: Db, a: Admin): Db {
    match a
    case AddEvent(id, userId, details) => CreateEvent(db, id, userId, details)
    case Publish(id, userId) => MoveEvent(db, id, Some(userId), {Draft}, OnModeration).0
    case EditEvent(id, userId, changes) => UpdateEvent(db, id, userId, changes).0
    case CancelEvent(id, userId) => MoveEvent(db, id, Some(userId), {Draft, OnModeration}, EventCancelled).0
    case Moderate(id, approve) => MoveEvent(db, id, None, {OnModeration}, if approve then Approved else Rejected).0
    case AddCategory(id, userId, row) => CreateCategory(db, id, userId, row).0
    case EditCategory(id, userId, name, price, total) => UpdateCategory(db, id, userId, name, price, total).0
    case DropCategory(id, userId) => DeleteCategory(db, id, userId).0
  }

  /** One whole transaction, run alone. Keys that are not unused never come out of a sequence: such a step does nothing. */
  ghost function Exec(db: Db, txn: Txn): Db {
    match txn
    case TxnCreate(lines, userId, email, orderId, itemIds) =>
      if |itemIds| == |lines| && Unused(db, orderId, itemIds)
      then CreateOrder(db, lines, userId, email, orderId, itemIds).0 else db
    case TxnConfirm(orderId) => ConfirmPayment(db, orderId).0
    case TxnExpire(orderId) => ExpireOrder(db, orderId).0
    case TxnMigrate(email) => MigrateAnonymousOrders(db, email).0
    case TxnAdmin(a) => Administer(db, a)
  }

  /** A serial run. */
  ghost function Serial(db: Db, txns: seq<Txn>): Db {
    if txns == [] then db else Exec(Serial(db, txns[..|txns| - 1]), txns[|txns| - 1])
  }
}

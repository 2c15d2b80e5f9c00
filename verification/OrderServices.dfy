/** The order service: its methods change the tables step by step and are proved against the transactions of `Booking`. */
module OrderServices {
  import opened Tables
  import opened SqlExpressions
  import opened Booking
  import opened Capacity
  import opened BookingEffects

  /** The tables of the database, with the sequences that hand out primary keys. */
  class Store {
    var users: map<string, nat>
    var events: map<nat, Event>
    var categories: map<nat, Category>
    var orders: map<nat, Order>
    var items: seq<OrderItem>
    var tickets: seq<Ticket>
    var nextOrderId: nat
    var nextItemId: nat

    constructor ()
      ensures Valid() && State() == EMPTY
    {
      users, events, categories, orders, items, tickets := map[], map[], map[], map[], [], [];
      nextOrderId, nextItemId := 1, 1;
    }

    ghost predicate Valid()
      reads this
    {
      && (forall o :: o in orders ==> o < nextOrderId)
      && (forall i :: i in items ==> i.id < nextItemId)
    }

    function State(): Db
      reads this
    {
      Db(users, events, categories, orders, items, tickets)
    }
  }

  function Serials(first: nat, n: nat): (r: seq<nat>)
    ensures |r| == n && forall k :: 0 <= k < n ==> r[k] == first + k
  {
    seq(n, k => first + k)
  }

  lemma SerialsAreUnused(store: Store, n: nat)
    requires store.Valid()
    ensures Unused(store.State(), store.nextOrderId, Serials(store.nextItemId, n))
  {
  }

  /** The arm of `When(id=c, available_quantity__gte=q)`. */
  ghost predicate AsksFor(when: When, c: nat, q: nat) {
    && when.thenArgument == Null
    && when.arguments == [(Lookup("id", None), Int(c)), (Lookup("available_quantity", Some(Gte)), Int(q))]
  }

  lemma ArmAsksFor(arm: Arm, when: When, c: nat, q: nat)
    requires Stands(arm, when) && AsksFor(when, c, q)
    ensures IsAvailabilityArm(arm, c, q)
  {
    assert when.arguments[0] == (Lookup("id", None), Int(c));
    assert when.arguments[1] == (Lookup("available_quantity", Some(Gte)), Int(q));
    assert IdArgument(when.arguments) == Int(c);
    forall row
      ensures Test(row, arm.condition) == Yes <==>
              Apply(Eq, Cell(row, "id"), Int(c)) == Yes && Apply(Gte, Cell(row, "available_quantity"), Int(q)) == Yes
    {
      assert Demands(row, when.arguments[0].0, when.arguments[0].1) <==> Apply(Eq, Cell(row, "id"), Int(c)) == Yes;
      assert Demands(row, when.arguments[1].0, when.arguments[1].1)
             <==> Apply(Gte, Cell(row, "available_quantity"), Int(q)) == Yes;
    }
  }

  lemma ResolvedArms(clause: Case, wanted: seq<(int, int)>, ok: bool, arms: seq<Arm>)
    requires |clause.whens| == |wanted|
    requires forall k :: 0 <= k < |wanted| ==> wanted[k].0 >= 0 && wanted[k].1 >= 0 && AsksFor(clause.whens[k], wanted[k].0, wanted[k].1)
    requires ok <==> forall w :: w in clause.whens ==>
               w.arguments != [] && forall k :: 0 <= k < |w.arguments| ==> w.arguments[k].0.column in {"id", "available_quantity"}
    requires ok ==> |arms| == |clause.whens| && forall k :: 0 <= k < |arms| ==> Stands(arms[k], clause.whens[k])
    ensures ok && |arms| == |wanted|
    ensures forall k :: 0 <= k < |arms| ==> IsAvailabilityArm(arms[k], wanted[k].0, wanted[k].1)
  {
    forall w | w in clause.whens
      ensures w.arguments != [] && forall k :: 0 <= k < |w.arguments| ==> w.arguments[k].0.column in {"id", "available_quantity"}
    {
      var j :| 0 <= j < |clause.whens| && clause.whens[j] == w;
      assert AsksFor(w, wanted[j].0, wanted[j].1);
    }
    forall k | 0 <= k < |arms| ensures IsAvailabilityArm(arms[k], wanted[k].0, wanted[k].1) {
      ArmAsksFor(arms[k], clause.whens[k], wanted[k].0, wanted[k].1);
    }
  }

  lemma PassingIsSelected(db: Db, lines: seq<Line>, wanted: seq<(int, int)>, arms: seq<Arm>, keys: set<nat>)
    requires Lists(wanted, Requested(lines)) && |arms| == |wanted|
    requires forall k :: 0 <= k < |arms| ==> IsAvailabilityArm(arms[k], wanted[k].0, wanted[k].1)
    requires forall c :: c in keys <==> c in db.categories && Passes(RowOf(db, c), CategoryIds(lines), arms)
    ensures keys == Selected(db, lines)
  {
    forall c | c in db.categories ensures Passes(RowOf(db, c), CategoryIds(lines), arms) <==> c in Selected(db, lines) {
      SelectionIsExact(db, lines, wanted, arms, c);
    }
  }

  class OrderService {
    const store: Store
    var cancelTasks: seq<nat>
    var mailTasks: seq<nat>

    constructor (store: Store)
      ensures this.store == store && cancelTasks == [] && mailTasks == []
    {
      this.store := store;
      cancelTasks, mailTasks := [], [];
    }

    /** `Case(*(When(id=c, available_quantity__gte=q) for c, q in requested.items()))`, in any order of the items. */
    static method AvailabilityClause(requested: map<nat, nat>) returns (clause: Case, ghost wanted: seq<(int, int)>)
      ensures clause.otherwise == Null && |clause.whens| == |wanted| && Lists(wanted, requested)
      ensures forall k :: 0 <= k < |wanted| ==> wanted[k].0 >= 0 && wanted[k].1 >= 0 && AsksFor(clause.whens[k], wanted[k].0, wanted[k].1)
    {
      var todo := requested.Keys;
      var whens: seq<When> := [];
      wanted := [];
      while todo != {}
        invariant todo <= requested.Keys && |whens| == |wanted|
        invariant forall k :: 0 <= k < |wanted| ==>
                    wanted[k].0 >= 0 && wanted[k].0 in requested && wanted[k].1 == requested[wanted[k].0]
                    && AsksFor(whens[k], wanted[k].0, wanted[k].1)
        invariant forall c :: c in requested && c !in todo ==> exists k :: 0 <= k < |wanted| && wanted[k].0 == c
        decreases todo
      {
        var c :| c in todo;
        var when := new When(Null, [(Lookup("id", None), Int(c)), (Lookup("available_quantity", Some(Gte)), Int(requested[c]))]);
        ghost var before := wanted;
        whens, wanted, todo := whens + [when], wanted + [(c, requested[c])], todo - {c};
        assert wanted[|before|] == (c, requested[c]);
        assert forall k :: 0 <= k < |before| ==> wanted[k] == before[k];
      }
      clause := new Case(whens, Null);
    }

    static method Matching(db: Db, ids: set<nat>, arms: seq<Arm>) returns (rows: map<nat, Category>)
      ensures forall c :: c in rows <==> c in db.categories && Passes(RowOf(db, c), ids, arms)
      ensures forall c :: c in rows ==> rows[c] == db.categories[c]
    {
      rows := map c | c in db.categories && Passes(RowOf(db, c), ids, arms) :: db.categories[c];
    }

    /** The locking select of `create`: the compiled `id IN ids AND id = CASE ..` over the category rows. */
    method SelectCategories(lines: seq<Line>, requested: map<nat, nat>) returns (rows: map<nat, Category>)
      requires requested == Requested(lines)
      ensures rows.Keys == Selected(store.State(), lines)
      ensures forall c :: c in rows ==> c in store.categories && rows[c] == store.categories[c]
    {
      ghost var wanted;
      var clause;
      clause, wanted := AvailabilityClause(requested);
      var ok, arms := clause.Resolve({"id", "available_quantity"});
      ResolvedArms(clause, wanted, ok, arms);
      rows := Matching(store.State(), CategoryIds(lines), arms);
      PassingIsSelected(store.State(), lines, wanted, arms, rows.Keys);
    }

    /** The dictionary comprehension over the lines. */
    static method RequestedQuantities(lines: seq<Line>) returns (requested: map<nat, nat>)
      ensures requested == Requested(lines)
    {
      requested := map[];
      for i := 0 to |lines|
        invariant requested == Requested(lines[..i])
      {
        assert lines[..i + 1][..i] == lines[..i];
        requested := requested[lines[i].categoryId := lines[i].quantity];
      }
      assert lines[..|lines|] == lines;
    }

    /** The first line, in request order, whose category the select did not return. */
    static method FirstUnavailable(lines: seq<Line>, found: set<nat>) returns (line: Option<Line>)
      ensures line.None? <==> CategoryIds(lines) <= found
      ensures line.Some? ==> line.value == FirstMissing(lines, found)
    {
      for i := 0 to |lines|
        invariant forall k :: 0 <= k < i ==> lines[k].categoryId in found
      {
        if lines[i].categoryId !in found {
          FirstMissingAt(lines, found, i);
          return Some(lines[i]);
        }
      }
      return None;
    }

    static method ItemRows(lines: seq<Line>, rows: map<nat, Category>, orderId: nat, firstItem: nat)
      returns (created: seq<OrderItem>)
      requires CategoryIds(lines) <= rows.Keys
      ensures created == NewItems(lines, rows, orderId, Serials(firstItem, |lines|))
    {
      created := [];
      ghost var wanted := NewItems(lines, rows, orderId, Serials(firstItem, |lines|));
      for i := 0 to |lines|
        invariant created == wanted[..i]
      {
        assert lines[i] in lines && lines[i].categoryId in CategoryIds(lines);
        var item := OrderItem(firstItem + i, orderId, lines[i].categoryId, lines[i].quantity,
                              rows[lines[i].categoryId].price);
        assert Serials(firstItem, |lines|)[i] == firstItem + i;
        assert wanted[i] == item;
        created := created + [item];
      }
    }

    /** One ticket row for every unit of every created item. */
    static method TicketRows(created: seq<OrderItem>) returns (rows: seq<Ticket>)
      ensures rows == NewTickets(created)
    {
      rows := [];
      for i := 0 to |created|
        invariant rows + NewTickets(created[i..]) == NewTickets(created)
      {
        var ticket := Ticket(created[i].categoryId, created[i].id, Reserved);
        ghost var before := rows;
        for n := 0 to created[i].quantity
          invariant rows == before + Copies(ticket, n)
        {
          rows := rows + [ticket];
          CopiesAppend(ticket, n);
        }
        assert created[i..][1..] == created[i + 1..];
      }
      assert created[|created|..] == [];
    }

    /** `create`: the booking in one transaction, then the delayed task that cancels it. */
    method Create(lines: seq<Line>, userId: Option<nat>, anonymousEmail: Option<string>) returns (reply: Outcome<nat>)
      requires store.Valid()
      modifies this`cancelTasks, store
      ensures store.Valid()
      ensures (store.State(), reply) == CreateOrder(old(store.State()), lines, userId, anonymousEmail,
                                                    old(store.nextOrderId), Serials(old(store.nextItemId), |lines|))
      ensures CreateEffect(old(store.State()), store.State(), reply, lines, userId, anonymousEmail,
                           old(store.nextOrderId), Serials(old(store.nextItemId), |lines|))
      ensures cancelTasks == if reply.Done? then old(cancelTasks) + [reply.value] else old(cancelTasks)
    {
      ghost var before, orderId, itemIds := store.State(), store.nextOrderId, Serials(store.nextItemId, |lines|);
      SerialsAreUnused(store, |lines|);
      reply := Book(lines, userId, anonymousEmail);
      CreateHasEffect(before, lines, userId, anonymousEmail, orderId, itemIds);
      if reply.Done? {
        cancelTasks := cancelTasks + [reply.value];
      }
    }

    method Book(lines: seq<Line>, userId: Option<nat>, anonymousEmail: Option<string>) returns (reply: Outcome<nat>)
      requires store.Valid()
      modifies store
      ensures store.Valid()
      ensures (store.State(), reply) == CreateOrder(old(store.State()), lines, userId, anonymousEmail,
                                                    old(store.nextOrderId), Serials(old(store.nextItemId), |lines|))
    {
      if userId.None? == anonymousEmail.None? { return Failed(OwnerNotExactlyOne); }
      var requested := RequestedQuantities(lines);
      var categoryIds := CategoryIds(lines);
      var rows := SelectCategories(lines, requested);
      SubsetOfSameSize(rows.Keys, categoryIds);
      assert |rows| == |rows.Keys|;
      if |rows| != |categoryIds| {
        var line := FirstUnavailable(lines, rows.Keys);
        if line.Some? {
          return Failed(NoTicketsAvailable(line.value.categoryId, 0, line.value.quantity));
        }
      }
      var orderId := InsertOrder(lines, rows, userId, anonymousEmail);
      reply := Done(orderId);
    }

    /** The three inserts: the order, one item a line at the price of its category row, one ticket a unit. */
    method InsertOrder(lines: seq<Line>, rows: map<nat, Category>, userId: Option<nat>, anonymousEmail: Option<string>)
      returns (orderId: nat)
      requires store.Valid() && CategoryIds(lines) <= rows.Keys
      requires forall c :: c in rows ==> c in store.categories && rows[c] == store.categories[c]
      modifies store
      ensures store.Valid() && orderId == old(store.nextOrderId) && CategoryIds(lines) <= old(store.categories).Keys
      ensures store.State() == Place(old(store.State()), lines, old(store.categories), userId, anonymousEmail,
                                     orderId, Serials(old(store.nextItemId), |lines|))
      ensures Booked(old(store.State()), store.State(), lines, userId, anonymousEmail,
                     orderId, Serials(old(store.nextItemId), |lines|))
    {
      ghost var before, itemIds := store.State(), Serials(store.nextItemId, |lines|);
      SerialsAreUnused(store, |lines|);
      orderId := InsertRows(lines, rows, userId, anonymousEmail);
      PlaceBooks(before, lines, userId, anonymousEmail, orderId, itemIds);
    }

    method InsertRows(lines: seq<Line>, rows: map<nat, Category>, userId: Option<nat>, anonymousEmail: Option<string>)
      returns (orderId: nat)
      requires store.Valid() && CategoryIds(lines) <= rows.Keys
      requires forall c :: c in rows ==> c in store.categories && rows[c] == store.categories[c]
      modifies store
      ensures store.Valid() && orderId == old(store.nextOrderId)
      ensures store.State() == Place(old(store.State()), lines, old(store.categories), userId, anonymousEmail,
                                     orderId, Serials(old(store.nextItemId), |lines|))
    {
      orderId := store.nextOrderId;
      var firstItem := store.nextItemId;
      var created := ItemRows(lines, rows, orderId, firstItem);
      SamePrices(lines, rows, store.categories, orderId, Serials(firstItem, |lines|));
      var tickets := TicketRows(created);
      store.orders := store.orders[orderId := Order(userId, if userId.Some? then None else anonymousEmail, Pending)];
      store.items := store.items + created;
      store.tickets := store.tickets + tickets;
      store.nextOrderId, store.nextItemId := orderId + 1, firstItem + |lines|;
    }

    /** A guarded UPDATE: the number of rows that had the id and the expected status. */
    method CompareAndSet(orderId: nat, expected: OrderStatus, status: OrderStatus) returns (rowcount: nat)
      modifies store`orders
      ensures rowcount == if orderId in old(store.orders) && old(store.orders)[orderId].status == expected then 1 else 0
      ensures store.orders == if rowcount == 1 then SetStatus(old(store.orders), orderId, status) else old(store.orders)
      ensures rowcount == 1 ==> OnlyStatusMoves(old(store.orders), store.orders, orderId, status)
    {
      if orderId in store.orders && store.orders[orderId].status == expected {
        store.orders := store.orders[orderId := store.orders[orderId].(status := status)];
        return 1;
      }
      return 0;
    }

    method ConfirmPayment(orderId: nat) returns (reply: Outcome<bool>)
      requires store.Valid()
      modifies this`mailTasks, store`orders, store`tickets
      ensures store.Valid()
      ensures (store.State(), reply) == Booking.ConfirmPayment(old(store.State()), orderId)
      ensures PaymentEffect(old(store.State()), store.State(), reply, orderId)
      ensures mailTasks == if store.State() != old(store.State()) then old(mailTasks) + [orderId] else old(mailTasks)
    {
      PaymentHasEffect(store.State(), orderId);
      var updated := CompareAndSet(orderId, Pending, Paid);
      if updated == 0 {
        if orderId !in store.orders { return Failed(ObjectNotFound); }
        if store.orders[orderId].status == Paid { return Done(true); }
        return Failed(WrongState);
      }
      assert store.orders[orderId].status == Paid && old(store.orders)[orderId].status == Pending;
      var itemIds := ItemIds(store.items, orderId);
      if itemIds != {} {
        store.tickets := Each(store.tickets, MarkPaid(itemIds));
      } else {
        assert Each(store.tickets, MarkPaid({})) == store.tickets;
      }
      mailTasks := mailTasks + [orderId];
      reply := Done(true);
    }

    method ExpireOrder(orderId: nat) returns (reply: Outcome<bool>)
      requires store.Valid()
      modifies store`orders, store`tickets
      ensures store.Valid()
      ensures (store.State(), reply) == Booking.ExpireOrder(old(store.State()), orderId)
      ensures ExpiryEffect(old(store.State()), store.State(), reply, orderId)
    {
      ExpiryHasEffect(store.State(), orderId);
      var updated := CompareAndSet(orderId, Pending, Cancelled);
      if updated == 0 {
        if orderId !in store.orders { return Failed(ObjectNotFound); }
        if store.orders[orderId].status == Cancelled { return Done(true); }
        return Done(false);
      }
      store.tickets := Keep(store.tickets, NotOf(ItemIds(store.items, orderId)));
      reply := Done(true);
    }

    method MigrateAnonymousOrders(email: string) returns (reply: Outcome<nat>)
      requires store.Valid()
      modifies store`orders
      ensures store.Valid()
      ensures (store.State(), reply) == Booking.MigrateAnonymousOrders(old(store.State()), email)
      ensures MigrationEffect(old(store.State()), store.State(), reply, email)
    {
      MigrationHasEffect(store.State(), email);
      if email !in store.users { return Failed(ObjectNotFound); }
      var userId := store.users[email];
      var mine := OrdersOfEmail(store.orders, email);
      store.orders := map o | o in store.orders ::
        if o in mine then store.orders[o].(userId := Some(userId), anonymousEmail := None) else store.orders[o];
      reply := Done(|mine|);
    }
  }

  lemma {:induction false} CopiesAppend(t: Ticket, n: nat)
    ensures Copies(t, n) + [t] == Copies(t, n + 1)
  {
    if n > 0 {
      CopiesAppend(t, n - 1);
    }
  }

  /** The length test of `create`: as many rows as distinct ids means every requested category was found. */
  lemma SubsetOfSameSize(part: set<nat>, whole: set<nat>)
    requires part <= whole
    ensures |part| == |whole| <==> whole <= part
  {
    if whole <= part {
      assert part == whole;
    } else {
      var x :| x in whole && x !in part;
      SubsetIsNoLarger(part, whole - {x});
    }
  }

  lemma {:induction false} SubsetIsNoLarger(part: set<nat>, whole: set<nat>)
    requires part <= whole
    ensures |part| <= |whole|
  {
    if part != {} {
      var x :| x in part;
      SubsetIsNoLarger(part - {x}, whole - {x});
    }
  }

  lemma {:induction false} FirstMissingAt(lines: seq<Line>, found: set<nat>, i: nat)
    requires i < |lines| && lines[i].categoryId !in found
    requires forall k :: 0 <= k < i ==> lines[k].categoryId in found
    ensures !(CategoryIds(lines) <= found) && FirstMissing(lines, found) == lines[i]
  {
    assert lines[i] in lines && lines[i].categoryId in CategoryIds(lines);
    if i > 0 {
      assert lines[0].categoryId in found;
      assert forall k :: 0 <= k < |lines| - 1 ==> lines[1..][k] == lines[k + 1];
      FirstMissingAt(lines[1..], found, i - 1);
    }
  }
}

/** What the availability test of a booking achieves: exact selection, and when it prevents overselling. */
module Capacity {
  import opened Tables
  import opened SqlExpressions
  import opened Booking
  import opened Conservation

  /** No category holds more tickets than its total. */
  ghost predicate Within(db: Db) {
    forall c :: c in db.categories ==> Occupied(db, c) <= db.categories[c].total
  }

  function LineIn(c: nat): Line -> nat {
    (l: Line) => if l.categoryId == c then l.quantity else 0
  }

  /** Units of category `c` the whole request would insert. */
  function Ordered(lines: seq<Line>, c: nat): nat {
    Sum(lines, LineIn(c))
  }

  ghost predicate DistinctCategories(lines: seq<Line>) {
    forall j, k :: 0 <= j < k < |lines| ==> lines[j].categoryId != lines[k].categoryId
  }

  // ---------------------------------------------------------------- the compiled selection

  function RowOf(db: Db, c: nat): Row
    requires c in db.categories
  {
    map["id" := Int(c), "available_quantity" := Int(Available(db, c))]
  }

  /** `id IN ids AND id = CASE .. END` on one category row. */
  predicate Passes(row: Row, ids: set<nat>, arms: seq<Arm>) {
    && (exists c :: c in ids && Cell(row, "id") == Int(c))
    && Apply(Eq, Cell(row, "id"), FirstMatch(row, arms, Null)) == Yes
  }

  /** `wanted` lists the requested quantities, each category once, in some order. */
  ghost predicate Lists(wanted: seq<(int, int)>, requested: map<nat, nat>) {
    && (forall k :: 0 <= k < |wanted| ==>
          wanted[k].0 >= 0 && wanted[k].0 in requested && wanted[k].1 == requested[wanted[k].0])
    && (forall c :: c in requested ==> exists k :: 0 <= k < |wanted| && wanted[k].0 == c)
  }

  lemma RowCells(db: Db, c: nat)
    requires c in db.categories
    ensures Cell(RowOf(db, c), "id") == Int(c) && Cell(RowOf(db, c), "available_quantity") == Int(Available(db, c))
  {
  }

  /** Some listed pair fits a category exactly when the category was requested and has enough left. */
  lemma ListedIff(wanted: seq<(int, int)>, requested: map<nat, nat>, c: nat, available: nat)
    requires Lists(wanted, requested)
    ensures (exists k :: 0 <= k < |wanted| && wanted[k].0 == c && wanted[k].1 <= available)
            <==> c in requested && requested[c] <= available
  {
    if c in requested && requested[c] <= available {
      var k :| 0 <= k < |wanted| && wanted[k].0 == c;
      assert wanted[k].1 == requested[c];
    }
  }

  /** What SQL compares on the row of category `c` is what the numbers say. */
  lemma FitsIff(row: Row, c: nat, available: nat, wanted: seq<(int, int)>)
    requires Cell(row, "id") == Int(c) && Cell(row, "available_quantity") == Int(available)
    ensures (exists k :: 0 <= k < |wanted| && Cell(row, "id") == Int(wanted[k].0)
                         && Apply(Gte, Cell(row, "available_quantity"), Int(wanted[k].1)) == Yes)
            <==> exists k :: 0 <= k < |wanted| && wanted[k].0 == c && wanted[k].1 <= available
  {
    if k :| 0 <= k < |wanted| && wanted[k].0 == c && wanted[k].1 <= available {
      assert Cell(row, "id") == Int(wanted[k].0) && Apply(Gte, Cell(row, "available_quantity"), Int(wanted[k].1)) == Yes;
    }
  }

  /** The compiled WHERE clause keeps exactly the requested categories that have enough tickets left. */
  lemma SelectionIsExact(db: Db, lines: seq<Line>, wanted: seq<(int, int)>, arms: seq<Arm>, c: nat)
    requires c in db.categories
    requires Lists(wanted, Requested(lines)) && |arms| == |wanted|
    requires forall k :: 0 <= k < |arms| ==> IsAvailabilityArm(arms[k], wanted[k].0, wanted[k].1)
    ensures Passes(RowOf(db, c), CategoryIds(lines), arms) <==> c in Selected(db, lines)
  {
    RowCells(db, c);
    CaseIsDisjunction(RowOf(db, c), arms, wanted);
    FitsIff(RowOf(db, c), c, Available(db, c), wanted);
    ListedIff(wanted, Requested(lines), c, Available(db, c));
  }

  lemma {:induction false} FirstMissingIsFirst(lines: seq<Line>, found: set<nat>) returns (k: nat)
    requires !(CategoryIds(lines) <= found)
    ensures k < |lines| && FirstMissing(lines, found) == lines[k] && lines[k].categoryId !in found
    ensures forall j :: 0 <= j < k ==> lines[j].categoryId in found
  {
    if lines[0].categoryId !in found {
      k := 0;
    } else {
      assert lines == [lines[0]] + lines[1..];
      k := FirstMissingIsFirst(lines[1..], found);
      k := k + 1;
    }
  }

  /** The category does not exist, or has fewer tickets left than the request's quantity for it. */
  predicate Lacking(db: Db, lines: seq<Line>, c: nat)
    requires c in Requested(lines)
  {
    c !in db.categories || Available(db, c) < Requested(lines)[c]
  }

  predicate FirstLacking(db: Db, lines: seq<Line>, k: int) {
    && 0 <= k < |lines|
    && Lacking(db, lines, lines[k].categoryId)
    && forall j :: 0 <= j < k ==> !Lacking(db, lines, lines[j].categoryId)
  }

  /** A booking with one owner fails exactly when some requested category is missing or short, and then changes nothing. */
  lemma NoTicketsIff(db: Db, lines: seq<Line>, userId: Option<nat>, email: Option<string>, orderId: nat, itemIds: seq<nat>)
    requires |itemIds| == |lines| && userId.None? != email.None?
    ensures var (after, reply) := CreateOrder(db, lines, userId, email, orderId, itemIds);
            && (reply.Failed? <==> exists k :: 0 <= k < |lines| && Lacking(db, lines, lines[k].categoryId))
            && (reply.Failed? ==> after == db)
            && (reply.Failed? ==> exists k :: (FirstLacking(db, lines, k)
                  && reply.error == NoTicketsAvailable(lines[k].categoryId, 0, lines[k].quantity)))
  {
    var found := Selected(db, lines);
    if !(CategoryIds(lines) <= found) {
      var k := FirstMissingIsFirst(lines, found);
      assert FirstLacking(db, lines, k);
    } else {
      assert forall k :: 0 <= k < |lines| ==> lines[k] in lines && lines[k].categoryId in CategoryIds(lines);
    }
  }

  // ---------------------------------------------------------------- what a booking inserts

  lemma {:induction false} ItemsCarryLines(lines: seq<Line>, rows: map<nat, Category>, orderId: nat, ids: seq<nat>, c: nat)
    requires CategoryIds(lines) <= rows.Keys && |ids| == |lines|
    ensures Sum(NewItems(lines, rows, orderId, ids), QuantityIn(c)) == Ordered(lines, c)
  {
    if lines != [] {
      assert lines == [lines[0]] + lines[1..];
      ItemsCarryLines(lines[1..], rows, orderId, ids[1..], c);
      assert NewItems(lines, rows, orderId, ids)[1..] == NewItems(lines[1..], rows, orderId, ids[1..]);
    }
  }

  lemma PlacedOccupied(db: Db, lines: seq<Line>, rows: map<nat, Category>, userId: Option<nat>, email: Option<string>,
                       orderId: nat, itemIds: seq<nat>, c: nat)
    requires CategoryIds(lines) <= rows.Keys && |itemIds| == |lines|
    ensures Occupied(Place(db, lines, rows, userId, email, orderId, itemIds), c) == Occupied(db, c) + Ordered(lines, c)
  {
    var added := NewItems(lines, rows, orderId, itemIds);
    SumAppend(db.tickets, NewTickets(added), InCategory(c));
    NewTicketsByCategory(added, c);
    ItemsCarryLines(lines, rows, orderId, itemIds, c);
  }

  /** The tested quantity of a category is that of the last line that names it. */
  lemma {:induction false} LastQuantityIsTested(lines: seq<Line>, k: nat)
    requires k < |lines| && forall j :: k < j < |lines| ==> lines[j].categoryId != lines[k].categoryId
    ensures lines[k].categoryId in Requested(lines) && Requested(lines)[lines[k].categoryId] == lines[k].quantity
  {
    if k < |lines| - 1 {
      var earlier := lines[..|lines| - 1];
      assert lines[|lines| - 1].categoryId != lines[k].categoryId;
      assert earlier[k] == lines[k];
      LastQuantityIsTested(earlier, k);
    }
  }

  lemma {:induction false} TestedAtMostOrdered(lines: seq<Line>, c: nat)
    ensures c !in Requested(lines) ==> Ordered(lines, c) == 0
    ensures c in Requested(lines) ==> 1 <= Requested(lines)[c] <= Ordered(lines, c)
  {
    if lines != [] {
      var n := |lines| - 1;
      assert lines == lines[..n] + [lines[n]];
      TestedAtMostOrdered(lines[..n], c);
      SumAppend(lines[..n], [lines[n]], LineIn(c));
      SumOne(lines[n], LineIn(c));
    }
  }

  ghost predicate Once(lines: seq<Line>, c: nat) {
    forall j, k :: 0 <= j < k < |lines| ==> !(lines[j].categoryId == c && lines[k].categoryId == c)
  }

  lemma OnceAppend(lines: seq<Line>, last: Line, c: nat)
    ensures Once(lines + [last], c) <==> Once(lines, c) && (last.categoryId == c ==> c !in Requested(lines))
  {
    var all := lines + [last];
    assert all[|lines|] == last;
    assert forall j :: 0 <= j < |lines| ==> all[j] == lines[j];
    if c in Requested(lines) {
      var l :| l in lines && l.categoryId == c;
      var j :| 0 <= j < |lines| && lines[j] == l;
      assert all[j].categoryId == c;
    }
    if last.categoryId == c && c !in Requested(lines) {
      assert forall j :: 0 <= j < |lines| ==> lines[j] in lines && lines[j].categoryId != c;
    }
  }

  /** The tested quantity is the inserted one exactly when no two lines share the category. */
  lemma {:induction false} TestedAllIff(lines: seq<Line>, c: nat)
    requires c in Requested(lines)
    ensures Requested(lines)[c] == Ordered(lines, c) <==> Once(lines, c)
  {
    var n := |lines| - 1;
    assert lines == lines[..n] + [lines[n]];
    OnceAppend(lines[..n], lines[n], c);
    SumAppend(lines[..n], [lines[n]], LineIn(c));
    SumOne(lines[n], LineIn(c));
    TestedAtMostOrdered(lines[..n], c);
    if c in Requested(lines[..n]) {
      TestedAllIff(lines[..n], c);
    } else {
      assert forall j :: 0 <= j < n ==> lines[..n][j] in lines[..n] && lines[..n][j].categoryId != c;
    }
  }

  lemma DistinctTestsAll(lines: seq<Line>, c: nat)
    requires DistinctCategories(lines)
    ensures Ordered(lines, c) == if c in Requested(lines) then Requested(lines)[c] else 0
  {
    TestedAtMostOrdered(lines, c);
    if c in Requested(lines) {
      TestedAllIff(lines, c);
    }
  }

  // ---------------------------------------------------------------- overselling

  /** A booking whose lines name distinct categories keeps every category within its total. */
  lemma DistinctBookingKeepsWithin(db: Db, lines: seq<Line>, userId: Option<nat>, email: Option<string>,
                                   orderId: nat, itemIds: seq<nat>)
    requires Within(db) && DistinctCategories(lines) && |itemIds| == |lines|
    requires CategoryIds(lines) <= Selected(db, lines)
    ensures Within(Place(db, lines, db.categories, userId, email, orderId, itemIds))
  {
    forall c | c in db.categories
      ensures Occupied(Place(db, lines, db.categories, userId, email, orderId, itemIds), c) <= db.categories[c].total
    {
      PlacedOccupied(db, lines, db.categories, userId, email, orderId, itemIds, c);
      DistinctTestsAll(lines, c);
    }
  }

  /** Bookings the test accepts never oversell, whatever the tables hold. */
  ghost predicate SafeRequest(lines: seq<Line>) {
    forall db, orderId, itemIds :: SafeOn(db, lines, orderId, itemIds)
  }

  ghost predicate SafeOn(db: Db, lines: seq<Line>, orderId: nat, itemIds: seq<nat>) {
    Consistent(db) && Within(db) && |itemIds| == |lines| && Unused(db, orderId, itemIds)
    && CategoryIds(lines) <= Selected(db, lines)
    ==> Within(Place(db, lines, db.categories, Some(0), None, orderId, itemIds))
  }

  /** Tables in which every requested category has exactly the tested quantity left, each in an event of its own. */
  function Tight(lines: seq<Line>): Db {
    var requested := Requested(lines);
    Db(map["owner" := 0], map c | c in requested :: Event(0, map[], Draft), map c | c in requested :: Category(c, "category", 1, requested[c]),
       map[], [], [])
  }

  /** The capacity test protects a request exactly when it repeats no category, or asks for more than any total can be. */
  lemma SafeRequestIff(lines: seq<Line>)
    ensures SafeRequest(lines) <==>
            DistinctCategories(lines) || exists c :: c in Requested(lines) && Requested(lines)[c] > 100000
  {
    if DistinctCategories(lines) {
      forall db, orderId, itemIds ensures SafeOn(db, lines, orderId, itemIds) {
        if Within(db) && |itemIds| == |lines| && CategoryIds(lines) <= Selected(db, lines) {
          DistinctBookingKeepsWithin(db, lines, Some(0), None, orderId, itemIds);
        }
      }
    } else if c :| c in Requested(lines) && Requested(lines)[c] > 100000 {
      forall db, orderId, itemIds ensures SafeOn(db, lines, orderId, itemIds) {
        if Consistent(db) {
          BeyondAnyTotal(db, lines, c);
        }
      }
    } else {
      RepeatedCategoryOversells(lines);
    }
  }

  lemma BeyondAnyTotal(db: Db, lines: seq<Line>, c: nat)
    requires Consistent(db) && c in Requested(lines) && Requested(lines)[c] > 100000
    ensures c in CategoryIds(lines) && c !in Selected(db, lines)
  {
    assert c in db.categories ==> Available(db, c) <= 100000;
  }

  lemma TightPasses(lines: seq<Line>)
    requires forall c :: c in Requested(lines) ==> Requested(lines)[c] <= 100000
    ensures Consistent(Tight(lines)) && Within(Tight(lines)) && CategoryIds(lines) <= Selected(Tight(lines), lines)
  {
    forall c | c in Requested(lines) ensures Requested(lines)[c] >= 1 {
      TestedAtMostOrdered(lines, c);
    }
  }

  lemma TightOversells(lines: seq<Line>, c: nat, itemIds: seq<nat>)
    requires c in Requested(lines) && |itemIds| == |lines| && Requested(lines)[c] < Ordered(lines, c)
    ensures !Within(Place(Tight(lines), lines, Tight(lines).categories, Some(0), None, 0, itemIds))
  {
    var db := Tight(lines);
    PlacedOccupied(db, lines, db.categories, Some(0), None, 0, itemIds, c);
    assert db.categories[c].total == Requested(lines)[c];
  }

  lemma RepeatedIsUndertested(lines: seq<Line>) returns (c: nat)
    requires !DistinctCategories(lines)
    ensures c in Requested(lines) && Requested(lines)[c] < Ordered(lines, c)
  {
    var j, k :| 0 <= j < k < |lines| && lines[j].categoryId == lines[k].categoryId;
    c := lines[j].categoryId;
    assert lines[j] in lines;
    assert !Once(lines, c);
    TestedAtMostOrdered(lines, c);
    TestedAllIff(lines, c);
  }

  lemma RepeatedCategoryOversells(lines: seq<Line>)
    requires !DistinctCategories(lines)
    requires forall c :: c in Requested(lines) ==> Requested(lines)[c] <= 100000
    ensures !SafeRequest(lines)
  {
    var c := RepeatedIsUndertested(lines);
    var db := Oversold(lines, c, UpTo(|lines|));
    Unsafe(db, lines, 0, UpTo(|lines|));
  }

  /** Tables that pass the test and are oversold by the request. */
  lemma Oversold(lines: seq<Line>, c: nat, itemIds: seq<nat>) returns (db: Db)
    requires c in Requested(lines) && |itemIds| == |lines| && Requested(lines)[c] < Ordered(lines, c)
    requires forall d :: d in Requested(lines) ==> Requested(lines)[d] <= 100000
    ensures Consistent(db) && Within(db) && CategoryIds(lines) <= Selected(db, lines)
    ensures db.orders == map[] && db.items == []
    ensures !Within(Place(db, lines, db.categories, Some(0), None, 0, itemIds))
  {
    db := Tight(lines);
    TightPasses(lines);
    TightOversells(lines, c, itemIds);
  }

  lemma Unsafe(db: Db, lines: seq<Line>, orderId: nat, itemIds: seq<nat>)
    requires Consistent(db) && Within(db) && |itemIds| == |lines| && CategoryIds(lines) <= Selected(db, lines)
    requires orderId !in db.orders && db.items == [] && forall j, k :: 0 <= j < k < |itemIds| ==> itemIds[j] != itemIds[k]
    requires !Within(Place(db, lines, db.categories, Some(0), None, orderId, itemIds))
    ensures !SafeRequest(lines)
  {
    assert Unused(db, orderId, itemIds);
    assert !SafeOn(db, lines, orderId, itemIds);
  }

  function UpTo(n: nat): (r: seq<nat>)
    ensures |r| == n && forall k :: 0 <= k < n ==> r[k] == k
  {
    seq(n, k => k)
  }

  /** A booking with the keys it will get. */
  datatype Request = Request(lines: seq<Line>, userId: Option<nat>, email: Option<string>, orderId: nat, itemIds: seq<nat>)

  ghost predicate TestedOn(snapshot: Db, r: Request) {
    |r.itemIds| == |r.lines| && CategoryIds(r.lines) <= Selected(snapshot, r.lines)
  }

  ghost predicate AllTestedOn(snapshot: Db, requests: seq<Request>) {
    forall r :: r in requests ==> TestedOn(snapshot, r)
  }

  /** The bookings placed one after the other, none of them tested again. */
  ghost function PlaceAll(snapshot: Db, requests: seq<Request>): Db
    requires AllTestedOn(snapshot, requests)
  {
    if requests == [] then snapshot
    else
      var r := requests[|requests| - 1];
      assert TestedOn(snapshot, r);
      Place(PlaceAll(snapshot, requests[..|requests| - 1]), r.lines, snapshot.categories, r.userId, r.email, r.orderId, r.itemIds)
  }

  function OrderedBy(c: nat): Request -> nat {
    (r: Request) => Ordered(r.lines, c)
  }

  lemma {:induction false} PlacedAllCategories(snapshot: Db, requests: seq<Request>)
    requires AllTestedOn(snapshot, requests)
    ensures PlaceAll(snapshot, requests).categories == snapshot.categories
  {
    if requests != [] {
      PlacedAllCategories(snapshot, requests[..|requests| - 1]);
    }
  }

  lemma {:induction false} PlacedAllOccupied(snapshot: Db, requests: seq<Request>, c: nat)
    requires AllTestedOn(snapshot, requests)
    ensures Occupied(PlaceAll(snapshot, requests), c) == Occupied(snapshot, c) + Sum(requests, OrderedBy(c))
  {
    if requests != [] {
      var earlier, r := requests[..|requests| - 1], requests[|requests| - 1];
      assert TestedOn(snapshot, r);
      PlacedAllOccupied(snapshot, earlier, c);
      PlacedOccupied(PlaceAll(snapshot, earlier), r.lines, snapshot.categories, r.userId, r.email, r.orderId, r.itemIds, c);
      SumLast(requests, OrderedBy(c));
    }
  }

  /** Bookings that were all tested on one snapshot fit exactly when together they order no more than it had left. */
  lemma TestedOnSnapshot(snapshot: Db, requests: seq<Request>)
    requires Within(snapshot) && AllTestedOn(snapshot, requests)
    ensures Within(PlaceAll(snapshot, requests)) <==>
            forall c :: c in snapshot.categories ==> Sum(requests, OrderedBy(c)) <= Available(snapshot, c)
  {
    var after := PlaceAll(snapshot, requests);
    PlacedAllCategories(snapshot, requests);
    forall c | c in snapshot.categories
      ensures Occupied(after, c) <= after.categories[c].total <==> Sum(requests, OrderedBy(c)) <= Available(snapshot, c)
    {
      PlacedAllOccupied(snapshot, requests, c);
    }
  }

  /** The sequences hand out keys that no row has, and each only once. */
  ghost predicate NewKeys(snapshot: Db, requests: seq<Request>) {
    && (forall r :: r in requests ==> Unused(snapshot, r.orderId, r.itemIds))
    && (forall i, j :: 0 <= i < j < |requests| ==>
          requests[i].orderId != requests[j].orderId && !SharesItem(requests[i], requests[j]))
  }

  predicate SharesItem(r: Request, q: Request) {
    exists id :: id in r.itemIds && id in q.itemIds
  }

  ghost predicate SnapshotProtects(snapshot: Db) {
    forall requests :: AllTestedOn(snapshot, requests) && NewKeys(snapshot, requests) ==> Within(PlaceAll(snapshot, requests))
  }

  function Single(c: nat, orderId: nat, itemId: nat): Request {
    Request([Line(c, 1)], None, Some("guest"), orderId, [itemId])
  }

  /** Bookings of one ticket each, with keys from the given ones on. */
  function Singles(c: nat, n: nat, orderId: nat, itemId: nat): (r: seq<Request>)
    ensures |r| == n && forall k :: 0 <= k < n ==> r[k] == Single(c, orderId + k, itemId + k)
  {
    if n == 0 then [] else Singles(c, n - 1, orderId, itemId) + [Single(c, orderId + n - 1, itemId + n - 1)]
  }

  lemma {:induction false} SinglesOrder(c: nat, n: nat, orderId: nat, itemId: nat)
    ensures Sum(Singles(c, n, orderId, itemId), OrderedBy(c)) == n
  {
    if n > 0 {
      SinglesOrder(c, n - 1, orderId, itemId);
      assert Singles(c, n, orderId, itemId)[..n - 1] == Singles(c, n - 1, orderId, itemId);
      SumLast(Singles(c, n, orderId, itemId), OrderedBy(c));
      SumOne(Line(c, 1), LineIn(c));
    }
  }

  lemma SinglePasses(snapshot: Db, c: nat, orderId: nat, itemId: nat)
    requires c in snapshot.categories && Available(snapshot, c) >= 1
    ensures TestedOn(snapshot, Single(c, orderId, itemId))
  {
    assert [Line(c, 1)][..0] == [];
    assert Requested([Line(c, 1)]) == map[c := 1];
  }

  lemma {:induction false} AboveAll(keys: set<nat>) returns (bound: nat)
    ensures forall k :: k in keys ==> k < bound
    decreases keys
  {
    bound := 0;
    if k :| k in keys {
      var rest := AboveAll(keys - {k});
      bound := if rest < k + 1 then k + 1 else rest;
      forall other | other in keys ensures other < bound {
        if other != k { assert other in keys - {k}; }
      }
    }
  }

  function ItemKeys(items: seq<OrderItem>): set<nat> {
    set item | item in items :: item.id
  }

  /** There are always new keys for as many bookings of one ticket as one likes. */
  lemma NewSingles(snapshot: Db, c: nat, n: nat) returns (requests: seq<Request>)
    requires c in snapshot.categories && Available(snapshot, c) >= 1
    ensures AllTestedOn(snapshot, requests) && NewKeys(snapshot, requests) && Sum(requests, OrderedBy(c)) == n
  {
    var o := AboveAll(snapshot.orders.Keys);
    var i := AboveAll(ItemKeys(snapshot.items));
    requests := Singles(c, n, o, i);
    SinglesOrder(c, n, o, i);
    forall item | item in snapshot.items ensures item.id < i {
      assert item.id in ItemKeys(snapshot.items);
    }
    forall r | r in requests ensures TestedOn(snapshot, r) && Unused(snapshot, r.orderId, r.itemIds) {
      var k :| 0 <= k < n && requests[k] == r;
      SinglePasses(snapshot, c, o + k, i + k);
    }
  }

  /** Testing every booking on one snapshot protects the totals exactly when nothing is left to sell. */
  lemma SnapshotProtectsIff(snapshot: Db)
    requires Within(snapshot)
    ensures SnapshotProtects(snapshot) <==> forall c :: c in snapshot.categories ==> Available(snapshot, c) == 0
  {
    if forall c :: c in snapshot.categories ==> Available(snapshot, c) == 0 {
      forall requests | AllTestedOn(snapshot, requests) ensures Within(PlaceAll(snapshot, requests)) {
        forall c ensures Sum(requests, OrderedBy(c)) == 0 {
          forall r | r in requests ensures OrderedBy(c)(r) == 0 {
            NothingTested(snapshot, r);
          }
          SumZero(requests, OrderedBy(c));
        }
        TestedOnSnapshot(snapshot, requests);
      }
    } else {
      var c :| c in snapshot.categories && Available(snapshot, c) > 0;
      var requests := NewSingles(snapshot, c, Available(snapshot, c) + 1);
      TestedOnSnapshot(snapshot, requests);
    }
  }

  lemma NothingTested(snapshot: Db, r: Request)
    requires TestedOn(snapshot, r) && forall c :: c in snapshot.categories ==> Available(snapshot, c) == 0
    ensures r.lines == []
  {
    if r.lines != [] {
      var c := r.lines[0].categoryId;
      assert r.lines[0] in r.lines && c in CategoryIds(r.lines) && c in Requested(r.lines);
      TestedAtMostOrdered(r.lines, c);
    }
  }

  // ---------------------------------------------------------------- every other transaction

  /** A later total is no smaller than what the category already holds. */
  ghost predicate Prudent(db: Db, txn: Txn) {
    match txn
    case TxnCreate(lines, _, _, _, _) => DistinctCategories(lines)
    case TxnAdmin(EditCategory(id, _, _, _, total)) =>
      id in db.categories && total.Some? ==> Occupied(db, id) <= total.value
    case _ => true
  }

  lemma {:induction false} ReleaseKeepsWithin(before: Db, after: Db)
    requires Within(before) && after.categories == before.categories
    requires forall c :: c in before.categories ==> Occupied(after, c) <= Occupied(before, c)
    ensures Within(after)
  {
    forall c | c in after.categories ensures Occupied(after, c) <= after.categories[c].total {
      assert Occupied(after, c) <= Occupied(before, c);
    }
  }

  lemma ConfirmKeepsWithin(db: Db, orderId: nat)
    requires Within(db)
    ensures Within(ConfirmPayment(db, orderId).0)
  {
    var after := ConfirmPayment(db, orderId).0;
    forall c | c in db.categories ensures Occupied(after, c) <= Occupied(db, c) {
      SumOfEach(db.tickets, MarkPaid(ItemIds(db.items, orderId)), InCategory(c));
    }
    ReleaseKeepsWithin(db, after);
  }

  lemma ExpireKeepsWithin(db: Db, orderId: nat)
    requires Within(db)
    ensures Within(ExpireOrder(db, orderId).0)
  {
    var after := ExpireOrder(db, orderId).0;
    forall c | c in db.categories ensures Occupied(after, c) <= Occupied(db, c) {
      SumOfKeep(db.tickets, NotOf(ItemIds(db.items, orderId)), InCategory(c));
    }
    ReleaseKeepsWithin(db, after);
  }

  lemma ExecKeepsWithin(db: Db, txn: Txn)
    requires Consistent(db) && Within(db) && Prudent(db, txn)
    ensures Within(Exec(db, txn))
  {
    match txn
    case TxnCreate(lines, userId, email, orderId, itemIds) =>
      if |itemIds| == |lines| && Unused(db, orderId, itemIds) && userId.None? != email.None?
         && CategoryIds(lines) <= Selected(db, lines) {
        DistinctBookingKeepsWithin(db, lines, userId, email, orderId, itemIds);
      }
    case TxnConfirm(orderId) =>
      ConfirmKeepsWithin(db, orderId);
    case TxnExpire(orderId) =>
      ExpireKeepsWithin(db, orderId);
    case TxnMigrate(email) =>
      ReleaseKeepsWithin(db, Exec(db, txn));
    case TxnAdmin(a) => AdminKeepsWithin(db, a);
  }

  lemma AdminKeepsWithin(db: Db, a: Admin)
    requires Consistent(db) && Within(db) && Prudent(db, TxnAdmin(a))
    ensures Within(Administer(db, a))
  {
    var after := Administer(db, a);
    assert after.tickets == db.tickets;
    forall c | c in after.categories ensures Occupied(after, c) <= after.categories[c].total {
      if c in db.categories {
        assert Occupied(db, c) <= db.categories[c].total;
      } else {
        EmptyCategory(db, c);
      }
    }
  }

  lemma EmptyCategory(db: Db, c: nat)
    requires Consistent(db) && c !in db.categories
    ensures Occupied(db, c) == 0
  {
    forall t | t in db.tickets ensures InCategory(c)(t) == 0 {
      assert Belongs(db, t);
      ItemOfMember(db.items, t.orderItemId);
    }
    SumZero(db.tickets, InCategory(c));
  }

  /** Changing the total of a category keeps it within capacity exactly when the new total covers what is held. */
  lemma LoweringTotalIff(db: Db, id: nat, userId: nat, total: Positive)
    requires Consistent(db) && Within(db) && id in db.categories
    requires UpdateCategory(db, id, userId, None, None, Some(total)).1 == Done(true)
    ensures Within(UpdateCategory(db, id, userId, None, None, Some(total)).0) <==> Occupied(db, id) <= total
  {
    var after := UpdateCategory(db, id, userId, None, None, Some(total)).0;
    assert after.categories[id].total == total && after.tickets == db.tickets;
    if Occupied(db, id) <= total {
      AdminKeepsWithin(db, EditCategory(id, userId, None, None, Some(total)));
    } else {
      assert Occupied(after, id) > after.categories[id].total;
    }
  }
}

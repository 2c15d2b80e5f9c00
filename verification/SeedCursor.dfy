/** Seeding: bulk insertion keeps the order, and a cursor aligns the created ticket categories with their events. */
module SeedCursor {
  import opened Tables
  import opened Booking

  /** A created row: its new primary key and the data it was made from. */
  datatype Created<+T> = Created(id: nat, data: T)

  datatype Offer = Offer(eventId: nat, name: string)

  function Max(a: int, b: int): int {
    if a < b then b else a
  }

  function ChunkSize(fieldsCount: nat): (size: nat)
    requires fieldsCount > 0
    ensures size >= 100
  {
    Max(100, 30000 / fieldsCount)
  }

  function Min(a: int, b: int): int {
    if a < b then a else b
  }

  /** The rows were made from the data, in order. */
  ghost predicate CreatedFrom<T>(rows: seq<Created<T>>, data: seq<T>) {
    |rows| == |data| && forall k :: 0 <= k < |rows| ==> rows[k].data == data[k]
  }

  function Keys<T>(rows: seq<Created<T>>): seq<nat> {
    Each(rows, (r: Created<T>) => r.id)
  }

  ghost predicate DistinctKeys<T>(rows: seq<Created<T>>) {
    forall i, j :: 0 <= i < j < |rows| ==> rows[i].id != rows[j].id
  }

  class Repository<T> {
    var rows: seq<Created<T>>
    var next: nat

    ghost predicate Valid()
      reads this
    {
      DistinctKeys(rows) && forall r :: r in rows ==> r.id < next
    }

    constructor ()
      ensures Valid() && rows == []
    {
      rows, next := [], 0;
    }

    /** One `INSERT .. RETURNING` of a chunk: the rows come back in the order of the values. */
    method Insert(chunk: seq<T>) returns (dtos: seq<Created<T>>)
      requires Valid()
      modifies this
      ensures Valid() && Appended(old(rows), rows, dtos, chunk)
    {
      dtos := [];
      for i := 0 to |chunk|
        invariant Valid() && rows == old(rows) + dtos
        invariant |dtos| == i && forall j :: 0 <= j < i ==> dtos[j].data == chunk[j]
      {
        var dto := Created(next, chunk[i]);
        dtos, rows, next := dtos + [dto], rows + [dto], next + 1;
      }
    }

    /** `create(m_data)`: chunks of 1000. */
    method Create(data: seq<T>) returns (dtos: seq<Created<T>>)
      requires Valid()
      modifies this
      ensures Valid() && Appended(old(rows), rows, dtos, data)
    {
      dtos := InsertInChunks(data, 1000);
    }

    method InsertInChunks(data: seq<T>, chunkSize: nat) returns (dtos: seq<Created<T>>)
      requires Valid() && chunkSize > 0
      modifies this
      ensures Valid() && Appended(old(rows), rows, dtos, data)
    {
      dtos := [];
      ghost var before := rows;
      var i := 0;
      while i < |data|
        invariant Valid() && i <= |data| && Appended(before, rows, dtos, data[..i])
      {
        var end := Min(i + chunkSize, |data|);
        var chunk := Insert(data[i..end]);
        OneChunk(before, before + dtos, rows, dtos, chunk, data, i, end);
        dtos, i := dtos + chunk, end;
      }
    }

    /** `execute_bulk`: chunks sized by the number of columns, each handed to `create`. */
    method ExecuteBulk(data: seq<T>, fieldsCount: nat) returns (dtos: seq<Created<T>>)
      requires Valid() && fieldsCount > 0
      modifies this
      ensures Valid() && Appended(old(rows), rows, dtos, data)
    {
      if data == [] { return []; }
      dtos := [];
      ghost var before := rows;
      var chunkSize := ChunkSize(fieldsCount);
      var i := 0;
      while i < |data|
        invariant Valid() && i <= |data| && Appended(before, rows, dtos, data[..i])
      {
        var end := Min(i + chunkSize, |data|);
        var chunk := Create(data[i..end]);
        OneChunk(before, before + dtos, rows, dtos, chunk, data, i, end);
        dtos, i := dtos + chunk, end;
      }
    }
  }

  ghost predicate Appended<T>(before: seq<Created<T>>, after: seq<Created<T>>, dtos: seq<Created<T>>, data: seq<T>) {
    after == before + dtos && CreatedFrom(dtos, data)
  }

  lemma OneChunk<T>(before: seq<Created<T>>, between: seq<Created<T>>, after: seq<Created<T>>,
                    dtos: seq<Created<T>>, chunk: seq<Created<T>>, data: seq<T>, i: nat, end: nat)
    requires i <= end <= |data| && Appended(before, between, dtos, data[..i]) && Appended(between, after, chunk, data[i..end])
    ensures Appended(before, after, dtos + chunk, data[..end])
  {
    assert before + dtos + chunk == before + (dtos + chunk);
    var both := dtos + chunk;
    forall k | 0 <= k < |both| ensures both[k].data == data[k] {
      if k >= i { assert both[k] == chunk[k - i] && data[i..end][k - i] == data[k]; }
    }
  }

  // ---- The offers of a list of events.

  function OffersOf(id: nat, names: seq<string>): seq<Offer> {
    Each(names, n => Offer(id, n))
  }

  function AllOffers(events: seq<Created<EventState>>, names: seq<seq<string>>): seq<Offer>
    requires |names| == |events|
  {
    if events == [] then [] else OffersOf(events[0].id, names[0]) + AllOffers(events[1..], names[1..])
  }

  function IsOf(id: nat): Offer -> bool {
    (o: Offer) => o.eventId == id
  }

  lemma {:induction false} KeepAppend<T>(a: seq<T>, b: seq<T>, p: T -> bool)
    ensures Keep(a + b, p) == Keep(a, p) + Keep(b, p)
  {
    if a == [] {
      assert a + b == b;
    } else {
      assert (a + b)[1..] == a[1..] + b;
      KeepAppend(a[1..], b, p);
    }
  }

  lemma {:induction false} KeepAllOrNone<T>(a: seq<T>, p: T -> bool, all: bool)
    requires forall x :: x in a ==> p(x) == all
    ensures Keep(a, p) == if all then a else []
  {
    if a != [] {
      assert a[0] in a && a == [a[0]] + a[1..];
      KeepAllOrNone(a[1..], p, all);
    }
  }

  /** The offers counted for an event are its own, when event ids are distinct. */
  lemma {:induction false} OffersOfOne(events: seq<Created<EventState>>, names: seq<seq<string>>, i: nat)
    requires |names| == |events| && i < |events| && DistinctKeys(events)
    ensures Keep(AllOffers(events, names), IsOf(events[i].id)) == OffersOf(events[i].id, names[i])
  {
    var first, rest := OffersOf(events[0].id, names[0]), AllOffers(events[1..], names[1..]);
    KeepAppend(first, rest, IsOf(events[i].id));
    KeepAllOrNone(first, IsOf(events[i].id), i == 0);
    if i == 0 {
      OffersOfOthers(events[1..], names[1..], events[0].id);
    } else {
      OffersOfOne(events[1..], names[1..], i - 1);
    }
  }

  lemma {:induction false} OffersOfOthers(events: seq<Created<EventState>>, names: seq<seq<string>>, id: nat)
    requires |names| == |events| && forall k :: 0 <= k < |events| ==> events[k].id != id
    ensures Keep(AllOffers(events, names), IsOf(id)) == []
  {
    if events != [] {
      var first := OffersOf(events[0].id, names[0]);
      KeepAppend(first, AllOffers(events[1..], names[1..]), IsOf(id));
      KeepAllOrNone(first, IsOf(id), false);
      OffersOfOthers(events[1..], names[1..], id);
    }
  }

  ghost predicate IsApproved(events: seq<Created<EventState>>, id: nat) {
    exists k :: 0 <= k < |events| && events[k].id == id && events[k].data == Approved
  }

  /** Created categories whose event is approved. */
  ghost function Purchasable(events: seq<Created<EventState>>): Created<Offer> -> bool {
    (t: Created<Offer>) => IsApproved(events, t.data.eventId)
  }

  /** The categories from the cursor on are those of the events from `i` on. */
  ghost predicate Aligned(events: seq<Created<EventState>>, names: seq<seq<string>>, i: nat,
                          tickets: seq<Created<Offer>>, cursor: nat)
    requires |names| == |events|
  {
    i <= |events| && cursor <= |tickets| && CreatedFrom(tickets[cursor..], AllOffers(events[i..], names[i..]))
  }

  /** The next event's categories stand at the cursor. */
  lemma NextAligned(events: seq<Created<EventState>>, names: seq<seq<string>>, i: nat, tickets: seq<Created<Offer>>, cursor: nat)
    requires |names| == |events| && i < |events|
    requires Aligned(events, names, i, tickets, cursor)
    ensures cursor + |names[i]| <= |tickets|
    ensures Aligned(events, names, i + 1, tickets, cursor + |names[i]|)
    ensures forall t :: t in tickets[cursor..cursor + |names[i]|] ==> t.data.eventId == events[i].id
  {
    var n := |names[i]|;
    var mine, rest := OffersOf(events[i].id, names[i]), AllOffers(events[i + 1..], names[i + 1..]);
    assert events[i..][1..] == events[i + 1..] && names[i..][1..] == names[i + 1..];
    var datas := AllOffers(events[i..], names[i..]);
    assert datas == mine + rest && |mine| == n;
    forall k | 0 <= k < |rest| ensures tickets[cursor + n..][k].data == rest[k] {
      assert tickets[cursor..][n + k].data == datas[n + k];
    }
    var these := tickets[cursor..cursor + n];
    forall t | t in these ensures t.data.eventId == events[i].id {
      var k :| 0 <= k < n && these[k] == t;
      assert tickets[cursor..][k].data == datas[k] == mine[k];
    }
  }

  /** They are all purchasable or none. */
  lemma NextAtCursor(events: seq<Created<EventState>>, names: seq<seq<string>>, i: nat, tickets: seq<Created<Offer>>, cursor: nat)
    requires |names| == |events| && i < |events| && DistinctKeys(events)
    requires Aligned(events, names, i, tickets, cursor)
    ensures cursor + |names[i]| <= |tickets|
    ensures Aligned(events, names, i + 1, tickets, cursor + |names[i]|)
    ensures |Keep(AllOffers(events, names), IsOf(events[i].id))| == |names[i]|
    ensures Keep(tickets[..cursor + |names[i]|], Purchasable(events))
            == Keep(tickets[..cursor], Purchasable(events))
               + if events[i].data == Approved then tickets[cursor..cursor + |names[i]|] else []
  {
    OffersOfOne(events, names, i);
    NextAligned(events, names, i, tickets, cursor);
    var these := tickets[cursor..cursor + |names[i]|];
    KeepAllOrNone(these, Purchasable(events), events[i].data == Approved);
    assert tickets[..cursor + |names[i]|] == tickets[..cursor] + these;
    KeepAppend(tickets[..cursor], these, Purchasable(events));
  }

  lemma AlignedAtEnd(events: seq<Created<EventState>>, names: seq<seq<string>>, tickets: seq<Created<Offer>>, cursor: nat)
    requires |names| == |events| && Aligned(events, names, |events|, tickets, cursor)
    ensures tickets[..cursor] == tickets
  {
    assert events[|events|..] == [];
    assert |tickets[cursor..]| == 0;
  }

  class Seeder {
    var allEventIds: seq<nat>
    var purchasable: seq<Created<Offer>>

    /** `_seed_events`: `names` are the randomly chosen category names of each event. */
    method SeedEvents(eventTable: Repository<EventState>, categoryTable: Repository<Offer>,
                      states: seq<EventState>, names: seq<seq<string>>)
      requires |names| == |states| && eventTable.Valid() && categoryTable.Valid()
      modifies this, eventTable, categoryTable
      ensures eventTable.Valid() && categoryTable.Valid()
      ensures old(eventTable.rows) <= eventTable.rows && old(categoryTable.rows) <= categoryTable.rows
      ensures var events := eventTable.rows[|old(eventTable.rows)|..];
              var categories := categoryTable.rows[|old(categoryTable.rows)|..];
              && CreatedFrom(events, states) && allEventIds == old(allEventIds) + Keys(events)
              && CreatedFrom(categories, AllOffers(events, names))
              && purchasable == old(purchasable) + Keep(categories, Purchasable(events))
    {
      if states == [] { return; }
      var createdEvents := eventTable.ExecuteBulk(states, 8);
      assert createdEvents == eventTable.rows[|old(eventTable.rows)|..];
      var offers := CollectOffers(createdEvents, names);
      if offers != [] {
        var createdTickets := categoryTable.ExecuteBulk(offers, 4);
        assert createdTickets == categoryTable.rows[|old(categoryTable.rows)|..];
        CollectPurchasable(createdEvents, states, offers, names, createdTickets);
      }
    }

    method CollectOffers(createdEvents: seq<Created<EventState>>, names: seq<seq<string>>) returns (offers: seq<Offer>)
      requires |names| == |createdEvents|
      modifies this`allEventIds
      ensures offers == AllOffers(createdEvents, names)
      ensures allEventIds == old(allEventIds) + Keys(createdEvents)
    {
      offers := [];
      for i := 0 to |createdEvents|
        invariant offers + AllOffers(createdEvents[i..], names[i..]) == AllOffers(createdEvents, names)
        invariant allEventIds == old(allEventIds) + Keys(createdEvents)[..i]
      {
        assert createdEvents[i..][1..] == createdEvents[i + 1..] && names[i..][1..] == names[i + 1..];
        allEventIds := allEventIds + [createdEvents[i].id];
        offers := offers + OffersOf(createdEvents[i].id, names[i]);
      }
    }

    method Append(createdTickets: seq<Created<Offer>>, ticketCursor: nat, ticketsCount: nat)
      requires ticketCursor + ticketsCount <= |createdTickets|
      modifies this`purchasable
      ensures purchasable == old(purchasable) + createdTickets[ticketCursor..ticketCursor + ticketsCount]
    {
      for k := 0 to ticketsCount
        invariant purchasable == old(purchasable) + createdTickets[ticketCursor..ticketCursor + k]
      {
        purchasable := purchasable + [createdTickets[ticketCursor + k]];
      }
    }

    /** One turn of the cursor loop. */
    method CollectNext(createdEvents: seq<Created<EventState>>, state: EventState, offers: seq<Offer>,
                       ghost names: seq<seq<string>>, createdTickets: seq<Created<Offer>>, i: nat, cursor: nat)
      returns (next: nat)
      requires |names| == |createdEvents| && DistinctKeys(createdEvents)
      requires i < |createdEvents| && createdEvents[i].data == state && offers == AllOffers(createdEvents, names)
      requires Aligned(createdEvents, names, i, createdTickets, cursor)
      modifies this`purchasable
      ensures cursor <= next && Aligned(createdEvents, names, i + 1, createdTickets, next)
      ensures exists more :: purchasable == old(purchasable) + more
                             && Keep(createdTickets[..next], Purchasable(createdEvents))
                                == Keep(createdTickets[..cursor], Purchasable(createdEvents)) + more
    {
      NextAtCursor(createdEvents, names, i, createdTickets, cursor);
      var ticketsCount := |Keep(offers, IsOf(createdEvents[i].id))|;
      ghost var more := if state == Approved then createdTickets[cursor..cursor + ticketsCount] else [];
      if state == Approved {
        Append(createdTickets, cursor, ticketsCount);
      }
      next := cursor + ticketsCount;
      assert purchasable == old(purchasable) + more;
    }

    /** The cursor loop: it stays in bounds and collects exactly the categories of approved events. */
    method CollectPurchasable(createdEvents: seq<Created<EventState>>, states: seq<EventState>, offers: seq<Offer>,
                              ghost names: seq<seq<string>>, createdTickets: seq<Created<Offer>>)
      requires |names| == |createdEvents| && DistinctKeys(createdEvents) && CreatedFrom(createdEvents, states)
      requires offers == AllOffers(createdEvents, names) && CreatedFrom(createdTickets, offers)
      modifies this`purchasable
      ensures purchasable == old(purchasable) + Keep(createdTickets, Purchasable(createdEvents))
    {
      var ticketCursor := 0;
      assert createdTickets[0..] == createdTickets && createdEvents[0..] == createdEvents && names[0..] == names;
      assert Keep(createdTickets[..0], Purchasable(createdEvents)) == [];
      for i := 0 to |createdEvents|
        invariant 0 <= ticketCursor && Aligned(createdEvents, names, i, createdTickets, ticketCursor)
        invariant purchasable == old(purchasable) + Keep(createdTickets[..ticketCursor], Purchasable(createdEvents))
      {
        ticketCursor := CollectNext(createdEvents, states[i], offers, names, createdTickets, i, ticketCursor);
      }
      AlignedAtEnd(createdEvents, names, createdTickets, ticketCursor);
    }
  }
}

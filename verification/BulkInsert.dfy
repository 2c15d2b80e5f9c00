/** Bulk creation of rows: values inherited from filters, chunked inserts that skip conflicts, and the view-log consumer. */
module BulkInsert {
  import opened Tables

  datatype Cell = Num(n: int) | Str(s: string)

  /** A row as the dictionary of its columns. */
  type Item = map<string, Cell>

  function Projected(item: Item, columns: set<string>): Item {
    map c | c in columns && c in item :: item[c]
  }

  predicate Conflicts(rows: seq<Item>, item: Item, index: set<string>) {
    exists r :: r in rows && Projected(r, index) == Projected(item, index)
  }

  /** One row of an INSERT; with index columns it is `ON CONFLICT (index) DO NOTHING`. */
  function InsertOne(rows: seq<Item>, item: Item, index: Option<set<string>>): seq<Item> {
    if index.Some? && Conflicts(rows, item, index.value) then rows else rows + [item]
  }

  /** One INSERT of several rows. A row already inserted by the same statement conflicts too. */
  function InsertAll(rows: seq<Item>, items: seq<Item>, index: Option<set<string>>): (r: seq<Item>)
    ensures rows <= r && |r| <= |rows| + |items|
  {
    if items == [] then rows
    else InsertOne(InsertAll(rows, items[..|items| - 1], index), items[|items| - 1], index)
  }

  lemma {:induction false} InsertAllAppend(rows: seq<Item>, a: seq<Item>, b: seq<Item>, index: Option<set<string>>)
    ensures InsertAll(rows, a + b, index) == InsertAll(InsertAll(rows, a, index), b, index)
  {
    if b == [] {
      assert a + b == a;
    } else {
      var n := |b| - 1;
      assert (a + b)[..|a + b| - 1] == a + b[..n];
      InsertAllAppend(rows, a, b[..n], index);
    }
  }

  lemma ChunkStep(rows: seq<Item>, items: seq<Item>, i: nat, end: nat, index: Option<set<string>>)
    requires i <= end <= |items|
    ensures InsertAll(rows, items[..end], index) == InsertAll(InsertAll(rows, items[..i], index), items[i..end], index)
  {
    InsertAllAppend(rows, items[..i], items[i..end], index);
    assert items[..i] + items[i..end] == items[..end];
  }

  // ---------------------------------------------------------------- inheriting the filters

  /** Whether the key contains `__`. */
  predicate IsLookup(key: string) {
    exists i :: 0 <= i < |key| - 1 && key[i] == '_' && key[i + 1] == '_'
  }

  /** A new row takes the values of the query's plain filters, unless it sets the column itself. */
  function Inherited(item: Item, filters: map<string, Cell>): Item {
    (map k | k in filters && !IsLookup(k) :: filters[k]) + item
  }

  /** The query a creation through a relation starts from: its equalities, and the columns the relation connects. */
  datatype Parent = Parent(criteria: seq<(string, Option<Cell>)>, localColumn: string, foreignKey: string)

  /** The value the first equality on the column gives. */
  function ValueOf(criteria: seq<(string, Option<Cell>)>, column: string): Option<Cell> {
    if criteria == [] then None
    else if criteria[0].0 == column then criteria[0].1
    else ValueOf(criteria[1..], column)
  }

  /** A new row refers to the parent its relation query fixes, unless it sets the foreign key itself. */
  function Connected(item: Item, parent: Option<Parent>): Item {
    if parent.None? || parent.value.foreignKey in item then item
    else match ValueOf(parent.value.criteria, parent.value.localColumn)
      case None => item
      case Some(value) => item[parent.value.foreignKey := value]
  }

  function Inheriting(filters: map<string, Cell>, parent: Option<Parent>): Item -> Item {
    (item: Item) => Connected(Inherited(item, filters), parent)
  }

  /** The value a new row gets in a column: its own, or that of a plain filter, or the parent's key; else none. */
  ghost predicate ColumnIs(filled: Item, item: Item, filters: map<string, Cell>, parent: Option<Parent>, k: string) {
    var own, plain := k in item, k in filters && !IsLookup(k);
    && (own ==> k in filled && filled[k] == item[k])
    && (!own && plain ==> k in filled && filled[k] == filters[k])
    && (!own && !plain ==> if IsParentKey(parent, k) then k in filled && Some(filled[k]) == FirstEqual(parent.value) else k !in filled)
  }

  ghost predicate FilledFrom(filled: Item, item: Item, filters: map<string, Cell>, parent: Option<Parent>) {
    forall k :: ColumnIs(filled, item, filters, parent, k)
  }

  /** The column is the foreign key of a relation whose parent query fixes the connected column. */
  ghost predicate IsParentKey(parent: Option<Parent>, k: string) {
    parent.Some? && parent.value.foreignKey == k && FirstEqual(parent.value).Some?
  }

  /** The value of the first equality on the connected column, if any names it. */
  ghost function FirstEqual(parent: Parent): Option<Cell> {
    if exists n: nat :: IsFirstOn(parent.criteria, parent.localColumn, n) then
      var n: nat :| IsFirstOn(parent.criteria, parent.localColumn, n);
      parent.criteria[n].1
    else None
  }

  ghost predicate IsFirstOn(criteria: seq<(string, Option<Cell>)>, column: string, n: nat) {
    n < |criteria| && criteria[n].0 == column && forall m :: 0 <= m < n ==> criteria[m].0 != column
  }

  lemma {:induction false} ValueOfIsFirst(criteria: seq<(string, Option<Cell>)>, column: string, n: nat)
    requires IsFirstOn(criteria, column, n)
    ensures ValueOf(criteria, column) == criteria[n].1
  {
    if n > 0 {
      assert criteria[0].0 != column;
      forall m | 0 <= m < n - 1 ensures criteria[1..][m].0 != column {
        assert criteria[m + 1].0 != column;
      }
      ValueOfIsFirst(criteria[1..], column, n - 1);
    }
  }

  lemma {:induction false} ValueOfNone(criteria: seq<(string, Option<Cell>)>, column: string)
    requires ValueOf(criteria, column).Some?
    ensures exists n: nat :: IsFirstOn(criteria, column, n)
  {
    if criteria[0].0 == column {
      assert IsFirstOn(criteria, column, 0);
    } else {
      ValueOfNone(criteria[1..], column);
      var n: nat :| IsFirstOn(criteria[1..], column, n);
      forall m | 0 <= m < n + 1 ensures criteria[m].0 != column {
        if m > 0 { assert criteria[1..][m - 1].0 != column; }
      }
      assert IsFirstOn(criteria, column, n + 1);
    }
  }

  lemma ValueOfIsFirstEqual(parent: Parent)
    ensures ValueOf(parent.criteria, parent.localColumn) == FirstEqual(parent)
  {
    if exists n: nat :: IsFirstOn(parent.criteria, parent.localColumn, n) {
      var n: nat :| IsFirstOn(parent.criteria, parent.localColumn, n) && FirstEqual(parent) == parent.criteria[n].1;
      ValueOfIsFirst(parent.criteria, parent.localColumn, n);
    } else if ValueOf(parent.criteria, parent.localColumn).Some? {
      ValueOfNone(parent.criteria, parent.localColumn);
    }
  }

  /** A new row has its own columns, every plain filter, and the parent's key, in this order of precedence, and no more. */
  lemma InheritingFills(item: Item, filters: map<string, Cell>, parent: Option<Parent>)
    ensures FilledFrom(Inheriting(filters, parent)(item), item, filters, parent)
  {
    if parent.Some? { ValueOfIsFirstEqual(parent.value); }
    forall k ensures ColumnIs(Inheriting(filters, parent)(item), item, filters, parent, k) {
      FilledColumn(item, filters, parent, k);
    }
  }

  lemma InheritedColumn(item: Item, filters: map<string, Cell>, k: string)
    ensures k in Inherited(item, filters) <==> k in item || (k in filters && !IsLookup(k))
    ensures k in item ==> Inherited(item, filters)[k] == item[k]
    ensures k !in item && k in Inherited(item, filters) ==> Inherited(item, filters)[k] == filters[k]
  {
  }

  lemma ConnectedColumn(item: Item, parent: Option<Parent>, k: string)
    requires parent.Some? ==> ValueOf(parent.value.criteria, parent.value.localColumn) == FirstEqual(parent.value)
    ensures k in Connected(item, parent) <==> k in item || IsParentKey(parent, k)
    ensures k in item ==> Connected(item, parent)[k] == item[k]
    ensures k !in item && IsParentKey(parent, k) ==> Some(Connected(item, parent)[k]) == FirstEqual(parent.value)
  {
  }

  lemma FilledColumn(item: Item, filters: map<string, Cell>, parent: Option<Parent>, k: string)
    requires parent.Some? ==> ValueOf(parent.value.criteria, parent.value.localColumn) == FirstEqual(parent.value)
    ensures ColumnIs(Inheriting(filters, parent)(item), item, filters, parent, k)
  {
    InheritedColumn(item, filters, k);
    ConnectedColumn(Inherited(item, filters), parent, k);
  }

  /** The table one query creates rows in. */
  class Table {
    var rows: seq<Item>

    constructor ()
      ensures rows == []
    {
      rows := [];
    }

    static method FillOne(item: Item, filters: map<string, Cell>) returns (filled: Item)
      ensures filled == Inherited(item, filters)
    {
      filled := item;
      var todo := filters.Keys;
      while todo != {}
        invariant todo <= filters.Keys
        invariant forall k :: k in filled <==> k in item || (k in filters && k !in todo && !IsLookup(k))
        invariant forall k :: k in filled ==> filled[k] == if k in item then item[k] else filters[k]
        decreases todo
      {
        var key :| key in todo;
        todo := todo - {key};
        if !IsLookup(key) && key !in filled {
          filled := filled[key := filters[key]];
        }
      }
    }

    static method FillFromFilters(items: seq<Item>, filters: map<string, Cell>) returns (filled: seq<Item>)
      ensures |filled| == |items| && forall k :: 0 <= k < |items| ==> filled[k] == Inherited(items[k], filters)
    {
      filled := [];
      for i := 0 to |items|
        invariant |filled| == i && forall k :: 0 <= k < i ==> filled[k] == Inherited(items[k], filters)
      {
        var item := FillOne(items[i], filters);
        filled := filled + [item];
      }
    }

    /** The loop over the parent query's equalities. */
    static method FindParent(parent: Parent) returns (value: Option<Cell>)
      ensures value == ValueOf(parent.criteria, parent.localColumn)
    {
      for i := 0 to |parent.criteria|
        invariant ValueOf(parent.criteria, parent.localColumn) == ValueOf(parent.criteria[i..], parent.localColumn)
      {
        if parent.criteria[i].0 == parent.localColumn { return parent.criteria[i].1; }
        assert parent.criteria[i..][1..] == parent.criteria[i + 1..];
      }
      value := None;
    }

    static method FillFromParent(items: seq<Item>, parent: Option<Parent>) returns (filled: seq<Item>)
      ensures |filled| == |items| && forall k :: 0 <= k < |items| ==> filled[k] == Connected(items[k], parent)
    {
      filled := items;
      if parent.None? { return; }
      var value := FindParent(parent.value);
      if value.None? { return; }
      var foreignKey := parent.value.foreignKey;
      for i := 0 to |items|
        invariant |filled| == |items|
        invariant forall k :: 0 <= k < i ==> filled[k] == Connected(items[k], parent)
        invariant forall k :: i <= k < |items| ==> filled[k] == items[k]
      {
        if foreignKey !in filled[i] {
          filled := filled[i := filled[i][foreignKey := value.value]];
        }
      }
    }

    /** `INSERT .. VALUES ..`: the new rows, in order. */
    method Insert(chunk: seq<Item>, index: Option<set<string>>) returns (inserted: seq<Item>)
      modifies this
      ensures rows == InsertAll(old(rows), chunk, index) == old(rows) + inserted
    {
      var before := rows;
      for i := 0 to |chunk|
        invariant rows == InsertAll(before, chunk[..i], index)
      {
        assert chunk[..i + 1][..i] == chunk[..i];
        rows := InsertOne(rows, chunk[i], index);
      }
      assert chunk[..|chunk|] == chunk;
      inserted := rows[|before|..];
    }

    /** The chunk loop: each chunk is one INSERT, and what it inserted is collected and counted. */
    method ChunkLoop(rawItems: seq<Item>, index: Option<set<string>>, chunkSize: nat)
      returns (created: seq<Item>, totalInserted: nat)
      requires chunkSize > 0
      modifies this
      ensures rows == InsertAll(old(rows), rawItems, index) == old(rows) + created && totalInserted == |created|
    {
      var before := rows;
      created, totalInserted := [], 0;
      var i := 0;
      while i < |rawItems|
        invariant 0 <= i <= |rawItems|
        invariant rows == InsertAll(before, rawItems[..i], index) == before + created
        invariant totalInserted == |created|
        decreases |rawItems| - i
      {
        var end := if i + chunkSize < |rawItems| then i + chunkSize else |rawItems|;
        var chunk := rawItems[i..end];
        ChunkStep(before, rawItems, i, end, index);
        var inserted := Insert(chunk, index);
        assert before + (created + inserted) == (before + created) + inserted;
        created := created + inserted;
        totalInserted := totalInserted + |inserted|;
        i := end;
      }
      assert rawItems[..|rawItems|] == rawItems;
    }

    /** Whatever the chunk size, the items are stored as they are, or with conflicts skipped the first of each new key. */
    method InsertChunks(rawItems: seq<Item>, index: Option<set<string>>, chunkSize: nat)
      returns (created: seq<Item>, totalInserted: nat)
      requires chunkSize > 0
      modifies this
      ensures rows == InsertAll(old(rows), rawItems, index) == old(rows) + created && totalInserted == |created|
      ensures index == None ==> created == rawItems
      ensures index.Some? ==> OnlyFirst(old(rows), rawItems, created, index.value)
    {
      ghost var before := rows;
      created, totalInserted := ChunkLoop(rawItems, index, chunkSize);
      InsertedKinds(before, rawItems, index);
      assert rows[|before|..] == created;
    }

    /** `create`: fill in filters and parent, then insert in chunks of 1000, counting or collecting what was inserted. */
    method Create(items: seq<Item>, filters: map<string, Cell>, parent: Option<Parent>, index: Option<set<string>>)
      returns (created: seq<Item>, totalInserted: nat)
      modifies this
      ensures rows == InsertAll(old(rows), Each(items, Inheriting(filters, parent)), index)
      ensures rows == old(rows) + created && totalInserted == |created|
      ensures StoredFrom(old(rows), items, filters, parent, index, created)
    {
      CreatedRows(rows, items, filters, parent, index);
      var fromFilters := FillFromFilters(items, filters);
      var rawItems := FillFromParent(fromFilters, parent);
      assert rawItems == Each(items, Inheriting(filters, parent));
      created, totalInserted := InsertChunks(rawItems, index, 1000);
    }
  }

  // ---------------------------------------------------------------- which rows are inserted

  /** One row an item, in order, each filled from its item. */
  ghost predicate AllFilled(filled: seq<Item>, items: seq<Item>, filters: map<string, Cell>, parent: Option<Parent>) {
    |filled| == |items| && forall k :: 0 <= k < |items| ==> FilledFrom(filled[k], items[k], filters, parent)
  }

  /** Without conflict skipping one filled row an item is new; with it, of every new key the first filled row. */
  ghost predicate StoredFrom(rows: seq<Item>, items: seq<Item>, filters: map<string, Cell>, parent: Option<Parent>,
                             index: Option<set<string>>, created: seq<Item>)
  {
    if index.None? then AllFilled(created, items, filters, parent)
    else exists filled :: AllFilled(filled, items, filters, parent) && OnlyFirst(rows, filled, created, index.value)
  }

  lemma InsertedKinds(rows: seq<Item>, items: seq<Item>, index: Option<set<string>>)
    ensures index == None ==> InsertAll(rows, items, index) == rows + items
    ensures index.Some? ==> OnlyFirst(rows, items, InsertAll(rows, items, index)[|rows|..], index.value)
  {
    if index.None? {
      PlainInsert(rows, items);
    } else {
      var _ := FirstOfEachKey(rows, items, index.value);
    }
  }

  lemma CreatedRows(rows: seq<Item>, items: seq<Item>, filters: map<string, Cell>, parent: Option<Parent>,
                    index: Option<set<string>>)
    ensures var after := InsertAll(rows, Each(items, Inheriting(filters, parent)), index);
            StoredFrom(rows, items, filters, parent, index, after[|rows|..])
  {
    var filled := Each(items, Inheriting(filters, parent));
    forall k | 0 <= k < |items| ensures FilledFrom(filled[k], items[k], filters, parent) {
      InheritingFills(items[k], filters, parent);
    }
    assert AllFilled(filled, items, filters, parent);
    InsertedKinds(rows, filled, index);
    assert (rows + filled)[|rows|..] == filled;
  }

  lemma {:induction false} PlainInsert(rows: seq<Item>, items: seq<Item>)
    ensures InsertAll(rows, items, None) == rows + items
  {
    if items != [] {
      PlainInsert(rows, items[..|items| - 1]);
      assert items == items[..|items| - 1] + [items[|items| - 1]];
    }
  }

  /** The rows agree on the index columns: both lack a column, or both have the same value there. */
  ghost predicate SameKey(a: Item, b: Item, index: set<string>) {
    forall c :: c in index ==> (c in a <==> c in b) && (c in a ==> a[c] == b[c])
  }

  lemma SameKeyIsProjected(a: Item, b: Item, index: set<string>)
    ensures SameKey(a, b, index) <==> Projected(a, index) == Projected(b, index)
  {
    if Projected(a, index) == Projected(b, index) {
      forall c | c in index ensures (c in a <==> c in b) && (c in a ==> a[c] == b[c]) {
        assert c in Projected(a, index) <==> c in a;
        assert c in Projected(b, index) <==> c in b;
      }
    }
  }

  /** Neither a stored row nor an earlier item has the item's key. */
  ghost predicate IsFirst(rows: seq<Item>, items: seq<Item>, k: nat, index: set<string>)
    requires k < |items|
  {
    && (forall r :: r in rows ==> !SameKey(r, items[k], index))
    && forall j :: 0 <= j < k ==> !SameKey(items[j], items[k], index)
  }

  /** `picks` are, in order, the positions of the items that are the first of their key, and `created` these items. */
  ghost predicate ArePicks(rows: seq<Item>, items: seq<Item>, created: seq<Item>, picks: seq<nat>, index: set<string>) {
    && |created| == |picks| && (forall i :: 0 <= i < |picks| ==> picks[i] < |items| && created[i] == items[picks[i]])
    && (forall i, j :: 0 <= i < j < |picks| ==> picks[i] < picks[j])
    && forall k :: 0 <= k < |items| ==> (k in picks <==> IsFirst(rows, items, k, index))
  }

  ghost predicate OnlyFirst(rows: seq<Item>, items: seq<Item>, created: seq<Item>, index: set<string>) {
    exists picks :: ArePicks(rows, items, created, picks, index)
  }

  /** Inserting with conflicts skipped stores, of every key that is new, the first item, in order. */
  lemma {:induction false} FirstOfEachKey(rows: seq<Item>, items: seq<Item>, index: set<string>) returns (picks: seq<nat>)
    ensures var after := InsertAll(rows, items, Some(index));
            ArePicks(rows, items, after[|rows|..], picks, index)
  {
    if items == [] {
      picks := [];
    } else {
      var earlier, last := items[..|items| - 1], items[|items| - 1];
      picks := FirstOfEachKey(rows, earlier, index);
      var middle := InsertAll(rows, earlier, Some(index));
      LastConflicts(rows, items, middle, picks, index);
      PicksStay(rows, items, middle[|rows|..], picks, index);
      if !Conflicts(middle, last, index) {
        assert (middle + [last])[|rows|..] == middle[|rows|..] + [last];
        OneMorePick(rows, items, middle[|rows|..], picks, index);
        picks := picks + [|items| - 1];
      }
    }
  }

  lemma OneMorePick(rows: seq<Item>, items: seq<Item>, created: seq<Item>, picks: seq<nat>, index: set<string>)
    requires items != [] && ArePicks(rows, items[..|items| - 1], created, picks, index)
    requires IsFirst(rows, items, |items| - 1, index)
    requires forall k :: 0 <= k < |items| - 1 ==> (k in picks <==> IsFirst(rows, items, k, index))
    ensures ArePicks(rows, items, created + [items[|items| - 1]], picks + [|items| - 1], index)
  {
  }

  lemma ConflictIsKnown(rows: seq<Item>, items: seq<Item>, middle: seq<Item>, picks: seq<nat>, r: Item, index: set<string>)
    requires items != [] && rows <= middle && ArePicks(rows, items[..|items| - 1], middle[|rows|..], picks, index)
    requires r in middle && SameKey(r, items[|items| - 1], index)
    ensures !IsFirst(rows, items, |items| - 1, index)
  {
    assert middle == rows + middle[|rows|..];
    if r !in rows {
      var i :| 0 <= i < |picks| && middle[|rows|..][i] == r;
      assert r == items[..|items| - 1][picks[i]] == items[picks[i]];
    }
  }

  lemma KnownConflicts(rows: seq<Item>, items: seq<Item>, middle: seq<Item>, picks: seq<nat>, index: set<string>)
    requires items != [] && rows <= middle && ArePicks(rows, items[..|items| - 1], middle[|rows|..], picks, index)
    requires !IsFirst(rows, items, |items| - 1, index)
    ensures exists r :: r in middle && SameKey(r, items[|items| - 1], index)
  {
    var n := |items| - 1;
    if r :| r in rows && SameKey(r, items[n], index) {
      assert r in middle;
    } else {
      var j :| 0 <= j < n && SameKey(items[j], items[n], index);
      KeyIsStored(rows, items[..n], middle, picks, j, index);
      var r :| r in middle && SameKey(r, items[..n][j], index);
      assert SameKey(r, items[n], index);
    }
  }

  /** A row conflicts with what is stored so far exactly when it is not the first of its key. */
  lemma LastConflicts(rows: seq<Item>, items: seq<Item>, middle: seq<Item>, picks: seq<nat>, index: set<string>)
    requires items != [] && rows <= middle && ArePicks(rows, items[..|items| - 1], middle[|rows|..], picks, index)
    ensures Conflicts(middle, items[|items| - 1], index) <==> !IsFirst(rows, items, |items| - 1, index)
  {
    var last := items[|items| - 1];
    forall r ensures SameKey(r, last, index) <==> Projected(r, index) == Projected(last, index) {
      SameKeyIsProjected(r, last, index);
    }
    if r :| r in middle && SameKey(r, last, index) {
      ConflictIsKnown(rows, items, middle, picks, r, index);
    } else if !IsFirst(rows, items, |items| - 1, index) {
      KnownConflicts(rows, items, middle, picks, index);
    }
  }

  /** Whatever the key of an item, a row with that key is stored. */
  lemma KeyIsStored(rows: seq<Item>, items: seq<Item>, middle: seq<Item>, picks: seq<nat>, j: nat, index: set<string>)
    requires j < |items| && rows <= middle && ArePicks(rows, items, middle[|rows|..], picks, index)
    ensures exists r :: r in middle && SameKey(r, items[j], index)
  {
    if j in picks {
      var i :| 0 <= i < |picks| && picks[i] == j;
      assert middle[|rows|..][i] == items[j] && middle[|rows| + i] == items[j];
      assert SameKey(middle[|rows| + i], items[j], index);
    } else {
      assert !IsFirst(rows, items, j, index);
      if r :| r in rows && SameKey(r, items[j], index) {
        assert r in middle;
      } else {
        var k :| 0 <= k < j && SameKey(items[k], items[j], index);
        KeyIsStored(rows, items, middle, picks, k, index);
        var r :| r in middle && SameKey(r, items[k], index);
        assert SameKey(r, items[j], index);
      }
    }
  }

  /** Another item changes nothing about which of the earlier ones are the first of their key. */
  lemma PicksStay(rows: seq<Item>, items: seq<Item>, created: seq<Item>, picks: seq<nat>, index: set<string>)
    requires items != [] && ArePicks(rows, items[..|items| - 1], created, picks, index)
    ensures forall k :: 0 <= k < |items| - 1 ==> (k in picks <==> IsFirst(rows, items, k, index))
  {
    var earlier := items[..|items| - 1];
    forall k | 0 <= k < |items| - 1 ensures k in picks <==> IsFirst(rows, items, k, index) {
      assert IsFirst(rows, earlier, k, index) <==> IsFirst(rows, items, k, index) by {
        assert forall j :: 0 <= j <= k ==> earlier[j] == items[j];
      }
    }
  }

  // ---------------------------------------------------------------- conflicts skipped are a set union

  function Keys(rows: seq<Item>, index: set<string>): set<Item> {
    set r | r in rows :: Projected(r, index)
  }

  ghost predicate UniqueOn(rows: seq<Item>, index: set<string>) {
    forall j, k :: 0 <= j < k < |rows| ==> Projected(rows[j], index) != Projected(rows[k], index)
  }

  lemma KeysAppend(rows: seq<Item>, last: Item, index: set<string>)
    ensures Keys(rows + [last], index) == Keys(rows, index) + {Projected(last, index)}
  {
    assert last in rows + [last];
  }

  /** One row: its key joins the table's keys, and the table grows exactly when the key is new. */
  lemma InsertOneIsUnion(rows: seq<Item>, last: Item, index: set<string>)
    requires UniqueOn(rows, index)
    ensures var after := InsertOne(rows, last, Some(index));
            && UniqueOn(after, index)
            && Keys(after, index) == Keys(rows, index) + {Projected(last, index)}
            && |after| == |rows| + (if Projected(last, index) in Keys(rows, index) then 0 else 1)
  {
    if Conflicts(rows, last, index) {
      assert Keys(rows, index) + {Projected(last, index)} == Keys(rows, index);
    } else {
      KeysAppend(rows, last, index);
      assert forall k :: 0 <= k < |rows| ==> rows[k] in rows;
    }
  }

  /** `after` is `rows` with the keys of `items` added, each new key once. */
  ghost predicate Grown(rows: seq<Item>, items: seq<Item>, after: seq<Item>, index: set<string>) {
    && UniqueOn(after, index)
    && Keys(after, index) == Keys(rows, index) + Keys(items, index)
    && |after| - |rows| == |Keys(after, index) - Keys(rows, index)|
  }

  lemma GrowsByOne(rows: seq<Item>, earlier: seq<Item>, last: Item, middle: seq<Item>, index: set<string>)
    requires Grown(rows, earlier, middle, index)
    ensures Grown(rows, earlier + [last], InsertOne(middle, last, Some(index)), index)
  {
    InsertOneIsUnion(middle, last, index);
    KeysAppend(earlier, last, index);
    UnionStep(Keys(rows, index), Keys(earlier, index), Keys(middle, index),
              Keys(InsertOne(middle, last, Some(index)), index), Projected(last, index), |middle| - |rows|);
  }

  /** Inserting with conflicts skipped adds exactly the new keys, each once, whatever duplicates the input holds. */
  lemma {:induction false} InsertIsUnion(rows: seq<Item>, items: seq<Item>, index: set<string>)
    requires UniqueOn(rows, index)
    ensures Grown(rows, items, InsertAll(rows, items, Some(index)), index)
  {
    if items == [] {
      assert Keys(rows, index) - Keys(rows, index) == {};
    } else {
      var (earlier, last) := (items[..|items| - 1], items[|items| - 1]);
      InsertIsUnion(rows, earlier, index);
      GrowsByOne(rows, earlier, last, InsertAll(rows, earlier, Some(index)), index);
      assert items == earlier + [last];
    }
  }

  lemma {:induction false} InsertedRows(rows: seq<Item>, items: seq<Item>, index: Option<set<string>>)
    ensures forall r :: r in InsertAll(rows, items, index) ==> r in rows || r in items
  {
    if items != [] {
      InsertedRows(rows, items[..|items| - 1], index);
      assert items == items[..|items| - 1] + [items[|items| - 1]];
    }
  }

  lemma UnionStep(before: set<Item>, added: set<Item>, middle: set<Item>, after: set<Item>, key: Item, n: int)
    requires middle == before + added && after == middle + {key} && n == |middle - before|
    ensures after == before + (added + {key})
    ensures n + (if key in middle then 0 else 1) == |after - before|
  {
    SetGrowth(before, middle, key);
  }

  lemma SetGrowth<T>(small: set<T>, middle: set<T>, x: T)
    requires small <= middle
    ensures |middle + {x} - small| == |middle - small| + if x in middle then 0 else 1
  {
    if x in middle {
      assert middle + {x} == middle;
    } else {
      assert middle + {x} - small == (middle - small) + {x};
    }
  }

  // ---------------------------------------------------------------- the view-log consumer

  datatype View = View(objectType: string, objectId: int, visitor: string)

  /** A queued message of `increment_views`. */
  datatype Payload = Payload(objectType: string, objectIds: seq<int>, visitor: string)

  const VIEW_KEY: set<string> := {"object_type", "object_id", "visitor_hash"}

  function ViewItem(v: View): Item {
    map["object_type" := Str(v.objectType), "object_id" := Num(v.objectId), "visitor_hash" := Str(v.visitor)]
  }

  function ViewsOf(payloads: seq<Payload>): set<View> {
    set p, id | p in payloads && id in p.objectIds :: View(p.objectType, id, p.visitor)
  }

  /** The log table as the set of its views. */
  ghost predicate IsLog(rows: seq<Item>, views: set<View>) {
    && UniqueOn(rows, VIEW_KEY)
    && (forall r :: r in rows ==> exists v :: v in views && r == ViewItem(v))
    && (forall v :: v in views ==> ViewItem(v) in rows)
    && |rows| == |views|
  }

  method Flatten(payloads: seq<Payload>) returns (flatLogs: seq<Item>)
    ensures forall r :: r in flatLogs <==> exists v :: v in ViewsOf(payloads) && r == ViewItem(v)
  {
    flatLogs := [];
    ghost var views: seq<View> := [];
    for i := 0 to |payloads|
      invariant |flatLogs| == |views| && forall k :: 0 <= k < |views| ==> flatLogs[k] == ViewItem(views[k])
      invariant forall v :: v in views <==> v in ViewsOf(payloads[..i])
    {
      ghost var before := views;
      var p := payloads[i];
      for j := 0 to |p.objectIds|
        invariant |flatLogs| == |views| && forall k :: 0 <= k < |views| ==> flatLogs[k] == ViewItem(views[k])
        invariant forall v :: v in views <==> v in before || exists k :: 0 <= k < j && v == View(p.objectType, p.objectIds[k], p.visitor)
      {
        var v := View(p.objectType, p.objectIds[j], p.visitor);
        flatLogs, views := flatLogs + [ViewItem(v)], views + [v];
      }
      assert payloads[..i + 1] == payloads[..i] + [p];
    }
    assert payloads[..|payloads|] == payloads;
  }

  lemma ViewItemsDiffer(v: View, w: View)
    ensures Projected(ViewItem(v), VIEW_KEY) == ViewItem(v)
    ensures ViewItem(v) == ViewItem(w) ==> v == w
  {
    assert ViewItem(v)["object_type"] == Str(v.objectType) && ViewItem(v)["object_id"] == Num(v.objectId)
           && ViewItem(v)["visitor_hash"] == Str(v.visitor);
    assert ViewItem(w)["object_type"] == Str(w.objectType) && ViewItem(w)["object_id"] == Num(w.objectId)
           && ViewItem(w)["visitor_hash"] == Str(w.visitor);
  }

  lemma {:induction false} LogSize(rows: seq<Item>, views: set<View>)
    requires UniqueOn(rows, VIEW_KEY)
    requires forall r :: r in rows ==> exists v :: v in views && r == ViewItem(v)
    requires forall v :: v in views ==> ViewItem(v) in rows
    ensures |rows| == |views|
    decreases rows
  {
    if rows == [] {
      assert views == {};
    } else {
      assert rows[0] in rows;
      var v :| v in views && rows[0] == ViewItem(v);
      var (rest, others) := (rows[1..], views - {v});
      forall w | w in others ensures ViewItem(w) in rest {
        ViewItemsDiffer(v, w);
        assert rows == [rows[0]] + rest;
      }
      forall r | r in rest ensures exists w :: w in others && r == ViewItem(w) {
        var k :| 0 <= k < |rest| && rest[k] == r;
        assert r == rows[k + 1] && r in rows;
        var w :| w in views && r == ViewItem(w);
        assert Projected(rows[0], VIEW_KEY) != Projected(rows[k + 1], VIEW_KEY);
      }
      LogSize(rest, others);
    }
  }

  /** `process_view_logs`: the log becomes its union with the payloads' views; the result is how many were new. */
  method ProcessViewLogs(log: Table, payloads: seq<Payload>, ghost views: set<View>) returns (processed: nat)
    requires IsLog(log.rows, views)
    modifies log
    ensures IsLog(log.rows, views + ViewsOf(payloads))
    ensures processed == |ViewsOf(payloads) - views|
  {
    var flatLogs := Flatten(payloads);
    ghost var before := log.rows;
    if flatLogs == [] {
      NothingToLog(flatLogs, payloads);
      assert views + ViewsOf(payloads) == views;
      return 0;
    }
    var created;
    created, processed := log.Create(flatLogs, map[], None, Some(VIEW_KEY));
    NothingInherited(flatLogs);
    UnionIsLog(before, flatLogs, views, ViewsOf(payloads));
  }

  lemma NothingInherited(items: seq<Item>)
    ensures Each(items, Inheriting(map[], None)) == items
  {
    forall item ensures Inherited(item, map[]) == item {
    }
  }

  lemma NothingToLog(flatLogs: seq<Item>, payloads: seq<Payload>)
    requires flatLogs == [] && forall r :: r in flatLogs <==> exists v :: v in ViewsOf(payloads) && r == ViewItem(v)
    ensures ViewsOf(payloads) == {}
  {
    forall v ensures v !in ViewsOf(payloads) {
      assert ViewItem(v) !in flatLogs;
    }
  }

  lemma UnionIsLog(rows: seq<Item>, items: seq<Item>, views: set<View>, more: set<View>)
    requires IsLog(rows, views)
    requires forall r :: r in items <==> exists v :: v in more && r == ViewItem(v)
    ensures var after := InsertAll(rows, items, Some(VIEW_KEY));
            IsLog(after, views + more) && |after| - |rows| == |more - views|
  {
    var after := InsertAll(rows, items, Some(VIEW_KEY));
    InsertIsUnion(rows, items, VIEW_KEY);
    InsertedRows(rows, items, Some(VIEW_KEY));
    forall r | r in after ensures exists v :: v in views + more && r == ViewItem(v) {
      if r in rows {
        var v :| v in views && r == ViewItem(v);
      } else {
        var v :| v in more && r == ViewItem(v);
      }
    }
    forall v | v in views + more ensures ViewItem(v) in after {
      LoggedView(rows, items, after, views, more, v);
    }
    LogSize(after, views + more);
    assert views + more == views + (more - views);
  }

  lemma LoggedView(rows: seq<Item>, items: seq<Item>, after: seq<Item>, views: set<View>, more: set<View>, v: View)
    requires IsLog(rows, views) && v in views + more
    requires forall r :: r in items <==> exists v :: v in more && r == ViewItem(v)
    requires Keys(after, VIEW_KEY) == Keys(rows, VIEW_KEY) + Keys(items, VIEW_KEY)
    requires forall r :: r in after ==> r in rows || r in items
    ensures ViewItem(v) in after
  {
    ViewItemsDiffer(v, v);
    assert ViewItem(v) in rows || ViewItem(v) in items;
    assert Projected(ViewItem(v), VIEW_KEY) in Keys(after, VIEW_KEY);
    var r :| r in after && Projected(r, VIEW_KEY) == ViewItem(v);
    if r in rows {
      var w :| w in views && r == ViewItem(w);
      ViewItemsDiffer(w, w);
    } else {
      var w :| w in more && r == ViewItem(w);
      ViewItemsDiffer(w, w);
    }
  }
}

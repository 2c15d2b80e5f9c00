/** Interleaved booking, payment and expiry transactions with row locks, and the serial runs they amount to. */
module BookingConcurrency {
  import opened Tables
  import opened Booking
  import opened Conservation
  import opened Capacity

  /** A transaction in progress. Uncommitted writes are kept here: no other transaction sees them. */
  datatype Tx =
    | Locking(lines: seq<Line>, userId: Option<nat>, email: Option<string>, found: map<nat, Category>, examined: set<nat>)
    | Writing(lines: seq<Line>, userId: Option<nat>, email: Option<string>, found: map<nat, Category>,
              orderId: nat, itemIds: seq<nat>)
    | Paying(orderId: nat)
    | PayHolding(orderId: nat)
    | PayMarking(orderId: nat, mine: set<nat>)
    | Expiring(orderId: nat)
    | ExpireHolding(orderId: nat)
    | ExpireDeleting(orderId: nat, mine: set<nat>)
    | MustScheduleCancel(orderId: nat)
    | MustMail(orderId: nat)
    | Finished

  /** Committed tables, transactions, the two task queues, and the keys the sequences have handed out. */
  datatype Sys = Sys(db: Db, txs: seq<Tx>, cancelTasks: set<nat>, mails: multiset<nat>,
                     usedOrders: set<nat>, usedItems: set<nat>)

  const START := Sys(EMPTY, [], {}, multiset{}, {}, {})

  datatype Step =
    | StartCreate(lines: seq<Line>, userId: Option<nat>, email: Option<string>)
    | StartPay(orderId: nat)
    | StartExpire(orderId: nat)
    | Examine(t: nat, c: nat)
    | Insert(t: nat, newOrder: nat, newItems: seq<nat>)
    | Refuse(t: nat)
    | GuardedUpdate(t: nat)
    | ReadItems(t: nat)
    | Commit(t: nat)
    | Abort(t: nat)
    | Enqueue(t: nat)
    | AckCancel(orderId: nat)
    | Migrate(anonymousEmail: string)
    | Admit(admin: Admin)

  /** Category rows locked by `SELECT .. FOR UPDATE` until the transaction ends. */
  function CategoryLocks(tx: Tx): set<nat> {
    if tx.Locking? || tx.Writing? then tx.found.Keys else {}
  }

  /** The order row locked by its guarded UPDATE until the transaction ends. */
  function OrderLocks(tx: Tx): set<nat> {
    if tx.PayHolding? || tx.PayMarking? || tx.ExpireHolding? || tx.ExpireDeleting? then {tx.orderId} else {}
  }

  predicate CategoryFree(s: Sys, c: nat) {
    forall t :: 0 <= t < |s.txs| ==> c !in CategoryLocks(s.txs[t])
  }

  predicate OrderFree(s: Sys, o: nat) {
    forall t :: 0 <= t < |s.txs| ==> o !in OrderLocks(s.txs[t])
  }

  function With(s: Sys, t: nat, tx: Tx): Sys
    requires t < |s.txs|
  {
    s.(txs := s.txs[t := tx])
  }

  /** Category rows an administrative statement writes. */
  function RowsWritten(a: Admin): set<nat> {
    if a.EditCategory? || a.DropCategory? || a.AddCategory? then {a.id} else {}
  }

  /**
   * `Examine` evaluates the availability test of a category on the tables of the moment at which its row is locked.
   * This is an assumption on the database: the test is part of the locking SELECT, and a statement that evaluates it on
   * a snapshot taken before it waits for the lock is not a run of this machine (see `Capacity.SnapshotProtectsIff`).
   */
  ghost predicate Enabled(s: Sys, step: Step) {
    match step
    case StartCreate(_, userId, email) => userId.None? != email.None?
    case StartPay(_) => true
    case StartExpire(_) => true
    case Examine(t, c) =>
      && t < |s.txs| && s.txs[t].Locking?
      && c in CategoryIds(s.txs[t].lines) && c !in s.txs[t].examined
      && (c in Selected(s.db, s.txs[t].lines) ==> CategoryFree(s, c))
    case Insert(t, newOrder, newItems) =>
      && t < |s.txs| && s.txs[t].Locking?
      && CategoryIds(s.txs[t].lines) <= s.txs[t].found.Keys
      && newOrder !in s.usedOrders && |newItems| == |s.txs[t].lines|
      && (forall k :: 0 <= k < |newItems| ==> newItems[k] !in s.usedItems)
      && (forall j, k :: 0 <= j < k < |newItems| ==> newItems[j] != newItems[k])
    case Refuse(t) =>
      && t < |s.txs| && s.txs[t].Locking?
      && s.txs[t].examined == CategoryIds(s.txs[t].lines) && !(CategoryIds(s.txs[t].lines) <= s.txs[t].found.Keys)
    case GuardedUpdate(t) =>
      t < |s.txs| && (s.txs[t].Paying? || s.txs[t].Expiring?) && OrderFree(s, s.txs[t].orderId)
    case ReadItems(t) => t < |s.txs| && (s.txs[t].PayHolding? || s.txs[t].ExpireHolding?)
    case Commit(t) =>
      && t < |s.txs| && (s.txs[t].Writing? || s.txs[t].PayMarking? || s.txs[t].ExpireDeleting?)
      && (s.txs[t].Writing? ==> |s.txs[t].itemIds| == |s.txs[t].lines| && CategoryIds(s.txs[t].lines) <= s.txs[t].found.Keys)
      && (!s.txs[t].Writing? ==> s.txs[t].orderId in s.db.orders)
    case Abort(t) => t < |s.txs| && !s.txs[t].MustMail? && !s.txs[t].MustScheduleCancel?
    case Enqueue(t) => t < |s.txs| && (s.txs[t].MustMail? || s.txs[t].MustScheduleCancel?)
    case AckCancel(o) => !(o in s.db.orders && s.db.orders[o].status == Pending)
    case Migrate(email) => forall o :: o in OrdersOfEmail(s.db.orders, email) ==> OrderFree(s, o)
    case Admit(a) => forall c :: c in RowsWritten(a) ==> CategoryFree(s, c)
  }

  ghost function Fire(s: Sys, step: Step): Sys
    requires Enabled(s, step)
  {
    match step
    case StartCreate(lines, userId, email) => s.(txs := s.txs + [Locking(lines, userId, email, map[], {})])
    case StartPay(o) => s.(txs := s.txs + [Paying(o)])
    case StartExpire(o) => s.(txs := s.txs + [Expiring(o)])
    case Examine(t, c) =>
      var tx := s.txs[t];
      var found := if c in Selected(s.db, tx.lines) then tx.found[c := s.db.categories[c]] else tx.found;
      With(s, t, Locking(tx.lines, tx.userId, tx.email, found, tx.examined + {c}))
    case Insert(t, newOrder, newItems) =>
      var tx := s.txs[t];
      With(s, t, Writing(tx.lines, tx.userId, tx.email, tx.found, newOrder, newItems))
        .(usedOrders := s.usedOrders + {newOrder}, usedItems := s.usedItems + set i | i in newItems)
    case Refuse(t) => With(s, t, Finished)
    case GuardedUpdate(t) =>
      var tx := s.txs[t];
      With(s, t, if tx.orderId in s.db.orders && s.db.orders[tx.orderId].status == Pending
                 then if tx.Paying? then PayHolding(tx.orderId) else ExpireHolding(tx.orderId)
                 else Finished)
    case ReadItems(t) =>
      var tx := s.txs[t];
      var mine := ItemIds(s.db.items, tx.orderId);
      With(s, t, if tx.PayHolding? then PayMarking(tx.orderId, mine) else ExpireDeleting(tx.orderId, mine))
    case Commit(t) =>
      var tx := s.txs[t];
      With(s, t, if tx.Writing? then MustScheduleCancel(tx.orderId) else if tx.PayMarking? then MustMail(tx.orderId) else Finished)
        .(db := Committed(s.db, tx))
    case Abort(t) => With(s, t, Finished)
    case Enqueue(t) =>
      var tx := s.txs[t];
      if tx.MustMail? then With(s, t, Finished).(mails := s.mails[tx.orderId := s.mails[tx.orderId] + 1])
      else With(s, t, Finished).(cancelTasks := s.cancelTasks + {tx.orderId})
    case AckCancel(o) => s.(cancelTasks := s.cancelTasks - {o})
    case Migrate(email) => s.(db := MigrateAnonymousOrders(s.db, email).0)
    case Admit(a) => s.(db := Administer(s.db, a))
  }

  /** The uncommitted writes of `tx` become visible, on whatever the tables hold by then. */
  function Committed(db: Db, tx: Tx): Db
    requires tx.Writing? || tx.PayMarking? || tx.ExpireDeleting?
    requires tx.Writing? ==> |tx.itemIds| == |tx.lines| && CategoryIds(tx.lines) <= tx.found.Keys
    requires !tx.Writing? ==> tx.orderId in db.orders
  {
    match tx
    case Writing(lines, userId, email, found, orderId, itemIds) => Place(db, lines, found, userId, email, orderId, itemIds)
    case PayMarking(o, mine) => db.(orders := SetStatus(db.orders, o, Paid), tickets := Each(db.tickets, MarkPaid(mine)))
    case ExpireDeleting(o, mine) => db.(orders := SetStatus(db.orders, o, Cancelled), tickets := Keep(db.tickets, NotOf(mine)))
  }

  /** A step whose turn it is not (a lock is taken, a phase is over) leaves the system as it is. */
  ghost function Do(s: Sys, step: Step): Sys {
    if Enabled(s, step) then Fire(s, step) else s
  }

  ghost function Run(steps: seq<Step>): Sys {
    if steps == [] then START else Do(Run(steps[..|steps| - 1]), steps[|steps| - 1])
  }

  // ---------------------------------------------------------------- the invariant

  /** What transaction `tx` may rely on until it ends. */
  ghost predicate Sound(db: Db, tx: Tx) {
    && (tx.Locking? || tx.Writing? ==>
          && tx.userId.None? != tx.email.None?
          && forall c :: c in tx.found ==> c in Selected(db, tx.lines) && tx.found[c] == db.categories[c])
    && (tx.Writing? ==>
          CategoryIds(tx.lines) <= tx.found.Keys && |tx.itemIds| == |tx.lines| && Unused(db, tx.orderId, tx.itemIds))
    && (forall o :: o in OrderLocks(tx) ==> o in db.orders && db.orders[o].status == Pending)
    && (tx.PayMarking? || tx.ExpireDeleting? ==> tx.mine == ItemIds(db.items, tx.orderId))
  }

  /** Row locks are exclusive, and no two transactions were given the same key. */
  predicate Apart(a: Tx, b: Tx) {
    && CategoryLocks(a) !! CategoryLocks(b)
    && OrderLocks(a) !! OrderLocks(b)
    && (a.Writing? && b.Writing? ==> a.orderId != b.orderId && forall i :: i in a.itemIds ==> i !in b.itemIds)
  }

  ghost predicate KeysTaken(s: Sys) {
    && s.db.orders.Keys <= s.usedOrders && (forall i :: i in s.db.items ==> i.id in s.usedItems)
    && (forall t :: 0 <= t < |s.txs| && s.txs[t].Writing? ==>
          s.txs[t].orderId in s.usedOrders && forall i :: i in s.txs[t].itemIds ==> i in s.usedItems)
  }

  ghost predicate AllSound(db: Db, txs: seq<Tx>) {
    forall t :: 0 <= t < |txs| ==> Sound(db, txs[t])
  }

  ghost predicate AllApart(txs: seq<Tx>) {
    forall t, u :: 0 <= t < |txs| && 0 <= u < |txs| && t != u ==> Apart(txs[t], txs[u])
  }

  ghost predicate Inv(s: Sys) {
    Consistent(s.db) && KeysTaken(s) && AllSound(s.db, s.txs) && AllApart(s.txs)
  }

  /** The rows `tx` locked read the same in `after`, with no fewer tickets left, and its keys are still unused. */
  ghost predicate Spares(db: Db, after: Db, tx: Tx) {
    && (forall c :: c in CategoryLocks(tx) && c in db.categories ==>
          c in after.categories && after.categories[c] == db.categories[c] && Occupied(after, c) <= Occupied(db, c))
    && (forall o :: o in OrderLocks(tx) && o in db.orders ==>
          o in after.orders && after.orders[o].status == db.orders[o].status && ItemIds(after.items, o) == ItemIds(db.items, o))
    && (tx.Writing? && Unused(db, tx.orderId, tx.itemIds) ==> Unused(after, tx.orderId, tx.itemIds))
  }

  lemma SparedStaysSound(db: Db, after: Db, tx: Tx)
    requires Sound(db, tx) && Spares(db, after, tx)
    ensures Sound(after, tx)
  {
    if tx.Locking? || tx.Writing? {
      forall c | c in tx.found ensures c in Selected(after, tx.lines) && tx.found[c] == after.categories[c] {
        assert c in CategoryLocks(tx) && c in Selected(db, tx.lines);
      }
    }
    if tx.PayMarking? || tx.ExpireDeleting? {
      assert tx.orderId in OrderLocks(tx);
    }
  }

  // ---------------------------------------------------------------- commits are serial transactions

  /** The serial transaction a step commits, if any. */
  function Label(s: Sys, step: Step): Option<Txn> {
    match step
    case Commit(t) =>
      if t >= |s.txs| then None
      else (match s.txs[t]
            case Writing(lines, userId, email, _, orderId, itemIds) => Some(TxnCreate(lines, userId, email, orderId, itemIds))
            case PayMarking(o, _) => Some(TxnConfirm(o))
            case ExpireDeleting(o, _) => Some(TxnExpire(o))
            case _ => None)
    case Migrate(email) => Some(TxnMigrate(email))
    case Admit(a) => Some(TxnAdmin(a))
    case _ => None
  }

  lemma FoundIsSelected(db: Db, tx: Tx)
    requires tx.Writing? && Sound(db, tx)
    ensures CategoryIds(tx.lines) <= Selected(db, tx.lines)
    ensures forall c :: c in CategoryIds(tx.lines) ==> c in db.categories && db.categories[c] == tx.found[c]
  {
    forall c | c in CategoryIds(tx.lines) ensures c in Selected(db, tx.lines) && db.categories[c] == tx.found[c] {
      assert c in tx.found;
    }
  }

  lemma CreateIsSerial(db: Db, tx: Tx)
    requires tx.Writing? && Sound(db, tx)
    ensures Committed(db, tx) == Exec(db, TxnCreate(tx.lines, tx.userId, tx.email, tx.orderId, tx.itemIds))
  {
    FoundIsSelected(db, tx);
    SamePrices(tx.lines, tx.found, db.categories, tx.orderId, tx.itemIds);
  }

  lemma CloseIsSerial(db: Db, tx: Tx)
    requires (tx.PayMarking? || tx.ExpireDeleting?) && Sound(db, tx)
    ensures tx.orderId in db.orders
    ensures Committed(db, tx) == Exec(db, if tx.PayMarking? then TxnConfirm(tx.orderId) else TxnExpire(tx.orderId))
  {
    assert tx.orderId in OrderLocks(tx);
  }

  /** Committing a transaction has the effect of running it alone, in full, at the moment of its commit. */
  lemma CommitIsSerial(s: Sys, t: nat)
    requires Inv(s) && Enabled(s, Commit(t))
    ensures Label(s, Commit(t)).Some? && Committed(s.db, s.txs[t]) == Exec(s.db, Label(s, Commit(t)).value)
  {
    assert Sound(s.db, s.txs[t]);
    if s.txs[t].Writing? {
      CreateIsSerial(s.db, s.txs[t]);
    } else {
      CloseIsSerial(s.db, s.txs[t]);
    }
  }

  lemma PlaceItemIds(db: Db, tx: Tx, o: nat)
    requires tx.Writing? && |tx.itemIds| == |tx.lines| && CategoryIds(tx.lines) <= tx.found.Keys && o != tx.orderId
    ensures ItemIds(Committed(db, tx).items, o) == ItemIds(db.items, o)
  {
    var added := NewItems(tx.lines, tx.found, tx.orderId, tx.itemIds);
    assert forall i :: i in added ==> i.orderId == tx.orderId;
  }

  lemma PlaceLeavesUnused(db: Db, tx: Tx, other: Tx)
    requires tx.Writing? && |tx.itemIds| == |tx.lines| && CategoryIds(tx.lines) <= tx.found.Keys
    requires other.Writing? && Apart(tx, other) && Unused(db, other.orderId, other.itemIds)
    ensures Unused(Committed(db, tx), other.orderId, other.itemIds)
  {
    var added := NewItems(tx.lines, tx.found, tx.orderId, tx.itemIds);
    assert forall i :: i in added ==> i.id in tx.itemIds;
  }

  lemma PlaceSparesRows(db: Db, tx: Tx, c: nat)
    requires tx.Writing? && |tx.itemIds| == |tx.lines| && CategoryIds(tx.lines) <= tx.found.Keys && c !in tx.found
    ensures Occupied(Committed(db, tx), c) == Occupied(db, c)
  {
    PlacedOccupied(db, tx.lines, tx.found, tx.userId, tx.email, tx.orderId, tx.itemIds, c);
    TestedAtMostOrdered(tx.lines, c);
  }

  lemma PlaceSpares(s: Sys, t: nat, u: nat)
    requires Inv(s) && Enabled(s, Commit(t)) && s.txs[t].Writing? && u < |s.txs| && u != t
    ensures Spares(s.db, Committed(s.db, s.txs[t]), s.txs[u])
  {
    var (tx, other) := (s.txs[t], s.txs[u]);
    var after := Committed(s.db, tx);
    assert Apart(tx, other) && Sound(s.db, tx);
    forall c | c in CategoryLocks(other) ensures Occupied(after, c) == Occupied(s.db, c) {
      assert c !in CategoryLocks(tx);
      PlaceSparesRows(s.db, tx, c);
    }
    forall o | o in OrderLocks(other) && o in s.db.orders
      ensures o in after.orders && after.orders[o] == s.db.orders[o] && ItemIds(after.items, o) == ItemIds(s.db.items, o)
    {
      assert o != tx.orderId;
      PlaceItemIds(s.db, tx, o);
    }
    if other.Writing? && Unused(s.db, other.orderId, other.itemIds) {
      PlaceLeavesUnused(s.db, tx, other);
    }
  }

  lemma PaySpares(s: Sys, t: nat, u: nat)
    requires Inv(s) && Enabled(s, Commit(t)) && !s.txs[t].Writing? && u < |s.txs| && u != t
    ensures Spares(s.db, Committed(s.db, s.txs[t]), s.txs[u])
  {
    var (tx, other) := (s.txs[t], s.txs[u]);
    assert Apart(tx, other) && tx.orderId in OrderLocks(tx);
    forall c | c in CategoryLocks(other)
      ensures Occupied(Committed(s.db, tx), c) <= Occupied(s.db, c)
    {
      if tx.PayMarking? {
        SumOfEach(s.db.tickets, MarkPaid(tx.mine), InCategory(c));
      } else {
        SumOfKeep(s.db.tickets, NotOf(tx.mine), InCategory(c));
      }
    }
  }

  lemma AdminLeavesRows(db: Db, a: Admin)
    ensures var after := Administer(db, a);
            && after.items == db.items && after.orders == db.orders && after.tickets == db.tickets
            && forall c :: c in db.categories && c !in RowsWritten(a) ==>
                 c in after.categories && after.categories[c] == db.categories[c]
  {
    match a
    case AddCategory(id, userId, row) =>
    case EditCategory(id, userId, name, price, total) =>
    case DropCategory(id, userId) =>
    case _ =>
  }

  lemma AdminSpares(s: Sys, a: Admin, u: nat)
    requires Inv(s) && Enabled(s, Admit(a)) && u < |s.txs|
    ensures Spares(s.db, Administer(s.db, a), s.txs[u])
  {
    AdminLeavesRows(s.db, a);
    forall c | c in CategoryLocks(s.txs[u]) ensures c !in RowsWritten(a) {
      assert c in RowsWritten(a) ==> CategoryFree(s, c);
    }
  }

  lemma MigrateSpares(s: Sys, email: string, u: nat)
    requires Inv(s) && u < |s.txs|
    ensures Spares(s.db, MigrateAnonymousOrders(s.db, email).0, s.txs[u])
  {
  }

  // ---------------------------------------------------------------- the invariant is kept

  lemma CommitKeepsKeys(s: Sys, t: nat)
    requires Inv(s) && Enabled(s, Commit(t))
    ensures KeysTaken(Fire(s, Commit(t)))
  {
    var tx := s.txs[t];
    if tx.Writing? {
      var added := NewItems(tx.lines, tx.found, tx.orderId, tx.itemIds);
      assert forall i :: i in added ==> i.id in tx.itemIds;
    }
  }

  lemma CommitKeepsSound(s: Sys, t: nat)
    requires Inv(s) && Enabled(s, Commit(t))
    ensures AllSound(Committed(s.db, s.txs[t]), Fire(s, Commit(t)).txs)
  {
    var after := Committed(s.db, s.txs[t]);
    forall u | 0 <= u < |s.txs| && u != t ensures Sound(after, s.txs[u]) {
      if s.txs[t].Writing? { PlaceSpares(s, t, u); } else { PaySpares(s, t, u); }
      SparedStaysSound(s.db, after, s.txs[u]);
    }
  }

  lemma CommitKeepsInv(s: Sys, t: nat)
    requires Inv(s) && Enabled(s, Commit(t))
    ensures Inv(Fire(s, Commit(t)))
  {
    CommitIsSerial(s, t);
    ExecKeepsConsistent(s.db, Label(s, Commit(t)).value);
    CommitKeepsKeys(s, t);
    CommitKeepsSound(s, t);
    StillApart(s.txs, t, Fire(s, Commit(t)).txs[t]);
  }

  /** Replacing one transaction by one that holds nothing the old one did not hold keeps all of them apart. */
  lemma StillApart(txs: seq<Tx>, t: nat, tx: Tx)
    requires t < |txs| && AllApart(txs)
    requires CategoryLocks(tx) <= CategoryLocks(txs[t]) && OrderLocks(tx) <= OrderLocks(txs[t]) && !tx.Writing?
    ensures AllApart(txs[t := tx])
  {
    var after := txs[t := tx];
    forall v, u | 0 <= v < |after| && 0 <= u < |after| && v != u ensures Apart(after[v], after[u]) {
      assert Apart(txs[v], txs[u]);
    }
  }

  lemma StartKeepsInv(s: Sys, step: Step)
    requires Inv(s) && Enabled(s, step) && (step.StartCreate? || step.StartPay? || step.StartExpire?)
    ensures Inv(Fire(s, step))
  {
    var after := Fire(s, step);
    var n := |s.txs|;
    assert |after.txs| == n + 1 && CategoryLocks(after.txs[n]) == {} && OrderLocks(after.txs[n]) == {} && !after.txs[n].Writing?;
    assert forall v :: 0 <= v < n ==> after.txs[v] == s.txs[v];
    forall v, u | 0 <= v < |after.txs| && 0 <= u < |after.txs| && v != u ensures Apart(after.txs[v], after.txs[u]) {
      if v < n && u < n {
        assert Apart(s.txs[v], s.txs[u]);
      }
    }
  }

  lemma FinishKeepsInv(s: Sys, step: Step)
    requires Inv(s) && Enabled(s, step) && (step.Refuse? || step.Abort? || step.Enqueue?)
    ensures Inv(Fire(s, step))
  {
    StillApart(s.txs, step.t, Finished);
  }

  lemma ExamineKeepsApart(s: Sys, t: nat, c: nat)
    requires Inv(s) && Enabled(s, Examine(t, c))
    ensures AllApart(Fire(s, Examine(t, c)).txs)
  {
    var txs := Fire(s, Examine(t, c)).txs;
    forall v, u | 0 <= v < |txs| && 0 <= u < |txs| && v != u ensures Apart(txs[v], txs[u]) {
      assert Apart(s.txs[v], s.txs[u]);
      if c in Selected(s.db, s.txs[t].lines) {
        assert c !in CategoryLocks(s.txs[v]) && c !in CategoryLocks(s.txs[u]);
      }
    }
  }

  lemma ExamineKeepsInv(s: Sys, t: nat, c: nat)
    requires Inv(s) && Enabled(s, Examine(t, c))
    ensures Inv(Fire(s, Examine(t, c)))
  {
    ExamineKeepsApart(s, t, c);
    var after := Fire(s, Examine(t, c));
    assert Sound(s.db, s.txs[t]);
    assert Sound(s.db, after.txs[t]);
  }

  lemma InsertKeepsInv(s: Sys, t: nat, newOrder: nat, newItems: seq<nat>)
    requires Inv(s) && Enabled(s, Insert(t, newOrder, newItems))
    ensures Inv(Fire(s, Insert(t, newOrder, newItems)))
  {
    var after := Fire(s, Insert(t, newOrder, newItems));
    assert Sound(s.db, s.txs[t]);
    assert Unused(s.db, newOrder, newItems);
    forall v, u | 0 <= v < |s.txs| && 0 <= u < |s.txs| && v != u ensures Apart(after.txs[v], after.txs[u]) {
      assert Apart(s.txs[v], s.txs[u]);
    }
  }

  lemma RowLockKeepsInv(s: Sys, step: Step)
    requires Inv(s) && Enabled(s, step) && (step.GuardedUpdate? || step.ReadItems?)
    ensures Inv(Fire(s, step))
  {
    var after := Fire(s, step);
    assert Sound(s.db, s.txs[step.t]);
    forall v, u | 0 <= v < |s.txs| && 0 <= u < |s.txs| && v != u ensures Apart(after.txs[v], after.txs[u]) {
      assert Apart(s.txs[v], s.txs[u]);
    }
  }

  lemma MigrateKeepsInv(s: Sys, step: Step)
    requires Inv(s) && Enabled(s, step) && step.Migrate?
    ensures Inv(Fire(s, step))
  {
    var after := Fire(s, step);
    ExecKeepsConsistent(s.db, Label(s, step).value);
    forall u | 0 <= u < |s.txs| ensures Sound(after.db, s.txs[u]) {
      MigrateSpares(s, step.anonymousEmail, u);
      SparedStaysSound(s.db, after.db, s.txs[u]);
    }
    assert after.db.items == s.db.items;
  }

  lemma AdmitKeepsInv(s: Sys, step: Step)
    requires Inv(s) && Enabled(s, step) && step.Admit?
    ensures Inv(Fire(s, step))
  {
    var after := Fire(s, step);
    ExecKeepsConsistent(s.db, Label(s, step).value);
    forall u | 0 <= u < |s.txs| ensures Sound(after.db, s.txs[u]) {
      AdminSpares(s, step.admin, u);
      SparedStaysSound(s.db, after.db, s.txs[u]);
    }
    assert after.db.items == s.db.items;
  }

  lemma StepKeepsInv(s: Sys, step: Step)
    requires Inv(s)
    ensures Inv(Do(s, step))
  {
    if Enabled(s, step) {
      match step
      case Examine(t, c) => ExamineKeepsInv(s, t, c);
      case Insert(t, o, ids) => InsertKeepsInv(s, t, o, ids);
      case GuardedUpdate(_) => RowLockKeepsInv(s, step);
      case ReadItems(_) => RowLockKeepsInv(s, step);
      case Commit(t) => CommitKeepsInv(s, t);
      case Migrate(_) => MigrateKeepsInv(s, step);
      case Admit(_) => AdmitKeepsInv(s, step);
      case StartCreate(_, _, _) => StartKeepsInv(s, step);
      case StartPay(_) => StartKeepsInv(s, step);
      case StartExpire(_) => StartKeepsInv(s, step);
      case AckCancel(_) =>
      case _ => FinishKeepsInv(s, step);
    }
  }

  lemma {:induction false} RunKeepsInv(steps: seq<Step>)
    ensures Inv(Run(steps))
  {
    if steps != [] {
      RunKeepsInv(steps[..|steps| - 1]);
      StepKeepsInv(Run(steps[..|steps| - 1]), steps[|steps| - 1]);
    }
  }

  // ---------------------------------------------------------------- serializability

  /** The serial transactions of a run, in commit order. */
  ghost function History(steps: seq<Step>): seq<Txn> {
    if steps == [] then []
    else
      var (earlier, last) := (steps[..|steps| - 1], steps[|steps| - 1]);
      if Enabled(Run(earlier), last) && Label(Run(earlier), last).Some?
      then History(earlier) + [Label(Run(earlier), last).value] else History(earlier)
  }

  lemma StepIsSerial(s: Sys, step: Step)
    requires Inv(s) && Enabled(s, step)
    ensures Fire(s, step).db == if Label(s, step).Some? then Exec(s.db, Label(s, step).value) else s.db
  {
    if step.Commit? {
      CommitIsSerial(s, step.t);
    }
  }

  /** Whatever the interleaving, the committed tables are those of the transactions run one at a time in commit order. */
  lemma {:induction false} Serializable(steps: seq<Step>)
    ensures Run(steps).db == Serial(EMPTY, History(steps))
  {
    if steps != [] {
      var (earlier, last) := (steps[..|steps| - 1], steps[|steps| - 1]);
      Serializable(earlier);
      RunKeepsInv(earlier);
      if Enabled(Run(earlier), last) {
        StepIsSerial(Run(earlier), last);
        if Label(Run(earlier), last).Some? {
          assert History(steps)[..|History(steps)| - 1] == History(earlier);
        }
      }
    }
  }
}

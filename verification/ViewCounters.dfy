/** The in-memory cache and the view service on top of it: without failures, every counter is the number of visitors. */
module ViewCounters {
  import opened Tables
  import opened BulkInsert

  datatype CacheValue = Number(n: nat) | Text(s: string)

  /** Cache keys: the counter of an object, the lock around filling it, and keys of other parts of the system. */
  datatype Key = CounterKey(objectType: string, objectId: int) | LockKey(key: Key) | OtherKey(name: string)

  /** `InMemoryCacheManager`: one dictionary of values, one of exact sets. */
  class InMemoryCache {
    var storage: map<Key, CacheValue>
    var sets: map<(string, int), set<string>>

    constructor ()
      ensures storage == map[] && sets == map[]
    {
      storage, sets := map[], map[];
    }

    method Get(key: Key) returns (value: Option<CacheValue>)
      ensures value == if key in storage then Some(storage[key]) else None
    {
      value := if key in storage then Some(storage[key]) else None;
    }

    method GetMany(keys: seq<Key>) returns (values: seq<Option<CacheValue>>)
      ensures |values| == |keys|
      ensures forall i :: 0 <= i < |keys| ==> values[i] == if keys[i] in storage then Some(storage[keys[i]]) else None
    {
      values := [];
      for i := 0 to |keys|
        invariant |values| == i
        invariant forall j :: 0 <= j < i ==> values[j] == if keys[j] in storage then Some(storage[keys[j]]) else None
      {
        var value := Get(keys[i]);
        values := values + [value];
      }
    }

    method Set(key: Key, value: CacheValue)
      modifies this`storage
      ensures storage == old(storage)[key := value]
    {
      storage := storage[key := value];
    }

    method SetMany(entries: map<Key, CacheValue>)
      modifies this`storage
      ensures storage == old(storage) + entries
    {
      storage := storage + entries;
    }

    /** Counting up from 0; a value that is no number raises, and nothing changes. */
    method Incr(key: Key) returns (value: Option<nat>)
      modifies this`storage
      ensures value.None? <==> key in old(storage) && old(storage)[key].Text?
      ensures value.None? ==> storage == old(storage)
      ensures value.Some? ==> storage == old(storage)[key := Number(value.value)]
                              && value.value == (if key in old(storage) then old(storage)[key].n else 0) + 1
    {
      if key in storage && storage[key].Text? { return None; }
      var next := (if key in storage then storage[key].n else 0) + 1;
      storage := storage[key := Number(next)];
      value := Some(next);
    }

    /** Adding to a set: 1 when the value is new. */
    method PfAdd(key: (string, int), value: string) returns (added: nat)
      modifies this`sets
      ensures added == if key in old(sets) && value in old(sets)[key] then 0 else 1
      ensures sets == old(sets)[key := (if key in old(sets) then old(sets)[key] else {}) + {value}]
    {
      if key !in sets {
        sets := sets[key := {}];
      }
      if value in sets[key] {
        assert sets[key] + {value} == sets[key];
        return 0;
      }
      sets := sets[key := sets[key] + {value}];
      return 1;
    }
  }

  /** Visitors of an object whose view is in the log table or still queued. */
  ghost function Visitors(log: set<View>, queue: seq<Payload>, objectType: string, objectId: int): set<string> {
    (set v | v in log && v.objectType == objectType && v.objectId == objectId :: v.visitor)
    + (set p | p in queue && p.objectType == objectType && objectId in p.objectIds :: p.visitor)
  }

  class ViewService {
    const cache: InMemoryCache
    const modelName: string
    const table: Table
    var queue: seq<Payload>
    var log: set<View>

    constructor (modelName: string, cache: InMemoryCache)
      requires cache.storage == map[] && cache.sets == map[]
      ensures this.cache == cache && this.modelName == modelName && Agrees()
      ensures queue == [] && log == {} && TableHoldsLog() && fresh(table)
    {
      this.cache, this.modelName := cache, modelName;
      queue, log := [], {};
      table := new Table();
    }

    ghost function Seen(objectId: int): set<string>
      reads this
    {
      Visitors(log, queue, modelName, objectId)
    }

    ghost function Deduped(objectId: int): set<string>
      reads cache`sets
    {
      if (modelName, objectId) in cache.sets then cache.sets[(modelName, objectId)] else {}
    }

    ghost function Counted(objectId: int): nat
      reads cache`storage
    {
      var key := CounterKey(modelName, objectId);
      if key in cache.storage && cache.storage[key].Number? then cache.storage[key].n else 0
    }

    /** One object: the deduper holds its visitors, and the counter (0 when absent) is how many there are. */
    ghost predicate AgreesOn(objectId: int)
      reads this, cache
    {
      && (CounterKey(modelName, objectId) in cache.storage ==> cache.storage[CounterKey(modelName, objectId)].Number?)
      && Deduped(objectId) == Seen(objectId)
      && Counted(objectId) == |Seen(objectId)|
    }

    ghost predicate Agrees()
      reads this, cache
    {
      forall objectId :: AgreesOn(objectId)
    }

    ghost predicate CountersAreNumbers()
      reads cache`storage
    {
      forall id :: CounterKey(modelName, id) in cache.storage ==> cache.storage[CounterKey(modelName, id)].Number?
    }

    method AddToDeduper(objectId: int, visitor: string) returns (isNew: bool)
      modifies cache`sets
      ensures forall id :: Deduped(id) == if id == objectId then old(Deduped(id)) + {visitor} else old(Deduped(id))
      ensures isNew <==> visitor !in old(Deduped(objectId))
    {
      var added := cache.PfAdd((modelName, objectId), visitor);
      isNew := added != 0;
    }

    method CountOne(objectId: int)
      requires CountersAreNumbers()
      modifies cache`storage
      ensures CountersAreNumbers()
      ensures forall id :: Counted(id) == old(Counted(id)) + if id == objectId then 1 else 0
    {
      var _ := cache.Incr(CounterKey(modelName, objectId));
    }

    method IncrementOne(objectId: int, visitor: string)
      requires Agrees()
      modifies this`queue, cache
      ensures Agrees()
      ensures forall id :: Seen(id) == if id == objectId && objectId != 0 then old(Seen(id)) + {visitor} else old(Seen(id))
    {
      if objectId != 0 {
        IncrementKnown(objectId, visitor);
      }
    }

    method IncrementKnown(objectId: int, visitor: string)
      requires Agrees()
      modifies this`queue, cache
      ensures Agrees()
      ensures forall id :: Seen(id) == if id == objectId then old(Seen(id)) + {visitor} else old(Seen(id))
    {
      NumbersWhenAgreed();
      assert AgreesOn(objectId);
      var isNewView := AddToDeduper(objectId, visitor);
      if isNewView {
        CountOne(objectId);
        queue := queue + [Payload(modelName, [objectId], visitor)];
      }
      assert CountersAreNumbers();
      forall id
        ensures Seen(id) == if id == objectId then old(Seen(id)) + {visitor} else old(Seen(id))
        ensures AgreesOn(id)
      {
        assert old(AgreesOn(id));
        RecountOne(log, old(queue), objectId, isNewView, visitor, modelName, id);
        assert Counted(id) == old(Counted(id)) + if isNewView && id == objectId then 1 else 0;
        assert Deduped(id) == if id == objectId then old(Deduped(id)) + {visitor} else old(Deduped(id));
      }
    }

    lemma NumbersWhenAgreed()
      requires Agrees()
      ensures CountersAreNumbers()
    {
      forall id ensures CounterKey(modelName, id) in cache.storage ==> cache.storage[CounterKey(modelName, id)].Number? {
        assert AgreesOn(id);
      }
    }

    /** The ids whose deduper did not hold the visitor; a repeated id counts once. */
    method AddToDedupers(objectIds: seq<int>, visitor: string) returns (uniqueIds: seq<int>)
      modifies cache`sets
      ensures forall id :: Deduped(id) == if id in objectIds then old(Deduped(id)) + {visitor} else old(Deduped(id))
      ensures forall id :: id in uniqueIds <==> id in objectIds && visitor !in old(Deduped(id))
      ensures forall i, j :: 0 <= i < j < |uniqueIds| ==> uniqueIds[i] != uniqueIds[j]
    {
      uniqueIds := [];
      for i := 0 to |objectIds|
        invariant forall id :: Deduped(id) == if id in objectIds[..i] then old(Deduped(id)) + {visitor} else old(Deduped(id))
        invariant forall id :: id in uniqueIds <==> id in objectIds[..i] && visitor !in old(Deduped(id))
        invariant forall i, j :: 0 <= i < j < |uniqueIds| ==> uniqueIds[i] != uniqueIds[j]
      {
        assert objectIds[..i + 1] == objectIds[..i] + [objectIds[i]];
        assert objectIds[i] in uniqueIds ==> visitor in Deduped(objectIds[i]);
        var isNew := AddToDeduper(objectIds[i], visitor);
        if isNew {
          uniqueIds := uniqueIds + [objectIds[i]];
        }
      }
      assert objectIds[..|objectIds|] == objectIds;
    }

    method CountUp(uniqueIds: seq<int>)
      requires forall i, j :: 0 <= i < j < |uniqueIds| ==> uniqueIds[i] != uniqueIds[j]
      requires CountersAreNumbers()
      modifies cache`storage
      ensures CountersAreNumbers()
      ensures forall id :: Counted(id) == old(Counted(id)) + if id in uniqueIds then 1 else 0
    {
      for i := 0 to |uniqueIds|
        invariant CountersAreNumbers()
        invariant forall id :: Counted(id) == old(Counted(id)) + if id in uniqueIds[..i] then 1 else 0
      {
        assert uniqueIds[..i + 1] == uniqueIds[..i] + [uniqueIds[i]];
        assert uniqueIds[i] !in uniqueIds[..i];
        CountOne(uniqueIds[i]);
      }
      assert uniqueIds[..|uniqueIds|] == uniqueIds;
    }

    method IncrementMany(objectIds: seq<int>, visitor: string)
      requires Agrees()
      modifies this`queue, cache
      ensures Agrees()
      ensures forall id :: Seen(id) == if id in objectIds then old(Seen(id)) + {visitor} else old(Seen(id))
    {
      if objectIds == [] { return; }
      NumbersWhenAgreed();
      var uniqueIds := AddToDedupers(objectIds, visitor);
      if uniqueIds != [] {
        CountUp(uniqueIds);
        queue := queue + [Payload(modelName, uniqueIds, visitor)];
      }
      forall id
        ensures Seen(id) == if id in objectIds then old(Seen(id)) + {visitor} else old(Seen(id))
        ensures AgreesOn(id)
      {
        assert old(AgreesOn(id));
        Recount(log, old(queue), objectIds, uniqueIds, visitor, modelName, id);
      }
    }

    /** `count()` over the log rows of one object. */
    ghost function LogCount(objectId: int): nat
      reads this
    {
      |set v | v in log && v.objectType == modelName && v.objectId == objectId|
    }

    method CountRows(objectId: int) returns (count: nat)
      ensures count == LogCount(objectId)
    {
      var rows := set v | v in log && v.objectType == modelName && v.objectId == objectId;
      count := |rows|;
    }

    /** The deduper is right, and so is the counter unless it was evicted. */
    ghost predicate RightOn(objectId: int)
      reads this, cache
    {
      && Deduped(objectId) == Seen(objectId)
      && (CounterKey(modelName, objectId) in cache.storage ==>
            cache.storage[CounterKey(modelName, objectId)] == Number(|Seen(objectId)|))
    }

    ghost predicate Right()
      reads this, cache
    {
      forall objectId :: RightOn(objectId)
    }

    lemma AgreedIsRight()
      requires Agrees()
      ensures Right()
    {
      forall id ensures RightOn(id) {
        assert AgreesOn(id);
      }
    }

    /** Counters disappear: what is left is right. */
    method EvictCounters(objectIds: seq<int>)
      requires Right()
      modifies cache`storage
      ensures Right()
      ensures forall id :: id !in objectIds && old(AgreesOn(id)) ==> AgreesOn(id)
    {
      cache.storage := cache.storage - FillKeys(objectIds);
      forall id
        ensures RightOn(id) && (id !in objectIds && old(AgreesOn(id)) ==> AgreesOn(id))
      {
        assert old(RightOn(id));
      }
    }

    /** Where the counter is missing the log has the number: the queue is drained, or there is nothing to count. */
    lemma LogKnows(objectId: int)
      requires queue == [] || AgreesOn(objectId)
      requires CounterKey(modelName, objectId) !in cache.storage
      ensures LogCount(objectId) == |Seen(objectId)|
    {
      if queue == [] {
        SeenInLog(log, modelName, objectId);
        DistinctVisitors(log, modelName, objectId);
      } else {
        NoVisitorsNoRows(log, queue, modelName, objectId);
      }
    }

    /** The right number, after which the counter agrees too: with a drained queue a read repairs an evicted counter. */
    method GetViews(objectId: int) returns (views: nat)
      requires Right() && (queue == [] || AgreesOn(objectId))
      modifies cache`storage
      ensures views == |Seen(objectId)| && CounterKey(modelName, objectId) in cache.storage
      ensures Right() && AgreesOn(objectId) && forall id :: old(AgreesOn(id)) ==> AgreesOn(id)
    {
      var key := CounterKey(modelName, objectId);
      assert RightOn(objectId);
      var cached := cache.Get(key);
      if cached.Some? { return cached.value.n; }
      LogKnows(objectId);
      views := CountRows(objectId);
      cache.Set(key, Number(views));
      StillRight();
    }

    /** The batch form: hits from the cache, misses from the log, and the misses are filled in. */
    method GetManyViews(objectIds: seq<int>) returns (counts: map<int, nat>)
      requires Right() && (queue == [] || forall id :: id in objectIds ==> AgreesOn(id))
      modifies cache`storage
      ensures counts.Keys == Members(objectIds)
      ensures forall id :: id in counts ==> counts[id] == |Seen(id)| && CounterKey(modelName, id) in cache.storage
      ensures Right() && (forall id :: id in objectIds ==> AgreesOn(id)) && forall id :: old(AgreesOn(id)) ==> AgreesOn(id)
    {
      counts := map[];
      if objectIds == [] { return; }
      var hits, missing := RightHits(objectIds);
      var logged := CountMissing(missing);
      FillCache(missing, logged);
      counts := hits + logged;
      forall id | id in objectIds ensures AgreesOn(id) {
        assert id in Members(objectIds);
        CountedAgrees(id);
      }
    }

    lemma CountedAgrees(objectId: int)
      requires Right() && CounterKey(modelName, objectId) in cache.storage
      ensures AgreesOn(objectId)
    {
      assert RightOn(objectId);
    }

    method RightHits(objectIds: seq<int>) returns (hits: map<int, nat>, missing: seq<int>)
      requires Right()
      ensures hits.Keys + Members(missing) == Members(objectIds) && forall id :: id in missing ==> id in objectIds
      ensures forall id :: id in hits ==> hits[id] == |Seen(id)| && CounterKey(modelName, id) in cache.storage
      ensures forall id :: id in missing ==> CounterKey(modelName, id) !in cache.storage
    {
      NumbersWhenRight();
      hits, missing := FromCache(objectIds);
      forall id | id in hits ensures hits[id] == |Seen(id)| {
        assert RightOn(id);
      }
      forall id | id in missing ensures id in objectIds {
        assert id in Members(missing) && id in Members(objectIds);
      }
    }

    method CountMissing(ids: seq<int>) returns (counts: map<int, nat>)
      requires forall id :: id in ids ==> (queue == [] || AgreesOn(id)) && CounterKey(modelName, id) !in cache.storage
      ensures counts.Keys == Members(ids) && forall id :: id in ids ==> counts[id] == |Seen(id)|
    {
      counts := CountMany(ids);
      forall id | id in ids ensures counts[id] == |Seen(id)| {
        LogKnows(id);
      }
    }

    method FillCache(missing: seq<int>, logged: map<int, nat>)
      requires Right() && forall id :: id in missing ==> id in logged && logged[id] == |Seen(id)|
      modifies cache`storage
      ensures Right() && forall id :: old(AgreesOn(id)) ==> AgreesOn(id)
      ensures forall key :: key in old(cache.storage) ==> key in cache.storage
      ensures forall id :: id in missing ==> CounterKey(modelName, id) in cache.storage
    {
      cache.SetMany(map k: Key | k in FillKeys(missing) :: Number(logged[k.objectId]));
      StillRight();
    }

    /** Storing the right numbers of some objects keeps everything right. */
    twostate lemma StillRight()
      requires old(Right()) && log == old(log) && queue == old(queue) && cache.sets == old(cache.sets)
      requires forall id :: CounterKey(modelName, id) in old(cache.storage) ==> CounterKey(modelName, id) in cache.storage
      requires forall id :: CounterKey(modelName, id) in cache.storage ==>
                 cache.storage[CounterKey(modelName, id)] == Number(|Seen(id)|)
                 || (CounterKey(modelName, id) in old(cache.storage)
                     && cache.storage[CounterKey(modelName, id)] == old(cache.storage)[CounterKey(modelName, id)])
      ensures Right() && forall id :: old(AgreesOn(id)) ==> AgreesOn(id)
    {
      forall id
        ensures RightOn(id) && (old(AgreesOn(id)) ==> AgreesOn(id))
      {
        assert old(RightOn(id));
      }
    }

    lemma NumbersWhenRight()
      requires Right()
      ensures CountersAreNumbers()
    {
      forall id ensures CounterKey(modelName, id) in cache.storage ==> cache.storage[CounterKey(modelName, id)].Number? {
        assert RightOn(id);
      }
    }

    /** The hits of one `get` over all keys, and the ids that missed. */
    method FromCache(objectIds: seq<int>) returns (hits: map<int, nat>, missing: seq<int>)
      requires CountersAreNumbers()
      ensures hits.Keys + Members(missing) == Members(objectIds)
      ensures forall id :: id in hits ==> CounterKey(modelName, id) in cache.storage
                                          && cache.storage[CounterKey(modelName, id)] == Number(hits[id])
      ensures forall id :: id in missing ==> CounterKey(modelName, id) !in cache.storage
    {
      var keys := CounterKeys(objectIds);
      var cachedValues := cache.GetMany(keys);
      hits, missing := map[], [];
      for i := 0 to |objectIds|
        invariant hits.Keys + Members(missing) == Members(objectIds[..i])
        invariant forall id :: id in hits ==> CounterKey(modelName, id) in cache.storage
                                              && cache.storage[CounterKey(modelName, id)] == Number(hits[id])
        invariant forall id :: id in missing ==> CounterKey(modelName, id) !in cache.storage
      {
        OneMore(objectIds, i);
        if cachedValues[i].Some? {
          hits := hits[objectIds[i] := cachedValues[i].value.n];
        } else {
          missing := missing + [objectIds[i]];
        }
      }
      assert objectIds[..|objectIds|] == objectIds;
    }

    method CounterKeys(objectIds: seq<int>) returns (keys: seq<Key>)
      ensures |keys| == |objectIds| && forall i :: 0 <= i < |keys| ==> keys[i] == CounterKey(modelName, objectIds[i])
    {
      keys := [];
      for i := 0 to |objectIds|
        invariant |keys| == i && forall j :: 0 <= j < i ==> keys[j] == CounterKey(modelName, objectIds[j])
      {
        keys := keys + [CounterKey(modelName, objectIds[i])];
      }
    }

    function FillKeys(ids: seq<int>): set<Key>
      ensures forall k :: k in FillKeys(ids) <==> k.CounterKey? && k.objectType == modelName && k.objectId in ids
    {
      set id | id in ids :: CounterKey(modelName, id)
    }

    /** One read of the log for all the ids, then one count an id. */
    method CountMany(ids: seq<int>) returns (counts: map<int, nat>)
      ensures counts.Keys == Members(ids) && forall id :: id in ids ==> counts[id] == LogCount(id)
    {
      var rows := set v | v in log && v.objectType == modelName && v.objectId in ids;
      counts := map id | id in ids :: |set v | v in rows && v.objectId == id|;
      forall id | id in ids ensures counts[id] == LogCount(id) {
        assert (set v | v in rows && v.objectId == id)
            == set v | v in log && v.objectType == modelName && v.objectId == id;
      }
    }

    /** `log` is what the rows of the log table say. */
    ghost predicate TableHoldsLog()
      reads this, table
    {
      IsLog(table.rows, log)
    }

    /** The consumer takes a batch from the front of the queue and logs it; who has seen what does not change. */
    method ConsumeBatch(size: nat) returns (processed: nat)
      requires Agrees() && TableHoldsLog() && size <= |queue|
      modifies this`queue, this`log, table
      ensures Agrees() && TableHoldsLog()
      ensures queue == old(queue)[size..] && log == old(log) + ViewsOf(old(queue)[..size])
      ensures processed == |log - old(log)|
      ensures forall id :: Seen(id) == old(Seen(id))
      ensures queue == [] ==> forall id :: LogCount(id) == |Seen(id)|
    {
      var batch := queue[..size];
      processed := ProcessViewLogs(table, batch, log);
      assert ViewsOf(batch) - log == (log + ViewsOf(batch)) - log;
      log := log + ViewsOf(batch);
      queue := queue[size..];
      forall id
        ensures Seen(id) == old(Seen(id)) && AgreesOn(id) && (queue == [] ==> LogCount(id) == |Seen(id)|)
      {
        assert old(AgreesOn(id));
        SeenWhenLogged(old(log), old(queue), size, modelName, id);
        DistinctVisitors(log, modelName, id);
        if queue == [] { SeenInLog(log, modelName, id); }
      }
    }

    /** Calls one after the other. Reads are answered with the number of visitors so far. */
    method Serve(calls: seq<Call>) returns (answers: seq<map<int, nat>>)
      requires Agrees() && TableHoldsLog()
      modifies this`queue, this`log, table, cache
      ensures Agrees() && TableHoldsLog() && |answers| == |calls|
      ensures forall id :: Seen(id) == old(Seen(id)) + VisitorsIn(calls, id)
      ensures forall k :: 0 <= k < |calls| ==> RightAnswer(calls, k, answers[k], old(this.SeenBy()))
    {
      answers := [];
      ghost var before := SeenBy();
      for k := 0 to |calls|
        invariant Agrees() && TableHoldsLog() && |answers| == k && SeenAfter(calls, k, before)
        invariant forall j :: 0 <= j < k ==> RightAnswer(calls, j, answers[j], before)
      {
        var answer := ServeOne(calls, k, before);
        answers := answers + [answer];
      }
      assert calls[..|calls|] == calls;
    }

    /** Who has seen what after the first calls. */
    ghost predicate SeenAfter(calls: seq<Call>, k: nat, before: int -> set<string>)
      reads this
      requires k <= |calls|
    {
      forall id :: Seen(id) == before(id) + VisitorsIn(calls[..k], id)
    }

    method ServeOne(calls: seq<Call>, k: nat, ghost before: int -> set<string>) returns (answer: map<int, nat>)
      requires Agrees() && TableHoldsLog() && k < |calls| && SeenAfter(calls, k, before)
      modifies this`queue, this`log, table, cache
      ensures Agrees() && TableHoldsLog() && SeenAfter(calls, k + 1, before)
      ensures RightAnswer(calls, k, answer, before)
    {
      answer := Answer(calls[k]);
      VisitorsNext(calls, k);
    }

    ghost function SeenBy(): int -> set<string>
      reads this
    {
      var (theLog, theQueue, name) := (log, queue, modelName);
      id => Visitors(theLog, theQueue, name, id)
    }

    method Answer(call: Call) returns (answer: map<int, nat>)
      requires Agrees() && TableHoldsLog()
      modifies this`queue, this`log, table, cache
      ensures Agrees() && TableHoldsLog()
      ensures forall id :: Seen(id) == old(Seen(id)) + NewVisitors(call, id)
      ensures answer.Keys == AskedFor(call) && forall id :: id in answer ==> answer[id] == |old(Seen(id))|
    {
      if call.Read? || call.ReadSingle? {
        answer := AnswerRead(call);
      } else {
        answer := map[];
        if call.Consume? {
          var _ := ConsumeBatch(if call.size <= |queue| then call.size else |queue|);
        } else {
          AnswerIncrement(call);
        }
      }
    }

    method AnswerIncrement(call: Call)
      requires Agrees() && (call.Increment? || call.IncrementSingle?)
      modifies this`queue, cache
      ensures Agrees()
      ensures forall id :: Seen(id) == old(Seen(id)) + NewVisitors(call, id)
    {
      if call.Increment? {
        IncrementMany(call.objectIds, call.visitor);
      } else {
        IncrementOne(call.objectId, call.visitor);
      }
    }

    method AnswerRead(call: Call) returns (answer: map<int, nat>)
      requires Agrees() && (call.Read? || call.ReadSingle?)
      modifies cache`storage
      ensures Agrees()
      ensures answer.Keys == AskedFor(call) && forall id :: id in answer ==> answer[id] == |Seen(id)|
    {
      AgreedIsRight();
      if call.Read? {
        answer := GetManyViews(call.objectIds);
      } else {
        var views := GetViews(call.objectId);
        answer := map[call.objectId := views];
      }
    }
  }

  /** A call of the service or of the consumer. */
  datatype Call =
    | Increment(objectIds: seq<int>, visitor: string)
    | IncrementSingle(objectId: int, visitor: string)
    | Read(objectIds: seq<int>)
    | ReadSingle(objectId: int)
    | Consume(size: nat)

  function NewVisitors(call: Call, id: int): set<string> {
    match call
    case Increment(objectIds, visitor) => if id in objectIds then {visitor} else {}
    case IncrementSingle(objectId, visitor) => if id == objectId && objectId != 0 then {visitor} else {}
    case _ => {}
  }

  function AskedFor(call: Call): set<int> {
    match call
    case Read(objectIds) => Members(objectIds)
    case ReadSingle(objectId) => {objectId}
    case _ => {}
  }

  /** Visitors of an object in the calls so far. */
  function VisitorsIn(calls: seq<Call>, id: int): set<string> {
    if calls == [] then {} else VisitorsIn(calls[..|calls| - 1], id) + NewVisitors(calls[|calls| - 1], id)
  }

  lemma VisitorsNext(calls: seq<Call>, k: nat)
    requires k < |calls|
    ensures forall id :: VisitorsIn(calls[..k + 1], id) == VisitorsIn(calls[..k], id) + NewVisitors(calls[k], id)
  {
    assert calls[..k + 1][..k] == calls[..k];
  }

  ghost predicate RightAnswer(calls: seq<Call>, k: nat, answer: map<int, nat>, before: int -> set<string>)
    requires k < |calls|
  {
    && answer.Keys == AskedFor(calls[k])
    && forall id :: id in answer ==> answer[id] == |before(id) + VisitorsIn(calls[..k], id)|
  }

  /** In every serial run from the empty state, reads are answered with the number of distinct visitors so far. */
  method SerialRun(modelName: string, calls: seq<Call>) returns (answers: seq<map<int, nat>>)
    ensures |answers| == |calls|
    ensures forall k :: 0 <= k < |calls| ==> RightAnswer(calls, k, answers[k], id => {})
  {
    var cache := new InMemoryCache();
    var service := new ViewService(modelName, cache);
    answers := service.Serve(calls);
  }

  function Members(ids: seq<int>): set<int> {
    set id | id in ids
  }

  lemma OneMore(ids: seq<int>, i: nat)
    requires i < |ids|
    ensures Members(ids[..i + 1]) == Members(ids[..i]) + {ids[i]}
  {
    assert ids[..i + 1] == ids[..i] + [ids[i]];
  }

  lemma SeenAppend(log: set<View>, queue: seq<Payload>, p: Payload, objectType: string, id: int)
    ensures Visitors(log, queue + [p], objectType, id) ==
            Visitors(log, queue, objectType, id) + if p.objectType == objectType && id in p.objectIds then {p.visitor} else {}
  {
    assert forall q :: q in queue + [p] <==> q in queue || q == p;
  }

  /** Queueing the new ids adds the visitor to every touched object, and one visitor to each new one. */
  lemma Recount(log: set<View>, queue: seq<Payload>, ids: seq<int>, uniqueIds: seq<int>, visitor: string,
                objectType: string, id: int)
    requires id in uniqueIds <==> id in ids && visitor !in Visitors(log, queue, objectType, id)
    ensures var before := Visitors(log, queue, objectType, id);
            var after := Visitors(log, if uniqueIds == [] then queue else queue + [Payload(objectType, uniqueIds, visitor)],
                                  objectType, id);
            && after == (if id in ids then before + {visitor} else before)
            && |after| == |before| + (if id in uniqueIds then 1 else 0)
  {
    var before := Visitors(log, queue, objectType, id);
    if uniqueIds != [] {
      SeenAppend(log, queue, Payload(objectType, uniqueIds, visitor), objectType, id);
    }
    if id in ids && id !in uniqueIds {
      assert before + {visitor} == before;
    }
  }

  lemma RecountOne(log: set<View>, queue: seq<Payload>, objectId: int, isNew: bool, visitor: string,
                   objectType: string, id: int)
    requires isNew <==> visitor !in Visitors(log, queue, objectType, objectId)
    ensures var before := Visitors(log, queue, objectType, id);
            var after := Visitors(log, if isNew then queue + [Payload(objectType, [objectId], visitor)] else queue,
                                  objectType, id);
            && after == (if id == objectId then before + {visitor} else before)
            && |after| == |before| + (if isNew && id == objectId then 1 else 0)
  {
    assert id in [objectId] <==> id == objectId;
    Recount(log, queue, [objectId], if isNew then [objectId] else [], visitor, objectType, id);
  }

  lemma NoVisitorsNoRows(log: set<View>, queue: seq<Payload>, objectType: string, id: int)
    ensures |Visitors(log, queue, objectType, id)| == 0 ==>
              (set v | v in log && v.objectType == objectType && v.objectId == id) == {}
  {
    if v :| v in log && v.objectType == objectType && v.objectId == id {
      assert v.visitor in Visitors(log, queue, objectType, id);
    }
  }

  lemma SeenInLog(log: set<View>, objectType: string, id: int)
    ensures Visitors(log, [], objectType, id) == set v | v in log && v.objectType == objectType && v.objectId == id :: v.visitor
  {
  }

  /** Logging a batch from the front of the queue leaves the visitors as they were. */
  lemma SeenWhenLogged(log: set<View>, queue: seq<Payload>, size: nat, objectType: string, id: int)
    requires size <= |queue|
    ensures Visitors(log + ViewsOf(queue[..size]), queue[size..], objectType, id) == Visitors(log, queue, objectType, id)
  {
    assert forall p :: p in queue <==> p in queue[..size] || p in queue[size..] by {
      assert queue == queue[..size] + queue[size..];
    }
    forall who | who in Visitors(log, queue, objectType, id)
      ensures who in Visitors(log + ViewsOf(queue[..size]), queue[size..], objectType, id)
    {
      if v :| v in log && v.objectType == objectType && v.objectId == id && v.visitor == who {
        assert v in log + ViewsOf(queue[..size]);
      } else {
        var p :| p in queue && p.objectType == objectType && id in p.objectIds && p.visitor == who;
        if p in queue[..size] {
          assert View(p.objectType, id, p.visitor) in ViewsOf(queue[..size]);
        }
      }
    }
  }

  /** The log holds one row a visitor, so its rows of an object are as many as the visitors. */
  lemma DistinctVisitors(log: set<View>, objectType: string, id: int)
    ensures |set v | v in log && v.objectType == objectType && v.objectId == id| ==
            |set v | v in log && v.objectType == objectType && v.objectId == id :: v.visitor|
    decreases log
  {
    var rows := set v | v in log && v.objectType == objectType && v.objectId == id;
    var visitors := set v | v in log && v.objectType == objectType && v.objectId == id :: v.visitor;
    if v :| v in rows {
      var rest := log - {v};
      DistinctVisitors(rest, objectType, id);
      var rows' := set w | w in rest && w.objectType == objectType && w.objectId == id;
      var visitors' := set w | w in rest && w.objectType == objectType && w.objectId == id :: w.visitor;
      assert rows == rows' + {v};
      assert visitors == visitors' + {v.visitor};
      assert v.visitor !in visitors';
    } else {
      assert rows == {};
      assert forall v :: v in log && v.objectType == objectType && v.objectId == id ==> v in rows;
    }
  }
}

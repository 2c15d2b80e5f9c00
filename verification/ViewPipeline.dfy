/**
 * The view-count pipeline with cache failures at any point, deduper expiry, redelivery, and readers that fill missing
 * counters from the log: no view is lost or invented.
 */
module ViewPipeline {
  import opened Tables
  import opened BulkInsert

  /** One `increment_views` call between its first cache command and its message. */
  datatype Request =
    | Adding(views: seq<View>, next: nat, added: seq<View>)
    | Counting(views: seq<View>, added: seq<View>, next: nat)
    | Sending(message: seq<View>)
    | Done

  /** What is viewed: type and id. */
  type Object = (string, int)

  /** A `get_views` call for one object: it found no counter, then counts the log rows, then stores the count. */
  datatype Fill = Missed(viewed: Object) | Counted(viewed: Object, count: nat) | Ended

  /**
   * From `submitted` on this is history: the views asked for, those ever handed to the queue, and those among them that
   * a failing request sent without having added them to the deduper; then, for each object, how many counts failed, were
   * evicted or overwritten, how many views expired from the deduper, and how much readers filled in.
   */
  datatype Pipeline = Pipeline(
    deduper: set<View>,
    counters: map<Object, nat>,
    queue: seq<seq<View>>,
    log: set<View>,
    requests: seq<Request>,
    fills: seq<Fill>,
    submitted: set<View>,
    sent: set<View>,
    bypassed: set<View>,
    uncounted: map<Object, nat>,
    forgotten: map<Object, nat>,
    filled: map<Object, nat>)

  const START := Pipeline({}, map[], [], {}, [], [], {}, {}, {}, map[], map[], map[])

  datatype Step =
    | Submit(objectType: string, objectIds: seq<int>, visitor: string)
    | AddKey(r: nat)
    | EndAdding(r: nat)
    | CountKey(r: nat)
    | EndCounting(r: nat)
    | CacheFails(r: nat)
    | Send(r: nat)
    | Forget(expired: set<View>)
    | Evict(counter: Object)
    | Deliver(k: nat)
    | Acknowledge(k: nat)
    | Miss(viewed: Object)
    | CountLog(f: nat)
    | StoreCount(f: nat)
    | ReaderFails(f: nat)

  function ViewsFor(objectType: string, objectIds: seq<int>, visitor: string): (r: seq<View>)
    ensures |r| == |objectIds| && forall k :: 0 <= k < |r| ==> r[k] == View(objectType, objectIds[k], visitor)
  {
    seq(|objectIds|, k requires 0 <= k < |objectIds| => View(objectType, objectIds[k], visitor))
  }

  function Members(views: seq<View>): set<View> {
    set v | v in views
  }

  function ObjectOf(v: View): Object {
    (v.objectType, v.objectId)
  }

  function At(counts: map<Object, nat>, o: Object): nat {
    if o in counts then counts[o] else 0
  }

  function Among(views: set<View>, o: Object): set<View> {
    set v | v in views && ObjectOf(v) == o
  }

  function IsOf(o: Object): View -> nat {
    (v: View) => if ObjectOf(v) == o then 1 else 0
  }

  function PlusEach(counts: map<Object, nat>, views: seq<View>): map<Object, nat> {
    map o | o in counts.Keys + (set v | v in views :: ObjectOf(v)) :: At(counts, o) + Sum(views, IsOf(o))
  }

  function PlusAmong(counts: map<Object, nat>, views: set<View>): map<Object, nat> {
    map o | o in counts.Keys + (set v | v in views :: ObjectOf(v)) :: At(counts, o) + |Among(views, o)|
  }

  /** Views a request put into the deduper and has not counted yet. */
  function Uncounted(req: Request): seq<View> {
    match req
    case Adding(_, _, added) => added
    case Counting(_, added, next) => if next <= |added| then added[next..] else []
    case _ => []
  }

  predicate Enabled(s: Pipeline, step: Step) {
    match step
    case Submit(_, objectIds, _) => objectIds != []
    case AddKey(r) => r < |s.requests| && s.requests[r].Adding? && s.requests[r].next < |s.requests[r].views|
    case EndAdding(r) => r < |s.requests| && s.requests[r].Adding? && s.requests[r].next >= |s.requests[r].views|
    case CountKey(r) => r < |s.requests| && s.requests[r].Counting? && s.requests[r].next < |s.requests[r].added|
    case EndCounting(r) => r < |s.requests| && s.requests[r].Counting? && s.requests[r].next >= |s.requests[r].added|
    case CacheFails(r) => r < |s.requests| && (s.requests[r].Adding? || s.requests[r].Counting?)
    case Send(r) => r < |s.requests| && s.requests[r].Sending?
    case Forget(_) => true
    case Evict(_) => true
    case Deliver(k) => k < |s.queue|
    case Acknowledge(k) => k < |s.queue| && Members(s.queue[k]) <= s.log
    case Miss(o) => o !in s.counters
    case CountLog(f) => f < |s.fills| && s.fills[f].Missed?
    case StoreCount(f) => f < |s.fills| && s.fills[f].Counted?
    case ReaderFails(f) => f < |s.fills| && !s.fills[f].Ended?
  }

  function Fire(s: Pipeline, step: Step): Pipeline
    requires Enabled(s, step)
  {
    match step
    case Submit(objectType, objectIds, visitor) =>
      var views := ViewsFor(objectType, objectIds, visitor);
      s.(requests := s.requests + [Adding(views, 0, [])], submitted := s.submitted + Members(views))
    case AddKey(r) =>
      var req := s.requests[r];
      var v := req.views[req.next];
      s.(deduper := s.deduper + {v},
         requests := s.requests[r := Adding(req.views, req.next + 1, if v in s.deduper then req.added else req.added + [v])])
    case EndAdding(r) =>
      var req := s.requests[r];
      s.(requests := s.requests[r := if req.added == [] then Done else Counting(req.views, req.added, 0)])
    case CountKey(r) =>
      var req := s.requests[r];
      var key := ObjectOf(req.added[req.next]);
      s.(counters := s.counters[key := At(s.counters, key) + 1],
         requests := s.requests[r := Counting(req.views, req.added, req.next + 1)])
    case EndCounting(r) =>
      var req := s.requests[r];
      s.(requests := s.requests[r := Sending(req.added)], sent := s.sent + Members(req.added))
    case CacheFails(r) =>
      var req := s.requests[r];
      s.(requests := s.requests[r := Sending(req.views)],
         sent := s.sent + Members(req.views),
         bypassed := s.bypassed + (Members(req.views) - Members(req.added)),
         uncounted := PlusEach(s.uncounted, Uncounted(s.requests[r])))
    case Send(r) => s.(queue := s.queue + [s.requests[r].message], requests := s.requests[r := Done])
    case Forget(expired) =>
      s.(deduper := s.deduper - expired, forgotten := PlusAmong(s.forgotten, s.deduper * expired))
    case Evict(counter) =>
      s.(counters := s.counters - {counter},
         uncounted := s.uncounted[counter := At(s.uncounted, counter) + At(s.counters, counter)])
    case Deliver(k) => s.(log := s.log + Members(s.queue[k]))
    case Acknowledge(k) => s.(queue := s.queue[..k] + s.queue[k + 1..])
    case Miss(o) => s.(fills := s.fills + [Missed(o)])
    case CountLog(f) =>
      var o := s.fills[f].viewed;
      var count := |Among(s.log, o)|;
      s.(fills := s.fills[f := Counted(o, count)])
    case StoreCount(f) =>
      var o := s.fills[f].viewed;
      var count := s.fills[f].count;
      s.(fills := s.fills[f := Ended], counters := s.counters[o := count],
         uncounted := s.uncounted[o := At(s.uncounted, o) + At(s.counters, o)],
         filled := s.filled[o := At(s.filled, o) + count])
    case ReaderFails(f) => s.(fills := s.fills[f := Ended])
  }

  function Do(s: Pipeline, step: Step): Pipeline {
    if Enabled(s, step) then Fire(s, step) else s
  }

  function Run(steps: seq<Step>): Pipeline {
    if steps == [] then START else Do(Run(steps[..|steps| - 1]), steps[|steps| - 1])
  }

  // ---------------------------------------------------------------- who is responsible for a view

  /** Views a request put into the deduper itself, or is about to send: it must get them into the queue. */
  function Owes(req: Request): seq<View> {
    match req
    case Adding(_, _, added) => added
    case Counting(_, added, _) => added
    case Sending(message) => message
    case Done => []
  }

  /** The view is logged, queued, or owed by an unfinished request. */
  predicate Covered(s: Pipeline, v: View) {
    || v in s.log
    || (exists k :: 0 <= k < |s.queue| && v in s.queue[k])
    || (exists r :: 0 <= r < |s.requests| && v in Owes(s.requests[r]))
  }

  /** A request that has not tried the view's deduper key yet. */
  predicate Untried(s: Pipeline, v: View) {
    exists r :: 0 <= r < |s.requests| && s.requests[r].Adding? && s.requests[r].next <= |s.requests[r].views|
      && v in s.requests[r].views[s.requests[r].next..]
  }

  /** Every view a request knows was submitted, and it adds only views it was asked for. */
  predicate Honest(submitted: set<View>, req: Request) {
    match req
    case Adding(views, next, added) =>
      next <= |views| && Members(views) <= submitted && Members(added) <= Members(views)
    case Counting(views, added, next) => Members(views) <= submitted && Members(added) <= Members(views)
    case Sending(message) => Members(message) <= submitted
    case Done => true
  }

  ghost predicate Inv(s: Pipeline) {
    && (forall v :: v in s.deduper ==> Covered(s, v))
    && (forall v :: v in s.submitted ==> Covered(s, v) || Untried(s, v))
    && s.log <= s.submitted
    && (forall k :: 0 <= k < |s.queue| ==> Members(s.queue[k]) <= s.submitted)
    && (forall r :: 0 <= r < |s.requests| ==> Honest(s.submitted, s.requests[r]))
  }

  /** Coverage is never lost: added views are sent, a failing cache sends more, and only logged messages leave the queue. */
  lemma CoverageStays(s: Pipeline, step: Step, v: View)
    requires Inv(s) && Enabled(s, step) && Covered(s, v)
    ensures Covered(Fire(s, step), v)
  {
    var after := Fire(s, step);
    if v in s.log {
    } else if k :| 0 <= k < |s.queue| && v in s.queue[k] {
      if step.Acknowledge? {
        assert v in Members(s.queue[k]);
        if k < step.k {
          assert after.queue[k] == s.queue[k];
        } else if k > step.k {
          assert after.queue[k - 1] == s.queue[k];
        }
      } else {
        assert after.queue[k] == s.queue[k];
      }
    } else {
      var r :| 0 <= r < |s.requests| && v in Owes(s.requests[r]);
      assert Honest(s.submitted, s.requests[r]);
      if step.Send? && step.r == r {
        assert after.queue[|s.queue|] == s.requests[r].message;
      } else {
        OwedStays(s, step, r, v);
      }
    }
  }

  lemma OwedStays(s: Pipeline, step: Step, r: nat, v: View)
    requires Enabled(s, step) && r < |s.requests| && v in Owes(s.requests[r]) && Honest(s.submitted, s.requests[r])
    requires !(step.Send? && step.r == r)
    ensures r < |Fire(s, step).requests| && v in Owes(Fire(s, step).requests[r])
  {
    if step.CacheFails? && step.r == r {
      assert v in Members(s.requests[r].added);
    }
  }

  lemma DeduperCovered(s: Pipeline, step: Step, v: View)
    requires Inv(s) && Enabled(s, step) && v in Fire(s, step).deduper
    ensures Covered(Fire(s, step), v)
  {
    if v in s.deduper {
      CoverageStays(s, step, v);
    } else {
      assert v in Owes(Fire(s, step).requests[step.r]);
    }
  }

  lemma SubmittedCovered(s: Pipeline, step: Step, v: View)
    requires Inv(s) && Enabled(s, step) && v in Fire(s, step).submitted
    ensures Covered(Fire(s, step), v) || Untried(Fire(s, step), v)
  {
    var after := Fire(s, step);
    if v in s.submitted {
      if Covered(s, v) {
        CoverageStays(s, step, v);
      } else {
        UntriedMoves(s, step, v);
      }
    } else {
      var req := after.requests[|s.requests|];
      assert req.views[0..] == req.views;
      assert v in req.views[req.next..];
    }
  }

  lemma TryingMoves(s: Pipeline, r: nat, v: View)
    requires Inv(s) && Enabled(s, AddKey(r)) && v in s.requests[r].views[s.requests[r].next..]
    ensures Covered(Fire(s, AddKey(r)), v) || Untried(Fire(s, AddKey(r)), v)
  {
    var req, after := s.requests[r], Fire(s, AddKey(r));
    assert req.views[req.next..] == [req.views[req.next]] + req.views[req.next + 1..];
    if v == req.views[req.next] {
      DeduperCovered(s, AddKey(r), v);
    } else {
      assert v in after.requests[r].views[after.requests[r].next..];
    }
  }

  lemma UntriedMoves(s: Pipeline, step: Step, v: View)
    requires Inv(s) && Enabled(s, step) && Untried(s, v)
    ensures Covered(Fire(s, step), v) || Untried(Fire(s, step), v)
  {
    var after := Fire(s, step);
    var r :| 0 <= r < |s.requests| && s.requests[r].Adding? && s.requests[r].next <= |s.requests[r].views|
      && v in s.requests[r].views[s.requests[r].next..];
    if step.AddKey? && step.r == r {
      TryingMoves(s, r, v);
    } else if step.CacheFails? && step.r == r {
      assert v in Owes(after.requests[r]);
    } else {
      assert after.requests[r] == s.requests[r];
    }
  }

  lemma HonestyStays(s: Pipeline, step: Step)
    requires Inv(s) && Enabled(s, step)
    ensures var after := Fire(s, step);
            && after.log <= after.submitted
            && (forall k :: 0 <= k < |after.queue| ==> Members(after.queue[k]) <= after.submitted)
            && (forall r :: 0 <= r < |after.requests| ==> Honest(after.submitted, after.requests[r]))
  {
    var after := Fire(s, step);
    forall r | 0 <= r < |after.requests| ensures Honest(after.submitted, after.requests[r]) {
      if r < |s.requests| {
        assert Honest(s.submitted, s.requests[r]);
      }
    }
    forall k | 0 <= k < |after.queue| ensures Members(after.queue[k]) <= after.submitted {
      if step.Send? && k == |s.queue| {
        assert Honest(s.submitted, s.requests[step.r]);
      } else if step.Acknowledge? && k >= step.k {
        assert after.queue[k] == s.queue[k + 1];
      } else {
        assert after.queue[k] == s.queue[k];
      }
    }
  }

  lemma StepKeepsInv(s: Pipeline, step: Step)
    requires Inv(s) && Enabled(s, step)
    ensures Inv(Fire(s, step))
  {
    forall v | v in Fire(s, step).deduper ensures Covered(Fire(s, step), v) {
      DeduperCovered(s, step, v);
    }
    forall v | v in Fire(s, step).submitted ensures Covered(Fire(s, step), v) || Untried(Fire(s, step), v) {
      SubmittedCovered(s, step, v);
    }
    HonestyStays(s, step);
  }

  lemma {:induction false} RunKeepsInv(steps: seq<Step>)
    ensures Inv(Run(steps))
  {
    if steps != [] {
      RunKeepsInv(steps[..|steps| - 1]);
      if Enabled(Run(steps[..|steps| - 1]), steps[|steps| - 1]) {
        StepKeepsInv(Run(steps[..|steps| - 1]), steps[|steps| - 1]);
      }
    }
  }

  /** A view the deduper suppresses is never forgotten by the rest of the pipeline. */
  lemma SuppressedViewsAreKept(steps: seq<Step>, v: View)
    requires v in Run(steps).deduper
    ensures Covered(Run(steps), v)
  {
    RunKeepsInv(steps);
  }

  /** Once every request has ended and the queue is drained, the log is exactly the set of submitted views. */
  lemma NothingLostOrInvented(steps: seq<Step>)
    requires Run(steps).queue == [] && forall r :: 0 <= r < |Run(steps).requests| ==> Run(steps).requests[r].Done?
    ensures Run(steps).log == Run(steps).submitted
  {
    var s := Run(steps);
    RunKeepsInv(steps);
    forall v | v in s.submitted ensures v in s.log {
      assert Covered(s, v) || Untried(s, v);
    }
  }

  lemma CoveredIsSubmitted(s: Pipeline, v: View)
    requires Inv(s) && Covered(s, v)
    ensures v in s.submitted
  {
    if k :| 0 <= k < |s.queue| && v in s.queue[k] {
      assert v in Members(s.queue[k]);
    } else if r :| 0 <= r < |s.requests| && v in Owes(s.requests[r]) {
      assert Honest(s.submitted, s.requests[r]);
      assert v in Members(Owes(s.requests[r]));
    }
  }
}

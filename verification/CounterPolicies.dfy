/** Exactly when cached view counters are bounded by the views submitted, and exactly when they are right. */
module CounterPolicies {
  import opened Tables
  import opened BulkInsert
  import opened ViewPipeline
  import opened CounterAccuracy

  /**
   * What may happen: the cache may fail under a request, also before the request has tried all its views; views may
   * expire from the deduper; counters may be evicted; readers may fill missing counters, also while they are counted up.
   */
  datatype Policy = Policy(fails: bool, bypasses: bool, forgets: bool, evicts: bool, fills: bool, races: bool)

  /** A reader is between missing the counter of the object and storing it. */
  ghost predicate Filling(s: Pipeline, o: Object) {
    exists f :: 0 <= f < |s.fills| && !s.fills[f].Ended? && s.fills[f].viewed == o
  }

  ghost predicate Allowed(policy: Policy, s: Pipeline, step: Step)
    requires Enabled(s, step)
  {
    match step
    case CacheFails(r) => policy.fails && (Members(s.requests[r].views) <= Members(s.requests[r].added) || policy.bypasses)
    case Forget(_) => policy.forgets
    case Evict(_) => policy.evicts
    case Miss(_) => policy.fills
    case CountKey(r) => Filling(s, ObjectOf(s.requests[r].added[s.requests[r].next])) ==> policy.races
    case _ => true
  }

  ghost predicate Permitted(policy: Policy, steps: seq<Step>) {
    steps == [] ||
    var (earlier, last) := (steps[..|steps| - 1], steps[|steps| - 1]);
    Permitted(policy, earlier) && (Enabled(Run(earlier), last) ==> Allowed(policy, Run(earlier), last))
  }

  // ---- Runs from the start.

  ghost predicate Reached(policy: Policy, s: Pipeline) {
    exists steps :: Permitted(policy, steps) && Run(steps) == s
  }

  lemma Next(policy: Policy, s: Pipeline, step: Step) returns (s': Pipeline)
    requires Reached(policy, s) && Enabled(s, step) && Allowed(policy, s, step)
    ensures s' == Fire(s, step) && Reached(policy, s')
  {
    var steps :| Permitted(policy, steps) && Run(steps) == s;
    assert (steps + [step])[..|steps|] == steps;
    assert Permitted(policy, steps + [step]);
    s' := Fire(s, step);
    assert Run(steps + [step]) == s';
  }

  lemma AtStart(policy: Policy)
    ensures Reached(policy, START)
  {
    assert Permitted(policy, []) && Run([]) == START;
  }

  lemma OneView(v: View)
    ensures ViewsFor(v.objectType, [v.objectId], v.visitor) == [v]
    ensures Members([v]) == {v}
  {
  }

  lemma LastRequest(requests: seq<Request>, p: Request, q: Request)
    ensures (requests + [p])[|requests| := q] == requests + [q]
  {
  }

  /** A request of one view that is new to the deduper goes through. */
  lemma Viewed(policy: Policy, s0: Pipeline, v: View) returns (s: Pipeline)
    requires Reached(policy, s0) && v !in s0.deduper && (Filling(s0, ObjectOf(v)) ==> policy.races)
    ensures Reached(policy, s)
    ensures s == s0.(requests := s0.requests + [Done], deduper := s0.deduper + {v}, queue := s0.queue + [[v]],
                     counters := s0.counters[ObjectOf(v) := At(s0.counters, ObjectOf(v)) + 1],
                     submitted := s0.submitted + {v}, sent := s0.sent + {v})
  {
    s := Added(policy, s0, v);
    s := CountedOnce(policy, s, |s0.requests|, v);
    LastRequest(s0.requests, Adding([v], 1, [v]), Counting([v], [v], 1));
    s := Finished(policy, s, |s0.requests|, v);
    LastRequest(s0.requests, Counting([v], [v], 1), Done);
  }

  lemma CountedOnce(policy: Policy, s0: Pipeline, n: nat, v: View) returns (s: Pipeline)
    requires Reached(policy, s0) && n < |s0.requests| && s0.requests[n] == Adding([v], 1, [v])
    requires Filling(s0, ObjectOf(v)) ==> policy.races
    ensures Reached(policy, s)
    ensures s == s0.(requests := s0.requests[n := Counting([v], [v], 1)],
                     counters := s0.counters[ObjectOf(v) := At(s0.counters, ObjectOf(v)) + 1])
  {
    s := Next(policy, s0, EndAdding(n));
    assert s.fills == s0.fills && s.requests[n] == Counting([v], [v], 0);
    s := Next(policy, s, CountKey(n));
  }

  lemma Finished(policy: Policy, s0: Pipeline, n: nat, v: View) returns (s: Pipeline)
    requires Reached(policy, s0) && n < |s0.requests| && s0.requests[n] == Counting([v], [v], 1)
    ensures Reached(policy, s)
    ensures s == s0.(requests := s0.requests[n := Done], sent := s0.sent + {v}, queue := s0.queue + [[v]])
  {
    OneView(v);
    s := Next(policy, s0, EndCounting(n));
    s := Next(policy, s, Send(n));
  }

  lemma Added(policy: Policy, s0: Pipeline, v: View) returns (s: Pipeline)
    requires Reached(policy, s0) && v !in s0.deduper
    ensures Reached(policy, s)
    ensures s == s0.(requests := s0.requests + [Adding([v], 1, [v])], deduper := s0.deduper + {v},
                     submitted := s0.submitted + {v})
  {
    var n := |s0.requests|;
    OneView(v);
    s := Next(policy, s0, Submit(v.objectType, [v.objectId], v.visitor));
    s := Next(policy, s, AddKey(n));
    LastRequest(s0.requests, Adding([v], 0, []), Adding([v], 1, [v]));
    assert [] + [v] == [v];
  }

  /** A request whose cache fails before the first view is tried sends the view all the same. */
  lemma SentPast(policy: Policy, s0: Pipeline, v: View) returns (s: Pipeline)
    requires Reached(policy, s0) && policy.fails && policy.bypasses
    ensures Reached(policy, s)
    ensures s.requests == s0.requests + [Done] && s.queue == s0.queue + [[v]] && s.submitted == s0.submitted + {v}
    ensures s.deduper == s0.deduper && s.counters == s0.counters && s.log == s0.log && s.fills == s0.fills
    ensures s.forgotten == s0.forgotten
  {
    var n := |s0.requests|;
    OneView(v);
    s := Next(policy, s0, Submit(v.objectType, [v.objectId], v.visitor));
    s := Next(policy, s, CacheFails(n));
    LastRequest(s0.requests, Adding([v], 0, []), Sending([v]));
    s := Next(policy, s, Send(n));
    LastRequest(s0.requests, Sending([v]), Done);
  }

  /** A request whose cache fails after the view was tried and before it is counted. */
  lemma SentUncounted(policy: Policy, s0: Pipeline, v: View) returns (s: Pipeline)
    requires Reached(policy, s0) && policy.fails && v !in s0.deduper
    ensures Reached(policy, s)
    ensures s.requests == s0.requests + [Done] && s.queue == s0.queue + [[v]] && s.submitted == s0.submitted + {v}
    ensures s.counters == s0.counters && s.log == s0.log && s.fills == s0.fills
  {
    var n := |s0.requests|;
    s := Added(policy, s0, v);
    s := Next(policy, s, CacheFails(n));
    LastRequest(s0.requests, Adding([v], 1, [v]), Sending([v]));
    s := Next(policy, s, Send(n));
    LastRequest(s0.requests, Sending([v]), Done);
  }

  /** The consumer takes the first message. */
  lemma Logged(policy: Policy, s0: Pipeline) returns (s: Pipeline)
    requires Reached(policy, s0) && s0.queue != []
    ensures Reached(policy, s) && s == s0.(queue := s0.queue[1..], log := s0.log + Members(s0.queue[0]))
  {
    s := Next(policy, s0, Deliver(0));
    s := Next(policy, s, Acknowledge(0));
    assert s0.queue[..0] + s0.queue[1..] == s0.queue[1..];
  }

  lemma {:induction false} Drained(policy: Policy, s0: Pipeline) returns (s: Pipeline)
    requires Reached(policy, s0)
    ensures Reached(policy, s) && s == s0.(queue := [], log := s.log)
    decreases |s0.queue|
  {
    if s0.queue == [] {
      s := s0;
    } else {
      s := Logged(policy, s0);
      s := Drained(policy, s);
    }
  }

  /** A reader misses the counter of the object and stores what the log says now. */
  lemma FilledIn(policy: Policy, s0: Pipeline, o: Object) returns (s: Pipeline)
    requires Reached(policy, s0) && policy.fills && o !in s0.counters
    ensures Reached(policy, s)
    ensures s.counters == s0.counters[o := |Among(s0.log, o)|] && s.fills == s0.fills + [Ended]
    ensures s.requests == s0.requests && s.queue == s0.queue && s.deduper == s0.deduper && s.submitted == s0.submitted
    ensures s.forgotten == s0.forgotten
  {
    var f := |s0.fills|;
    s := Next(policy, s0, Miss(o));
    s := Next(policy, s, CountLog(f));
    s := Next(policy, s, StoreCount(f));
    assert (s0.fills + [Missed(o)])[f := Counted(o, |Among(s0.log, o)|)][f := Ended] == s0.fills + [Ended];
  }

  // ---- The bound.

  /** In every permitted run a counter exceeds the submitted views of its object by at most those the deduper forgot. */
  ghost predicate Bounded(policy: Policy) {
    forall steps, o :: Permitted(policy, steps) ==>
      At(Run(steps).counters, o) <= |Among(Run(steps).submitted, o)| + At(Run(steps).forgotten, o)
  }

  ghost predicate NoFills(s: Pipeline, o: Object) {
    s.fills == [] && At(s.filled, o) == 0
  }

  lemma StepWithoutFills(policy: Policy, s: Pipeline, step: Step, o: Object)
    requires NoFills(s, o) && !policy.fills && Enabled(s, step) && Allowed(policy, s, step)
    ensures NoFills(Fire(s, step), o)
  {
  }

  lemma {:induction false} WithoutFills(policy: Policy, steps: seq<Step>, o: Object)
    requires Permitted(policy, steps) && !policy.fills
    ensures NoFills(Run(steps), o)
  {
    if steps != [] {
      var (earlier, last) := (steps[..|steps| - 1], steps[|steps| - 1]);
      WithoutFills(policy, earlier, o);
      if Enabled(Run(earlier), last) { StepWithoutFills(policy, Run(earlier), last, o); }
    }
  }

  lemma StepWithoutBypasses(policy: Policy, s: Pipeline, step: Step)
    requires s.bypassed == {} && !(policy.fails && policy.bypasses) && Enabled(s, step) && Allowed(policy, s, step)
    ensures Fire(s, step).bypassed == {}
  {
  }

  lemma {:induction false} WithoutBypasses(policy: Policy, steps: seq<Step>)
    requires Permitted(policy, steps) && !(policy.fails && policy.bypasses)
    ensures Run(steps).bypassed == {}
  {
    if steps != [] {
      var (earlier, last) := (steps[..|steps| - 1], steps[|steps| - 1]);
      WithoutBypasses(policy, earlier);
      if Enabled(Run(earlier), last) { StepWithoutBypasses(policy, Run(earlier), last); }
    }
  }

  /** A view sent past the deduper, filled in from the log and counted again: the counter says 2, and one view was submitted. */
  lemma CountedTwice(policy: Policy, v: View) returns (s: Pipeline)
    requires policy.fails && policy.bypasses && policy.fills
    ensures Reached(policy, s) && s.submitted == {v} && s.forgotten == map[]
    ensures At(s.counters, ObjectOf(v)) == 2
  {
    AtStart(policy);
    s := SentPast(policy, START, v);
    s := Logged(policy, s);
    OneView(v);
    assert Among({v}, ObjectOf(v)) == {v} && s.log == {v};
    s := FilledIn(policy, s, ObjectOf(v));
    s := Viewed(policy, s, v);
  }

  /** The bound holds exactly unless failing requests send views past the deduper and readers fill in counters. */
  lemma BoundedIff(policy: Policy)
    ensures Bounded(policy) <==> !(policy.fails && policy.bypasses && policy.fills)
  {
    if policy.fails && policy.bypasses && policy.fills {
      var v := View("event", 1, "visitor");
      var s := CountedTwice(policy, v);
      assert Among({v}, ObjectOf(v)) == {v};
      var steps :| Permitted(policy, steps) && Run(steps) == s;
      assert At(Run(steps).counters, ObjectOf(v)) > |Among(Run(steps).submitted, ObjectOf(v))| + At(Run(steps).forgotten, ObjectOf(v));
    } else {
      forall steps, o | Permitted(policy, steps)
        ensures At(Run(steps).counters, o) <= |Among(Run(steps).submitted, o)| + At(Run(steps).forgotten, o)
      {
        if policy.fills {
          WithoutBypasses(policy, steps);
          CounterIsBounded(steps, o);
          assert Among({}, o) == {};
        } else {
          WithoutFills(policy, steps, o);
          CountsAddUp(steps, o);
          DeduperIsSubmitted(steps, o);
        }
      }
    }
  }

  // ---- When readers are shown the truth.

  /** What `get_views` returns: the counter, or the number of log rows when there is none. */
  function Shown(s: Pipeline, o: Object): nat {
    if o in s.counters then s.counters[o] else |Among(s.log, o)|
  }

  ghost predicate AllDone(s: Pipeline) {
    forall r :: 0 <= r < |s.requests| ==> s.requests[r].Done?
  }

  /** Nothing is under way. */
  ghost predicate Quiet(s: Pipeline) {
    AllDone(s) && s.queue == [] && forall f :: 0 <= f < |s.fills| ==> s.fills[f].Ended?
  }

  /** In every permitted run, whenever nothing is under way, every object shows the number of its distinct views. */
  ghost predicate Truthful(policy: Policy) {
    forall steps, o :: Permitted(policy, steps) && Quiet(Run(steps)) ==>
      Shown(Run(steps), o) == |Among(Run(steps).submitted, o)|
  }

  predicate Sound(policy: Policy) {
    !policy.fails && !policy.forgets && !policy.evicts && !(policy.fills && policy.races)
  }

  /** Nothing failed, was evicted or expired, and readers stored nothing but 0 for objects without counts. */
  ghost predicate NothingMissed(s: Pipeline, o: Object) {
    At(s.uncounted, o) == 0 && At(s.forgotten, o) == 0 && At(s.filled, o) == 0
  }

  ghost predicate CountsArePositive(s: Pipeline, req: Request) {
    req.Counting? ==> forall k :: 0 <= k < req.next && k < |req.added| ==> At(s.counters, ObjectOf(req.added[k])) > 0
  }

  ghost predicate FillIsZero(s: Pipeline, fill: Fill) {
    !fill.Ended? ==> At(s.counters, fill.viewed) == 0 && (fill.Counted? ==> fill.count == 0)
  }

  ghost predicate Untroubled(policy: Policy, s: Pipeline) {
    && OnlySent(s)
    && (!policy.fills ==> s.fills == [])
    && (forall o :: NothingMissed(s, o))
    && (forall r :: 0 <= r < |s.requests| ==> CountsArePositive(s, s.requests[r]))
    && (forall v :: v in s.sent ==> At(s.counters, ObjectOf(v)) > 0)
    && (forall f :: 0 <= f < |s.fills| ==> FillIsZero(s, s.fills[f]))
  }

  /** Under a sound policy a counter is never lowered, and not raised while a reader fills it in. */
  lemma CountersGrow(policy: Policy, s: Pipeline, step: Step, o: Object)
    requires Untroubled(policy, s) && Sound(policy) && Enabled(s, step) && Allowed(policy, s, step)
    ensures At(s.counters, o) <= At(Fire(s, step).counters, o)
    ensures At(s.counters, o) < At(Fire(s, step).counters, o) ==>
              step.CountKey? && !Filling(s, o) && o == ObjectOf(s.requests[step.r].added[s.requests[step.r].next])
  {
    match step
    case StoreCount(f) => assert FillIsZero(s, s.fills[f]);
    case CountKey(r) =>
      assert Filling(s, ObjectOf(s.requests[r].added[s.requests[r].next])) ==> policy.races && s.fills != [];
    case _ =>
  }

  lemma StepMissesNothing(policy: Policy, s: Pipeline, step: Step, o: Object)
    requires Untroubled(policy, s) && Sound(policy) && Enabled(s, step) && Allowed(policy, s, step)
    ensures NothingMissed(Fire(s, step), o)
  {
    assert NothingMissed(s, o);
    if step.StoreCount? { assert FillIsZero(s, s.fills[step.f]); }
  }

  lemma StepKeepsPositive(policy: Policy, s: Pipeline, step: Step, r: nat)
    requires Untroubled(policy, s) && Sound(policy) && Enabled(s, step) && Allowed(policy, s, step)
    requires r < |Fire(s, step).requests|
    ensures CountsArePositive(Fire(s, step), Fire(s, step).requests[r])
  {
    var after := Fire(s, step);
    var req := after.requests[r];
    if req.Counting? && r < |s.requests| && s.requests[r].Counting? {
      assert CountsArePositive(s, s.requests[r]);
      forall k | 0 <= k < req.next && k < |req.added| ensures At(after.counters, ObjectOf(req.added[k])) > 0 {
        CountersGrow(policy, s, step, ObjectOf(req.added[k]));
      }
    }
  }

  lemma StepKeepsSentPositive(policy: Policy, s: Pipeline, step: Step, v: View)
    requires Untroubled(policy, s) && Sound(policy) && Enabled(s, step) && Allowed(policy, s, step)
    requires v in Fire(s, step).sent
    ensures At(Fire(s, step).counters, ObjectOf(v)) > 0
  {
    CountersGrow(policy, s, step, ObjectOf(v));
    if v !in s.sent {
      assert step.EndCounting? && CountsArePositive(s, s.requests[step.r]);
      var k :| 0 <= k < |s.requests[step.r].added| && s.requests[step.r].added[k] == v;
    }
  }

  lemma StepKeepsFillZero(policy: Policy, s: Pipeline, step: Step, f: nat)
    requires Untroubled(policy, s) && Sound(policy) && Enabled(s, step) && Allowed(policy, s, step)
    requires f < |Fire(s, step).fills|
    ensures FillIsZero(Fire(s, step), Fire(s, step).fills[f])
  {
    var fill := Fire(s, step).fills[f];
    if !fill.Ended? {
      CountersGrow(policy, s, step, fill.viewed);
      if f < |s.fills| {
        assert FillIsZero(s, s.fills[f]);
        assert Filling(s, fill.viewed);
      }
      if step.CountLog? && step.f == f {
        assert forall v :: v in s.sent ==> ObjectOf(v) != fill.viewed;
        assert Among(s.log, fill.viewed) == {};
      }
    }
  }

  lemma StepStaysUntroubled(policy: Policy, s: Pipeline, step: Step)
    requires Untroubled(policy, s) && Sound(policy) && Enabled(s, step) && Allowed(policy, s, step)
    ensures Untroubled(policy, Fire(s, step))
  {
    var after := Fire(s, step);
    StepKeepsOnlySent(s, step);
    forall o ensures NothingMissed(after, o) {
      StepMissesNothing(policy, s, step, o);
    }
    forall r | 0 <= r < |after.requests| ensures CountsArePositive(after, after.requests[r]) {
      StepKeepsPositive(policy, s, step, r);
    }
    forall v | v in after.sent ensures At(after.counters, ObjectOf(v)) > 0 {
      StepKeepsSentPositive(policy, s, step, v);
    }
    forall f | 0 <= f < |after.fills| ensures FillIsZero(after, after.fills[f]) {
      StepKeepsFillZero(policy, s, step, f);
    }
  }

  /** Without failures and expiry, a submitted view is in the deduper once its request has tried it. */
  lemma StepTries(policy: Policy, s: Pipeline, step: Step, v: View)
    requires Sound(policy) && Enabled(s, step) && Allowed(policy, s, step) && Inv(s)
    requires v in s.submitted ==> v in s.deduper || Untried(s, v)
    ensures v in Fire(s, step).submitted ==> v in Fire(s, step).deduper || Untried(Fire(s, step), v)
  {
    var after := Fire(s, step);
    if v in after.submitted && v !in s.submitted {
      var req := after.requests[|s.requests|];
      assert req.views[0..] == req.views && v in req.views[req.next..];
    } else if v in after.submitted && v !in s.deduper {
      var r :| 0 <= r < |s.requests| && s.requests[r].Adding? && s.requests[r].next <= |s.requests[r].views|
        && v in s.requests[r].views[s.requests[r].next..];
      if step.AddKey? && step.r == r {
        ViewTried(s, r, v);
      } else {
        assert after.requests[r] == s.requests[r];
      }
    }
  }

  lemma ViewTried(s: Pipeline, r: nat, v: View)
    requires Enabled(s, AddKey(r)) && v in s.requests[r].views[s.requests[r].next..]
    ensures v in Fire(s, AddKey(r)).deduper || Untried(Fire(s, AddKey(r)), v)
  {
    var req, after := s.requests[r], Fire(s, AddKey(r));
    assert req.views[req.next..] == [req.views[req.next]] + req.views[req.next + 1..];
    assert v != req.views[req.next] ==> v in after.requests[r].views[after.requests[r].next..];
  }

  lemma {:induction false} RunStaysUntroubled(policy: Policy, steps: seq<Step>, v: View)
    requires Permitted(policy, steps) && Sound(policy)
    ensures Untroubled(policy, Run(steps))
    ensures v in Run(steps).submitted ==> v in Run(steps).deduper || Untried(Run(steps), v)
  {
    if steps != [] {
      var (earlier, last) := (steps[..|steps| - 1], steps[|steps| - 1]);
      RunStaysUntroubled(policy, earlier, v);
      RunKeepsInv(earlier);
      if Enabled(Run(earlier), last) {
        StepStaysUntroubled(policy, Run(earlier), last);
        StepTries(policy, Run(earlier), last, v);
      }
    }
  }

  /** Under a sound policy the counters are right as soon as the requests have ended, whatever is still queued. */
  lemma SoundCountersAreRight(policy: Policy, steps: seq<Step>, o: Object)
    requires Permitted(policy, steps) && Sound(policy) && AllDone(Run(steps))
    ensures At(Run(steps).counters, o) == |Among(Run(steps).submitted, o)|
    ensures Shown(Run(steps), o) == |Among(Run(steps).submitted, o)|
  {
    var s := Run(steps);
    RunKeepsInv(steps);
    RunStaysUntroubled(policy, steps, View("", 0, ""));
    CountsAddUp(steps, o);
    NothingPending(s.requests, o);
    assert NothingMissed(s, o);
    forall v ensures v in s.submitted <==> v in s.deduper {
      RunStaysUntroubled(policy, steps, v);
      if v in s.deduper { CoveredIsSubmitted(s, v); }
    }
    assert s.submitted == s.deduper;
    AmongGrows(s.log, s.submitted, o);
  }

  // ---- Runs that end with a wrong counter.

  const FIRST := View("event", 1, "first")
  const SECOND := View("event", 1, "second")
  const VIEWED: Object := ("event", 1)

  lemma TwoViews()
    ensures Among({FIRST}, VIEWED) == {FIRST} && Among({FIRST, SECOND}, VIEWED) == {FIRST, SECOND} && FIRST != SECOND
  {
    assert FIRST.visitor != SECOND.visitor;
  }

  /** Nothing is under way, and the object shows a number that is not the number of its views. */
  ghost predicate Wrong(s: Pipeline) {
    Quiet(s) && Shown(s, VIEWED) != |Among(s.submitted, VIEWED)|
  }

  /** The cache fails after a view was tried: it is never counted. */
  lemma WrongByFailure(policy: Policy) returns (s: Pipeline)
    requires policy.fails
    ensures Reached(policy, s) && Wrong(s)
  {
    AtStart(policy);
    s := Viewed(policy, START, FIRST);
    TwoViews();
    s := SentUncounted(policy, s, SECOND);
    s := Drained(policy, s);
    assert s.submitted == {FIRST, SECOND};
  }

  /** A view expires from the deduper and comes again: it is counted twice. */
  lemma WrongByForgetting(policy: Policy) returns (s: Pipeline)
    requires policy.forgets
    ensures Reached(policy, s) && Wrong(s)
  {
    AtStart(policy);
    s := Viewed(policy, START, FIRST);
    s := Next(policy, s, Forget({FIRST}));
    s := Viewed(policy, s, FIRST);
    s := Drained(policy, s);
    TwoViews();
    assert s.submitted == {FIRST};
  }

  /** A counter is evicted and counted up before a reader fills it in: it starts again at 1. */
  lemma WrongByEviction(policy: Policy) returns (s: Pipeline)
    requires policy.evicts
    ensures Reached(policy, s) && Wrong(s)
  {
    AtStart(policy);
    s := Viewed(policy, START, FIRST);
    s := Next(policy, s, Evict(VIEWED));
    TwoViews();
    s := Viewed(policy, s, SECOND);
    s := Drained(policy, s);
    assert s.submitted == {FIRST, SECOND};
  }

  /** A reader counts the log, the object is viewed, and the reader overwrites its counter. */
  lemma WrongByRace(policy: Policy) returns (s: Pipeline)
    requires policy.fills && policy.races
    ensures Reached(policy, s) && Wrong(s)
  {
    AtStart(policy);
    s := Next(policy, START, Miss(VIEWED));
    s := Next(policy, s, CountLog(0));
    s := Viewed(policy, s, FIRST);
    s := Next(policy, s, StoreCount(0));
    s := Drained(policy, s);
    TwoViews();
    assert s.submitted == {FIRST};
  }

  /**
   * Readers are shown the number of distinct views, whenever nothing is under way, exactly when the cache does not fail
   * under a request, nothing expires or is evicted, and no counter is counted up while a reader fills it in.
   */
  lemma TruthfulIff(policy: Policy)
    ensures Truthful(policy) <==>
            !policy.fails && !policy.forgets && !policy.evicts && !(policy.fills && policy.races)
  {
    if Sound(policy) {
      forall steps, o | Permitted(policy, steps) && Quiet(Run(steps))
        ensures Shown(Run(steps), o) == |Among(Run(steps).submitted, o)|
      {
        SoundCountersAreRight(policy, steps, o);
      }
    } else {
      var s;
      if policy.fails {
        s := WrongByFailure(policy);
      } else if policy.forgets {
        s := WrongByForgetting(policy);
      } else if policy.evicts {
        s := WrongByEviction(policy);
      } else {
        s := WrongByRace(policy);
      }
      var steps :| Permitted(policy, steps) && Run(steps) == s;
      assert Wrong(Run(steps));
    }
  }
}

/** What a cached view counter is worth: its accounting, its bound, and when it is exact. */
module CounterAccuracy {
  import opened Tables
  import opened BulkInsert
  import opened ViewPipeline

  // ---- The accounting.

  function Pending(o: Object): Request -> nat {
    (req: Request) => Sum(Uncounted(req), IsOf(o))
  }

  /** What was ever new to the deduper or filled in is counted, about to be counted, or known to be uncounted. */
  ghost predicate Accounted(s: Pipeline, o: Object) {
    At(s.counters, o) + Sum(s.requests, Pending(o)) + At(s.uncounted, o)
    == |Among(s.deduper, o)| + At(s.forgotten, o) + At(s.filled, o)
  }

  lemma PlusEachAt(counts: map<Object, nat>, views: seq<View>, o: Object)
    ensures At(PlusEach(counts, views), o) == At(counts, o) + Sum(views, IsOf(o))
  {
    if o !in PlusEach(counts, views) {
      SumZero(views, IsOf(o));
    }
  }

  lemma PlusAmongAt(counts: map<Object, nat>, views: set<View>, o: Object)
    ensures At(PlusAmong(counts, views), o) == At(counts, o) + |Among(views, o)|
  {
    if o !in PlusAmong(counts, views) {
      assert Among(views, o) == {};
    }
  }

  lemma AddedView(deduper: set<View>, added: seq<View>, v: View, o: Object)
    ensures |Among(deduper + {v}, o)| == |Among(deduper, o)| + if v in deduper then 0 else IsOf(o)(v)
    ensures Sum(added + [v], IsOf(o)) == Sum(added, IsOf(o)) + IsOf(o)(v)
  {
    if v in deduper {
      assert deduper + {v} == deduper;
    } else if ObjectOf(v) == o {
      assert Among(deduper + {v}, o) == Among(deduper, o) + {v};
    } else {
      assert Among(deduper + {v}, o) == Among(deduper, o);
    }
    SumAppend(added, [v], IsOf(o));
    SumOne(v, IsOf(o));
  }

  lemma CountedView(added: seq<View>, next: nat, o: Object)
    requires next < |added|
    ensures Sum(added[next..], IsOf(o)) == IsOf(o)(added[next]) + Sum(added[next + 1..], IsOf(o))
  {
    assert added[next..][1..] == added[next + 1..];
  }

  lemma ForgottenViews(deduper: set<View>, expired: set<View>, o: Object)
    ensures |Among(deduper, o)| == |Among(deduper - expired, o)| + |Among(deduper * expired, o)|
  {
    assert Among(deduper, o) == Among(deduper - expired, o) + Among(deduper * expired, o);
  }

  /** A step of a request replaces it by one with so many views to count. */
  lemma RequestMoves(requests: seq<Request>, r: nat, req: Request, o: Object)
    requires r < |requests|
    ensures Sum(requests[r := req], Pending(o)) + Sum(Uncounted(requests[r]), IsOf(o))
            == Sum(requests, Pending(o)) + Sum(Uncounted(req), IsOf(o))
  {
    SumOfUpdate(requests, r, req, Pending(o));
  }

  lemma SubmitKeepsAccounted(s: Pipeline, step: Step, o: Object)
    requires Accounted(s, o) && step.Submit? && Enabled(s, step)
    ensures Accounted(Fire(s, step), o)
  {
    var req := Adding(ViewsFor(step.objectType, step.objectIds, step.visitor), 0, []);
    SumAppend(s.requests, [req], Pending(o));
    SumOne(req, Pending(o));
  }

  /** The new request is explicit, so that the sums are about it and not about the step. */
  lemma AddedAddsUp(s: Pipeline, r: nat, v: View, req: Request, o: Object)
    requires Accounted(s, o) && r < |s.requests| && s.requests[r].Adding? && req.Adding?
    requires req.added == if v in s.deduper then s.requests[r].added else s.requests[r].added + [v]
    ensures Accounted(s.(deduper := s.deduper + {v}, requests := s.requests[r := req]), o)
  {
    AddedView(s.deduper, s.requests[r].added, v, o);
    RequestMoves(s.requests, r, req, o);
  }

  lemma AddKeepsAccounted(s: Pipeline, r: nat, o: Object)
    requires Accounted(s, o) && Enabled(s, AddKey(r))
    ensures Accounted(Fire(s, AddKey(r)), o)
  {
    var req := s.requests[r];
    var v := req.views[req.next];
    AddedAddsUp(s, r, v, Adding(req.views, req.next + 1, if v in s.deduper then req.added else req.added + [v]), o);
  }

  lemma CountedAddsUp(s: Pipeline, r: nat, req: Request, o: Object)
    requires Accounted(s, o) && r < |s.requests| && s.requests[r].Counting? && s.requests[r].next < |s.requests[r].added|
    requires req.Counting? && req.added == s.requests[r].added && req.next == s.requests[r].next + 1
    ensures var key := ObjectOf(req.added[s.requests[r].next]);
            Accounted(s.(counters := s.counters[key := At(s.counters, key) + 1], requests := s.requests[r := req]), o)
  {
    CountedView(req.added, s.requests[r].next, o);
    RequestMoves(s.requests, r, req, o);
  }

  lemma CountKeepsAccounted(s: Pipeline, r: nat, o: Object)
    requires Accounted(s, o) && Enabled(s, CountKey(r))
    ensures Accounted(Fire(s, CountKey(r)), o)
  {
    var req := s.requests[r];
    CountedAddsUp(s, r, Counting(req.views, req.added, req.next + 1), o);
  }

  lemma FailureKeepsAccounted(s: Pipeline, r: nat, o: Object)
    requires Accounted(s, o) && Enabled(s, CacheFails(r))
    ensures Accounted(Fire(s, CacheFails(r)), o)
  {
    PlusEachAt(s.uncounted, Uncounted(s.requests[r]), o);
    RequestMoves(s.requests, r, Sending(s.requests[r].views), o);
  }

  lemma EndKeepsAccounted(s: Pipeline, step: Step, o: Object)
    requires Accounted(s, o) && Enabled(s, step) && (step.EndAdding? || step.EndCounting? || step.Send?)
    ensures Accounted(Fire(s, step), o)
  {
    var req := s.requests[step.r];
    if step.EndAdding? && req.added != [] {
      assert req.added[0..] == req.added;
    }
    RequestMoves(s.requests, step.r, Fire(s, step).requests[step.r], o);
  }

  lemma ForgetKeepsAccounted(s: Pipeline, expired: set<View>, o: Object)
    requires Accounted(s, o)
    ensures Accounted(Fire(s, Forget(expired)), o)
  {
    ForgottenViews(s.deduper, expired, o);
    PlusAmongAt(s.forgotten, s.deduper * expired, o);
  }

  lemma StepKeepsAccounted(s: Pipeline, step: Step, o: Object)
    requires Accounted(s, o) && Enabled(s, step)
    ensures Accounted(Fire(s, step), o)
  {
    match step
    case Submit(_, _, _) => SubmitKeepsAccounted(s, step, o);
    case AddKey(r) => AddKeepsAccounted(s, r, o);
    case EndAdding(_) => EndKeepsAccounted(s, step, o);
    case CountKey(r) => CountKeepsAccounted(s, r, o);
    case EndCounting(_) => EndKeepsAccounted(s, step, o);
    case CacheFails(r) => FailureKeepsAccounted(s, r, o);
    case Send(_) => EndKeepsAccounted(s, step, o);
    case Forget(expired) => ForgetKeepsAccounted(s, expired, o);
    case Evict(_) =>
    case Deliver(_) =>
    case Acknowledge(_) =>
    case Miss(_) =>
    case CountLog(_) =>
    case StoreCount(_) =>
    case ReaderFails(_) =>
  }

  /** In every run the counts add up, whatever fails, expires, is evicted or filled in. */
  lemma {:induction false} CountsAddUp(steps: seq<Step>, o: Object)
    ensures Accounted(Run(steps), o)
  {
    if steps == [] {
      assert Among({}, o) == {};
    } else {
      var (earlier, last) := (steps[..|steps| - 1], steps[|steps| - 1]);
      CountsAddUp(earlier, o);
      if Enabled(Run(earlier), last) {
        StepKeepsAccounted(Run(earlier), last, o);
      }
    }
  }

  lemma AmongGrows(small: set<View>, large: set<View>, o: Object)
    requires small <= large
    ensures |Among(small, o)| <= |Among(large, o)|
  {
    assert Among(large, o) == Among(small, o) + Among(large - small, o);
  }

  // ---- The bound.

  /** Views a request put into the deduper and has not handed to the queue. */
  function Held(req: Request): seq<View> {
    match req
    case Adding(_, _, added) => added
    case Counting(_, added, _) => added
    case _ => []
  }

  function Unsent(o: Object): Request -> nat {
    (req: Request) => Sum(Held(req), IsOf(o))
  }

  /** Views that were new to the deduper, once each time they were, and views that went past it. */
  function Allowance(s: Pipeline, o: Object): nat {
    |Among(s.deduper, o)| + At(s.forgotten, o) + |Among(s.bypassed, o)|
  }

  /** The log and the queue hold sent views only. */
  ghost predicate OnlySent(s: Pipeline) {
    && s.log <= s.sent && s.bypassed <= s.sent
    && (forall k :: 0 <= k < |s.queue| ==> Members(s.queue[k]) <= s.sent)
    && (forall r :: 0 <= r < |s.requests| && s.requests[r].Sending? ==> Members(s.requests[r].message) <= s.sent)
  }

  /** No reader is about to store more than the views sent. */
  ghost predicate FillsAreLow(s: Pipeline, o: Object) {
    forall f :: 0 <= f < |s.fills| && s.fills[f].Counted? && s.fills[f].viewed == o ==> s.fills[f].count <= |Among(s.sent, o)|
  }

  ghost predicate WithinAllowance(s: Pipeline, o: Object) {
    && |Among(s.sent, o)| + Sum(s.requests, Unsent(o)) <= Allowance(s, o)
    && At(s.counters, o) + Sum(s.requests, Pending(o)) <= Allowance(s, o)
  }

  ghost predicate Low(s: Pipeline, o: Object) {
    OnlySent(s) && FillsAreLow(s, o) && WithinAllowance(s, o)
  }

  lemma StepKeepsOnlySent(s: Pipeline, step: Step)
    requires OnlySent(s) && Enabled(s, step)
    ensures OnlySent(Fire(s, step)) && s.sent <= Fire(s, step).sent
  {
    var after := Fire(s, step);
    forall k | 0 <= k < |after.queue| ensures Members(after.queue[k]) <= after.sent {
      if step.Acknowledge? && k >= step.k { assert after.queue[k] == s.queue[k + 1]; }
    }
  }

  lemma StepKeepsFillsLow(s: Pipeline, step: Step, o: Object)
    requires OnlySent(s) && FillsAreLow(s, o) && Enabled(s, step)
    ensures FillsAreLow(Fire(s, step), o)
  {
    StepKeepsOnlySent(s, step);
    AmongGrows(s.sent, Fire(s, step).sent, o);
    AmongGrows(s.log, s.sent, o);
  }

  lemma UnsentMoves(requests: seq<Request>, r: nat, req: Request, o: Object)
    requires r < |requests|
    ensures Sum(requests[r := req], Unsent(o)) + Sum(Held(requests[r]), IsOf(o))
            == Sum(requests, Unsent(o)) + Sum(Held(req), IsOf(o))
  {
    SumOfUpdate(requests, r, req, Unsent(o));
  }

  lemma {:induction false} SuffixCounts(views: seq<View>, n: nat, o: Object)
    requires n <= |views|
    ensures Sum(views[n..], IsOf(o)) <= Sum(views, IsOf(o))
  {
    SumAppend(views[..n], views[n..], IsOf(o));
    assert views[..n] + views[n..] == views;
  }

  lemma PendingIsUnsent(requests: seq<Request>, o: Object)
    ensures Sum(requests, Pending(o)) <= Sum(requests, Unsent(o))
  {
    forall req | req in requests ensures Pending(o)(req) <= Unsent(o)(req) {
      if req.Counting? && req.next <= |req.added| { SuffixCounts(req.added, req.next, o); }
    }
    SumAtMost(requests, Pending(o), Unsent(o));
  }

  lemma {:induction false} MembersAtMost(views: seq<View>, o: Object)
    ensures |Among(Members(views), o)| <= Sum(views, IsOf(o))
  {
    if views == [] {
      assert Among(Members(views), o) == {};
    } else {
      MembersAtMost(views[1..], o);
      assert views == [views[0]] + views[1..];
      var rest := Among(Members(views[1..]), o);
      if ObjectOf(views[0]) == o {
        assert Among(Members(views), o) == rest + {views[0]};
      } else {
        assert Among(Members(views), o) == rest;
      }
    }
  }

  lemma UnionAtMost<T>(a: set<T>, b: set<T>)
    ensures |a + b| <= |a| + |b|
  {
    assert a + b == a + (b - a);
    assert |b| == |b * a| + |b - a| by { assert b == b * a + (b - a); }
  }

  /** Sending views grows the sent views by no more than the views held and those newly past the deduper. */
  lemma SentGrows(sent: set<View>, bypassed: set<View>, views: set<View>, added: seq<View>, o: Object)
    requires bypassed <= sent
    ensures |Among(sent + views, o)| + |Among(bypassed, o)|
            <= |Among(sent, o)| + Sum(added, IsOf(o)) + |Among(bypassed + (views - Members(added)), o)|
  {
    var past := Among((views - Members(added)) - bypassed, o);
    assert Among(bypassed + (views - Members(added)), o) == Among(bypassed, o) + past;
    var known := Among(sent, o) + Among(Members(added), o);
    assert Among(sent + views, o) <= known + past;
    SubsetAtMost(Among(sent + views, o), known + past);
    UnionAtMost(Among(sent, o), Among(Members(added), o));
    UnionAtMost(known, past);
    MembersAtMost(added, o);
  }

  lemma SubsetAtMost<T>(a: set<T>, b: set<T>)
    requires a <= b
    ensures |a| <= |b|
  {
    assert b == a + (b - a);
  }

  lemma SendingKeepsAllowance(s: Pipeline, step: Step, o: Object)
    requires OnlySent(s) && WithinAllowance(s, o) && Enabled(s, step) && (step.EndCounting? || step.CacheFails?)
    ensures WithinAllowance(Fire(s, step), o)
  {
    var req := s.requests[step.r];
    var message := if step.EndCounting? then req.added else req.views;
    SentGrows(s.sent, s.bypassed, Members(message), req.added, o);
    assert step.EndCounting? ==> s.bypassed + (Members(message) - Members(req.added)) == s.bypassed;
    UnsentMoves(s.requests, step.r, Sending(message), o);
    RequestMoves(s.requests, step.r, Sending(message), o);
    AmongGrows(s.bypassed, Fire(s, step).bypassed, o);
  }

  lemma AddingKeepsAllowance(s: Pipeline, r: nat, v: View, req: Request, o: Object)
    requires WithinAllowance(s, o) && r < |s.requests| && s.requests[r].Adding? && req.Adding?
    requires req.added == if v in s.deduper then s.requests[r].added else s.requests[r].added + [v]
    ensures WithinAllowance(s.(deduper := s.deduper + {v}, requests := s.requests[r := req]), o)
  {
    AddedView(s.deduper, s.requests[r].added, v, o);
    RequestMoves(s.requests, r, req, o);
    UnsentMoves(s.requests, r, req, o);
  }

  lemma CountingKeepsAllowance(s: Pipeline, r: nat, req: Request, o: Object)
    requires WithinAllowance(s, o) && r < |s.requests| && s.requests[r].Counting? && s.requests[r].next < |s.requests[r].added|
    requires req.Counting? && req.added == s.requests[r].added && req.next == s.requests[r].next + 1
    ensures var key := ObjectOf(req.added[s.requests[r].next]);
            WithinAllowance(s.(counters := s.counters[key := At(s.counters, key) + 1], requests := s.requests[r := req]), o)
  {
    CountedView(req.added, s.requests[r].next, o);
    RequestMoves(s.requests, r, req, o);
    UnsentMoves(s.requests, r, req, o);
  }

  lemma MovingKeepsAllowance(s: Pipeline, step: Step, o: Object)
    requires WithinAllowance(s, o) && Enabled(s, step) && (step.EndAdding? || step.Send?)
    ensures WithinAllowance(Fire(s, step), o)
  {
    var req := s.requests[step.r];
    if step.EndAdding? && req.added != [] {
      assert req.added[0..] == req.added;
    }
    RequestMoves(s.requests, step.r, Fire(s, step).requests[step.r], o);
    UnsentMoves(s.requests, step.r, Fire(s, step).requests[step.r], o);
  }

  lemma SubmittingKeepsAllowance(s: Pipeline, step: Step, o: Object)
    requires WithinAllowance(s, o) && step.Submit? && Enabled(s, step)
    ensures WithinAllowance(Fire(s, step), o)
  {
    var req := Adding(ViewsFor(step.objectType, step.objectIds, step.visitor), 0, []);
    SumAppend(s.requests, [req], Pending(o));
    SumOne(req, Pending(o));
    SumAppend(s.requests, [req], Unsent(o));
    SumOne(req, Unsent(o));
  }

  lemma ForgettingKeepsAllowance(s: Pipeline, expired: set<View>, o: Object)
    requires WithinAllowance(s, o)
    ensures WithinAllowance(Fire(s, Forget(expired)), o)
  {
    ForgottenViews(s.deduper, expired, o);
    PlusAmongAt(s.forgotten, s.deduper * expired, o);
  }

  lemma StoringKeepsAllowance(s: Pipeline, f: nat, o: Object)
    requires FillsAreLow(s, o) && WithinAllowance(s, o) && Enabled(s, StoreCount(f))
    ensures WithinAllowance(Fire(s, StoreCount(f)), o)
  {
    PendingIsUnsent(s.requests, o);
  }

  lemma AddKeyKeepsAllowance(s: Pipeline, r: nat, o: Object)
    requires WithinAllowance(s, o) && Enabled(s, AddKey(r))
    ensures WithinAllowance(Fire(s, AddKey(r)), o)
  {
    var req := s.requests[r];
    var v := req.views[req.next];
    AddingKeepsAllowance(s, r, v, Adding(req.views, req.next + 1, if v in s.deduper then req.added else req.added + [v]), o);
  }

  lemma CountKeyKeepsAllowance(s: Pipeline, r: nat, o: Object)
    requires WithinAllowance(s, o) && Enabled(s, CountKey(r))
    ensures WithinAllowance(Fire(s, CountKey(r)), o)
  {
    var req := s.requests[r];
    CountingKeepsAllowance(s, r, Counting(req.views, req.added, req.next + 1), o);
  }

  lemma StillKeepsAllowance(s: Pipeline, step: Step, o: Object)
    requires WithinAllowance(s, o) && Enabled(s, step)
    requires step.Evict? || step.Deliver? || step.Acknowledge? || step.Miss? || step.CountLog? || step.ReaderFails?
    ensures WithinAllowance(Fire(s, step), o)
  {
  }

  lemma StepKeepsAllowance(s: Pipeline, step: Step, o: Object)
    requires OnlySent(s) && FillsAreLow(s, o) && WithinAllowance(s, o) && Enabled(s, step)
    ensures WithinAllowance(Fire(s, step), o)
  {
    match step
    case Submit(_, _, _) => SubmittingKeepsAllowance(s, step, o);
    case AddKey(r) => AddKeyKeepsAllowance(s, r, o);
    case EndAdding(_) => MovingKeepsAllowance(s, step, o);
    case CountKey(r) => CountKeyKeepsAllowance(s, r, o);
    case EndCounting(_) => SendingKeepsAllowance(s, step, o);
    case CacheFails(_) => SendingKeepsAllowance(s, step, o);
    case Send(_) => MovingKeepsAllowance(s, step, o);
    case Forget(expired) => ForgettingKeepsAllowance(s, expired, o);
    case Evict(_) => StillKeepsAllowance(s, step, o);
    case Deliver(_) => StillKeepsAllowance(s, step, o);
    case Acknowledge(_) => StillKeepsAllowance(s, step, o);
    case Miss(_) => StillKeepsAllowance(s, step, o);
    case CountLog(_) => StillKeepsAllowance(s, step, o);
    case ReaderFails(_) => StillKeepsAllowance(s, step, o);
    case StoreCount(f) => StoringKeepsAllowance(s, f, o);
  }

  lemma {:induction false} RunStaysLow(steps: seq<Step>, o: Object)
    ensures Low(Run(steps), o)
  {
    if steps == [] {
      assert Among({}, o) == {};
    } else {
      var (earlier, last) := (steps[..|steps| - 1], steps[|steps| - 1]);
      RunStaysLow(earlier, o);
      if Enabled(Run(earlier), last) {
        StepKeepsOnlySent(Run(earlier), last);
        StepKeepsFillsLow(Run(earlier), last, o);
        StepKeepsAllowance(Run(earlier), last, o);
      }
    }
  }

  lemma DeduperIsSubmitted(steps: seq<Step>, o: Object)
    ensures |Among(Run(steps).deduper, o)| <= |Among(Run(steps).submitted, o)|
  {
    var s := Run(steps);
    RunKeepsInv(steps);
    forall v | v in s.deduper ensures v in s.submitted {
      CoveredIsSubmitted(s, v);
    }
    AmongGrows(s.deduper, s.submitted, o);
  }

  /**
   * In every run a cached counter exceeds the number of distinct submitted views of its object by at most the views
   * that expired from the deduper and those that failing requests sent past it.
   */
  lemma CounterIsBounded(steps: seq<Step>, o: Object)
    ensures var s := Run(steps);
            At(s.counters, o) <= |Among(s.submitted, o)| + At(s.forgotten, o) + |Among(s.bypassed, o)|
  {
    RunStaysLow(steps, o);
    DeduperIsSubmitted(steps, o);
  }

  /** Once requests have ended, a counter is exact if what it missed makes up for what expiry and readers added to it. */
  lemma CounterIsExact(steps: seq<Step>, o: Object)
    requires forall r :: 0 <= r < |Run(steps).requests| ==> Run(steps).requests[r].Done?
    ensures var s := Run(steps);
            At(s.counters, o) == |Among(s.submitted, o)| <==>
            At(s.uncounted, o) + |Among(s.submitted - s.deduper, o)| == At(s.forgotten, o) + At(s.filled, o)
  {
    var s := Run(steps);
    CountsAddUp(steps, o);
    RunKeepsInv(steps);
    forall v | v in s.deduper ensures v in s.submitted {
      CoveredIsSubmitted(s, v);
    }
    assert Among(s.submitted, o) == Among(s.deduper, o) + Among(s.submitted - s.deduper, o);
    NothingPending(s.requests, o);
  }

  lemma NothingPending(requests: seq<Request>, o: Object)
    requires forall r :: 0 <= r < |requests| ==> requests[r].Done?
    ensures Sum(requests, Pending(o)) == 0
  {
    forall req | req in requests ensures Pending(o)(req) == 0 {
      assert req.Done?;
    }
    SumZero(requests, Pending(o));
  }
}

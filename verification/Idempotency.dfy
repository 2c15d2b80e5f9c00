/**
 * Requests with one idempotency key: a stored answer is replayed, a lock guards the first execution, and when the
 * lock is not obtained or the handler raises, the handler is run without the lock.
 */
module Idempotency {
  import opened Tables
  import opened Booking

  datatype Answer = Answer(status: int, body: string)

  /** What a handler does: it answers or raises. */
  datatype HandlerOutcome = Replies(answer: Answer) | Raises

  datatype Source = Replayed | FirstRun | UnlockedRun

  datatype Phase =
    | Arrived
    | Waiting
    | Locked
    | Running
    | Executed(answer: Answer)
    | Releasing(answer: Answer, source: Source)
    | Failing
    | Fallback
    | Answered(answer: Answer, source: Source)
    | Erred

  /**
   * `cached` and `lock` are the two cache entries of the key. The rest of the system acts on `db` too. History:
   * how often the handler succeeded under the lock and without it, how often it changed the tables, and the transactions
   * that count.
   */
  datatype System = System(
    cached: Option<Answer>,
    lock: Option<nat>,
    requests: map<nat, Phase>,
    db: Db,
    successes: nat,
    unlocked: nat,
    changes: nat,
    kept: seq<Txn>)

  datatype Step =
    | Arrive(id: nat)
    | Check(id: nat)
    | Acquire(id: nat)
    | GiveUp(id: nat)
    | Recheck(id: nat)
    | Execute(id: nat, db: Db, outcome: HandlerOutcome)
    | Save(id: nat)
    | SaveFails(id: nat)
    | Release(id: nat)
    | Rerun(id: nat, db: Db, outcome: HandlerOutcome)
    | Elsewhere(txn: Txn)
    | LockExpires
    | EntryExpires

  predicate Success(a: Answer) {
    200 <= a.status < 300
  }

  /** The statuses that are stored are the two-hundreds. */
  lemma SuccessIsTwoHundreds(a: Answer)
    ensures Success(a) <==> a.status / 100 == 2
  {
  }

  function Start(db: Db): System {
    System(None, None, map[], db, 0, 0, 0, [])
  }

  predicate At(s: System, id: nat, phase: Phase) {
    id in s.requests && s.requests[id] == phase
  }

  predicate Enabled(s: System, step: Step) {
    match step
    case Arrive(id) => id !in s.requests
    case Check(id) => At(s, id, Arrived)
    case Acquire(id) => At(s, id, Waiting) && s.lock.None?
    case GiveUp(id) => At(s, id, Waiting) && s.lock.Some?
    case Recheck(id) => At(s, id, Locked)
    case Execute(id, _, _) => At(s, id, Running)
    case Save(id) => id in s.requests && s.requests[id].Executed?
    case SaveFails(id) => id in s.requests && s.requests[id].Executed?
    case Release(id) => id in s.requests && (s.requests[id].Releasing? || s.requests[id].Failing?)
    case Rerun(id, _, _) => At(s, id, Fallback)
    case Elsewhere(_) => true
    case LockExpires => true
    case EntryExpires => true
  }

  function Moved(s: System, id: nat, phase: Phase): System {
    s.(requests := s.requests[id := phase])
  }

  /** The handler's work on the tables. */
  function Worked(s: System, db: Db, orderId: nat): System {
    if db == s.db then s
    else s.(db := db, changes := s.changes + 1, kept := s.kept + [TxnConfirm(orderId)])
  }

  /** `orderId` only names the handler's transaction in the history. */
  ghost function Do(s: System, step: Step, orderId: nat): System {
    if !Enabled(s, step) then s else
      match step
      case Arrive(id) => Moved(s, id, Arrived)
      case Check(id) => Moved(s, id, if s.cached.Some? then Answered(s.cached.value, Replayed) else Waiting)
      case Acquire(id) => Moved(s, id, Locked).(lock := Some(id))
      case GiveUp(id) => Moved(s, id, Fallback)
      case Recheck(id) => Moved(s, id, if s.cached.Some? then Releasing(s.cached.value, Replayed) else Running)
      case Execute(id, db, outcome) =>
        var worked := Worked(s, db, orderId);
        if outcome.Raises? then Moved(worked, id, Failing)
        else Moved(worked, id, Executed(outcome.answer))
             .(successes := s.successes + if Success(outcome.answer) then 1 else 0)
      case Save(id) =>
        var a := s.requests[id].answer;
        Moved(s, id, Releasing(a, FirstRun)).(cached := if Success(a) then Some(a) else s.cached)
      case SaveFails(id) => Moved(s, id, Failing)
      case Release(id) =>
        var p := s.requests[id];
        Moved(s, id, if p.Failing? then Fallback else Answered(p.answer, p.source))
        .(lock := if s.lock == Some(id) then None else s.lock)
      case Rerun(id, db, outcome) =>
        Moved(Worked(s, db, orderId), id, if outcome.Raises? then Erred else Answered(outcome.answer, UnlockedRun))
        .(unlocked := s.unlocked + if outcome.Replies? && Success(outcome.answer) then 1 else 0)
      case Elsewhere(txn) => s.(db := Exec(s.db, txn), kept := s.kept + [txn])
      case LockExpires => s.(lock := None)
      case EntryExpires => s.(cached := None)
  }

  ghost function Run(s: System, steps: seq<Step>, orderId: nat): System
    decreases |steps|
  {
    if steps == [] then s else Run(Do(s, steps[0], orderId), steps[1..], orderId)
  }

  /** Between taking the lock and storing the answer. */
  predicate Critical(p: Phase) {
    p.Locked? || p.Running? || p.Executed?
  }

  datatype CriticalPhase = WhileLocked | WhileRunning | WhileExecuted

  function PhaseOf(p: Phase): CriticalPhase
    requires Critical(p)
  {
    if p.Locked? then WhileLocked else if p.Running? then WhileRunning else WhileExecuted
  }

  /**
   * What may happen: the critical phases of its holder in which the lock may expire, whether the stored answer may
   * expire, whether the wrapper may raise between the handler's answer and storing it, whether a request may give up
   * waiting for the lock, and whether a handler may raise under the lock.
   */
  datatype Policy = Policy(lockExpires: set<CriticalPhase>, entryExpires: bool, saveFails: bool, givesUp: bool, raises: bool)

  ghost predicate Allowed(policy: Policy, s: System, step: Step) {
    match step
    case LockExpires =>
      forall id :: id in s.requests && Critical(s.requests[id]) ==> PhaseOf(s.requests[id]) in policy.lockExpires
    case EntryExpires => policy.entryExpires
    case SaveFails(_) => policy.saveFails
    case GiveUp(_) => policy.givesUp
    case Execute(_, _, outcome) => outcome.Raises? ==> policy.raises
    case _ => true
  }

  ghost predicate Permitted(policy: Policy, s: System, steps: seq<Step>, orderId: nat)
    decreases |steps|
  {
    steps == [] || (Allowed(policy, s, steps[0]) && Permitted(policy, Do(s, steps[0], orderId), steps[1..], orderId))
  }

  /** Answers are stored and kept, and no lock expires on a request that still needs it. */
  predicate Timely(policy: Policy) {
    policy.lockExpires == {} && !policy.entryExpires && !policy.saveFails
  }

  // ---- At most one execution under the lock succeeds, and everybody gets its answer.

  ghost predicate CriticalHoldsLock(s: System) {
    forall id :: id in s.requests && Critical(s.requests[id]) ==> s.lock == Some(id)
  }

  ghost predicate NotExecuted(s: System) {
    forall id :: id in s.requests ==> !(s.requests[id].Executed? && Success(s.requests[id].answer))
  }

  ghost predicate PhaseAgrees(s: System, p: Phase) {
    match p
    case Running => s.cached.None? && s.successes == 0
    case Executed(a) => s.cached.None? && s.successes == if Success(a) then 1 else 0
    case Releasing(a, source) => source != UnlockedRun && (Success(a) || source == Replayed ==> s.cached == Some(a))
    case Answered(a, source) => source != UnlockedRun && (Success(a) || source == Replayed) ==> s.cached == Some(a)
    case _ => true
  }

  ghost predicate Inv(s: System) {
    && CriticalHoldsLock(s)
    && (forall id :: id in s.requests ==> PhaseAgrees(s, s.requests[id]))
    && (s.cached.Some? ==> Success(s.cached.value) && s.successes == 1)
    && (s.cached.None? && NotExecuted(s) ==> s.successes == 0)
    && s.successes <= 1
  }

  lemma StepKeepsInv(policy: Policy, s: System, step: Step, orderId: nat)
    requires Inv(s) && Timely(policy) && Allowed(policy, s, step)
    ensures Inv(Do(s, step, orderId))
  {
    match step
    case Arrive(id) => MoveKeepsInv(s, step, id, orderId);
    case Check(id) => MoveKeepsInv(s, step, id, orderId);
    case Acquire(id) => MoveKeepsInv(s, step, id, orderId);
    case GiveUp(id) => MoveKeepsInv(s, step, id, orderId);
    case Recheck(id) => MoveKeepsInv(s, step, id, orderId);
    case Execute(id, _, _) => ExecuteKeepsInv(s, step, orderId);
    case Save(id) => SaveKeepsInv(s, id, orderId);
    case SaveFails(_) =>
    case Release(id) => MoveKeepsInv(s, step, id, orderId);
    case Rerun(id, _, _) => MoveKeepsInv(s, step, id, orderId);
    case Elsewhere(_) =>
    case LockExpires =>
    case EntryExpires =>
  }

  lemma MoveKeepsInv(s: System, step: Step, id: nat, orderId: nat)
    requires Inv(s)
    requires step == Arrive(id) || step == Check(id) || step == Acquire(id) || step == GiveUp(id) || step == Recheck(id)
             || step == Release(id) || (step.Rerun? && step.id == id)
    ensures Inv(Do(s, step, orderId))
  {
    if Enabled(s, step) {
      NobodyNew(s, Do(s, step, orderId), id);
    }
  }

  lemma ExecuteKeepsInv(s: System, step: Step, orderId: nat)
    requires Inv(s) && step.Execute?
    ensures Inv(Do(s, step, orderId))
  {
    if Enabled(s, step) {
      assert PhaseAgrees(s, s.requests[step.id]);
    }
  }

  lemma SaveKeepsInv(s: System, id: nat, orderId: nat)
    requires Inv(s)
    ensures Inv(Do(s, Save(id), orderId))
  {
    if Enabled(s, Save(id)) {
      assert PhaseAgrees(s, s.requests[id]);
    }
  }

  /** A request moves without a success of its own, and nothing is stored. */
  lemma NobodyNew(s: System, s': System, id: nat)
    requires id in s'.requests && s'.requests == s.requests[id := s'.requests[id]]
    requires s'.cached == s.cached && s'.successes == s.successes
    requires id in s.requests ==> !s.requests[id].Executed?
    requires !s'.requests[id].Executed?
    ensures NotExecuted(s') <==> NotExecuted(s)
  {
    forall i | i in s.requests
      ensures i in s'.requests && (s.requests[i].Executed? ==> s'.requests[i] == s.requests[i])
    {
    }
  }

  lemma {:induction false} RunKeepsInv(policy: Policy, s: System, steps: seq<Step>, orderId: nat)
    requires Inv(s) && Timely(policy) && Permitted(policy, s, steps, orderId)
    ensures Inv(Run(s, steps, orderId))
    decreases |steps|
  {
    if steps != [] {
      StepKeepsInv(policy, s, steps[0], orderId);
      RunKeepsInv(policy, Do(s, steps[0], orderId), steps[1..], orderId);
    }
  }

  /** At most one execution under the lock succeeds; it and every replay have one and the same answer. */
  lemma LockedSuccessOnce(policy: Policy, db: Db, steps: seq<Step>, orderId: nat)
    requires Timely(policy) && Permitted(policy, Start(db), steps, orderId)
    ensures var s := Run(Start(db), steps, orderId);
            && s.successes <= 1
            && forall i, j :: i in s.requests && j in s.requests && HasAnswer(s.requests[i]) && HasAnswer(s.requests[j]) ==>
                 s.requests[i].answer == s.requests[j].answer && Success(s.requests[i].answer)
  {
    RunKeepsInv(policy, Start(db), steps, orderId);
    var s := Run(Start(db), steps, orderId);
    forall i | i in s.requests && HasAnswer(s.requests[i]) ensures s.cached == Some(s.requests[i].answer) {
      assert PhaseAgrees(s, s.requests[i]);
    }
  }

  /** Answered by a replay, or successfully under the lock. */
  predicate HasAnswer(p: Phase) {
    p.Answered? && p.source != UnlockedRun && (Success(p.answer) || p.source == Replayed)
  }

  /** Once an answer is stored, a request that arrives later is never executed: it gets that answer. */
  lemma {:induction false} LaterRequestsReplay(policy: Policy, s: System, steps: seq<Step>, orderId: nat, a: Answer, id: nat)
    requires Inv(s) && s.cached == Some(a) && Timely(policy) && Permitted(policy, s, steps, orderId)
    requires id in s.requests ==> s.requests[id] == Arrived || s.requests[id] == Answered(a, Replayed)
    ensures var s' := Run(s, steps, orderId);
            && s'.cached == Some(a) && s'.successes == s.successes
            && (id in s'.requests ==> s'.requests[id] == Arrived || s'.requests[id] == Answered(a, Replayed))
    decreases |steps|
  {
    if steps != [] {
      var next := Do(s, steps[0], orderId);
      StepKeepsInv(policy, s, steps[0], orderId);
      StoredStays(s, steps[0], orderId, a, id);
      LaterRequestsReplay(policy, next, steps[1..], orderId, a, id);
    }
  }

  lemma NobodyRuns(s: System)
    requires Inv(s) && s.cached.Some?
    ensures forall id :: id in s.requests ==> !s.requests[id].Running? && !s.requests[id].Executed?
  {
    forall id | id in s.requests ensures !s.requests[id].Running? && !s.requests[id].Executed? {
      assert PhaseAgrees(s, s.requests[id]);
    }
  }

  lemma StoredStays(s: System, step: Step, orderId: nat, a: Answer, id: nat)
    requires Inv(s) && s.cached == Some(a) && !step.EntryExpires? && !step.SaveFails?
    requires id in s.requests ==> s.requests[id] == Arrived || s.requests[id] == Answered(a, Replayed)
    ensures var s' := Do(s, step, orderId);
            && s'.cached == Some(a) && s'.successes == s.successes
            && (id in s'.requests ==> s'.requests[id] == Arrived || s'.requests[id] == Answered(a, Replayed))
  {
    NobodyRuns(s);
    match step
    case Arrive(_) =>
    case Check(_) =>
    case Acquire(_) =>
    case GiveUp(_) =>
    case Recheck(_) =>
    case Execute(_, _, _) =>
    case Save(_) =>
    case Release(_) =>
    case Rerun(_, _, _) =>
    case Elsewhere(_) =>
    case LockExpires =>
  }

  // ---- Exactly when: which expiries, retreats and failures let two executions succeed.

  /** The state some permitted run reaches from the start. */
  ghost predicate Reached(policy: Policy, s: System) {
    exists steps :: Permitted(policy, Start(EMPTY), steps, 0) && Run(Start(EMPTY), steps, 0) == s
  }

  lemma {:induction false} RunMore(policy: Policy, s: System, steps: seq<Step>, step: Step)
    requires Permitted(policy, s, steps, 0) && Allowed(policy, Run(s, steps, 0), step)
    ensures Permitted(policy, s, steps + [step], 0)
    ensures Run(s, steps + [step], 0) == Do(Run(s, steps, 0), step, 0)
    decreases |steps|
  {
    if steps == [] {
      assert steps + [step] == [step];
      assert [step][1..] == [];
      assert Run(s, [step], 0) == Run(Do(s, step, 0), [], 0);
    } else {
      assert (steps + [step])[1..] == steps[1..] + [step];
      RunMore(policy, Do(s, steps[0], 0), steps[1..], step);
    }
  }

  lemma Next(policy: Policy, s: System, step: Step) returns (s': System)
    requires Reached(policy, s) && Allowed(policy, s, step)
    ensures s' == Do(s, step, 0) && Reached(policy, s')
  {
    var steps :| Permitted(policy, Start(EMPTY), steps, 0) && Run(Start(EMPTY), steps, 0) == s;
    RunMore(policy, Start(EMPTY), steps, step);
    s' := Do(s, step, 0);
  }

  /** Requests 0 and 1 stand here, nothing is stored, and so often the handler has succeeded. */
  ghost predicate Two(s: System, p: Phase, q: Phase, lock: Option<nat>, successes: nat, unlocked: nat) {
    && s.requests.Keys == {0, 1} && At(s, 0, p) && At(s, 1, q)
    && s.lock == lock && s.cached == None && s.successes == successes && s.unlocked == unlocked
  }

  /** Both requests have arrived and found nothing stored, and request 0 has the lock. */
  lemma OneLocked(policy: Policy) returns (s: System)
    ensures Reached(policy, s) && Two(s, Locked, Waiting, Some(0), 0, 0)
  {
    s := Start(EMPTY);
    assert Permitted(policy, s, [], 0) && Run(s, [], 0) == s;
    s := Next(policy, s, Arrive(0));
    s := Next(policy, s, Arrive(1));
    s := Next(policy, s, Check(0));
    s := Next(policy, s, Check(1));
    s := Next(policy, s, Acquire(0));
  }

  /** Request `id` finds nothing stored when it looks again, and runs the handler. */
  lemma Rechecked(policy: Policy, s0: System, id: nat) returns (s: System)
    requires Reached(policy, s0) && At(s0, id, Locked) && s0.cached.None?
    ensures Reached(policy, s) && s == Moved(s0, id, Running)
  {
    s := Next(policy, s0, Recheck(id));
  }

  /** The handler of request `id` succeeds with the answer `a`. */
  lemma Executes(policy: Policy, s0: System, id: nat, a: Answer) returns (s: System)
    requires Reached(policy, s0) && At(s0, id, Running) && Success(a)
    ensures Reached(policy, s) && s == Moved(s0, id, Executed(a)).(successes := s0.successes + 1)
  {
    s := Next(policy, s0, Execute(id, s0.db, Replies(a)));
  }

  lemma Reruns(policy: Policy, s0: System, id: nat, a: Answer) returns (s: System)
    requires Reached(policy, s0) && At(s0, id, Fallback) && Success(a)
    ensures Reached(policy, s) && s == Moved(s0, id, Answered(a, UnlockedRun)).(unlocked := s0.unlocked + 1)
  {
    s := Next(policy, s0, Rerun(id, s0.db, Replies(a)));
  }

  /** The lock is or becomes free, and request 1 takes it. */
  lemma SecondLocks(policy: Policy, s0: System, p: Phase, successes: nat, unlocked: nat) returns (s: System)
    requires Reached(policy, s0) && Two(s0, p, Waiting, s0.lock, successes, unlocked)
    requires s0.lock.None? || (Critical(p) ==> PhaseOf(p) in policy.lockExpires)
    ensures Reached(policy, s) && Two(s, p, Locked, Some(1), successes, unlocked)
  {
    s := s0;
    if s.lock.Some? {
      s := Next(policy, s, LockExpires);
    }
    s := Next(policy, s, Acquire(1));
  }

  /** Both requests are executed under the lock, with any two answers, if the lock may expire in some critical phase. */
  lemma TwoUnderTheLock(policy: Policy, a: Answer, b: Answer) returns (s: System)
    requires policy.lockExpires != {} && Success(a) && Success(b)
    ensures Reached(policy, s) && At(s, 0, Executed(a)) && At(s, 1, Executed(b)) && s.successes == 2
  {
    s := OneLocked(policy);
    if WhileLocked in policy.lockExpires {
      s := SecondLocks(policy, s, Locked, 0, 0);
      s := Rechecked(policy, s, 0);
      s := Rechecked(policy, s, 1);
      s := Executes(policy, s, 0, a);
    } else if WhileRunning in policy.lockExpires {
      s := Rechecked(policy, s, 0);
      s := SecondLocks(policy, s, Running, 0, 0);
      s := Rechecked(policy, s, 1);
      s := Executes(policy, s, 0, a);
    } else {
      var phase :| phase in policy.lockExpires;
      assert phase == WhileExecuted;
      s := Rechecked(policy, s, 0);
      s := Executes(policy, s, 0, a);
      s := SecondLocks(policy, s, Executed(a), 1, 0);
      s := Rechecked(policy, s, 1);
    }
    s := Executes(policy, s, 1, b);
  }

  /** Both are executed under the lock, one after the other, if the stored answer may expire. */
  lemma TwoAfterExpiry(policy: Policy, a: Answer, b: Answer) returns (s: System)
    requires policy.entryExpires && Success(a) && Success(b)
    ensures Reached(policy, s) && At(s, 0, Answered(a, FirstRun)) && At(s, 1, Executed(b)) && s.successes == 2
  {
    s := OneLocked(policy);
    s := Rechecked(policy, s, 0);
    s := Executes(policy, s, 0, a);
    s := Next(policy, s, Save(0));
    s := Next(policy, s, EntryExpires);
    s := Next(policy, s, Release(0));
    s := SecondLocks(policy, s, Answered(a, FirstRun), 1, 0);
    s := Rechecked(policy, s, 1);
    s := Executes(policy, s, 1, b);
  }

  /** An answer that cannot be stored lets the next request succeed under the lock, and the first is executed again. */
  lemma TwoUnsaved(policy: Policy, a: Answer, b: Answer) returns (s: System)
    requires policy.saveFails && Success(a) && Success(b)
    ensures Reached(policy, s) && At(s, 0, Answered(a, UnlockedRun)) && At(s, 1, Executed(b))
    ensures s.successes == 2 && s.unlocked == 1
  {
    s := OneLocked(policy);
    s := Rechecked(policy, s, 0);
    s := Executes(policy, s, 0, a);
    s := Next(policy, s, SaveFails(0));
    s := Next(policy, s, Release(0));
    s := Reruns(policy, s, 0, a);
    s := SecondLocks(policy, s, Answered(a, UnlockedRun), 1, 1);
    s := Rechecked(policy, s, 1);
    s := Executes(policy, s, 1, b);
  }

  /** One is executed under the lock and one without it, if a request may give up waiting. */
  lemma TwoByGivingUp(policy: Policy, a: Answer, b: Answer) returns (s: System)
    requires policy.givesUp && Success(a) && Success(b)
    ensures Reached(policy, s) && At(s, 0, Executed(a)) && At(s, 1, Answered(b, UnlockedRun))
    ensures s.successes == 1 && s.unlocked == 1
  {
    s := OneLocked(policy);
    s := Next(policy, s, GiveUp(1));
    s := Rechecked(policy, s, 0);
    s := Executes(policy, s, 0, a);
    s := Reruns(policy, s, 1, b);
  }

  /** One is executed again without the lock and stores nothing, so the other is executed too, if a handler may raise. */
  lemma TwoByRaising(policy: Policy, a: Answer, b: Answer) returns (s: System)
    requires policy.raises && Success(a) && Success(b)
    ensures Reached(policy, s) && At(s, 0, Answered(a, UnlockedRun)) && At(s, 1, Executed(b))
    ensures s.successes == 1 && s.unlocked == 1
  {
    s := OneLocked(policy);
    s := Rechecked(policy, s, 0);
    s := Next(policy, s, Execute(0, s.db, Raises));
    s := Next(policy, s, Release(0));
    s := Reruns(policy, s, 0, a);
    s := SecondLocks(policy, s, Answered(a, UnlockedRun), 0, 1);
    s := Rechecked(policy, s, 1);
    s := Executes(policy, s, 1, b);
  }

  /** In every permitted run at most one execution under the lock succeeds. */
  ghost predicate OnceUnderTheLock(policy: Policy) {
    forall db, steps, orderId :: Permitted(policy, Start(db), steps, orderId) ==> Run(Start(db), steps, orderId).successes <= 1
  }

  /** In every permitted run at most one execution succeeds, with the lock or without it. */
  ghost predicate OnceAtAll(policy: Policy) {
    forall db, steps, orderId :: Permitted(policy, Start(db), steps, orderId) ==>
      Run(Start(db), steps, orderId).successes + Run(Start(db), steps, orderId).unlocked <= 1
  }

  /**
   * Executions under the lock succeed at most once exactly when answers are always stored, and neither they nor the lock
   * of a request between taking it and storing its answer can expire, whatever requests give up and handlers raise.
   */
  lemma OnceUnderTheLockIff(policy: Policy)
    ensures OnceUnderTheLock(policy) <==> policy.lockExpires == {} && !policy.entryExpires && !policy.saveFails
  {
    if Timely(policy) {
      forall db, steps, orderId | Permitted(policy, Start(db), steps, orderId)
        ensures Run(Start(db), steps, orderId).successes <= 1
      {
        LockedSuccessOnce(policy, db, steps, orderId);
      }
    } else {
      var ok := Answer(200, "");
      var s;
      if policy.entryExpires {
        s := TwoAfterExpiry(policy, ok, ok);
      } else if policy.saveFails {
        s := TwoUnsaved(policy, ok, ok);
      } else {
        s := TwoUnderTheLock(policy, ok, ok);
      }
      var steps :| Permitted(policy, Start(EMPTY), steps, 0) && Run(Start(EMPTY), steps, 0) == s;
      assert Run(Start(EMPTY), steps, 0).successes == 2;
    }
  }

  /** Nobody is on the way to an unlocked run. */
  ghost predicate NeverUnlocked(s: System) {
    s.unlocked == 0 && forall id :: id in s.requests ==> !s.requests[id].Failing? && !s.requests[id].Fallback?
  }

  lemma {:induction false} RunStaysLocked(policy: Policy, s: System, steps: seq<Step>, orderId: nat)
    requires NeverUnlocked(s) && !policy.saveFails && !policy.givesUp && !policy.raises && Permitted(policy, s, steps, orderId)
    ensures NeverUnlocked(Run(s, steps, orderId))
    decreases |steps|
  {
    if steps != [] {
      StepStaysLocked(policy, s, steps[0], orderId);
      RunStaysLocked(policy, Do(s, steps[0], orderId), steps[1..], orderId);
    }
  }

  lemma StepStaysLocked(policy: Policy, s: System, step: Step, orderId: nat)
    requires NeverUnlocked(s) && !policy.saveFails && !policy.givesUp && !policy.raises && Allowed(policy, s, step)
    ensures NeverUnlocked(Do(s, step, orderId))
  {
    match step
    case Arrive(_) =>
    case Check(_) =>
    case Acquire(_) =>
    case GiveUp(_) =>
    case Recheck(_) =>
    case Execute(_, _, _) =>
    case Save(_) =>
    case SaveFails(_) =>
    case Release(_) =>
    case Rerun(_, _, _) =>
    case Elsewhere(_) =>
    case LockExpires =>
    case EntryExpires =>
  }

  /** All executions together succeed at most once exactly when, besides, nobody gives up waiting and no handler raises. */
  lemma OnceAtAllIff(policy: Policy)
    ensures OnceAtAll(policy) <==>
            policy.lockExpires == {} && !policy.entryExpires && !policy.saveFails && !policy.givesUp && !policy.raises
  {
    if policy == Policy({}, false, false, false, false) {
      forall db, steps, orderId | Permitted(policy, Start(db), steps, orderId)
        ensures Run(Start(db), steps, orderId).successes + Run(Start(db), steps, orderId).unlocked <= 1
      {
        LockedSuccessOnce(policy, db, steps, orderId);
        RunStaysLocked(policy, Start(db), steps, orderId);
      }
    } else {
      var ok := Answer(200, "");
      var s;
      if policy.entryExpires {
        s := TwoAfterExpiry(policy, ok, ok);
      } else if policy.saveFails {
        s := TwoUnsaved(policy, ok, ok);
      } else if policy.givesUp {
        s := TwoByGivingUp(policy, ok, ok);
      } else if policy.raises {
        s := TwoByRaising(policy, ok, ok);
      } else {
        s := TwoUnderTheLock(policy, ok, ok);
      }
      var steps :| Permitted(policy, Start(EMPTY), steps, 0) && Run(Start(EMPTY), steps, 0) == s;
      assert Run(Start(EMPTY), steps, 0).successes + Run(Start(EMPTY), steps, 0).unlocked >= 2;
    }
  }
}

/** The nested unit of work: sessions, savepoints and cached repositories, over whole well-nested programs. */
module UnitOfWork {
  import opened Tables

  /** The fields of the unit of work, with the data its session sees and the data other sessions see. */
  datatype State<D> = State(
    session: Option<nat>,
    sessionsMade: nat,
    depth: nat,
    savepoints: seq<D>,
    repositories: map<string, nat>,
    readonly: bool,
    working: D,
    committed: D)

  /** Nothing is open. Only `as_readonly` can have been called since. */
  ghost predicate Reset<D>(s: State<D>) {
    s.session.None? && s.depth == 0 && s.savepoints == [] && s.repositories == map[]
  }

  ghost predicate WellFormed<D>(s: State<D>) {
    && (s.session.None? ==> Reset(s))
    && (s.session.Some? ==> s.depth >= 1)
    && (s.readonly ==> s.savepoints == [])
    && (s.session.Some? && !s.readonly ==> |s.savepoints| == s.depth - 1)
    && (forall name :: name in s.repositories ==> Some(s.repositories[name]) == s.session)
  }

  function Entered<D>(s: State<D>): State<D> {
    var active := if s.session.Some? then s
                  else s.(session := Some(s.sessionsMade), sessionsMade := s.sessionsMade + 1, working := s.committed);
    var deeper := active.(depth := s.depth + 1);
    if deeper.depth > 1 && !deeper.readonly then deeper.(savepoints := deeper.savepoints + [deeper.working]) else deeper
  }

  function Exited<D>(s: State<D>, failed: bool): State<D>
    requires s.depth > 0
    requires s.depth > 1 && !s.readonly ==> s.savepoints != []
  {
    if s.depth > 1 then
      if s.readonly then s.(depth := s.depth - 1)
      else
        var n := |s.savepoints| - 1;
        s.(depth := s.depth - 1, savepoints := s.savepoints[..n], working := if failed then s.savepoints[n] else s.working)
    else
      s.(depth := 0, session := None, repositories := map[], readonly := false, working := s.committed)
  }

  /** Read-only sessions run on an AUTOCOMMIT engine: a statement that writes takes effect at once. */
  function Written<D>(s: State<D>, data: D): State<D> {
    if s.readonly then s.(working := data, committed := data) else s.(working := data)
  }

  function CommittedState<D>(s: State<D>): State<D> {
    if s.readonly || s.session.None? then s else s.(committed := s.working)
  }

  function Fetched<D>(s: State<D>, name: string): State<D> {
    if name in s.repositories || s.session.None? then s else s.(repositories := s.repositories[name := s.session.value])
  }

  class SqlUnitOfWork<D> {
    const declared: set<string>
    var session: Option<nat>
    var sessionsMade: nat
    var depth: nat
    var transactionStack: seq<D>
    var repositories: map<string, nat>
    var isReadonly: bool
    var working: D
    var committed: D

    constructor (declared: set<string>, data: D)
      ensures this.declared == declared && Valid() && committed == data
      ensures Reset(Now()) && !isReadonly
    {
      this.declared := declared;
      session, sessionsMade, depth, transactionStack, repositories, isReadonly := None, 0, 0, [], map[], false;
      working, committed := data, data;
    }

    ghost function Now(): State<D>
      reads this
    {
      State(session, sessionsMade, depth, transactionStack, repositories, isReadonly, working, committed)
    }

    ghost predicate Valid()
      reads this
    {
      WellFormed(Now()) && forall name :: name in repositories ==> name in declared
    }

    /** Refused once a session that may write has started. */
    method AsReadonly() returns (ok: bool)
      requires Valid()
      modifies this`isReadonly
      ensures Valid()
      ensures ok <==> old(session).None? || old(isReadonly)
      ensures isReadonly == (old(isReadonly) || ok)
    {
      if session.Some? && !isReadonly { return false; }
      isReadonly := true;
      ok := true;
    }

    method Enter()
      requires Valid()
      modifies this
      ensures Valid() && Now() == Entered(old(Now()))
    {
      if session.None? {
        session, sessionsMade, working := Some(sessionsMade), sessionsMade + 1, committed;
      }
      depth := depth + 1;
      if depth > 1 && !isReadonly {
        transactionStack := transactionStack + [working];
      }
    }

    method Exit(failed: bool)
      requires Valid() && depth > 0
      modifies this
      ensures Valid() && Now() == Exited(old(Now()), failed)
    {
      depth := depth - 1;
      if depth > 0 {
        if !isReadonly {
          var savepoint := transactionStack[|transactionStack| - 1];
          transactionStack := transactionStack[..|transactionStack| - 1];
          if failed { working := savepoint; }
        }
        return;
      }
      if session.Some? {
        if failed && !isReadonly { working := committed; }
        working := committed;
        session := None;
        repositories := map[];
        isReadonly := false;
      }
    }

    /** Attribute access: a cached repository, or a new one bound to the current session. */
    method Repository(name: string) returns (bound: Option<nat>, known: bool)
      requires Valid()
      modifies this`repositories
      ensures Valid()
      ensures known <==> name in declared
      ensures known ==> bound == session && Now() == Fetched(old(Now()), name)
      ensures !known ==> Now() == old(Now())
    {
      if name in repositories { return Some(repositories[name]), true; }
      if name !in declared { return None, false; }
      if session.None? { return None, true; }
      repositories := repositories[name := session.value];
      return session, true;
    }

    method Write(data: D)
      requires Valid() && session.Some?
      modifies this`working, this`committed
      ensures Valid() && Now() == Written(old(Now()), data)
    {
      working := data;
      if isReadonly { committed := data; }
    }

    method Commit() returns (ok: bool)
      requires Valid()
      modifies this`committed
      ensures Valid() && ok == !isReadonly && Now() == CommittedState(old(Now()))
    {
      if isReadonly { return false; }
      if session.Some? { committed := working; }
      ok := true;
    }
  }

  // ---------------------------------------------------------------- whole programs

  /** The body of an `async with uow` block. A block that fails is left by an exception its surroundings catch. */
  datatype Stmt<D> =
    | Assign(data: D)
    | Touch(repository: string)
    | CommitAll
    | Block(body: seq<Stmt<D>>, failed: bool)

  function RunStmt<D>(s: State<D>, stmt: Stmt<D>): State<D>
    requires WellFormed(s) && s.depth >= 1
    ensures WellFormed(RunStmt(s, stmt)) && SameFrame(s, RunStmt(s, stmt))
    decreases stmt, 0
  {
    match stmt
    case Assign(data) => Written(s, data)
    case Touch(name) => Fetched(s, name)
    case CommitAll => CommittedState(s)
    case Block(body, failed) =>
      assert WellFormed(Entered(s));
      var inner := RunBody(Entered(s), body);
      assert s.readonly || inner.savepoints == s.savepoints + [s.working];
      Exited(inner, failed)
  }

  function RunBody<D>(s: State<D>, body: seq<Stmt<D>>): State<D>
    requires WellFormed(s) && s.depth >= 1
    ensures WellFormed(RunBody(s, body)) && SameFrame(s, RunBody(s, body))
    decreases body, 1
  {
    if body == [] then s else RunBody(RunStmt(s, body[0]), body[1..])
  }

  /** A statement ends in the session, mode, depth and savepoints it began with. */
  ghost predicate SameFrame<D>(s: State<D>, after: State<D>) {
    && after.session == s.session && after.sessionsMade == s.sessionsMade && after.readonly == s.readonly
    && after.depth == s.depth && after.savepoints == s.savepoints
  }

  /**
   * What a body means for the data (working, committed): a failed inner block puts back what was there. A commit inside a
   * nested block would end the savepoints of the database; here it keeps them, so the meaning is the program's for bodies
   * whose commits stand in the outermost block.
   */
  function Meaning<D>(working: D, committed: D, body: seq<Stmt<D>>): (D, D)
    decreases body, 1
  {
    if body == [] then (working, committed)
    else
      var (w, c) := MeaningOf(working, committed, body[0]);
      Meaning(w, c, body[1..])
  }

  function MeaningOf<D>(working: D, committed: D, stmt: Stmt<D>): (D, D)
    decreases stmt, 0
  {
    match stmt
    case Assign(data) => (data, committed)
    case Touch(_) => (working, committed)
    case CommitAll => (working, working)
    case Block(body, failed) =>
      var (w, c) := Meaning(working, committed, body);
      (if failed then working else w, c)
  }

  lemma {:induction false} BodyMeans<D>(s: State<D>, body: seq<Stmt<D>>)
    requires WellFormed(s) && s.depth >= 1 && !s.readonly
    ensures (RunBody(s, body).working, RunBody(s, body).committed) == Meaning(s.working, s.committed, body)
    decreases body, 1
  {
    if body != [] {
      StmtMeans(s, body[0]);
      BodyMeans(RunStmt(s, body[0]), body[1..]);
    }
  }

  lemma {:induction false} StmtMeans<D>(s: State<D>, stmt: Stmt<D>)
    requires WellFormed(s) && s.depth >= 1 && !s.readonly
    ensures (RunStmt(s, stmt).working, RunStmt(s, stmt).committed) == MeaningOf(s.working, s.committed, stmt)
    decreases stmt, 0
  {
    if stmt.Block? {
      BodyMeans(Entered(s), stmt.body);
      assert RunBody(Entered(s), stmt.body).savepoints == s.savepoints + [s.working];
    }
  }

  /** No statement of the body, at any depth, commits. */
  predicate NeverCommits<D>(body: seq<Stmt<D>>)
    decreases body, 1
  {
    body == [] || (!CommitsIn(body[0]) && NeverCommits(body[1..]))
  }

  predicate CommitsIn<D>(stmt: Stmt<D>)
    decreases stmt, 0
  {
    stmt.CommitAll? || (stmt.Block? && !NeverCommits(stmt.body))
  }

  lemma {:induction false} WithoutCommitNothingIsCommitted<D>(working: D, committed: D, body: seq<Stmt<D>>)
    requires NeverCommits(body)
    ensures Meaning(working, committed, body).1 == committed
    decreases body
  {
    if body != [] {
      if body[0].Block? {
        WithoutCommitNothingIsCommitted(working, committed, body[0].body);
      }
      var (w, c) := MeaningOf(working, committed, body[0]);
      WithoutCommitNothingIsCommitted(w, c, body[1..]);
    }
  }

  /** An inner block that fails, and commits nothing, restores the working data of its entry and changes no other data. */
  lemma FailedBlockRestores<D>(s: State<D>, body: seq<Stmt<D>>)
    requires WellFormed(s) && s.depth >= 1 && !s.readonly && NeverCommits(body)
    ensures var after := RunStmt(s, Block(body, true));
            after.working == s.working && after.committed == s.committed && SameFrame(s, after)
  {
    StmtMeans(s, Block(body, true));
    WithoutCommitNothingIsCommitted(s.working, s.committed, body);
  }

  /** Commits stand in the outermost block only. */
  predicate OutermostCommits<D>(body: seq<Stmt<D>>)
    decreases body
  {
    body == [] || ((body[0].Block? ==> NeverCommits(body[0].body)) && OutermostCommits(body[1..]))
  }

  /** The working data at the body's last commit, if it commits. */
  function LastCommitted<D>(working: D, committed: D, body: seq<Stmt<D>>): D
    decreases body
  {
    if body == [] then committed
    else
      LastCommitted(MeaningOf(working, committed, body[0]).0, if body[0].CommitAll? then working else committed, body[1..])
  }

  lemma {:induction false} OnlyCommitsCommit<D>(working: D, committed: D, body: seq<Stmt<D>>)
    requires OutermostCommits(body)
    ensures Meaning(working, committed, body).1 == LastCommitted(working, committed, body)
    decreases body
  {
    if body != [] {
      if body[0].Block? {
        WithoutCommitNothingIsCommitted(working, committed, body[0].body);
      }
      var (w, c) := MeaningOf(working, committed, body[0]);
      OnlyCommitsCommit(w, c, body[1..]);
    }
  }

  /** One outermost block, started from the reset state. */
  function Program<D>(s: State<D>, body: seq<Stmt<D>>, failed: bool): State<D>
    requires WellFormed(s) && Reset(s)
  {
    Exited(RunBody(Entered(s), body), failed)
  }

  /** A block that may write ends reset; committed is what its last commit saw, and nothing without one, failed or not. */
  lemma WriteProgram<D>(s: State<D>, body: seq<Stmt<D>>, failed: bool)
    requires WellFormed(s) && Reset(s) && !s.readonly && OutermostCommits(body)
    ensures var after := Program(s, body, failed);
            && WellFormed(after) && Reset(after) && !after.readonly
            && after.committed == LastCommitted(s.committed, s.committed, body)
            && (NeverCommits(body) ==> after.committed == s.committed)
  {
    BodyMeans(Entered(s), body);
    OnlyCommitsCommit(s.committed, s.committed, body);
    if NeverCommits(body) {
      WithoutCommitNothingIsCommitted(s.committed, s.committed, body);
    }
  }

  // ---------------------------------------------------------------- read-only blocks

  /** The last data the body writes, failed inner blocks included. */
  function LastWritten<D>(data: D, body: seq<Stmt<D>>): D
    decreases body
  {
    if body == [] then data
    else
      LastWritten(match body[0]
                  case Assign(d) => d
                  case Block(inner, _) => LastWritten(data, inner)
                  case _ => data, body[1..])
  }

  lemma {:induction false} ReadonlyBody<D>(s: State<D>, body: seq<Stmt<D>>)
    requires WellFormed(s) && s.depth >= 1 && s.readonly
    ensures RunBody(s, body).committed == LastWritten(s.committed, body)
    decreases body
  {
    if body != [] {
      if body[0].Block? {
        ReadonlyBody(Entered(s), body[0].body);
      }
      ReadonlyBody(RunStmt(s, body[0]), body[1..]);
    }
  }

  predicate NeverWrites<D>(body: seq<Stmt<D>>)
    decreases body, 1
  {
    body == [] || (!WritesIn(body[0]) && NeverWrites(body[1..]))
  }

  predicate WritesIn<D>(stmt: Stmt<D>)
    decreases stmt, 0
  {
    stmt.Assign? || (stmt.Block? && !NeverWrites(stmt.body))
  }

  lemma {:induction false} WithoutWriteNothingChanges<D>(data: D, body: seq<Stmt<D>>)
    requires NeverWrites(body)
    ensures LastWritten(data, body) == data
    decreases body
  {
    if body != [] {
      if body[0].Block? {
        WithoutWriteNothingChanges(data, body[0].body);
      }
      WithoutWriteNothingChanges(data, body[1..]);
    }
  }

  lemma {:induction false} AWriteWins<D>(data: D, other: D, body: seq<Stmt<D>>)
    requires !NeverWrites(body)
    ensures LastWritten(data, body) == LastWritten(other, body)
    decreases body
  {
    if body[0].Block? {
      if NeverWrites(body[0].body) {
        WithoutWriteNothingChanges(data, body[0].body);
        WithoutWriteNothingChanges(other, body[0].body);
        AWriteWins(data, other, body[1..]);
      } else {
        AWriteWins(data, other, body[0].body);
      }
    } else if !body[0].Assign? {
      AWriteWins(data, other, body[1..]);
    }
  }

  /** A read-only block commits nothing, whatever the data, exactly when its body does not write: its engine autocommits. */
  lemma ReadonlyIsHarmlessIff<D(!new)>(s: State<D>, body: seq<Stmt<D>>, failed: bool, a: D, b: D)
    requires WellFormed(s) && Reset(s) && s.readonly && a != b
    ensures Reset(Program(s, body, failed)) && !Program(s, body, failed).readonly
    ensures (forall data: D :: Program(s.(committed := data), body, failed).committed == data) <==> NeverWrites(body)
  {
    forall data: D ensures Program(s.(committed := data), body, failed).committed == LastWritten(data, body) {
      ReadonlyBody(Entered(s.(committed := data)), body);
    }
    if NeverWrites(body) {
      forall data: D ensures Program(s.(committed := data), body, failed).committed == data {
        WithoutWriteNothingChanges(data, body);
      }
    } else {
      AWriteWins(a, b, body);
      assert Program(s.(committed := a), body, failed).committed == Program(s.(committed := b), body, failed).committed;
    }
  }
}

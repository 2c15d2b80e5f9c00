/**
 * The tag-versioned response cache as a machine of interleaved readers and invalidating writers.
 * A key of the cache names the version token of every tag, so a new token for a tag makes its old entries unreachable.
 */
module ResponseCache {
  type Tag = string
  type Token = nat

  datatype Key = Key(versions: map<Tag, Token>, hash: string)

  /** What a handler returned: for which query, and how many changes of every tag it had seen. */
  datatype Response = Response(hash: string, asOf: map<Tag, nat>)

  /**
   * Readers go from `Reading` (some tokens still to install) over `Missed` and `Computed` to `Served`;
   * writers from `Changed` to `Announcing` (some tags still to get the new token).
   * `seen` is history: how many changes of a tag had been announced when the reader read the versions.
   */
  datatype Process =
    | Reading(versions: map<Tag, Token>, todo: map<Tag, Token>, hash: string, seen: map<Tag, nat>)
    | Missed(versions: map<Tag, Token>, hash: string, seen: map<Tag, nat>)
    | Computed(versions: map<Tag, Token>, hash: string, seen: map<Tag, nat>, response: Response)
    | Served(hash: string, seen: map<Tag, nat>, response: Response)
    | Changed(made: map<Tag, nat>)
    | Announcing(made: map<Tag, nat>, todo: map<Tag, Token>)

  /** What is remembered for the proof: changes made and announced a tag, the changes announced when a token was
      installed, and every token minted. */
  datatype History = History(
    changes: map<Tag, nat>,
    announced: map<Tag, nat>,
    installed: map<(Tag, Token), nat>,
    minted: multiset<(Tag, Token)>)

  datatype System = System(
    versions: map<Tag, Token>,
    entries: map<Key, Response>,
    history: History,
    processes: map<nat, Process>)

  const Empty := System(map[], map[], History(map[], map[], map[], multiset{}), map[])

  datatype Step =
    | Read(id: nat, tags: set<Tag>, hash: string, clock: map<Tag, Token>)
    | Install(id: nat, tag: Tag)
    | Lookup(id: nat)
    | Compute(id: nat)
    | Store(id: nat)
    | Bypass(id: nat)
    | Change(id: nat, tags: set<Tag>)
    | Mint(id: nat, now: Token)
    | Announce(id: nat, tag: Tag)
    | VersionExpires(tag: Tag)
    | EntryExpires(key: Key)

  function At(counts: map<Tag, nat>, t: Tag): nat {
    if t in counts then counts[t] else 0
  }

  function Max(a: nat, b: nat): nat {
    if a < b then b else a
  }

  function Pairs(tokens: map<Tag, Token>): set<(Tag, Token)> {
    set t | t in tokens :: (t, tokens[t])
  }

  /** The versions a reader uses: those found, and a token from the clock for a tag that has none. */
  function VersionsFor(versions: map<Tag, Token>, tags: set<Tag>, clock: map<Tag, Token>): map<Tag, Token>
    requires tags - versions.Keys <= clock.Keys
  {
    map t | t in tags :: if t in versions then versions[t] else clock[t]
  }

  function MissingFor(versions: map<Tag, Token>, tags: set<Tag>, clock: map<Tag, Token>): map<Tag, Token>
    requires tags - versions.Keys <= clock.Keys
  {
    map t | t in tags && t !in versions :: clock[t]
  }

  function SeenOf(announced: map<Tag, nat>, tags: set<Tag>): map<Tag, nat> {
    map t | t in tags :: At(announced, t)
  }

  function NextOf(changes: map<Tag, nat>, tags: set<Tag>): map<Tag, nat> {
    map t | t in tags :: At(changes, t) + 1
  }

  function AllTo(tags: set<Tag>, now: Token): map<Tag, Token> {
    map t | t in tags :: now
  }

  function Minting(h: History, tokens: map<Tag, Token>): History {
    h.(minted := h.minted + multiset(Pairs(tokens)))
  }

  function DoRead(s: System, id: nat, tags: set<Tag>, hash: string, clock: map<Tag, Token>): System {
    if id in s.processes || !(tags - s.versions.Keys <= clock.Keys) then s else
      var missing := MissingFor(s.versions, tags, clock);
      var seen := SeenOf(s.history.announced, tags);
      s.(history := Minting(s.history, missing),
         processes := s.processes[id := Reading(VersionsFor(s.versions, tags, clock), missing, hash, seen)])
  }

  /** The versions are set one by one: the store's pipeline is not a transaction. */
  function DoInstall(s: System, id: nat, t: Tag): System {
    if id !in s.processes || !s.processes[id].Reading? || t !in s.processes[id].todo then s else
      var p := s.processes[id];
      s.(versions := s.versions[t := p.todo[t]],
         history := Installing(s.history, t, p.todo[t], At(s.history.announced, t)),
         processes := s.processes[id := Reading(p.versions, p.todo - {t}, p.hash, p.seen)])
  }

  function Installing(h: History, t: Tag, v: Token, announced: nat): History {
    h.(announced := h.announced[t := announced], installed := h.installed[(t, v) := announced])
  }

  function DoLookup(s: System, id: nat): System {
    if id !in s.processes || !s.processes[id].Reading? || s.processes[id].todo != map[] then s else
      var p := s.processes[id];
      var key := Key(p.versions, p.hash);
      s.(processes := s.processes[id := if key in s.entries then Served(p.hash, p.seen, s.entries[key])
                                        else Missed(p.versions, p.hash, p.seen)])
  }

  function DoCompute(s: System, id: nat): System {
    if id !in s.processes || !s.processes[id].Missed? then s else
      var p := s.processes[id];
      var response := Response(p.hash, s.history.changes);
      s.(processes := s.processes[id := Computed(p.versions, p.hash, p.seen, response)])
  }

  function DoStore(s: System, id: nat): System {
    if id !in s.processes || !s.processes[id].Computed? then s else
      var p := s.processes[id];
      s.(entries := s.entries[Key(p.versions, p.hash) := p.response],
         processes := s.processes[id := Served(p.hash, p.seen, p.response)])
  }

  /** A failing cache, at any point: the handler is called and its answer is not stored. */
  function DoBypass(s: System, id: nat): System {
    if id !in s.processes || !(s.processes[id].Reading? || s.processes[id].Missed? || s.processes[id].Computed?) then s else
      var p := s.processes[id];
      s.(processes := s.processes[id := Served(p.hash, p.seen, Response(p.hash, s.history.changes))])
  }

  function DoChange(s: System, id: nat, tags: set<Tag>): System {
    if id in s.processes then s else
      var made := NextOf(s.history.changes, tags);
      s.(history := s.history.(changes := s.history.changes + made), processes := s.processes[id := Changed(made)])
  }

  /** One reading of the clock is the new version of all the tags. */
  function DoMint(s: System, id: nat, now: Token): System {
    if id !in s.processes || !s.processes[id].Changed? then s else
      var made := s.processes[id].made;
      var todo := AllTo(made.Keys, now);
      s.(history := Minting(s.history, todo), processes := s.processes[id := Announcing(made, todo)])
  }

  function DoAnnounce(s: System, id: nat, t: Tag): System {
    if id !in s.processes || !s.processes[id].Announcing? || t !in s.processes[id].todo then s else
      var p := s.processes[id];
      s.(versions := s.versions[t := p.todo[t]],
         history := Installing(s.history, t, p.todo[t], Max(At(s.history.announced, t), At(p.made, t))),
         processes := s.processes[id := Announcing(p.made, p.todo - {t})])
  }

  function Do(s: System, step: Step): System {
    match step
    case Read(id, tags, hash, clock) => DoRead(s, id, tags, hash, clock)
    case Install(id, t) => DoInstall(s, id, t)
    case Lookup(id) => DoLookup(s, id)
    case Compute(id) => DoCompute(s, id)
    case Store(id) => DoStore(s, id)
    case Bypass(id) => DoBypass(s, id)
    case Change(id, tags) => DoChange(s, id, tags)
    case Mint(id, now) => DoMint(s, id, now)
    case Announce(id, t) => DoAnnounce(s, id, t)
    case VersionExpires(t) => s.(versions := s.versions - {t})
    case EntryExpires(key) => s.(entries := s.entries - {key})
  }

  function Run(s: System, steps: seq<Step>): System
    decreases |steps|
  {
    if steps == [] then s else Run(Do(s, steps[0]), steps[1..])
  }

  ghost predicate NeverReused(minted: multiset<(Tag, Token)>) {
    forall x :: minted[x] <= 1
  }

  /** A served reader has the answer to its own query, no older than what was announced when it read the versions. */
  ghost predicate ServedFresh(p: Process) {
    p.Served? ==> p.response.hash == p.hash && forall t :: t in p.seen ==> p.seen[t] <= At(p.response.asOf, t)
  }

  ghost predicate AllFresh(s: System) {
    forall id :: id in s.processes ==> ServedFresh(s.processes[id])
  }

  // ---- The invariant of runs that never reuse a token.

  function Todo(p: Process): map<Tag, Token> {
    match p
    case Reading(_, todo, _, _) => todo
    case Announcing(_, todo) => todo
    case _ => map[]
  }

  ghost predicate Promised(h: History, t: Tag, v: Token) {
    (t, v) in h.minted && (t, v) !in h.installed
  }

  /** The token was installed after what the reader saw announced. */
  ghost predicate Settled(h: History, versions: map<Tag, Token>, seen: map<Tag, nat>, t: Tag)
    requires t in versions && t in seen
  {
    (t, versions[t]) in h.installed && seen[t] <= h.installed[(t, versions[t])]
  }

  ghost predicate Covers(h: History, versions: map<Tag, Token>, asOf: map<Tag, nat>) {
    forall t :: t in versions ==> (t, versions[t]) in h.installed && h.installed[(t, versions[t])] <= At(asOf, t)
  }

  ghost predicate GoodReader(h: History, versions: map<Tag, Token>, todo: map<Tag, Token>, seen: map<Tag, nat>) {
    && versions.Keys == seen.Keys
    && (forall t :: t in todo ==> t in versions && versions[t] == todo[t] && seen[t] <= At(h.announced, t))
    && (forall t :: t in versions && t !in todo ==> Settled(h, versions, seen, t))
  }

  ghost predicate GoodProcess(h: History, p: Process) {
    match p
    case Reading(versions, todo, _, seen) => GoodReader(h, versions, todo, seen)
    case Missed(versions, _, seen) => GoodReader(h, versions, map[], seen)
    case Computed(versions, hash, seen, response) =>
      GoodReader(h, versions, map[], seen) && Covers(h, versions, response.asOf) && response.hash == hash
    case Served(_, _, _) => ServedFresh(p)
    case Changed(made) => AtMost(made, h.changes)
    case Announcing(made, _) => AtMost(made, h.changes)
  }

  ghost predicate AtMost(a: map<Tag, nat>, b: map<Tag, nat>) {
    forall t :: At(a, t) <= At(b, t)
  }

  ghost predicate GoodProcesses(h: History, processes: map<nat, Process>) {
    forall id :: id in processes ==> GoodProcess(h, processes[id])
  }

  ghost predicate GoodVersions(h: History, versions: map<Tag, Token>) {
    forall t :: t in versions ==> (t, versions[t]) in h.installed && h.installed[(t, versions[t])] == At(h.announced, t)
  }

  ghost predicate GoodEntries(h: History, entries: map<Key, Response>) {
    forall k :: k in entries ==> entries[k].hash == k.hash && Covers(h, k.versions, entries[k].asOf)
  }

  ghost predicate GoodHistory(h: History) {
    && (forall x :: x in h.installed ==> x in h.minted && h.installed[x] <= At(h.announced, x.0))
    && AtMost(h.announced, h.changes)
  }

  /** Every promised token is held by one process, which will install it for the first time. */
  ghost predicate HeldOnce(h: History, processes: map<nat, Process>) {
    && (forall id, t :: id in processes && t in Todo(processes[id]) ==> Promised(h, t, Todo(processes[id])[t]))
    && (forall i, j, t :: i in processes && j in processes && i != j
                          && t in Todo(processes[i]) && t in Todo(processes[j]) ==>
                            Todo(processes[i])[t] != Todo(processes[j])[t])
  }

  ghost predicate Good(s: System) {
    && GoodHistory(s.history)
    && GoodVersions(s.history, s.versions)
    && GoodEntries(s.history, s.entries)
    && HeldOnce(s.history, s.processes)
    && GoodProcesses(s.history, s.processes)
  }

  /** Counts only grow, and an installed token keeps what was announced when it was installed. */
  ghost predicate Later(h: History, h': History) {
    && AtMost(h.changes, h'.changes)
    && AtMost(h.announced, h'.announced)
    && forall x :: x in h.installed ==> x in h'.installed && h'.installed[x] == h.installed[x]
  }

  lemma ReaderStays(h: History, h': History, versions: map<Tag, Token>, todo: map<Tag, Token>, seen: map<Tag, nat>)
    requires Later(h, h') && GoodReader(h, versions, todo, seen)
    ensures GoodReader(h', versions, todo, seen)
  {
    forall t | t in todo ensures seen[t] <= At(h'.announced, t) {
      assert At(h.announced, t) <= At(h'.announced, t);
    }
    forall t | t in versions && t !in todo ensures Settled(h', versions, seen, t) {
      assert Settled(h, versions, seen, t);
    }
  }

  lemma AtMostGrows(a: map<Tag, nat>, b: map<Tag, nat>, c: map<Tag, nat>)
    requires AtMost(a, b) && AtMost(b, c)
    ensures AtMost(a, c)
  {
    forall t ensures At(a, t) <= At(c, t) {
      assert At(a, t) <= At(b, t);
    }
  }

  lemma ProcessStays(h: History, h': History, p: Process)
    requires Later(h, h') && GoodProcess(h, p)
    ensures GoodProcess(h', p)
  {
    match p
    case Reading(versions, todo, _, seen) => ReaderStays(h, h', versions, todo, seen);
    case Missed(versions, _, seen) => ReaderStays(h, h', versions, map[], seen);
    case Computed(versions, _, seen, _) => ReaderStays(h, h', versions, map[], seen);
    case Served(_, _, _) =>
    case Changed(made) => AtMostGrows(made, h.changes, h'.changes);
    case Announcing(made, _) => AtMostGrows(made, h.changes, h'.changes);
  }

  /** When one process moves, the others stay good, and so do the stored entries. */
  lemma OneMoves(h: History, h': History, processes: map<nat, Process>, id: nat, p: Process, entries: map<Key, Response>)
    requires Later(h, h') && GoodProcesses(h, processes) && GoodProcess(h', p) && GoodEntries(h, entries)
    ensures GoodProcesses(h', processes[id := p]) && GoodEntries(h', entries)
  {
    var processes' := processes[id := p];
    forall i | i in processes' ensures GoodProcess(h', processes'[i]) {
      if i != id { ProcessStays(h, h', processes[i]); }
    }
    forall k | k in entries ensures Covers(h', k.versions, entries[k].asOf) {
      assert Covers(h, k.versions, entries[k].asOf);
    }
  }

  lemma HeldWhenMinted(h: History, processes: map<nat, Process>, id: nat, p: Process)
    requires GoodHistory(h) && HeldOnce(h, processes) && NeverReused(Minting(h, Todo(p)).minted)
    requires id in processes ==> Todo(processes[id]) == map[]
    ensures HeldOnce(Minting(h, Todo(p)), processes[id := p])
  {
    var h', processes' := Minting(h, Todo(p)), processes[id := p];
    MintsAreNew(h.minted, Todo(p));
    forall i, t | i in processes' && t in Todo(processes'[i]) ensures Promised(h', t, Todo(processes'[i])[t]) {
      if i != id { assert Promised(h, t, Todo(processes[i])[t]); }
    }
    forall i, t | i in processes && i != id && t in Todo(processes[i]) && t in Todo(p)
      ensures Todo(processes[i])[t] != Todo(p)[t]
    {
      assert Promised(h, t, Todo(processes[i])[t]);
    }
  }

  lemma MintsAreNew(minted: multiset<(Tag, Token)>, tokens: map<Tag, Token>)
    requires NeverReused(minted + multiset(Pairs(tokens)))
    ensures forall t :: t in tokens ==> (t, tokens[t]) !in minted && (t, tokens[t]) in minted + multiset(Pairs(tokens))
  {
    forall t | t in tokens ensures (t, tokens[t]) !in minted {
      assert (t, tokens[t]) in Pairs(tokens);
      assert (minted + multiset(Pairs(tokens)))[(t, tokens[t])] <= 1;
    }
  }

  lemma HeldWhenInstalled(h: History, processes: map<nat, Process>, id: nat, p: Process, t: Tag, n: nat)
    requires HeldOnce(h, processes) && id in processes && t in Todo(processes[id])
    requires Todo(p) == Todo(processes[id]) - {t}
    ensures HeldOnce(Installing(h, t, Todo(processes[id])[t], n), processes[id := p])
  {
    var v := Todo(processes[id])[t];
    var h', processes' := Installing(h, t, v, n), processes[id := p];
    forall i, u | i in processes' && u in Todo(processes'[i]) ensures Promised(h', u, Todo(processes'[i])[u]) {
      assert Promised(h, u, Todo(processes[i])[u]);
    }
  }

  /** Installing a promised token for the first time, at a count between the announced and the made changes. */
  lemma InstallingIsGood(h: History, versions: map<Tag, Token>, t: Tag, v: Token, n: nat)
    requires GoodHistory(h) && GoodVersions(h, versions) && Promised(h, t, v)
    requires At(h.announced, t) <= n <= At(h.changes, t)
    ensures Later(h, Installing(h, t, v, n))
    ensures GoodHistory(Installing(h, t, v, n)) && GoodVersions(Installing(h, t, v, n), versions[t := v])
  {
    var h' := Installing(h, t, v, n);
    forall u ensures At(h'.announced, u) <= At(h'.changes, u) {
      assert At(h.announced, u) <= At(h.changes, u);
    }
    forall x | x in h'.installed ensures x in h'.minted && h'.installed[x] <= At(h'.announced, x.0) {
      assert x != (t, v) ==> x in h.installed;
    }
  }

  lemma ReadKeepsGood(s: System, id: nat, tags: set<Tag>, hash: string, clock: map<Tag, Token>)
    requires Good(s) && NeverReused(DoRead(s, id, tags, hash, clock).history.minted)
    ensures Good(DoRead(s, id, tags, hash, clock))
  {
    if id !in s.processes && tags - s.versions.Keys <= clock.Keys {
      var missing := MissingFor(s.versions, tags, clock);
      var seen := SeenOf(s.history.announced, tags);
      var p := Reading(VersionsFor(s.versions, tags, clock), missing, hash, seen);
      var h' := Minting(s.history, missing);
      ReaderBegins(s.history, s.versions, tags, clock);
      HeldWhenMinted(s.history, s.processes, id, p);
      OneMoves(s.history, h', s.processes, id, p, s.entries);
    }
  }

  lemma ReaderBegins(h: History, versions: map<Tag, Token>, tags: set<Tag>, clock: map<Tag, Token>)
    requires GoodVersions(h, versions) && tags - versions.Keys <= clock.Keys
    ensures var missing := MissingFor(versions, tags, clock);
            GoodReader(Minting(h, missing), VersionsFor(versions, tags, clock), missing, SeenOf(h.announced, tags))
  {
    var missing, used := MissingFor(versions, tags, clock), VersionsFor(versions, tags, clock);
    var seen := SeenOf(h.announced, tags);
    forall t | t in used && t !in missing ensures Settled(Minting(h, missing), used, seen, t) {
      assert used[t] == versions[t];
    }
  }

  lemma InstallKeepsGood(s: System, id: nat, t: Tag)
    requires Good(s)
    ensures Good(DoInstall(s, id, t))
  {
    if id in s.processes && s.processes[id].Reading? && t in s.processes[id].todo {
      var h, p := s.history, s.processes[id];
      var n := At(h.announced, t);
      var p' := Reading(p.versions, p.todo - {t}, p.hash, p.seen);
      assert GoodProcess(h, p) && t in Todo(p);
      assert At(h.announced, t) <= At(h.changes, t);
      InstallingIsGood(h, s.versions, t, p.todo[t], n);
      HeldWhenInstalled(h, s.processes, id, p', t, n);
      ReaderInstalls(h, p.versions, p.todo, p.seen, t, n);
      OneMoves(h, Installing(h, t, p.todo[t], n), s.processes, id, p', s.entries);
    }
  }

  lemma ReaderInstalls(h: History, versions: map<Tag, Token>, todo: map<Tag, Token>, seen: map<Tag, nat>, t: Tag, n: nat)
    requires GoodReader(h, versions, todo, seen) && t in todo && At(h.announced, t) <= n
    requires Later(h, Installing(h, t, todo[t], n))
    ensures GoodReader(Installing(h, t, todo[t], n), versions, todo - {t}, seen)
  {
    var h' := Installing(h, t, todo[t], n);
    ReaderStays(h, h', versions, todo, seen);
    assert Settled(h', versions, seen, t);
  }

  lemma AnnounceKeepsGood(s: System, id: nat, t: Tag)
    requires Good(s)
    ensures Good(DoAnnounce(s, id, t))
  {
    if id in s.processes && s.processes[id].Announcing? && t in s.processes[id].todo {
      var p := s.processes[id];
      AnnouncingIsGood(s.history, s.versions, s.processes, id, p.made, p.todo, t, s.entries);
    }
  }

  lemma AnnouncingIsGood(h: History, versions: map<Tag, Token>, processes: map<nat, Process>, id: nat,
                         made: map<Tag, nat>, todo: map<Tag, Token>, t: Tag, entries: map<Key, Response>)
    requires GoodHistory(h) && GoodVersions(h, versions) && GoodEntries(h, entries)
    requires HeldOnce(h, processes) && GoodProcesses(h, processes)
    requires id in processes && processes[id] == Announcing(made, todo) && t in todo
    ensures var h' := Installing(h, t, todo[t], Max(At(h.announced, t), At(made, t)));
            var processes' := processes[id := Announcing(made, todo - {t})];
            && GoodHistory(h') && GoodVersions(h', versions[t := todo[t]]) && GoodEntries(h', entries)
            && HeldOnce(h', processes') && GoodProcesses(h', processes')
  {
    assert GoodProcess(h, processes[id]);
    assert t in Todo(processes[id]);
    assert At(h.announced, t) <= At(h.changes, t) && At(made, t) <= At(h.changes, t);
    var n := Max(At(h.announced, t), At(made, t));
    InstallingIsGood(h, versions, t, todo[t], n);
    HeldWhenInstalled(h, processes, id, Announcing(made, todo - {t}), t, n);
    OneMoves(h, Installing(h, t, todo[t], n), processes, id, Announcing(made, todo - {t}), entries);
  }

  lemma ChangeKeepsGood(s: System, id: nat, tags: set<Tag>)
    requires Good(s)
    ensures Good(DoChange(s, id, tags))
  {
    if id !in s.processes {
      var h := s.history;
      var made := NextOf(h.changes, tags);
      var h' := h.(changes := h.changes + made);
      assert AtMost(h.changes, h'.changes);
      AtMostGrows(h.announced, h.changes, h'.changes);
      OneMoves(h, h', s.processes, id, Changed(made), s.entries);
      HeldWhenNone(h, h', s.processes, id, Changed(made));
    }
  }

  lemma HeldWhenNone(h: History, h': History, processes: map<nat, Process>, id: nat, p: Process)
    requires HeldOnce(h, processes) && Todo(p) == map[] && h'.minted == h.minted && h'.installed == h.installed
    ensures HeldOnce(h', processes[id := p])
  {
    var processes' := processes[id := p];
    forall i, t | i in processes' && t in Todo(processes'[i]) ensures Promised(h', t, Todo(processes'[i])[t]) {
      assert Promised(h, t, Todo(processes[i])[t]);
    }
  }

  lemma MintKeepsGood(s: System, id: nat, now: Token)
    requires Good(s) && NeverReused(DoMint(s, id, now).history.minted)
    ensures Good(DoMint(s, id, now))
  {
    if id in s.processes && s.processes[id].Changed? {
      var made := s.processes[id].made;
      assert GoodProcess(s.history, s.processes[id]);
      var todo := AllTo(made.Keys, now);
      HeldWhenMinted(s.history, s.processes, id, Announcing(made, todo));
      OneMoves(s.history, Minting(s.history, todo), s.processes, id, Announcing(made, todo), s.entries);
    }
  }

  /** A handler that runs now covers every installed token. */
  lemma ComputedNow(h: History, versions: map<Tag, Token>, todo: map<Tag, Token>, seen: map<Tag, nat>)
    requires GoodHistory(h) && GoodReader(h, versions, todo, seen)
    ensures todo == map[] ==> Covers(h, versions, h.changes)
    ensures forall t :: t in seen ==> seen[t] <= At(h.changes, t)
  {
    forall t | t in versions
      ensures seen[t] <= At(h.changes, t)
      ensures t !in todo ==> (t, versions[t]) in h.installed && h.installed[(t, versions[t])] <= At(h.changes, t)
    {
      assert At(h.announced, t) <= At(h.changes, t);
      if t !in todo { assert Settled(h, versions, seen, t); }
    }
  }

  lemma CoveredIsFresh(h: History, versions: map<Tag, Token>, seen: map<Tag, nat>, asOf: map<Tag, nat>)
    requires GoodReader(h, versions, map[], seen) && Covers(h, versions, asOf)
    ensures forall t :: t in seen ==> seen[t] <= At(asOf, t)
  {
    forall t | t in seen ensures seen[t] <= At(asOf, t) {
      assert Settled(h, versions, seen, t);
    }
  }

  /** The four steps of a reader that touch no token. */
  lemma ReaderKeepsGood(s: System, step: Step)
    requires Good(s) && (step.Lookup? || step.Compute? || step.Store? || step.Bypass?)
    ensures Good(Do(s, step))
  {
    var s', h := Do(s, step), s.history;
    if step.id !in s.processes || s' == s { return; }
    var p := s.processes[step.id];
    assert GoodProcess(h, p);
    match step {
      case Lookup(id) =>
        var key := Key(p.versions, p.hash);
        if key in s.entries { CoveredIsFresh(h, p.versions, p.seen, s.entries[key].asOf); }
      case Compute(id) => ComputedNow(h, p.versions, map[], p.seen);
      case Store(id) => CoveredIsFresh(h, p.versions, p.seen, p.response.asOf);
      case Bypass(id) => ComputedNow(h, p.versions, if p.Reading? then p.todo else map[], p.seen);
    }
    OneMoves(h, h, s.processes, step.id, s'.processes[step.id], s'.entries);
    HeldWhenNone(h, h, s.processes, step.id, s'.processes[step.id]);
  }

  lemma StepKeepsGood(s: System, step: Step)
    requires Good(s) && NeverReused(Do(s, step).history.minted)
    ensures Good(Do(s, step))
  {
    match step
    case Read(id, tags, hash, clock) => ReadKeepsGood(s, id, tags, hash, clock);
    case Install(id, t) => InstallKeepsGood(s, id, t);
    case Lookup(_) => ReaderKeepsGood(s, step);
    case Compute(_) => ReaderKeepsGood(s, step);
    case Store(_) => ReaderKeepsGood(s, step);
    case Bypass(_) => ReaderKeepsGood(s, step);
    case Change(id, tags) => ChangeKeepsGood(s, id, tags);
    case Mint(id, now) => MintKeepsGood(s, id, now);
    case Announce(id, t) => AnnounceKeepsGood(s, id, t);
    case VersionExpires(_) =>
    case EntryExpires(_) =>
  }

  lemma {:induction false} MintedGrows(s: System, steps: seq<Step>)
    ensures s.history.minted <= Run(s, steps).history.minted
    decreases |steps|
  {
    if steps != [] {
      assert s.history.minted <= Do(s, steps[0]).history.minted;
      MintedGrows(Do(s, steps[0]), steps[1..]);
    }
  }

  lemma {:induction false} RunKeepsGood(s: System, steps: seq<Step>)
    requires Good(s) && NeverReused(Run(s, steps).history.minted)
    ensures Good(Run(s, steps))
    decreases |steps|
  {
    if steps != [] {
      var next := Do(s, steps[0]);
      MintedGrows(next, steps[1..]);
      assert NeverReused(next.history.minted) by {
        var last := Run(next, steps[1..]).history.minted;
        forall x ensures next.history.minted[x] <= 1 {
          assert next.history.minted[x] <= last[x];
        }
      }
      StepKeepsGood(s, steps[0]);
      RunKeepsGood(next, steps[1..]);
    }
  }

  lemma {:induction false} RunAppend(s: System, a: seq<Step>, b: seq<Step>)
    ensures Run(s, a + b) == Run(Run(s, a), b)
    decreases |a|
  {
    if a == [] {
      assert a + b == b;
    } else {
      assert (a + b)[1..] == a[1..] + b;
      RunAppend(Do(s, a[0]), a[1..], b);
    }
  }

  // ---- The main results.

  /** While no token is minted twice for a tag, every answer is at least as new as what was announced at the read. */
  lemma RunStaysFresh(steps: seq<Step>)
    requires NeverReused(Run(Empty, steps).history.minted)
    ensures AllFresh(Run(Empty, steps))
  {
    RunKeepsGood(Empty, steps);
    var s := Run(Empty, steps);
    forall id | id in s.processes ensures ServedFresh(s.processes[id]) {
      assert GoodProcess(s.history, s.processes[id]);
    }
  }

  /** Each process keeps its id, and a reader keeps its query and what it saw. */
  ghost predicate Continues(p: Process, q: Process) {
    && (p.Served? ==> q == p)
    && (!p.Changed? && !p.Announcing? ==> !q.Changed? && !q.Announcing? && q.hash == p.hash && q.seen == p.seen)
  }

  lemma StepContinues(s: System, step: Step, id: nat, t: Tag)
    ensures id in s.processes ==> id in Do(s, step).processes && Continues(s.processes[id], Do(s, step).processes[id])
    ensures At(s.history.announced, t) <= At(Do(s, step).history.announced, t)
  {
    match step
    case Read(_, _, _, _) =>
    case Install(_, _) =>
    case Lookup(_) =>
    case Compute(_) =>
    case Store(_) =>
    case Bypass(_) =>
    case Change(_, _) =>
    case Mint(_, _) =>
    case Announce(_, _) =>
    case VersionExpires(_) =>
    case EntryExpires(_) =>
  }

  lemma {:induction false} ProcessesContinue(s: System, steps: seq<Step>, id: nat, t: Tag)
    ensures id in s.processes ==> id in Run(s, steps).processes
                                  && Continues(s.processes[id], Run(s, steps).processes[id])
    ensures At(s.history.announced, t) <= At(Run(s, steps).history.announced, t)
    decreases |steps|
  {
    if steps != [] {
      var next := Do(s, steps[0]);
      StepContinues(s, steps[0], id, t);
      ProcessesContinue(next, steps[1..], id, t);
    }
  }

  /** A reader that begins after a writer's announcement of a tag gets an answer computed after that writer's change. */
  lemma ReadersSeeAnnouncedChanges(before: seq<Step>, writer: nat, t: Tag, between: seq<Step>,
                                   reader: nat, tags: set<Tag>, hash: string, clock: map<Tag, Token>, after: seq<Step>)
    requires var s := Run(Empty, before);
             writer in s.processes && s.processes[writer].Announcing? && t in s.processes[writer].todo
    requires t in tags
    requires var s := Run(Empty, before + [Announce(writer, t)] + between);
             reader !in s.processes && tags - s.versions.Keys <= clock.Keys
    requires var steps := before + [Announce(writer, t)] + between + [Read(reader, tags, hash, clock)] + after;
             NeverReused(Run(Empty, steps).history.minted)
    ensures var steps := before + [Announce(writer, t)] + between + [Read(reader, tags, hash, clock)] + after;
            && reader in Run(Empty, steps).processes
            && var p := Run(Empty, steps).processes[reader];
               p.Served? ==> p.response.hash == hash
                             && At(Run(Empty, before).processes[writer].made, t) <= At(p.response.asOf, t)
  {
    var s0 := Run(Empty, before);
    RunAppend(Empty, before, [Announce(writer, t)]);
    var s1 := Do(s0, Announce(writer, t));
    assert Run(s0, [Announce(writer, t)]) == s1;
    RunAppend(Empty, before + [Announce(writer, t)], between);
    var s2 := Run(s1, between);
    ProcessesContinue(s1, between, reader, t);
    RunAppend(Empty, before + [Announce(writer, t)] + between, [Read(reader, tags, hash, clock)]);
    var s3 := Do(s2, Read(reader, tags, hash, clock));
    assert Run(s2, [Read(reader, tags, hash, clock)]) == s3;
    RunAppend(Empty, before + [Announce(writer, t)] + between + [Read(reader, tags, hash, clock)], after);
    ProcessesContinue(s3, after, reader, t);
    var steps := before + [Announce(writer, t)] + between + [Read(reader, tags, hash, clock)] + after;
    RunStaysFresh(steps);
    assert ServedFresh(Run(Empty, steps).processes[reader]);
    assert s3.processes[reader].seen[t] == At(s2.history.announced, t);
  }

  // ---- Exactly when: a token minted twice for a tag lets some run serve a stale answer.

  function Writing(id: nat, x: (Tag, Token)): seq<Step> {
    [Change(id, {x.0}), Mint(id, x.1), Announce(id, x.0)]
  }

  /** The token is minted, an answer is stored under it, it is minted again, and a second reader finds that answer. */
  function StaleRun(x: (Tag, Token)): seq<Step> {
    Writing(0, x) + [Read(1, {x.0}, "", map[]), Lookup(1), Compute(1), Store(1)]
    + Writing(2, x) + [Read(3, {x.0}, "", map[]), Lookup(3)]
  }

  function Written(s: System, id: nat, x: (Tag, Token)): System {
    DoAnnounce(DoMint(DoChange(s, id, {x.0}), id, x.1), id, x.0)
  }

  ghost predicate WroteOne(s: System, s': System, id: nat, x: (Tag, Token)) {
    && id in s'.processes && s'.processes == s.processes[id := s'.processes[id]]
    && s'.versions == s.versions[x.0 := x.1] && s'.entries == s.entries
    && s'.history.minted == s.history.minted + multiset{x}
    && At(s'.history.changes, x.0) == At(s.history.changes, x.0) + 1
    && At(s'.history.announced, x.0) == Max(At(s.history.announced, x.0), At(s.history.changes, x.0) + 1)
  }

  lemma Wrote(s: System, id: nat, x: (Tag, Token))
    requires id !in s.processes
    ensures WroteOne(s, Run(s, Writing(id, x)), id, x)
  {
    WritingSteps(s, id, x);
    WrittenIsOne(s, id, x);
  }

  lemma WrittenIsOne(s: System, id: nat, x: (Tag, Token))
    requires id !in s.processes
    ensures WroteOne(s, Written(s, id, x), id, x)
  {
    var n := At(s.history.changes, x.0) + 1;
    ChangedOne(s, id, x.0);
    var s1 := DoChange(s, id, {x.0});
    MintedOne(s1, id, x, n);
    AnnouncedOne(DoMint(s1, id, x.1), id, x, n);
    MovedTwice(s.processes, id, Changed(map[x.0 := n]), Announcing(map[x.0 := n], map[x.0 := x.1]));
    MovedTwice(s.processes, id, Announcing(map[x.0 := n], map[x.0 := x.1]), Announcing(map[x.0 := n], map[]));
  }

  lemma MovedTwice(processes: map<nat, Process>, id: nat, p: Process, q: Process)
    ensures processes[id := p][id := q] == processes[id := q]
  {
  }

  lemma ChangedOne(s: System, id: nat, t: Tag)
    requires id !in s.processes
    ensures var made := map[t := At(s.history.changes, t) + 1];
            DoChange(s, id, {t}) == s.(history := s.history.(changes := s.history.changes + made),
                                       processes := s.processes[id := Changed(made)])
  {
    assert NextOf(s.history.changes, {t}) == map[t := At(s.history.changes, t) + 1];
  }

  lemma MintedOne(s: System, id: nat, x: (Tag, Token), n: nat)
    requires id in s.processes && s.processes[id] == Changed(map[x.0 := n])
    ensures DoMint(s, id, x.1) ==
            s.(history := s.history.(minted := s.history.minted + multiset{x}),
               processes := s.processes[id := Announcing(map[x.0 := n], map[x.0 := x.1])])
  {
    assert AllTo(map[x.0 := n].Keys, x.1) == map[x.0 := x.1];
    PairsOfOne(x);
  }

  lemma AnnouncedOne(s: System, id: nat, x: (Tag, Token), n: nat)
    requires id in s.processes && s.processes[id] == Announcing(map[x.0 := n], map[x.0 := x.1])
    ensures DoAnnounce(s, id, x.0) ==
            s.(versions := s.versions[x.0 := x.1],
               history := Installing(s.history, x.0, x.1, Max(At(s.history.announced, x.0), n)),
               processes := s.processes[id := Announcing(map[x.0 := n], map[])])
  {
    assert map[x.0 := x.1] - {x.0} == map[];
  }

  lemma PairsOfOne(x: (Tag, Token))
    ensures Pairs(map[x.0 := x.1]) == {x}
  {
    forall y ensures y in Pairs(map[x.0 := x.1]) <==> y == x {
      assert x.0 in map[x.0 := x.1] && x == (x.0, x.1);
      assert y in Pairs(map[x.0 := x.1]) <==> y == (x.0, x.1);
    }
  }

  lemma RunThree(s: System, a: Step, b: Step, c: Step)
    ensures Run(s, [a, b, c]) == Do(Do(Do(s, a), b), c)
  {
    var (s1, s2) := (Do(s, a), Do(Do(s, a), b));
    assert [a, b, c][1..] == [b, c] && [b, c][1..] == [c] && [c][1..] == [];
    assert Run(s2, [c]) == Run(Do(s2, c), []);
    assert Run(s1, [b, c]) == Run(s2, [c]);
  }

  lemma WritingSteps(s: System, id: nat, x: (Tag, Token))
    ensures Run(s, Writing(id, x)) == Written(s, id, x)
  {
    RunThree(s, Change(id, {x.0}), Mint(id, x.1), Announce(id, x.0));
  }

  /** A reader that finds the only version and no entry computes an answer now and stores it under that version. */
  lemma Filled(s: System, id: nat, x: (Tag, Token))
    requires id !in s.processes && x.0 in s.versions && s.versions[x.0] == x.1
    requires Key(map[x.0 := x.1], "") !in s.entries
    ensures var s' := Run(s, [Read(id, {x.0}, "", map[]), Lookup(id), Compute(id), Store(id)]);
            && id in s'.processes && s'.processes == s.processes[id := s'.processes[id]]
            && s'.versions == s.versions && s'.history == s.history
            && s'.entries == s.entries[Key(map[x.0 := x.1], "") := Response("", s.history.changes)]
  {
    var read, rest := Read(id, {x.0}, "", map[]), [Lookup(id), Compute(id), Store(id)];
    var seen := map[x.0 := At(s.history.announced, x.0)];
    ReadOfOne(s, id, x);
    var s1 := DoRead(s, id, {x.0}, "", map[]);
    assert [read, Lookup(id), Compute(id), Store(id)][1..] == rest;
    assert Run(s, [read, Lookup(id), Compute(id), Store(id)]) == Run(s1, rest);
    Missing(s1, id);
    MovedTwice(s.processes, id, s1.processes[id], Served("", seen, Response("", s.history.changes)));
  }

  /** A reader without tokens to install that finds no entry: its handler answers now, and the answer is stored. */
  lemma Missing(s: System, id: nat)
    requires id in s.processes && s.processes[id].Reading? && s.processes[id].todo == map[]
    requires Key(s.processes[id].versions, s.processes[id].hash) !in s.entries
    ensures var p := s.processes[id];
            var response := Response(p.hash, s.history.changes);
            Run(s, [Lookup(id), Compute(id), Store(id)]) ==
            s.(entries := s.entries[Key(p.versions, p.hash) := response],
               processes := s.processes[id := Served(p.hash, p.seen, response)])
  {
    var p := s.processes[id];
    var response := Response(p.hash, s.history.changes);
    RunThree(s, Lookup(id), Compute(id), Store(id));
    var s1 := s.(processes := s.processes[id := Missed(p.versions, p.hash, p.seen)]);
    assert DoLookup(s, id) == s1;
    MovedTwice(s.processes, id, Missed(p.versions, p.hash, p.seen), Computed(p.versions, p.hash, p.seen, response));
    var s2 := s.(processes := s.processes[id := Computed(p.versions, p.hash, p.seen, response)]);
    assert DoCompute(s1, id) == s2;
    MovedTwice(s.processes, id, Computed(p.versions, p.hash, p.seen, response), Served(p.hash, p.seen, response));
  }

  lemma ReadOfOne(s: System, id: nat, x: (Tag, Token))
    requires id !in s.processes && x.0 in s.versions && s.versions[x.0] == x.1
    ensures DoRead(s, id, {x.0}, "", map[]) == s.(processes := s.processes[id :=
              Reading(map[x.0 := x.1], map[], "", map[x.0 := At(s.history.announced, x.0)])])
  {
    var none: map<Tag, Token> := map[];
    assert {x.0} - s.versions.Keys == {} == none.Keys;
    assert MissingFor(s.versions, {x.0}, none) == none;
    assert VersionsFor(s.versions, {x.0}, none) == map[x.0 := x.1];
    assert SeenOf(s.history.announced, {x.0}) == map[x.0 := At(s.history.announced, x.0)];
    assert Pairs(none) == {};
    assert Minting(s.history, none) == s.history;
  }

  /** A reader that finds an entry under the version it read is served that entry. */
  lemma Hit(s: System, id: nat, x: (Tag, Token))
    requires id !in s.processes && x.0 in s.versions && s.versions[x.0] == x.1
    requires Key(map[x.0 := x.1], "") in s.entries
    ensures Run(s, [Read(id, {x.0}, "", map[]), Lookup(id)]) == s.(processes := s.processes[id :=
              Served("", map[x.0 := At(s.history.announced, x.0)], s.entries[Key(map[x.0 := x.1], "")])])
  {
    ReadOfOne(s, id, x);
    var steps := [Read(id, {x.0}, "", map[]), Lookup(id)];
    var s1 := Do(s, steps[0]);
    assert steps[1..] == [Lookup(id)];
    assert Run(s1, [Lookup(id)]) == Do(s1, Lookup(id));
  }

  lemma StaleRunIsStale(x: (Tag, Token))
    ensures var s := Run(Empty, StaleRun(x));
            && s.history.minted == multiset{x, x} && s.processes.Keys == {0, 1, 2, 3}
            && !ServedFresh(s.processes[3])
  {
    var fill := [Read(1, {x.0}, "", map[]), Lookup(1), Compute(1), Store(1)];
    var a := Run(Empty, Writing(0, x));
    Wrote(Empty, 0, x);
    RunAppend(Empty, Writing(0, x), fill);
    Filled(a, 1, x);
    StaleAfter(Run(a, fill), x, a.history.changes);
    RunAppend(Empty, Writing(0, x) + fill, StaleEnd(x));
    assert StaleRun(x) == Writing(0, x) + fill + StaleEnd(x);
  }

  function StaleEnd(x: (Tag, Token)): seq<Step> {
    Writing(2, x) + [Read(3, {x.0}, "", map[]), Lookup(3)]
  }

  lemma StaleAfter(s: System, x: (Tag, Token), asOf: map<Tag, nat>)
    requires s.processes.Keys == {0, 1} && Key(map[x.0 := x.1], "") in s.entries
    requires s.entries[Key(map[x.0 := x.1], "")].asOf == asOf && At(asOf, x.0) <= At(s.history.changes, x.0)
    ensures var s' := Run(s, StaleEnd(x));
            && s'.history.minted == s.history.minted + multiset{x} && s'.processes.Keys == {0, 1, 2, 3}
            && !ServedFresh(s'.processes[3])
  {
    Wrote(s, 2, x);
    var c := Run(s, Writing(2, x));
    Hit(c, 3, x);
    RunAppend(s, Writing(2, x), [Read(3, {x.0}, "", map[]), Lookup(3)]);
    var seen := map[x.0 := At(c.history.announced, x.0)];
    assert x.0 in seen && At(asOf, x.0) < seen[x.0];
  }

  ghost function WriteAll(id: nat, tokens: multiset<(Tag, Token)>): seq<Step>
    decreases |tokens|
  {
    if tokens == multiset{} then [] else
      var x :| x in tokens;
      Writing(id, x) + WriteAll(id + 1, tokens - multiset{x})
  }

  ghost predicate Grew(s: System, s': System, tokens: multiset<(Tag, Token)>) {
    && s'.history.minted == s.history.minted + tokens
    && forall i :: i in s.processes ==> i in s'.processes && s'.processes[i] == s.processes[i]
  }

  lemma {:induction false} WroteAll(s: System, id: nat, tokens: multiset<(Tag, Token)>)
    requires forall i :: i in s.processes ==> i < id
    ensures Grew(s, Run(s, WriteAll(id, tokens)), tokens)
    decreases |tokens|
  {
    if tokens != multiset{} {
      var x :| x in tokens && WriteAll(id, tokens) == Writing(id, x) + WriteAll(id + 1, tokens - multiset{x});
      var s1, rest := Run(s, Writing(id, x)), WriteAll(id + 1, tokens - multiset{x});
      RunAppend(s, Writing(id, x), rest);
      WroteBefore(s, s1, id, x);
      WroteAll(s1, id + 1, tokens - multiset{x});
      AddedUp(s.history.minted, tokens, x);
    }
  }

  lemma WroteBefore(s: System, s1: System, id: nat, x: (Tag, Token))
    requires s1 == Run(s, Writing(id, x)) && forall i :: i in s.processes ==> i < id
    ensures Grew(s, s1, multiset{x}) && forall i :: i in s1.processes ==> i < id + 1
  {
    Wrote(s, id, x);
  }

  lemma AddedUp(minted: multiset<(Tag, Token)>, tokens: multiset<(Tag, Token)>, x: (Tag, Token))
    requires x in tokens
    ensures minted + multiset{x} + (tokens - multiset{x}) == minted + tokens
  {
  }

  ghost predicate AlwaysFresh(tokens: multiset<(Tag, Token)>) {
    forall steps :: Run(Empty, steps).history.minted == tokens ==> AllFresh(Run(Empty, steps))
  }

  lemma ReusedHasStaleRun(tokens: multiset<(Tag, Token)>, x: (Tag, Token)) returns (steps: seq<Step>)
    requires tokens[x] > 1
    ensures Run(Empty, steps).history.minted == tokens && !AllFresh(Run(Empty, steps))
  {
    var rest := tokens - multiset{x, x};
    steps := StaleRun(x) + WriteAll(4, rest);
    StaleRunIsStale(x);
    var s := Run(Empty, StaleRun(x));
    WroteAll(s, 4, rest);
    RunAppend(Empty, StaleRun(x), WriteAll(4, rest));
    assert multiset{x, x} + rest == tokens;
    assert 3 in s.processes && !ServedFresh(s.processes[3]);
  }

  /** Whatever tokens are minted, every run with these tokens is fresh exactly when none is minted twice for a tag. */
  lemma FreshIffNeverReused(tokens: multiset<(Tag, Token)>)
    ensures AlwaysFresh(tokens) <==> NeverReused(tokens)
  {
    if NeverReused(tokens) {
      forall steps | Run(Empty, steps).history.minted == tokens ensures AllFresh(Run(Empty, steps)) {
        RunStaysFresh(steps);
      }
    } else {
      var x :| tokens[x] > 1;
      var steps := ReusedHasStaleRun(tokens, x);
    }
  }
}

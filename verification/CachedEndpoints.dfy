/** The wrappers around handlers, uninterrupted: each call is a run of the response-cache machine. */
module CachedEndpoints {
  import opened ResponseCache

  function TagSet(tagList: seq<Tag>): set<Tag> {
    set t | t in tagList
  }

  /** A handler answers, refuses with a service exception, or fails in any other way. */
  datatype Handled = Answers(response: Response) | Refuses | Crashes

  class HttpCache {
    var versions: map<Tag, Token>
    var entries: map<Key, Response>

    constructor ()
      ensures versions == map[] && entries == map[]
    {
      versions, entries := map[], map[];
    }

    /** The versions found, and one reading of the clock for each tag without a version. */
    method CollectVersions(tagList: seq<Tag>, clock: seq<Token>) returns (tagsVersions: map<Tag, Token>, missing: map<Tag, Token>)
      requires |clock| == |tagList|
      ensures missing.Keys == TagSet(tagList) - versions.Keys
      ensures missing == MissingFor(versions, TagSet(tagList), missing)
      ensures tagsVersions == VersionsFor(versions, TagSet(tagList), missing)
      ensures forall t :: t in missing ==> exists i :: 0 <= i < |tagList| && tagList[i] == t && missing[t] == clock[i]
    {
      tagsVersions, missing := map[], map[];
      for i := 0 to |tagList|
        invariant tagsVersions.Keys == TagSet(tagList[..i]) && missing.Keys == tagsVersions.Keys - versions.Keys
        invariant forall t :: t in tagsVersions ==> tagsVersions[t] == if t in versions then versions[t] else missing[t]
        invariant forall t :: t in missing ==> exists j :: 0 <= j < i && tagList[j] == t && missing[t] == clock[j]
      {
        var tag := tagList[i];
        assert tagList[..i + 1] == tagList[..i] + [tag];
        var version;
        if tag in versions {
          version := versions[tag];
        } else {
          version := clock[i];
          missing := missing[tag := version];
        }
        tagsVersions := tagsVersions[tag := version];
      }
      assert tagList[..|tagList|] == tagList;
    }

    /**
     * A request through `cached_endpoint`, where `computed` is what the handler does now, and `again` what it does when
     * it is called a second time: the answer stored under the versions in use, or else the handler's, which is then
     * stored. A service exception is passed on; after any other one the handler is called again, past the cache.
     */
    method Request(tagList: seq<Tag>, hash: string, clock: seq<Token>, computed: Handled, again: Handled,
                   ghost s: System, ghost id: nat)
      returns (result: Handled, ghost used: map<Tag, Token>)
      requires |clock| == |tagList|
      requires s.versions == versions && s.entries == entries && id !in s.processes
      requires computed.Answers? ==> computed.response == Response(hash, s.history.changes)
      requires again.Answers? ==> again.response == Response(hash, s.history.changes)
      modifies this
      ensures used.Keys == TagSet(tagList) && forall t :: t in used && t in old(versions) ==> used[t] == old(versions)[t]
      ensures versions == old(versions) + used
      ensures result == if Key(used, hash) in old(entries) then Answers(old(entries)[Key(used, hash)])
                        else if computed.Crashes? then again else computed
      ensures entries == if Key(used, hash) !in old(entries) && computed.Answers?
                         then old(entries)[Key(used, hash) := computed.response] else old(entries)
      ensures result.Answers? ==> Becomes(s, versions, entries, id, hash, result.response)
    {
      var tagsVersions, missing := CollectVersions(tagList, clock);
      used := tagsVersions;
      versions := versions + missing;
      var key := Key(tagsVersions, hash);
      RequestRuns(s, id, TagSet(tagList), hash, missing);
      if key in entries {
        assert entries[key := entries[key]] == entries;
        return Answers(entries[key]), used;
      }
      if computed.Crashes? {
        RetryRuns(s, id, TagSet(tagList), hash, missing);
        return again, used;
      }
      if computed.Answers? {
        entries := entries[key := computed.response];
      }
      result := computed;
    }

    /**
     * `invalidates_cache`, after the handler made its change: one reading of the clock is the version of every tag,
     * and with that the change is announced.
     */
    method Invalidate(tagList: seq<Tag>, now: Token, ghost s: System, ghost id: nat)
      requires s.versions == versions && id in s.processes && s.processes[id].Changed?
      requires s.processes[id].made.Keys == TagSet(tagList)
      modifies this`versions
      ensures versions == old(versions) + AllTo(TagSet(tagList), now)
      ensures Announces(s, versions, s.processes[id].made)
    {
      var updates: map<Tag, Token> := map[];
      for i := 0 to |tagList|
        invariant updates == AllTo(TagSet(tagList[..i]), now)
      {
        assert tagList[..i + 1] == tagList[..i] + [tagList[i]];
        updates := updates[tagList[i] := now];
      }
      assert tagList[..|tagList|] == tagList;
      versions := versions + updates;
      InvalidationRuns(s, id, now);
    }
  }

  /** Some steps of the machine serve the process this response and leave the cache so. */
  ghost predicate Becomes(s: System, versions: map<Tag, Token>, entries: map<Key, Response>, id: nat, hash: string,
                          response: Response)
  {
    exists steps :: BecomesBy(Run(s, steps), versions, entries, id, hash, response)
  }

  ghost predicate BecomesBy(s: System, versions: map<Tag, Token>, entries: map<Key, Response>, id: nat, hash: string,
                            response: Response)
  {
    && s.versions == versions && s.entries == entries
    && id in s.processes && s.processes[id].Served?
    && s.processes[id].hash == hash && s.processes[id].response == response
  }

  ghost function InstallSteps(id: nat, tags: set<Tag>): seq<Step> {
    if tags == {} then [] else
      var t :| t in tags;
      [Install(id, t)] + InstallSteps(id, tags - {t})
  }

  lemma SetOneByOne(versions: map<Tag, Token>, todo: map<Tag, Token>, t: Tag)
    requires t in todo
    ensures (todo - {t}).Keys == todo.Keys - {t}
    ensures versions[t := todo[t]] + (todo - {t}) == versions + todo
  {
  }

  ghost predicate ReadAndInstalled(s: System, s': System, id: nat, versions: map<Tag, Token>, todo: map<Tag, Token>,
                                   hash: string, seen: map<Tag, nat>)
  {
    && s'.versions == s.versions + todo && s'.entries == s.entries && s'.history.changes == s.history.changes
    && id in s'.processes && s'.processes[id] == Reading(versions, map[], hash, seen)
  }

  lemma {:induction false} InstalledAll(s: System, id: nat, versions: map<Tag, Token>, todo: map<Tag, Token>, hash: string,
                                        seen: map<Tag, nat>)
    requires id in s.processes && s.processes[id] == Reading(versions, todo, hash, seen)
    ensures ReadAndInstalled(s, Run(s, InstallSteps(id, todo.Keys)), id, versions, todo, hash, seen)
    decreases todo.Keys
  {
    if todo.Keys == {} {
      assert todo == map[];
    } else {
      var t :| t in todo.Keys && InstallSteps(id, todo.Keys) == [Install(id, t)] + InstallSteps(id, todo.Keys - {t});
      var rest := todo - {t};
      var s1 := DoInstall(s, id, t);
      SetOneByOne(s.versions, todo, t);
      InstalledAll(s1, id, versions, rest, hash, seen);
      RunAppend(s, [Install(id, t)], InstallSteps(id, rest.Keys));
      assert Run(s, [Install(id, t)]) == s1;
      var s' := Run(s1, InstallSteps(id, rest.Keys));
      assert ReadAndInstalled(s1, s', id, versions, rest, hash, seen);
    }
  }

  /** A whole request, step by step. */
  lemma RequestRuns(s: System, id: nat, tags: set<Tag>, hash: string, missing: map<Tag, Token>)
    requires id !in s.processes && missing.Keys == tags - s.versions.Keys
    ensures var key, computed := Key(VersionsFor(s.versions, tags, missing), hash), Response(hash, s.history.changes);
            var response := if key in s.entries then s.entries[key] else computed;
            Becomes(s, s.versions + missing, s.entries[key := response], id, hash, response)
  {
    var begin, rest := [Read(id, tags, hash, missing)] + InstallSteps(id, missing.Keys), [Lookup(id), Compute(id), Store(id)];
    var key, computed := Key(VersionsFor(s.versions, tags, missing), hash), Response(hash, s.history.changes);
    var response := if key in s.entries then s.entries[key] else computed;
    Began(s, id, tags, hash, missing);
    RunAppend(s, begin, rest);
    RestRuns(Run(s, begin), id);
    assert BecomesBy(Run(s, begin + rest), s.versions + missing, s.entries[key := response], id, hash, response);
  }

  /** A request that misses and then bypasses the cache. */
  lemma RetryRuns(s: System, id: nat, tags: set<Tag>, hash: string, missing: map<Tag, Token>)
    requires id !in s.processes && missing.Keys == tags - s.versions.Keys
    requires Key(VersionsFor(s.versions, tags, missing), hash) !in s.entries
    ensures Becomes(s, s.versions + missing, s.entries, id, hash, Response(hash, s.history.changes))
  {
    var begin := [Read(id, tags, hash, missing)] + InstallSteps(id, missing.Keys);
    Began(s, id, tags, hash, missing);
    var s2 := Run(s, begin);
    RunAppend(s, begin, [Bypass(id)]);
    assert Run(s2, [Bypass(id)]) == DoBypass(s2, id) by {
      assert [Bypass(id)][1..] == [];
    }
    assert BecomesBy(Run(s, begin + [Bypass(id)]), s.versions + missing, s.entries, id, hash, Response(hash, s.history.changes));
  }

  lemma Began(s: System, id: nat, tags: set<Tag>, hash: string, missing: map<Tag, Token>)
    requires id !in s.processes && missing.Keys == tags - s.versions.Keys
    ensures ReadAndInstalled(s, Run(s, [Read(id, tags, hash, missing)] + InstallSteps(id, missing.Keys)), id,
                             VersionsFor(s.versions, tags, missing), missing, hash, SeenOf(s.history.announced, tags))
  {
    var s1 := DoRead(s, id, tags, hash, missing);
    assert MissingFor(s.versions, tags, missing) == missing;
    RunAppend(s, [Read(id, tags, hash, missing)], InstallSteps(id, missing.Keys));
    assert Run(s, [Read(id, tags, hash, missing)]) == s1;
    InstalledAll(s1, id, VersionsFor(s.versions, tags, missing), missing, hash, SeenOf(s.history.announced, tags));
  }

  lemma RestRuns(s: System, id: nat)
    requires id in s.processes && s.processes[id].Reading? && s.processes[id].todo == map[]
    ensures var p := s.processes[id];
            var key, computed := Key(p.versions, p.hash), Response(p.hash, s.history.changes);
            var response := if key in s.entries then s.entries[key] else computed;
            BecomesBy(Run(s, [Lookup(id), Compute(id), Store(id)]), s.versions, s.entries[key := response],
                      id, p.hash, response)
  {
    var p := s.processes[id];
    if Key(p.versions, p.hash) in s.entries {
      RunThree(s, Lookup(id), Compute(id), Store(id));
      assert s.entries[Key(p.versions, p.hash) := s.entries[Key(p.versions, p.hash)]] == s.entries;
    } else {
      Missing(s, id);
    }
  }

  /** Some steps of the machine leave these versions, with the changes announced and no entry touched. */
  ghost predicate Announces(s: System, versions: map<Tag, Token>, made: map<Tag, nat>) {
    exists steps :: AnnouncedBy(s, Run(s, steps), versions, made)
  }

  ghost predicate AnnouncedBy(s: System, s': System, versions: map<Tag, Token>, made: map<Tag, nat>) {
    && s'.versions == versions && s'.entries == s.entries
    && forall t :: t in made ==> made[t] <= At(s'.history.announced, t)
  }

  ghost function AnnounceSteps(id: nat, tags: set<Tag>): seq<Step> {
    if tags == {} then [] else
      var t :| t in tags;
      [Announce(id, t)] + AnnounceSteps(id, tags - {t})
  }

  lemma {:induction false} AnnouncedAll(s: System, id: nat, made: map<Tag, nat>, todo: map<Tag, Token>)
    requires id in s.processes && s.processes[id] == Announcing(made, todo)
    requires forall t :: t in made && t !in todo ==> made[t] <= At(s.history.announced, t)
    ensures AnnouncedBy(s, Run(s, AnnounceSteps(id, todo.Keys)), s.versions + todo, made)
    decreases todo.Keys
  {
    if todo.Keys == {} {
      assert todo == map[];
    } else {
      var t :| t in todo.Keys && AnnounceSteps(id, todo.Keys) == [Announce(id, t)] + AnnounceSteps(id, todo.Keys - {t});
      var rest := todo - {t};
      var s1 := DoAnnounce(s, id, t);
      SetOneByOne(s.versions, todo, t);
      AnnouncedAll(s1, id, made, rest);
      RunAppend(s, [Announce(id, t)], AnnounceSteps(id, rest.Keys));
      assert Run(s, [Announce(id, t)]) == s1;
    }
  }

  /** The machine's writer: minting one token and announcing every tag sets the versions the wrapper sets. */
  lemma InvalidationRuns(s: System, id: nat, now: Token)
    requires id in s.processes && s.processes[id].Changed?
    ensures var made := s.processes[id].made;
            Announces(s, s.versions + AllTo(made.Keys, now), made)
  {
    var made := s.processes[id].made;
    var todo := AllTo(made.Keys, now);
    var s1 := DoMint(s, id, now);
    AnnouncedAll(s1, id, made, todo);
    RunAppend(s, [Mint(id, now)], AnnounceSteps(id, todo.Keys));
    assert Run(s, [Mint(id, now)]) == s1;
    assert AnnouncedBy(s, Run(s, [Mint(id, now)] + AnnounceSteps(id, todo.Keys)), s.versions + todo, made);
  }
}

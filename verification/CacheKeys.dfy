/** The keys of cached responses: sorted tags with their versions, then the hash of the query. */
module CacheKeys {
  import ResponseCache

  // ---- Strings in Python's order, and sorting.

  predicate Leq(a: string, b: string) {
    a == "" || (b != "" && (a[0] < b[0] || (a[0] == b[0] && Leq(a[1..], b[1..]))))
  }

  lemma {:induction false} LeqTotal(a: string, b: string)
    ensures Leq(a, b) || Leq(b, a)
    ensures Leq(a, b) && Leq(b, a) ==> a == b
  {
    if a != "" && b != "" {
      LeqTotal(a[1..], b[1..]);
      assert a == [a[0]] + a[1..] && b == [b[0]] + b[1..];
    }
  }

  lemma {:induction false} LeqTransitive(a: string, b: string, c: string)
    requires Leq(a, b) && Leq(b, c)
    ensures Leq(a, c)
  {
    if a != "" && a[0] == b[0] == c[0] {
      LeqTransitive(a[1..], b[1..], c[1..]);
    }
  }

  function Insert(x: string, s: seq<string>): (r: seq<string>)
    ensures multiset(r) == multiset{x} + multiset(s)
  {
    if s == [] then [x]
    else if Leq(x, s[0]) then [x] + s
    else
      assert s == [s[0]] + s[1..];
      [s[0]] + Insert(x, s[1..])
  }

  function Sorted(s: seq<string>): (r: seq<string>)
    ensures multiset(r) == multiset(s)
  {
    if s == [] then [] else
      assert s == [s[0]] + s[1..];
      Insert(s[0], Sorted(s[1..]))
  }

  predicate IsSorted(s: seq<string>) {
    |s| <= 1 || (Leq(s[0], s[1]) && IsSorted(s[1..]))
  }

  lemma {:induction false} InsertSorts(x: string, s: seq<string>)
    requires IsSorted(s)
    ensures IsSorted(Insert(x, s))
  {
    if s != [] && !Leq(x, s[0]) {
      LeqTotal(x, s[0]);
      InsertSorts(x, s[1..]);
      var r := Insert(x, s[1..]);
      assert ([s[0]] + r)[1..] == r;
    } else if s != [] {
      assert ([x] + s)[1..] == s;
    }
  }

  lemma {:induction false} SortedIsSorted(s: seq<string>)
    ensures IsSorted(Sorted(s))
  {
    if s != [] {
      SortedIsSorted(s[1..]);
      InsertSorts(s[0], Sorted(s[1..]));
    }
  }

  lemma {:induction false} FirstIsLeast(s: seq<string>, x: string)
    requires IsSorted(s) && x in s
    ensures Leq(s[0], x)
  {
    if x == s[0] {
      LeqTotal(x, x);
    } else {
      assert x in s[1..];
      FirstIsLeast(s[1..], x);
      LeqTransitive(s[0], s[1], x);
    }
  }

  lemma SameFirst(a: seq<string>, b: seq<string>)
    requires IsSorted(a) && IsSorted(b) && multiset(a) == multiset(b) && a != []
    ensures b != [] && a[0] == b[0]
  {
    assert a[0] in multiset(b);
    assert b[0] in multiset(a);
    FirstIsLeast(a, b[0]);
    FirstIsLeast(b, a[0]);
    LeqTotal(a[0], b[0]);
  }

  lemma SameRest(a: seq<string>, b: seq<string>)
    requires multiset(a) == multiset(b) && a != [] && b != [] && a[0] == b[0]
    ensures multiset(a[1..]) == multiset(b[1..])
  {
    assert a == [a[0]] + a[1..] && b == [b[0]] + b[1..];
    assert multiset(a[1..]) == multiset(a) - multiset{a[0]};
    assert multiset(b[1..]) == multiset(b) - multiset{a[0]};
  }

  lemma {:induction false} SortedOneWay(a: seq<string>, b: seq<string>)
    requires IsSorted(a) && IsSorted(b) && multiset(a) == multiset(b)
    ensures a == b
  {
    if a == [] {
      assert |multiset(b)| == 0;
    } else {
      SameFirst(a, b);
      SameRest(a, b);
      SortedOneWay(a[1..], b[1..]);
      assert a == [a[0]] + a[1..];
      assert b == [b[0]] + b[1..];
    }
  }

  // ---- The key.

  function Joined(tags: seq<string>, versions: map<string, string>): string
    requires forall t :: t in tags ==> t in versions
  {
    if tags == [] then ""
    else if |tags| == 1 then tags[0] + ":" + versions[tags[0]]
    else tags[0] + ":" + versions[tags[0]] + "_" + Joined(tags[1..], versions)
  }

  function CompositeKey(tags: seq<string>, versions: map<string, string>, hash: string): string
    requires forall t :: t in tags ==> t in versions
  {
    SortedMembers(tags);
    "cache:" + Joined(Sorted(tags), versions) + ":" + hash
  }

  predicate ColonFree(s: string) {
    ':' !in s
  }

  predicate IsDigit(c: char) {
    '0' <= c <= '9'
  }

  predicate DigitsOnly(s: string) {
    forall c :: c in s ==> IsDigit(c)
  }

  lemma StopInside(a: string, c: char, x: string, b: string, y: string)
    requires a + [c] + x == b + y && |a| < |b|
    ensures c in b
  {
    assert (a + [c] + x)[|a|] == c;
    assert (b + y)[|a|] == b[|a|];
  }

  lemma SameCut(a: string, c: char, x: string, b: string, d: char, y: string)
    requires a + [c] + x == b + [d] + y && |a| == |b|
    ensures a == b && c == d && x == y
  {
    var s := a + [c] + x;
    assert a == s[..|a|] && c == s[|a|] && x == s[|a| + 1..];
    assert b == s[..|b|] && d == s[|b|] && y == s[|b| + 1..];
  }

  /** Text without a stop sign ends where the first stop sign stands. */
  lemma SplitAtStop(stop: char -> bool, a: string, c: char, x: string, b: string, d: char, y: string)
    requires (forall e :: e in a || e in b ==> !stop(e)) && stop(c) && stop(d)
    requires a + [c] + x == b + [d] + y
    ensures a == b && c == d && x == y
  {
    assert a + [c] + x == b + ([d] + y) && b + [d] + y == a + ([c] + x);
    if |a| < |b| { StopInside(a, c, x, b, [d] + y); }
    if |b| < |a| { StopInside(b, d, y, a, [c] + x); }
    SameCut(a, c, x, b, d, y);
  }

  lemma SplitAtColon(a: string, x: string, b: string, y: string)
    requires ColonFree(a) && ColonFree(b) && a + ":" + x == b + ":" + y
    ensures a == b && x == y
  {
    SplitAtStop(c => c == ':', a, ':', x, b, ':', y);
  }

  lemma SplitAfterDigits(a: string, c: char, x: string, b: string, d: char, y: string)
    requires DigitsOnly(a) && DigitsOnly(b) && !IsDigit(c) && !IsDigit(d)
    requires a + [c] + x == b + [d] + y
    ensures a == b && c == d && x == y
  {
    SplitAtStop(e => !IsDigit(e), a, c, x, b, d, y);
  }

  ghost predicate Wellformed(tags: seq<string>, versions: map<string, string>, hash: string) {
    ColonFree(hash) && forall t :: t in tags ==> ColonFree(t) && t in versions && DigitsOnly(versions[t])
  }

  /** What follows the first tag and its colon: its version, then the hash or the other tags. */
  function AfterFirst(tags: seq<string>, versions: map<string, string>, hash: string): string
    requires tags != [] && forall t :: t in tags ==> t in versions
  {
    if |tags| == 1 then versions[tags[0]] + ":" + hash
    else versions[tags[0]] + "_" + (Joined(tags[1..], versions) + ":" + hash)
  }

  lemma JoinedIsFirst(tags: seq<string>, versions: map<string, string>, hash: string)
    requires tags != [] && forall t :: t in tags ==> t in versions
    ensures Joined(tags, versions) + ":" + hash == tags[0] + ":" + AfterFirst(tags, versions, hash)
  {
    var t, v := tags[0], versions[tags[0]];
    if |tags| == 1 {
      assert t + ":" + v + ":" + hash == t + ":" + (v + ":" + hash);
    } else {
      var rest := Joined(tags[1..], versions);
      assert t + ":" + v + "_" + rest + ":" + hash == t + ":" + (v + "_" + (rest + ":" + hash));
    }
  }

  lemma {:induction false} AfterFirstHasColon(tags: seq<string>, versions: map<string, string>, hash: string)
    requires tags != [] && forall t :: t in tags ==> t in versions
    ensures ':' in AfterFirst(tags, versions, hash)
  {
    if |tags| == 1 {
      assert AfterFirst(tags, versions, hash)[|versions[tags[0]]|] == ':';
    } else {
      var rest := Joined(tags[1..], versions) + ":" + hash;
      assert rest[|Joined(tags[1..], versions)|] == ':';
      assert ':' in rest;
    }
  }

  lemma NoTagsDiffer(tags: seq<string>, versions: map<string, string>, hash: string, other: string)
    requires tags != [] && Wellformed(tags, versions, hash) && ColonFree(other)
    ensures ":" + other != Joined(tags, versions) + ":" + hash
  {
    JoinedIsFirst(tags, versions, hash);
    AfterFirstHasColon(tags, versions, hash);
    if ":" + other == tags[0] + ":" + AfterFirst(tags, versions, hash) {
      assert "" + ":" + other == ":" + other;
      SplitAtColon("", other, tags[0], AfterFirst(tags, versions, hash));
    }
  }

  lemma {:induction false} JoinedDecodes(a: seq<string>, va: map<string, string>, ha: string,
                                         b: seq<string>, vb: map<string, string>, hb: string)
    requires Wellformed(a, va, ha) && Wellformed(b, vb, hb)
    requires Joined(a, va) + ":" + ha == Joined(b, vb) + ":" + hb
    ensures a == b && ha == hb && forall t :: t in a ==> va[t] == vb[t]
    decreases |a|
  {
    if a == [] || b == [] {
      assert "" + ":" + ha == ":" + ha && "" + ":" + hb == ":" + hb;
      if b != [] { NoTagsDiffer(b, vb, hb, ha); }
      if a != [] { NoTagsDiffer(a, va, ha, hb); }
      SplitAtColon("", ha, "", hb);
    } else {
      JoinedIsFirst(a, va, ha);
      JoinedIsFirst(b, vb, hb);
      SplitAtColon(a[0], AfterFirst(a, va, ha), b[0], AfterFirst(b, vb, hb));
      var restA := if |a| == 1 then ha else Joined(a[1..], va) + ":" + ha;
      var restB := if |b| == 1 then hb else Joined(b[1..], vb) + ":" + hb;
      SplitAfterDigits(va[a[0]], if |a| == 1 then ':' else '_', restA, vb[b[0]], if |b| == 1 then ':' else '_', restB);
      if |a| > 1 {
        JoinedDecodes(a[1..], va, ha, b[1..], vb, hb);
      }
      assert a == [a[0]] + a[1..] && b == [b[0]] + b[1..];
      forall t | t in a ensures va[t] == vb[t] {
        if t != a[0] { assert t in a[1..]; }
      }
    }
  }

  ghost predicate SameRequest(a: seq<string>, va: map<string, string>, ha: string,
                              b: seq<string>, vb: map<string, string>, hb: string)
    requires Wellformed(a, va, ha) && Wellformed(b, vb, hb)
  {
    multiset(a) == multiset(b) && ha == hb && forall t :: t in a && t in b ==> va[t] == vb[t]
  }

  /** Two keys are equal exactly when the tags are the same up to order, with the same versions and the same hash. */
  lemma KeysDecodeUniquely(a: seq<string>, va: map<string, string>, ha: string,
                           b: seq<string>, vb: map<string, string>, hb: string)
    requires Wellformed(a, va, ha) && Wellformed(b, vb, hb)
    ensures CompositeKey(a, va, ha) == CompositeKey(b, vb, hb) <==> SameRequest(a, va, ha, b, vb, hb)
  {
    if CompositeKey(a, va, ha) == CompositeKey(b, vb, hb) {
      EqualKeysDecode(a, va, ha, b, vb, hb);
    }
    if SameRequest(a, va, ha, b, vb, hb) {
      SortedMembers(a);
      SortedMembers(b);
      SortedIsSorted(a);
      SortedIsSorted(b);
      SortedOneWay(Sorted(a), Sorted(b));
      SameJoined(Sorted(a), va, vb);
    }
  }

  lemma SortedMembers(s: seq<string>)
    ensures forall t :: t in Sorted(s) <==> t in s
  {
    forall t ensures t in Sorted(s) <==> t in s {
      assert t in multiset(Sorted(s)) <==> t in multiset(s);
    }
  }

  lemma EqualKeysDecode(a: seq<string>, va: map<string, string>, ha: string,
                        b: seq<string>, vb: map<string, string>, hb: string)
    requires Wellformed(a, va, ha) && Wellformed(b, vb, hb)
    requires CompositeKey(a, va, ha) == CompositeKey(b, vb, hb)
    ensures SameRequest(a, va, ha, b, vb, hb)
  {
    SortedMembers(a);
    SortedMembers(b);
    var ja, jb := Joined(Sorted(a), va) + ":" + ha, Joined(Sorted(b), vb) + ":" + hb;
    Prefixed(Joined(Sorted(a), va), ha);
    Prefixed(Joined(Sorted(b), vb), hb);
    assert ja == CompositeKey(a, va, ha)[6..] && jb == CompositeKey(b, vb, hb)[6..];
    JoinedDecodes(Sorted(a), va, ha, Sorted(b), vb, hb);
    assert multiset(a) == multiset(Sorted(a)) == multiset(b);
  }

  lemma Prefixed(joined: string, hash: string)
    ensures ("cache:" + joined + ":" + hash)[6..] == joined + ":" + hash
  {
  }

  lemma {:induction false} SameJoined(tags: seq<string>, va: map<string, string>, vb: map<string, string>)
    requires forall t :: t in tags ==> t in va && t in vb && va[t] == vb[t]
    ensures Joined(tags, va) == Joined(tags, vb)
  {
    if |tags| > 1 { SameJoined(tags[1..], va, vb); }
  }

  lemma SortedOne(a: string)
    ensures Sorted([a]) == [a]
  {
    assert [a][1..] == [] && Sorted([]) == [];
  }

  lemma SortedTwo(a: string, b: string)
    requires Leq(a, b)
    ensures Sorted([a, b]) == [a, b]
  {
    assert [a, b][1..] == [b];
    SortedOne(b);
  }

  lemma JoinedTwo(x: string, y: string, d: string, e: string)
    requires x != y
    ensures Joined([x, y], map[x := d, y := e]) == x + ":" + d + "_" + y + ":" + e
  {
    var v := map[x := d, y := e];
    assert [x, y][1..] == [y];
    assert Joined([y], v) == y + ":" + e;
    assert x + ":" + d + "_" + (y + ":" + e) == x + ":" + d + "_" + y + ":" + e;
  }

  /** A tag that looks like two tags with a version between them shares every key with these two. */
  lemma ColonsCollide(x: string, y: string, d: string, e: string, hash: string)
    requires Leq(x, y) && x != y
    ensures var tag := x + ":" + d + "_" + y;
            CompositeKey([x, y], map[x := d, y := e], hash) == CompositeKey([tag], map[tag := e], hash)
  {
    var tag := x + ":" + d + "_" + y;
    SortedTwo(x, y);
    SortedOne(tag);
    JoinedTwo(x, y, d, e);
    assert Joined([tag], map[tag := e]) == tag + ":" + e;
  }

  // ---- The keys of the versions themselves.

  function VersionKey(tag: string): string {
    tag + ":" + "version"
  }

  /** Version keys tell tags apart, and no cached response lies under one: its key ends in the hash of its query. */
  lemma VersionKeysStandApart(tag: string, other: string, tags: seq<string>, versions: map<string, string>, hash: string)
    requires (forall t :: t in tags ==> t in versions) && ColonFree(hash) && hash != "version"
    ensures VersionKey(tag) == VersionKey(other) <==> tag == other
    ensures VersionKey(tag) != CompositeKey(tags, versions, hash)
  {
    assert VersionKey(tag)[..|tag|] == tag && VersionKey(other)[..|other|] == other;
    SortedMembers(tags);
    if VersionKey(tag) == CompositeKey(tags, versions, hash) {
      SameLastPart(tag, "version", "cache:" + Joined(Sorted(tags), versions), hash);
    }
  }

  lemma ColonInLonger(a: string, x: string, b: string, y: string)
    requires a + ":" + x == b + ":" + y && |x| < |y|
    ensures ':' in y
  {
    assert (a + ":" + x)[|a|] == ':';
    assert (b + ":" + y)[|a|] == y[|a| - |b| - 1];
  }

  lemma SameLastPart(a: string, x: string, b: string, y: string)
    requires ColonFree(x) && ColonFree(y) && a + ":" + x == b + ":" + y
    ensures x == y
  {
    if |x| < |y| { ColonInLonger(a, x, b, y); }
    if |y| < |x| { ColonInLonger(b, y, a, x); }
    var s := a + ":" + x;
    assert x == s[|s| - |x|..] && y == s[|s| - |y|..];
  }

  // ---- Clock readings as versions: the strings are as good as the keys of the cache machine.

  function Decimal(n: nat): string {
    if n < 10 then [('0' as int + n) as char] else Decimal(n / 10) + [('0' as int + n % 10) as char]
  }

  lemma {:induction false} DecimalIsDigits(n: nat)
    ensures DigitsOnly(Decimal(n)) && Decimal(n) != ""
    ensures |Decimal(n)| == 1 <==> n < 10
  {
    if n >= 10 { DecimalIsDigits(n / 10); }
  }

  lemma {:induction false} DecimalIsInjective(m: nat, n: nat)
    ensures Decimal(m) == Decimal(n) <==> m == n
  {
    DecimalIsDigits(m);
    DecimalIsDigits(n);
    if Decimal(m) == Decimal(n) && m >= 10 {
      var last := |Decimal(m)| - 1;
      assert Decimal(m)[last] == ('0' as int + m % 10) as char && Decimal(n)[last] == ('0' as int + n % 10) as char;
      assert Decimal(m)[..last] == Decimal(m / 10) && Decimal(n)[..last] == Decimal(n / 10);
      DecimalIsInjective(m / 10, n / 10);
    } else if Decimal(m) == Decimal(n) {
      assert Decimal(m)[0] == Decimal(n)[0];
    }
  }

  function Printed(versions: map<string, nat>): map<string, string> {
    map t | t in versions :: Decimal(versions[t])
  }

  lemma {:induction false} CountedOnce(tags: seq<string>, t: string)
    requires Distinct(tags)
    ensures multiset(tags)[t] == if t in tags then 1 else 0
  {
    if tags != [] {
      assert tags == [tags[0]] + tags[1..];
      CountedOnce(tags[1..], t);
    }
  }

  ghost predicate Distinct(tags: seq<string>) {
    forall i, j :: 0 <= i < j < |tags| ==> tags[i] != tags[j]
  }

  lemma DistinctBags(a: seq<string>, b: seq<string>)
    requires Distinct(a) && Distinct(b)
    ensures multiset(a) == multiset(b) <==> forall t :: t in a <==> t in b
  {
    forall t ensures multiset(a)[t] == (if t in a then 1 else 0) && multiset(b)[t] == if t in b then 1 else 0 {
      CountedOnce(a, t);
      CountedOnce(b, t);
    }
    if multiset(a) == multiset(b) {
      forall t ensures t in a <==> t in b {
        assert t in multiset(a) <==> t in multiset(b);
      }
    }
  }

  lemma PrintedWell(tags: seq<string>, versions: map<string, nat>, hash: string)
    requires (forall t :: t in tags ==> ColonFree(t) && t in versions) && ColonFree(hash)
    ensures Wellformed(tags, Printed(versions), hash)
  {
    forall t | t in tags ensures DigitsOnly(Decimal(versions[t])) {
      DecimalIsDigits(versions[t]);
    }
  }

  /** For tag lists without repetition, the strings are equal exactly when the machine's keys are. */
  lemma MachineKeysAreExact(a: seq<string>, va: map<string, nat>, ha: string, b: seq<string>, vb: map<string, nat>, hb: string)
    requires Distinct(a) && Distinct(b)
    requires (forall t :: t in a || t in b ==> ColonFree(t)) && ColonFree(ha) && ColonFree(hb)
    requires (forall t :: t in a <==> t in va) && (forall t :: t in b <==> t in vb)
    ensures CompositeKey(a, Printed(va), ha) == CompositeKey(b, Printed(vb), hb)
            <==> ResponseCache.Key(va, ha) == ResponseCache.Key(vb, hb)
  {
    PrintedWell(a, va, ha);
    PrintedWell(b, vb, hb);
    KeysDecodeUniquely(a, Printed(va), ha, b, Printed(vb), hb);
    DistinctBags(a, b);
    if SameRequest(a, Printed(va), ha, b, Printed(vb), hb) {
      forall t | t in va && t in vb ensures va[t] == vb[t] {
        DecimalIsInjective(va[t], vb[t]);
      }
      assert va.Keys == vb.Keys;
      assert va == vb;
    }
  }
}

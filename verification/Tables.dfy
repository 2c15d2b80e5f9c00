/** Optional values, table rows as sequences, and the sums that SQL aggregates compute over them. */
module Tables {

  datatype Option<+T> = None | Some(value: T)

  /** The `PositiveInt32` of the request schemas. */
  type Positive = n: int | 1 <= n <= 2147483647 witness 1

  /** `SELECT sum(weight) FROM rows`; a 0/1 weight makes it a `count(*)` with a filter. */
  function Sum<T>(rows: seq<T>, weight: T -> nat): nat {
    if rows == [] then 0 else weight(rows[0]) + Sum(rows[1..], weight)
  }

  /** The rows a `DELETE` with the negated condition leaves behind. */
  function Keep<T>(rows: seq<T>, p: T -> bool): seq<T> {
    if rows == [] then []
    else if p(rows[0]) then [rows[0]] + Keep(rows[1..], p)
    else Keep(rows[1..], p)
  }

  /** An `UPDATE` that rewrites every row on its own. */
  function Each<S, T>(rows: seq<S>, f: S -> T): (r: seq<T>)
    ensures |r| == |rows|
    ensures forall k :: 0 <= k < |rows| ==> r[k] == f(rows[k])
  {
    if rows == [] then [] else [f(rows[0])] + Each(rows[1..], f)
  }

  lemma {:induction false} SumAppend<T>(a: seq<T>, b: seq<T>, weight: T -> nat)
    ensures Sum(a + b, weight) == Sum(a, weight) + Sum(b, weight)
  {
    if a == [] {
      assert a + b == b;
    } else {
      SumAppend(a[1..], b, weight);
      assert (a + b)[1..] == a[1..] + b;
    }
  }

  lemma SumOne<T>(x: T, weight: T -> nat)
    ensures Sum([x], weight) == weight(x)
  {
    assert [x][1..] == [];
    assert Sum([x][1..], weight) == 0;
  }

  lemma SumLast<T>(rows: seq<T>, weight: T -> nat)
    requires rows != []
    ensures Sum(rows, weight) == Sum(rows[..|rows| - 1], weight) + weight(rows[|rows| - 1])
  {
    assert rows == rows[..|rows| - 1] + [rows[|rows| - 1]];
    SumAppend(rows[..|rows| - 1], [rows[|rows| - 1]], weight);
    SumOne(rows[|rows| - 1], weight);
  }

  lemma SumOfUpdate<T>(rows: seq<T>, k: nat, x: T, weight: T -> nat)
    requires k < |rows|
    ensures Sum(rows[k := x], weight) + weight(rows[k]) == Sum(rows, weight) + weight(x)
  {
    assert rows == rows[..k] + ([rows[k]] + rows[k + 1..]);
    assert rows[k := x] == rows[..k] + ([x] + rows[k + 1..]);
    SumAppend(rows[..k], [rows[k]] + rows[k + 1..], weight);
    SumAppend(rows[..k], [x] + rows[k + 1..], weight);
    SumAppend([rows[k]], rows[k + 1..], weight);
    SumAppend([x], rows[k + 1..], weight);
    SumOne(rows[k], weight);
    SumOne(x, weight);
  }

  /** When at most one row weighs anything, the sum is at most the largest weight. */
  lemma {:induction false} SumAtMostOne<T>(rows: seq<T>, weight: T -> nat, bound: nat)
    requires forall k :: 0 <= k < |rows| ==> weight(rows[k]) <= bound
    requires forall j, k :: 0 <= j < k < |rows| ==> weight(rows[j]) == 0 || weight(rows[k]) == 0
    ensures Sum(rows, weight) <= bound
  {
    if rows != [] {
      if weight(rows[0]) == 0 {
        SumAtMostOne(rows[1..], weight, bound);
      } else {
        forall x | x in rows[1..] ensures weight(x) == 0 {
          var k :| 0 <= k < |rows[1..]| && rows[1..][k] == x;
          assert rows[k + 1] == x;
        }
        SumZero(rows[1..], weight);
      }
    }
  }

  /** Two weights that agree on every row have the same sum. */
  lemma {:induction false} SumAgree<T>(rows: seq<T>, v: T -> nat, w: T -> nat)
    requires forall x :: x in rows ==> v(x) == w(x)
    ensures Sum(rows, v) == Sum(rows, w)
  {
    if rows != [] {
      assert rows[0] in rows;
      SumAgree(rows[1..], v, w);
    }
  }

  /** A sum of naturals is zero exactly when every row weighs nothing. */
  lemma {:induction false} SumZero<T>(rows: seq<T>, weight: T -> nat)
    ensures Sum(rows, weight) == 0 <==> forall x :: x in rows ==> weight(x) == 0
  {
    if rows != [] {
      SumZero(rows[1..], weight);
      assert rows == [rows[0]] + rows[1..];
    }
  }

  lemma {:induction false} SumAtMost<T>(rows: seq<T>, v: T -> nat, w: T -> nat)
    requires forall x :: x in rows ==> v(x) <= w(x)
    ensures Sum(rows, v) <= Sum(rows, w)
  {
    if rows != [] {
      assert rows[0] in rows;
      SumAtMost(rows[1..], v, w);
    }
  }

  lemma {:induction false} SumOfKeep<T>(rows: seq<T>, p: T -> bool, weight: T -> nat)
    ensures Sum(Keep(rows, p), weight) <= Sum(rows, weight)
    ensures (forall x :: x in rows && !p(x) ==> weight(x) == 0) ==> Sum(Keep(rows, p), weight) == Sum(rows, weight)
    ensures (forall x :: x in rows && p(x) ==> weight(x) == 0) ==> Sum(Keep(rows, p), weight) == 0
  {
    if rows != [] {
      assert rows == [rows[0]] + rows[1..];
      SumOfKeep(rows[1..], p, weight);
      if p(rows[0]) {
        assert Keep(rows, p)[1..] == Keep(rows[1..], p);
      }
    }
  }

  lemma {:induction false} KeepMembers<T>(rows: seq<T>, p: T -> bool)
    ensures forall x :: x in Keep(rows, p) <==> x in rows && p(x)
  {
    if rows != [] {
      KeepMembers(rows[1..], p);
      assert rows == [rows[0]] + rows[1..];
    }
  }

  /** A rewrite that leaves every row's weight alone leaves the sum alone. */
  lemma {:induction false} SumOfEach<T>(rows: seq<T>, f: T -> T, weight: T -> nat)
    requires forall x :: x in rows ==> weight(f(x)) == weight(x)
    ensures Sum(Each(rows, f), weight) == Sum(rows, weight)
  {
    if rows != [] {
      assert rows[0] in rows;
      SumOfEach(rows[1..], f, weight);
      assert Each(rows, f)[1..] == Each(rows[1..], f);
    }
  }
}

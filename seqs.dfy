/**
 * Generic folds over tables held as sequences: the filter, sum and
 * order-by/limit steps that the query builder performs in the database.
 */
module Seqs {

  /** The rows of `s` that satisfy `p`, in table order (a `where` clause). */
  function Filter<T>(s: seq<T>, p: T -> bool): (r: seq<T>)
    ensures |r| <= |s|
    ensures forall x :: x in r ==> x in s && p(x)
  {
    if s == [] then []
    else if p(s[0]) then [s[0]] + Filter(s[1..], p)
    else Filter(s[1..], p)
  }

  /** Sum of `f` over the rows of `s` (an aggregate `sum`). */
  function SumOf<T>(s: seq<T>, f: T -> int): int
  {
    if s == [] then 0 else f(s[0]) + SumOf(s[1..], f)
  }

  lemma {:induction false} FilterComplete<T>(s: seq<T>, p: T -> bool, x: T)
    requires x in s && p(x)
    ensures x in Filter(s, p)
  {
    if s[0] != x {
      FilterComplete(s[1..], p, x);
    }
  }

  lemma {:induction false} FilterAppend<T>(a: seq<T>, b: seq<T>, p: T -> bool)
    ensures Filter(a + b, p) == Filter(a, p) + Filter(b, p)
  {
    if a != [] {
      assert (a + b)[1..] == a[1..] + b;
      FilterAppend(a[1..], b, p);
    } else {
      assert a + b == b;
    }
  }

  lemma {:induction false} SumOfAppend<T>(a: seq<T>, b: seq<T>, f: T -> int)
    ensures SumOf(a + b, f) == SumOf(a, f) + SumOf(b, f)
  {
    if a != [] {
      assert (a + b)[1..] == a[1..] + b;
      SumOfAppend(a[1..], b, f);
    } else {
      assert a + b == b;
    }
  }

  /** A filter by a weaker condition keeps at least as many rows. */
  lemma {:induction false} FilterWeaker<T>(s: seq<T>, p: T -> bool, q: T -> bool)
    requires forall x :: x in s && p(x) ==> q(x)
    ensures |Filter(s, p)| <= |Filter(s, q)|
  {
    if s != [] {
      FilterWeaker(s[1..], p, q);
    }
  }

  /** Two exclusive conditions, both within `q`, select no more rows together than `q`. */
  lemma {:induction false} FilterDisjointWithin<T>(s: seq<T>, p1: T -> bool, p2: T -> bool, q: T -> bool)
    requires forall x :: x in s && p1(x) ==> q(x) && !p2(x)
    requires forall x :: x in s && p2(x) ==> q(x)
    ensures |Filter(s, p1)| + |Filter(s, p2)| <= |Filter(s, q)|
  {
    if s != [] {
      FilterDisjointWithin(s[1..], p1, p2, q);
    }
  }

  /** `key` is non-increasing along `s`. */
  predicate SortedDesc<T>(s: seq<T>, key: T -> int)
  {
    forall i, j :: 0 <= i < j < |s| ==> key(s[i]) >= key(s[j])
  }

  /** Insert `x` before the first row whose key is not larger than its own. */
  function Insert<T>(x: T, s: seq<T>, key: T -> int): (r: seq<T>)
    ensures multiset(r) == multiset(s) + multiset{x}
  {
    if s == [] then [x]
    else if key(x) >= key(s[0]) then [x] + s
    else
      assert s == [s[0]] + s[1..];
      [s[0]] + Insert(x, s[1..], key)
  }

  lemma SortedCons<T>(a: T, s: seq<T>, key: T -> int)
    requires SortedDesc(s, key)
    requires forall y :: y in s ==> key(a) >= key(y)
    ensures SortedDesc([a] + s, key)
  {
    var r := [a] + s;
    forall i, j | 0 <= i < j < |r| ensures key(r[i]) >= key(r[j]) {
      assert r[j] == s[j - 1];
      if i > 0 {
        assert r[i] == s[i - 1];
      }
    }
  }

  lemma {:induction false} InsertSorted<T>(x: T, s: seq<T>, key: T -> int)
    requires SortedDesc(s, key)
    ensures SortedDesc(Insert(x, s, key), key)
  {
    if s == [] {
    } else if key(x) >= key(s[0]) {
      SortedCons(x, s, key);
    } else {
      var rest := Insert(x, s[1..], key);
      InsertSorted(x, s[1..], key);
      assert multiset(rest) == multiset(s[1..]) + multiset{x};
      forall y | y in rest ensures key(s[0]) >= key(y) {
        assert y in multiset(rest);
        if y != x {
          assert y in multiset(s[1..]);
        }
      }
      SortedCons(s[0], rest, key);
    }
  }

  /** Insertion sort by `key`, largest key first (an `orderBy(..., 'desc')`). */
  function SortDesc<T>(s: seq<T>, key: T -> int): (r: seq<T>)
    ensures multiset(r) == multiset(s)
    ensures SortedDesc(r, key)
  {
    if s == [] then []
    else
      assert s == [s[0]] + s[1..];
      InsertSorted(s[0], SortDesc(s[1..], key), key);
      Insert(s[0], SortDesc(s[1..], key), key)
  }

  /** Sorting a filtered table keeps exactly the rows that satisfy the filter. */
  lemma SortFilterMembers<T>(s: seq<T>, p: T -> bool, key: T -> int)
    ensures forall x :: x in SortDesc(Filter(s, p), key) <==> x in s && p(x)
  {
    var f := Filter(s, p);
    forall x ensures x in SortDesc(f, key) <==> x in s && p(x) {
      assert x in SortDesc(f, key) <==> x in multiset(f);
      if x in s && p(x) {
        FilterComplete(s, p, x);
      }
    }
  }

  /** In a sequence without repeats, a member occurs exactly once. */
  lemma {:induction false} OccursOnce<T>(s: seq<T>, x: T)
    requires forall i, j :: 0 <= i < j < |s| ==> s[i] != s[j]
    requires x in s
    ensures multiset(s)[x] == 1
  {
    assert s == [s[0]] + s[1..];
    assert multiset(s) == multiset{s[0]} + multiset(s[1..]);
    if s[0] == x {
      assert forall k :: 0 <= k < |s[1..]| ==> s[1..][k] == s[k + 1] && s[k + 1] != s[0];
      assert x !in s[1..];
    } else {
      assert forall i, j :: 0 <= i < j < |s[1..]| ==> s[1..][i] == s[i + 1] && s[1..][j] == s[j + 1];
      OccursOnce(s[1..], x);
    }
  }

  function Min(a: nat, b: nat): nat { if a <= b then a else b }

  /** The first `n` rows of `s` ordered by `key`, largest first (`orderBy desc` then `limit n`). */
  function TopBy<T>(s: seq<T>, key: T -> int, n: nat): seq<T>
  {
    var t := SortDesc(s, key);
    t[..Min(n, |t|)]
  }

  lemma PrefixMultiset<T>(t: seq<T>, k: nat)
    requires k <= |t|
    ensures multiset(t[..k]) <= multiset(t)
    ensures forall x :: x in t[..k] ==> x in t
  {
    assert t == t[..k] + t[k..];
    assert multiset(t) == multiset(t[..k]) + multiset(t[k..]);
  }

  /**
   * TopBy keeps min(n, |s|) rows of `s`, ordered by key; all of them when
   * n covers the table.
   */
  lemma TopByShape<T>(s: seq<T>, key: T -> int, n: nat)
    ensures |TopBy(s, key, n)| == Min(n, |s|)
    ensures SortedDesc(TopBy(s, key, n), key)
    ensures multiset(TopBy(s, key, n)) <= multiset(s)
    ensures forall x :: x in TopBy(s, key, n) ==> x in s
    ensures n >= |s| ==> multiset(TopBy(s, key, n)) == multiset(s)
  {
    var t := SortDesc(s, key);
    assert |t| == |multiset(t)| == |s|;
    PrefixMultiset(t, Min(n, |t|));
    forall x | x in TopBy(s, key, n) ensures x in s {
      assert x in t;
      assert x in multiset(t);
    }
    if n >= |s| {
      assert t[..Min(n, |t|)] == t;
    }
  }

  /** TopBy leaves out no row whose key is strictly larger than that of the last row kept. */
  lemma TopByKeepsLarger<T>(s: seq<T>, key: T -> int, n: nat, x: T)
    requires 0 < |TopBy(s, key, n)|
    requires x in s
    requires key(x) > key(TopBy(s, key, n)[|TopBy(s, key, n)| - 1])
    ensures x in TopBy(s, key, n)
  {
    var t := SortDesc(s, key);
    var r := TopBy(s, key, n);
    assert x in multiset(s);
    assert x in multiset(t);
    var j :| 0 <= j < |t| && t[j] == x;
    assert r[|r| - 1] == t[|r| - 1];
    assert !(|r| - 1 < j);
    assert t[j] == r[j];
  }

}

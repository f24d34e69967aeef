/**
 * `ORDER BY key DESC` and `[:n]` on query results. The database leaves the
 * order of rows with equal keys open, so what a query promises is only that
 * the result is a permutation of its input with non-increasing keys; the
 * insertion sort below is one arrangement with that property.
 */
module Sorting {

  ghost predicate NonIncreasing<T>(s: seq<T>, key: T -> int)
  {
    forall i, j :: 0 <= i < j < |s| ==> key(s[i]) >= key(s[j])
  }

  /** Places `x` before the first element whose key is not greater than its own. */
  function Insert<T>(x: T, s: seq<T>, key: T -> int): (r: seq<T>)
    ensures multiset(r) == multiset(s) + multiset{x}
    ensures |r| == |s| + 1
    ensures r[0] == x || (|s| > 0 && r[0] == s[0])
  {
    if |s| == 0 then [x]
    else if key(x) >= key(s[0]) then [x] + s
    else
      assert s == [s[0]] + s[1..];
      [s[0]] + Insert(x, s[1..], key)
  }

  lemma ConsSorted<T>(a: T, t: seq<T>, key: T -> int)
    requires NonIncreasing(t, key)
    requires |t| > 0 ==> key(a) >= key(t[0])
    ensures NonIncreasing([a] + t, key)
  {
    var r := [a] + t;
    forall i, j | 0 <= i < j < |r| ensures key(r[i]) >= key(r[j]) {
      if i == 0 {
        assert r[j] == t[j - 1];
        if j > 1 { assert key(t[0]) >= key(t[j - 1]); }
      } else {
        assert r[i] == t[i - 1] && r[j] == t[j - 1];
      }
    }
  }

  lemma {:induction false} InsertSorted<T>(x: T, s: seq<T>, key: T -> int)
    requires NonIncreasing(s, key)
    ensures NonIncreasing(Insert(x, s, key), key)
  {
    if |s| == 0 {
    } else if key(x) >= key(s[0]) {
      ConsSorted(x, s, key);
    } else {
      var rest := s[1..];
      assert NonIncreasing(rest, key) by {
        forall i, j | 0 <= i < j < |rest| ensures key(rest[i]) >= key(rest[j]) {
          assert rest[i] == s[i + 1] && rest[j] == s[j + 1];
        }
      }
      InsertSorted(x, rest, key);
      var tail := Insert(x, rest, key);
      assert |rest| > 0 ==> key(s[0]) >= key(rest[0]) by {
        if |rest| > 0 { assert rest[0] == s[1]; }
      }
      ConsSorted(s[0], tail, key);
    }
  }

  /** Insertion sort by descending key. */
  function SortDesc<T>(s: seq<T>, key: T -> int): (r: seq<T>)
    ensures multiset(r) == multiset(s)
    ensures |r| == |s|
    ensures NonIncreasing(r, key)
  {
    if |s| == 0 then []
    else
      assert s == [s[0]] + s[1..];
      var rest := SortDesc(s[1..], key);
      InsertSorted(s[0], rest, key);
      Insert(s[0], rest, key)
  }

  /** Django's slice `[:n]`: the first `n` rows, or all of them when there are fewer. */
  function Take<T>(s: seq<T>, n: nat): (r: seq<T>)
    ensures |r| == if |s| < n then |s| else n
    ensures |s| <= n ==> r == s
    ensures forall i :: 0 <= i < |r| ==> r[i] == s[i]
    ensures multiset(r) <= multiset(s)
  {
    if |s| <= n then s
    else
      assert s == s[..n] + s[n..];
      s[..n]
  }

  /** `order_by("-key")[:n]`: the first `n` rows of the sorted arrangement. */
  function Top<T>(s: seq<T>, key: T -> int, n: nat): (r: seq<T>)
    ensures |r| == if |s| < n then |s| else n
    ensures multiset(r) <= multiset(s)
    ensures forall x :: x in r ==> x in s
    ensures NonIncreasing(r, key)
    ensures |s| <= n ==> multiset(r) == multiset(s)
  {
    var sorted := SortDesc(s, key);
    var r := Take(sorted, n);
    assert forall x :: x in r ==> x in s by {
      forall x | x in r ensures x in s {
        assert x in multiset(sorted);
      }
    }
    assert NonIncreasing(r, key) by {
      forall i, j | 0 <= i < j < |r| ensures key(r[i]) >= key(r[j]) {
        assert r[i] == sorted[i] && r[j] == sorted[j];
      }
    }
    r
  }

  /**
   * The first `n` rows of a sorted arrangement really are the top ones: a row
   * left out of `Top(s, key, n)` has a key no greater than any row kept.
   */
  lemma TopRowsDominate<T>(s: seq<T>, key: T -> int, n: nat, x: T, y: T)
    requires x in Top(s, key, n)
    requires y in s && y !in Top(s, key, n)
    ensures key(x) >= key(y)
  {
    var sorted := SortDesc(s, key);
    var top := Take(sorted, n);
    assert y in multiset(sorted);
    var j :| 0 <= j < |sorted| && sorted[j] == y;
    var i :| 0 <= i < |top| && top[i] == x;
    assert forall k :: 0 <= k < |top| ==> top[k] != y;
    assert j >= |top|;
    assert sorted[i] == x;
  }
}

/** Small shared vocabulary: an optional value, and filtering of table rows. */
module Util {

  datatype Option<+T> = None | Some(value: T)

  /** The rows of `s` that satisfy `p`, in their original order (a `WHERE` clause). */
  function Filter<T(!new)>(s: seq<T>, p: T -> bool): (r: seq<T>)
    ensures |r| <= |s|
    ensures forall x :: x in r <==> x in s && p(x)
    ensures forall i :: 0 <= i < |r| ==> p(r[i])
  {
    if |s| == 0 then []
    else Filter(s[..|s| - 1], p) + (if p(s[|s| - 1]) then [s[|s| - 1]] else [])
  }

  /** Every ordered pair of rows of `s` is related by `rel` (for instance: strictly increasing ids). */
  ghost predicate Pairwise<T>(s: seq<T>, rel: (T, T) -> bool)
  {
    forall i, j :: 0 <= i < j < |s| ==> rel(s[i], s[j])
  }

  /** Deleting rows keeps every pairwise property of the remaining rows. */
  lemma {:induction false} FilterPairwise<T(!new)>(s: seq<T>, p: T -> bool, rel: (T, T) -> bool)
    requires Pairwise(s, rel)
    ensures Pairwise(Filter(s, p), rel)
  {
    if |s| > 0 {
      var init := s[..|s| - 1];
      var last := s[|s| - 1];
      assert Pairwise(init, rel);
      FilterPairwise(init, p, rel);
      var fi := Filter(init, p);
      if p(last) {
        var r := fi + [last];
        forall i, j | 0 <= i < j < |r| ensures rel(r[i], r[j]) {
          if j < |fi| {
          } else {
            assert r[i] in init;
            var k :| 0 <= k < |init| && init[k] == r[i];
            assert s[k] == r[i] && s[|s| - 1] == last;
          }
        }
      }
    }
  }

  /** Appending one row after a batch is appending the batch with that row. */
  lemma AppendGrouping<T>(a: seq<T>, b: seq<T>, x: T)
    ensures (a + b) + [x] == a + (b + [x])
  {
  }

  /** Appending one row keeps a pairwise property when the new row is related to all earlier ones. */
  lemma PairwiseAppend<T>(s: seq<T>, x: T, rel: (T, T) -> bool)
    requires Pairwise(s, rel)
    requires forall i :: 0 <= i < |s| ==> rel(s[i], x)
    ensures Pairwise(s + [x], rel)
  {
    var r := s + [x];
    forall i, j | 0 <= i < j < |r| ensures rel(r[i], r[j]) {
      if j < |s| { assert r[i] == s[i] && r[j] == s[j]; }
    }
  }

  /** A condition every row meets keeps the whole table, in order. */
  lemma {:induction false} FilterAll<T(!new)>(s: seq<T>, p: T -> bool)
    requires forall i :: 0 <= i < |s| ==> p(s[i])
    ensures Filter(s, p) == s
  {
    if |s| > 0 {
      FilterAll(s[..|s| - 1], p);
      assert s[..|s| - 1] + [s[|s| - 1]] == s;
    }
  }

  /** Adding a row at the end adds it to the filtered rows exactly when it matches. */
  lemma FilterAppend<T(!new)>(s: seq<T>, x: T, p: T -> bool)
    ensures Filter(s + [x], p) == Filter(s, p) + (if p(x) then [x] else [])
  {
    assert (s + [x])[..|s|] == s;
  }

  /** Replacing one row by another that the condition treats alike keeps the number of matching rows. */
  lemma {:induction false} FilterUpdateLength<T(!new)>(s: seq<T>, k: nat, x: T, p: T -> bool)
    requires k < |s| && p(x) == p(s[k])
    ensures |Filter(s[k := x], p)| == |Filter(s, p)|
  {
    var n := |s| - 1;
    var t := s[k := x];
    assert t[..n] == if k == n then s[..n] else s[..n][k := x];
    if k < n {
      FilterUpdateLength(s[..n], k, x, p);
    }
  }

  /** Deleting one row removes one matching row exactly when the row matched. */
  lemma {:induction false} FilterRemoveLength<T(!new)>(s: seq<T>, k: nat, p: T -> bool)
    requires k < |s|
    ensures |Filter(s[..k] + s[k + 1..], p)| + (if p(s[k]) then 1 else 0) == |Filter(s, p)|
  {
    var n := |s| - 1;
    var t := s[..k] + s[k + 1..];
    if k == n {
      assert t == s[..n];
    } else {
      assert t[..|t| - 1] == s[..n][..k] + s[..n][k + 1..];
      assert t[|t| - 1] == s[n];
      FilterRemoveLength(s[..n], k, p);
    }
  }

  /** The sum of `f` over the rows of `s` (a `SUM(...)` aggregate). */
  function SumBy<T>(s: seq<T>, f: T -> nat): nat
  {
    if |s| == 0 then 0 else SumBy(s[..|s| - 1], f) + f(s[|s| - 1])
  }

  lemma SumByAppend<T>(s: seq<T>, x: T, f: T -> nat)
    ensures SumBy(s + [x], f) == SumBy(s, f) + f(x)
  {
    assert (s + [x])[..|s|] == s;
  }

  /** Replacing one row moves the sum by the difference of the two rows' values. */
  lemma {:induction false} SumByUpdate<T>(s: seq<T>, k: nat, x: T, f: T -> nat)
    requires k < |s|
    ensures SumBy(s[k := x], f) + f(s[k]) == SumBy(s, f) + f(x)
  {
    var n := |s| - 1;
    var t := s[k := x];
    if k == n {
      assert t[..n] == s[..n];
    } else {
      assert t[..n] == s[..n][k := x];
      SumByUpdate(s[..n], k, x, f);
    }
  }

  /** Deleting one row takes its value off the sum. */
  lemma {:induction false} SumByRemove<T>(s: seq<T>, k: nat, f: T -> nat)
    requires k < |s|
    ensures SumBy(s[..k] + s[k + 1..], f) + f(s[k]) == SumBy(s, f)
  {
    var n := |s| - 1;
    var t := s[..k] + s[k + 1..];
    if k == n {
      assert t == s[..n];
    } else {
      var shorter := s[..n][..k] + s[..n][k + 1..];
      assert t == shorter + [s[n]];
      SumByRemove(s[..n], k, f);
      SumByAppend(shorter, s[n], f);
    }
  }

  /** A sum of values that are each at least one is at least the number of rows. */
  lemma {:induction false} SumByAtLeastCount<T>(s: seq<T>, f: T -> nat)
    requires forall i :: 0 <= i < |s| ==> f(s[i]) >= 1
    ensures |s| <= SumBy(s, f)
  {
    if |s| > 0 {
      SumByAtLeastCount(s[..|s| - 1], f);
    }
  }
}

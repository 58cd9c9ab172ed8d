/** Stable descending ordering by a real-valued key: what `DataFrame.nlargest(n, col)`
    (ties keep the earlier row) and `sort_values(col, ascending=False)` produce. */
module Ordering {
  import opened Sequences

  ghost predicate NonIncreasing<T>(s: seq<T>, key: T -> real) {
    forall i, j :: 0 <= i < j < |s| ==> key(s[i]) >= key(s[j])
  }

  /** The elements of `s` whose key equals `v`, in order. */
  function WithKey<T>(s: seq<T>, key: T -> real, v: real): seq<T>
    decreases |s|
  {
    if |s| == 0 then []
    else (if key(s[0]) == v then [s[0]] else []) + WithKey(s[1..], key, v)
  }

  /** `WithKey` of a prefix is a prefix of `WithKey` of the whole sequence. */
  lemma {:induction false} WithKeyPrefix<T>(s: seq<T>, k: nat, key: T -> real, v: real)
    requires k <= |s|
    ensures IsPrefix(WithKey(s[..k], key, v), WithKey(s, key, v))
    decreases k
  {
    if k > 0 {
      WithKeyPrefix(s[1..], k - 1, key, v);
      assert s[..k][1..] == s[1..][..k - 1];
    }
  }

  /** Places `x` in front of the first element of `s` whose key is not larger. */
  function Insert<T>(x: T, s: seq<T>, key: T -> real): (r: seq<T>)
    requires NonIncreasing(s, key)
    ensures |r| == |s| + 1
    ensures multiset(r) == multiset(s) + multiset{x}
    ensures forall y :: y in r ==> y == x || y in s
    ensures NonIncreasing(r, key)
    decreases |s|
  {
    if |s| == 0 || key(x) >= key(s[0]) then [x] + s
    else
      var rest := Insert(x, s[1..], key);
      assert s == [s[0]] + s[1..];
      assert forall y :: y in rest ==> key(y) <= key(s[0]) by {
        forall y | y in rest ensures key(y) <= key(s[0]) {
          if y != x {
            var i :| 0 <= i < |s[1..]| && s[1..][i] == y;
            assert s[i + 1] == y;
          }
        }
      }
      [s[0]] + rest
  }

  /** Insertion sort: non-increasing by `key`, a permutation of `s`, and stable. */
  function SortDesc<T>(s: seq<T>, key: T -> real): (r: seq<T>)
    ensures |r| == |s|
    ensures multiset(r) == multiset(s)
    ensures NonIncreasing(r, key)
    decreases |s|
  {
    if |s| == 0 then []
    else
      assert s == [s[0]] + s[1..];
      Insert(s[0], SortDesc(s[1..], key), key)
  }

  lemma {:induction false} InsertWithKey<T>(x: T, s: seq<T>, key: T -> real, v: real)
    requires NonIncreasing(s, key)
    ensures WithKey(Insert(x, s, key), key, v)
         == (if key(x) == v then [x] else []) + WithKey(s, key, v)
    decreases |s|
  {
    var head := if key(x) == v then [x] else [];
    if |s| == 0 || key(x) >= key(s[0]) {
      var r := [x] + s;
      assert Insert(x, s, key) == r;
      assert r[0] == x && r[1..] == s;
      assert WithKey(r, key, v) == head + WithKey(s, key, v);
    } else {
      var rest := Insert(x, s[1..], key);
      InsertWithKey(x, s[1..], key, v);
      var r := [s[0]] + rest;
      assert Insert(x, s, key) == r;
      assert r[0] == s[0] && r[1..] == rest;
      var mid := if key(s[0]) == v then [s[0]] else [];
      assert WithKey(r, key, v) == mid + (head + WithKey(s[1..], key, v));
      assert WithKey(s, key, v) == mid + WithKey(s[1..], key, v);
      assert head == [] || mid == [];
    }
  }

  /** Stability: among elements with equal keys the sort keeps the input order. */
  lemma {:induction false} SortStable<T>(s: seq<T>, key: T -> real, v: real)
    ensures WithKey(SortDesc(s, key), key, v) == WithKey(s, key, v)
    decreases |s|
  {
    if |s| > 0 {
      SortStable(s[1..], key, v);
      InsertWithKey(s[0], SortDesc(s[1..], key), key, v);
    }
  }

  /** Sum of an integer measure over a sequence. */
  function SumBy<T>(s: seq<T>, f: T -> int): int {
    if |s| == 0 then 0 else f(s[0]) + SumBy(s[1..], f)
  }

  lemma {:induction false} InsertSumBy<T>(x: T, s: seq<T>, key: T -> real, f: T -> int)
    requires NonIncreasing(s, key)
    ensures SumBy(Insert(x, s, key), f) == f(x) + SumBy(s, f)
    decreases |s|
  {
    if |s| > 0 && key(x) < key(s[0]) {
      InsertSumBy(x, s[1..], key, f);
    }
  }

  /** Sorting does not change a sum. */
  lemma {:induction false} SortSumBy<T>(s: seq<T>, key: T -> real, f: T -> int)
    ensures SumBy(SortDesc(s, key), f) == SumBy(s, f)
    decreases |s|
  {
    if |s| > 0 {
      SortSumBy(s[1..], key, f);
      InsertSumBy(s[0], SortDesc(s[1..], key), key, f);
    }
  }

  /** No two elements share a tag. */
  ghost predicate DistinctBy<T, K>(s: seq<T>, tag: T -> K) {
    forall i, j :: 0 <= i < j < |s| ==> tag(s[i]) != tag(s[j])
  }

  lemma {:induction false} InsertDistinctBy<T, K>(x: T, s: seq<T>, key: T -> real, tag: T -> K)
    requires NonIncreasing(s, key)
    requires DistinctBy(s, tag)
    requires forall y :: y in s ==> tag(y) != tag(x)
    ensures DistinctBy(Insert(x, s, key), tag)
    decreases |s|
  {
    if |s| > 0 && key(x) < key(s[0]) {
      InsertDistinctBy(x, s[1..], key, tag);
      var r := Insert(x, s, key);
      assert r == [s[0]] + Insert(x, s[1..], key);
      forall j | 0 < j < |r| ensures tag(r[0]) != tag(r[j]) {
        assert r[j] in Insert(x, s[1..], key);
        if r[j] != x {
          var k :| 0 <= k < |s[1..]| && s[1..][k] == r[j];
          assert s[k + 1] == r[j];
        }
      }
    }
  }

  /** Sorting keeps labels distinct. */
  lemma {:induction false} SortDistinctBy<T, K>(s: seq<T>, key: T -> real, tag: T -> K)
    requires DistinctBy(s, tag)
    ensures DistinctBy(SortDesc(s, key), tag)
    decreases |s|
  {
    if |s| > 0 {
      SortDistinctBy(s[1..], key, tag);
      var sorted := SortDesc(s[1..], key);
      forall y | y in sorted ensures tag(y) != tag(s[0]) {
        assert y in multiset(s[1..]);
        var k :| 0 <= k < |s[1..]| && s[1..][k] == y;
        assert s[k + 1] == y;
      }
      InsertDistinctBy(s[0], sorted, key, tag);
    }
  }

  // ---------------------------------------------------------------- nlargest

  /** `nlargest(n, key)`: the first `n` elements of the stable descending order (all of them
      when there are fewer). */
  function Largest<T>(s: seq<T>, key: T -> real, n: nat): (r: seq<T>)
    ensures |r| == if n <= |s| then n else |s|
    ensures NonIncreasing(r, key)
  {
    var sorted := SortDesc(s, key);
    sorted[..if n <= |s| then n else |s|]
  }

  /** What `Largest` keeps comes from `s`, at most as often as in `s`. */
  lemma LargestIsSubmultiset<T>(s: seq<T>, key: T -> real, n: nat)
    ensures multiset(Largest(s, key, n)) <= multiset(s)
    ensures forall x :: x in Largest(s, key, n) ==> x in s
  {
    var sorted := SortDesc(s, key);
    var k := if n <= |s| then n else |s|;
    PrefixMultiset(sorted, k);
    forall x | x in Largest(s, key, n) ensures x in s {
      assert x in multiset(Largest(s, key, n));
    }
  }

  /** In a non-increasing sequence, nothing after position `k` has a larger key than anything
      before it. */
  lemma PrefixDominates<T>(sorted: seq<T>, key: T -> real, k: nat)
    requires NonIncreasing(sorted, key) && k <= |sorted|
    ensures forall x, y :: x in sorted[..k] && y in sorted[k..] ==> key(y) <= key(x)
  {
    forall x, y | x in sorted[..k] && y in sorted[k..] ensures key(y) <= key(x) {
      var i :| 0 <= i < k && sorted[..k][i] == x;
      var j :| 0 <= j < |sorted| - k && sorted[k..][j] == y;
      assert sorted[i] == x && sorted[k + j] == y;
    }
  }

  /** Nothing `Largest` leaves out has a larger key than anything it keeps. */
  lemma LargestDominates<T>(s: seq<T>, key: T -> real, n: nat)
    ensures forall x, y :: x in Largest(s, key, n) && y in multiset(s) - multiset(Largest(s, key, n)) ==>
              key(y) <= key(x)
  {
    var sorted := SortDesc(s, key);
    var k := if n <= |s| then n else |s|;
    var r := sorted[..k];
    var rest := sorted[k..];
    assert Largest(s, key, n) == r;
    PrefixMultiset(sorted, k);
    PrefixDominates(sorted, key, k);
    assert multiset(s) - multiset(r) == multiset(rest);
    assert forall y :: y in multiset(rest) ==> y in rest;
  }

  /** Ties keep the earlier element: for each key value, `Largest` keeps a prefix of the
      elements of `s` with that key, in their order in `s`. */
  lemma LargestKeepsEarlierTies<T>(s: seq<T>, key: T -> real, n: nat, v: real)
    ensures IsPrefix(WithKey(Largest(s, key, n), key, v), WithKey(s, key, v))
  {
    var sorted := SortDesc(s, key);
    var k := if n <= |s| then n else |s|;
    WithKeyPrefix(sorted, k, key, v);
    SortStable(s, key, v);
  }
}


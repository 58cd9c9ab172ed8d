/** Generic facts about sequences: the order-preserving filter that a pandas boolean mask
    performs, and the subsequence relation it establishes. */
module Sequences {

  /** `sub` can be obtained from `s` by deleting elements, keeping the order of the rest. */
  ghost predicate IsSubsequence<T>(sub: seq<T>, s: seq<T>)
    decreases |s|
  {
    if |sub| == 0 then true
    else if |s| == 0 then false
    else if sub[0] == s[0] then IsSubsequence(sub[1..], s[1..])
    else IsSubsequence(sub, s[1..])
  }

  /** `p` is a prefix of `s`. */
  ghost predicate IsPrefix<T>(p: seq<T>, s: seq<T>) {
    |p| <= |s| && p == s[..|p|]
  }

  /** The elements of `s` that satisfy `keep`, in their original order. */
  function Filter<T>(s: seq<T>, keep: T -> bool): (r: seq<T>)
    ensures |r| <= |s|
    ensures forall x :: x in r ==> keep(x) && x in s
  {
    if |s| == 0 then []
    else
      var rest := Filter(s[1..], keep);
      if keep(s[0]) then [s[0]] + rest else rest
  }

  /** An element that passes occurs in the filtered sequence exactly as often as in `s`. */
  lemma {:induction false} FilterMultiset<T>(s: seq<T>, keep: T -> bool)
    ensures forall x :: x in s && keep(x) ==> multiset(Filter(s, keep))[x] == multiset(s)[x]
    decreases |s|
  {
    if |s| > 0 {
      FilterMultiset(s[1..], keep);
      assert s == [s[0]] + s[1..];
    }
  }

  /** Every element of `s` that passes is in the filtered sequence. */
  lemma FilterKeepsPassing<T>(s: seq<T>, keep: T -> bool)
    ensures forall x :: x in s && keep(x) ==> x in Filter(s, keep)
  {
    FilterMultiset(s, keep);
    forall x | x in s && keep(x) ensures x in Filter(s, keep) {
      assert multiset(Filter(s, keep))[x] == multiset(s)[x] > 0;
    }
  }

  /** The filter comes out empty exactly when no element passes. */
  lemma FilterEmpty<T>(s: seq<T>, keep: T -> bool)
    ensures |Filter(s, keep)| == 0 <==> forall x :: x in s ==> !keep(x)
  {
    FilterKeepsPassing(s, keep);
    var r := Filter(s, keep);
    if |r| > 0 {
      assert r[0] in r;
    }
  }

  /** Filtering deletes elements without reordering the rest. */
  lemma {:induction false} FilterSubsequence<T>(s: seq<T>, keep: T -> bool)
    ensures IsSubsequence(Filter(s, keep), s)
    decreases |s|
  {
    if |s| > 0 {
      FilterSubsequence(s[1..], keep);
      var r := Filter(s, keep);
      if keep(s[0]) {
        assert r[0] == s[0] && r[1..] == Filter(s[1..], keep);
      }
    }
  }

  lemma {:induction false} FilterAppend<T>(a: seq<T>, b: seq<T>, keep: T -> bool)
    ensures Filter(a + b, keep) == Filter(a, keep) + Filter(b, keep)
    decreases |a|
  {
    if |a| == 0 {
      assert a + b == b;
    } else {
      assert (a + b)[1..] == a[1..] + b;
      FilterAppend(a[1..], b, keep);
    }
  }

  /** Appending one element extends the filtered sequence by it exactly when it passes. */
  lemma FilterSnoc<T>(init: seq<T>, x: T, keep: T -> bool)
    ensures Filter(init + [x], keep) == Filter(init, keep) + (if keep(x) then [x] else [])
  {
    FilterAppend(init, [x], keep);
    assert [x][1..] == [];
  }

  /** Predicates that agree on every element of `s` select the same elements. */
  lemma {:induction false} FilterAgree<T>(s: seq<T>, p: T -> bool, q: T -> bool)
    requires forall x :: x in s ==> p(x) == q(x)
    ensures Filter(s, p) == Filter(s, q)
    decreases |s|
  {
    if |s| > 0 {
      assert forall x :: x in s[1..] ==> x in s;
      FilterAgree(s[1..], p, q);
    }
  }

  /** The positions from `i` on whose elements pass `keep`, in increasing order. */
  function PositionsFrom<T>(s: seq<T>, keep: T -> bool, i: nat): (r: seq<nat>)
    requires i <= |s|
    ensures |r| == |Filter(s[i..], keep)|
    ensures forall k :: 0 <= k < |r| ==> i <= r[k] < |s|
    ensures forall k, l :: 0 <= k < l < |r| ==> r[k] < r[l]
    decreases |s| - i
  {
    if i == |s| then []
    else
      assert s[i..][0] == s[i] && s[i..][1..] == s[i + 1..];
      var rest := PositionsFrom(s, keep, i + 1);
      if keep(s[i]) then [i] + rest else rest
  }

  /** The k-th position holds the k-th element the filter of `s[i..]` keeps. */
  lemma {:induction false} PositionsFromSelect<T>(s: seq<T>, keep: T -> bool, i: nat)
    requires i <= |s|
    ensures var r := PositionsFrom(s, keep, i);
            forall k :: 0 <= k < |r| ==> s[r[k]] == Filter(s[i..], keep)[k]
    decreases |s| - i
  {
    if i < |s| {
      PositionsFromSelect(s, keep, i + 1);
      assert s[i..][0] == s[i] && s[i..][1..] == s[i + 1..];
    }
  }

  /** A position from `i` on is listed exactly when its element passes. */
  lemma {:induction false} PositionsFromMembers<T>(s: seq<T>, keep: T -> bool, i: nat)
    requires i <= |s|
    ensures forall j :: i <= j < |s| ==> (j in PositionsFrom(s, keep, i) <==> keep(s[j]))
    decreases |s| - i
  {
    if i < |s| {
      PositionsFromMembers(s, keep, i + 1);
      var rest := PositionsFrom(s, keep, i + 1);
      var r := PositionsFrom(s, keep, i);
      assert i !in rest;
      assert r == if keep(s[i]) then [i] + rest else rest;
      forall j | i < j < |s|
        ensures j in r <==> keep(s[j])
      {
        assert j in r <==> j in rest;
      }
    }
  }

  /** The positions of the elements of `s` that pass `keep`, in increasing order: the k-th
      position holds the k-th element `Filter` keeps. */
  function Positions<T>(s: seq<T>, keep: T -> bool): (r: seq<nat>)
    ensures |r| == |Filter(s, keep)|
    ensures forall k :: 0 <= k < |r| ==> r[k] < |s| && s[r[k]] == Filter(s, keep)[k]
    ensures forall k, l :: 0 <= k < l < |r| ==> r[k] < r[l]
    ensures forall j :: 0 <= j < |s| ==> (j in r <==> keep(s[j]))
  {
    assert s[0..] == s;
    PositionsFromSelect(s, keep, 0);
    PositionsFromMembers(s, keep, 0);
    PositionsFrom(s, keep, 0)
  }

  /** Filtering keeps everything exactly when every element passes. */
  lemma {:induction false} FilterAll<T>(s: seq<T>, keep: T -> bool)
    ensures (forall x :: x in s ==> keep(x)) <==> Filter(s, keep) == s
    decreases |s|
  {
    if |s| > 0 {
      FilterAll(s[1..], keep);
      if Filter(s, keep) == s {
        assert |Filter(s[1..], keep)| <= |s| - 1;
      }
    }
  }

  /** Two filters whose predicates never both hold select at most |s| elements together. */
  lemma {:induction false} FilterDisjoint<T>(s: seq<T>, p: T -> bool, q: T -> bool)
    requires forall x :: !(p(x) && q(x))
    ensures |Filter(s, p)| + |Filter(s, q)| <= |s|
    decreases |s|
  {
    if |s| > 0 {
      FilterDisjoint(s[1..], p, q);
    }
  }

  /** A filter whose predicate implies another's selects no more elements. */
  lemma {:induction false} FilterMonotone<T>(s: seq<T>, p: T -> bool, q: T -> bool)
    requires forall x :: p(x) ==> q(x)
    ensures |Filter(s, p)| <= |Filter(s, q)|
    decreases |s|
  {
    if |s| > 0 {
      FilterMonotone(s[1..], p, q);
    }
  }

  /** Filtering a prefix gives a prefix of the filtered sequence. */
  lemma {:induction false} FilterPrefix<T>(s: seq<T>, k: nat, keep: T -> bool)
    requires k <= |s|
    ensures IsPrefix(Filter(s[..k], keep), Filter(s, keep))
  {
    assert s == s[..k] + s[k..];
    FilterAppend(s[..k], s[k..], keep);
  }

  /** The multiset of a prefix is contained in the multiset of the whole sequence. */
  lemma PrefixMultiset<T>(s: seq<T>, k: nat)
    requires k <= |s|
    ensures multiset(s[..k]) <= multiset(s)
    ensures multiset(s) - multiset(s[..k]) == multiset(s[k..])
  {
    assert s == s[..k] + s[k..];
  }

  /** A filter that keeps as many elements as there are keeps all of them. */
  lemma {:induction false} FilterAllByLength<T>(s: seq<T>, keep: T -> bool)
    requires |Filter(s, keep)| == |s|
    ensures Filter(s, keep) == s
    decreases |s|
  {
    if |s| > 0 {
      FilterAllByLength(s[1..], keep);
    }
  }
}

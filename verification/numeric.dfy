/** Exact-real versions of the numpy/pandas reductions the program uses:
    `np.abs`, `np.clip`, `min`, `max`, `Series.sum`, `Series.mean`, `Series.max`. */
module Numeric {

  function Abs(x: real): (r: real)
    ensures r >= 0.0
    ensures r == x || r == -x
  {
    if x < 0.0 then -x else x
  }

  /** `np.clip(x, lo, hi)`: `x` pulled into the closed interval [lo, hi]. */
  function Clip(x: real, lo: real, hi: real): (r: real)
    requires lo <= hi
    ensures lo <= r <= hi
    ensures lo <= x <= hi ==> r == x
    ensures x <= lo ==> r == lo
    ensures x >= hi ==> r == hi
  {
    if x < lo then lo else if x > hi then hi else x
  }

  lemma ClipMonotone(x: real, y: real, lo: real, hi: real)
    requires lo <= hi
    requires x <= y
    ensures Clip(x, lo, hi) <= Clip(y, lo, hi)
  {
  }

  // Real products and quotients are outside linear arithmetic; every nonlinear step of the
  // model goes through one of the small lemmas below.

  lemma MulNonNeg(x: real, y: real)
    requires x >= 0.0 && y >= 0.0
    ensures x * y >= 0.0
  {
  }

  lemma MulPos(x: real, y: real)
    requires x > 0.0 && y > 0.0
    ensures x * y > 0.0
  {
  }

  /** Multiplying both sides by a non-negative factor keeps the order. */
  lemma MulMonotone(a: real, b: real, k: real)
    requires a <= b && k >= 0.0
    ensures a * k <= b * k
  {
    var d := b - a;
    MulNonNeg(d, k);
    assert d * k == b * k - a * k;
  }

  /** The same order for two products given by name. */
  lemma ScaledOrder(a: real, b: real, k: real, x: real, y: real)
    requires a <= b && k >= 0.0 && x == a * k && y == b * k
    ensures x <= y
  {
    MulMonotone(a, b, k);
  }

  /** A non-negative factor on the left keeps the order too. */
  lemma MulMonotoneLeft(k: real, a: real, b: real)
    requires a <= b && k >= 0.0
    ensures k * a <= k * b
  {
    var d := b - a;
    MulNonNeg(k, d);
    assert k * d == k * b - k * a;
  }

  /** Scaling a non-negative value by a factor in [0, 1] keeps it between 0 and itself. */
  lemma ScaleNonNeg(c: real, t: real)
    requires c >= 0.0 && 0.0 <= t <= 1.0
    ensures 0.0 <= c * t
    ensures c * t <= c
  {
    var u := 1.0 - t;
    MulNonNeg(c, t);
    MulNonNeg(c, u);
    assert c * u == c - c * t;
  }

  /** Scaling a non-positive value by a factor in [0, 1] keeps it between itself and 0. */
  lemma ScaleNonPos(c: real, t: real)
    requires c <= 0.0 && 0.0 <= t <= 1.0
    ensures c <= c * t
    ensures c * t <= 0.0
  {
    var m := -c;
    ScaleNonNeg(m, t);
    assert m * t == -(c * t);
  }

  /** Scaling a non-negative value by a factor in [1, 2] keeps it between itself and twice it. */
  lemma ScaleUp(c: real, u: real, p: real)
    requires c >= 0.0 && 1.0 <= u <= 2.0 && p == c * u
    ensures c <= p <= 2.0 * c
  {
    var below, above := u - 1.0, 2.0 - u;
    MulNonNeg(c, below);
    MulNonNeg(c, above);
    assert c * below == p - c;
    assert c * above == 2.0 * c - p;
  }

  /** A positive value grows under a factor above 1. */
  lemma ScaledAbove(x: real, k: real)
    ensures x > 0.0 && k > 1.0 ==> x * k > x
  {
    if x > 0.0 && k > 1.0 {
      var e := k - 1.0;
      MulPos(x, e);
      assert x * e == x * k - x;
    }
  }

  /** A positive value shrinks under a factor below 1. */
  lemma ScaledBelow(x: real, k: real)
    ensures x > 0.0 && k < 1.0 ==> x * k < x
  {
    if x > 0.0 && k < 1.0 {
      var e := 1.0 - k;
      MulPos(x, e);
      assert x * e == x - x * k;
    }
  }

  lemma DivAtMost(x: real, n: real, hi: real)
    requires n > 0.0 && x <= n * hi
    ensures x / n <= hi
  {
    var q := x / n;
    assert q * n == x;
    if q > hi {
      MulPos(q - hi, n);
    }
  }

  lemma DivAtLeast(x: real, n: real, lo: real)
    requires n > 0.0 && n * lo <= x
    ensures lo <= x / n
  {
    var q := x / n;
    assert q * n == x;
    if q < lo {
      MulPos(lo - q, n);
    }
  }

  function Min(a: real, b: real): (r: real)
    ensures r <= a && r <= b
    ensures r == a || r == b
  {
    if a <= b then a else b
  }

  function Max2(a: real, b: real): (r: real)
    ensures r >= a && r >= b
    ensures r == a || r == b
  {
    if a >= b then a else b
  }

  /** Python's `min(a, b, c)`. */
  function Min3(a: real, b: real, c: real): (r: real)
    ensures r <= a && r <= b && r <= c
    ensures r == a || r == b || r == c
  {
    Min(Min(a, b), c)
  }

  function Sum(s: seq<real>): real {
    if |s| == 0 then 0.0 else s[0] + Sum(s[1..])
  }

  /** `Series.mean()` of a series without missing values. */
  function Mean(s: seq<real>): real
    requires |s| > 0
  {
    Sum(s) / |s| as real
  }

  /** `Series.max()` of a series without missing values. */
  function Max(s: seq<real>): (m: real)
    requires |s| > 0
    ensures m in s
    ensures forall x :: x in s ==> x <= m
  {
    if |s| == 1 then s[0]
    else
      var rest := Max(s[1..]);
      assert forall x :: x in s ==> x == s[0] || x in s[1..];
      Max2(s[0], rest)
  }

  /** `count / total` as Python's true division; a share of the total lies in [0, 1]. */
  function Rate(count: nat, total: nat): (r: real)
    requires total > 0
    requires count <= total
    ensures 0.0 <= r <= 1.0
    ensures r * total as real == count as real
    ensures r == 0.0 <==> count == 0
    ensures r == 1.0 <==> count == total
  {
    var r := (count as real) / (total as real);
    DivAtLeast(count as real, total as real, 0.0);
    DivAtMost(count as real, total as real, 1.0);
    assert r == 1.0 ==> count == total by {
      if r == 1.0 {
        assert r * total as real == count as real;
      }
    }
    r
  }

  /** Two values whose multiples `p` and `q` by a positive `t` add up to at most `t` add up
      to at most 1. */
  lemma FractionsAtMostOne(x: real, y: real, t: real, p: real, q: real)
    requires t > 0.0 && x * t == p && y * t == q && p + q <= t
    ensures x + y <= 1.0
  {
    var d := x + y - 1.0;
    assert d * t == x * t + y * t - t;
    if d > 0.0 {
      MulPos(d, t);
    }
  }

  /** Shares of disjoint parts of one total add up to at most 1. */
  lemma RatesOfDisjointParts(a: nat, b: nat, total: nat)
    requires total > 0
    requires a + b <= total
    ensures Rate(a, total) + Rate(b, total) <= 1.0
  {
    FractionsAtMostOne(Rate(a, total), Rate(b, total), total as real, a as real, b as real);
  }

  lemma {:induction false} SumAtMost(s: seq<real>, hi: real)
    requires forall i :: 0 <= i < |s| ==> s[i] <= hi
    ensures Sum(s) <= |s| as real * hi
  {
    if |s| > 0 {
      SumAtMost(s[1..], hi);
    }
  }

  lemma {:induction false} SumAtLeast(s: seq<real>, lo: real)
    requires forall i :: 0 <= i < |s| ==> lo <= s[i]
    ensures |s| as real * lo <= Sum(s)
  {
    if |s| > 0 {
      SumAtLeast(s[1..], lo);
    }
  }

  /** The mean of a single value is that value. */
  lemma MeanOfOne(v: real)
    ensures Mean([v]) == v
  {
    assert [v][1..] == [];
    assert Sum([v]) == v;
    assert |[v]| as real == 1.0;
  }

  /** A mean of values at most `hi` is at most `hi`. */
  lemma MeanAtMost(s: seq<real>, hi: real)
    requires |s| > 0
    requires forall i :: 0 <= i < |s| ==> s[i] <= hi
    ensures Mean(s) <= hi
  {
    SumAtMost(s, hi);
    DivAtMost(Sum(s), |s| as real, hi);
  }

  /** A mean of values at least `lo` is at least `lo`. */
  lemma MeanAtLeast(s: seq<real>, lo: real)
    requires |s| > 0
    requires forall i :: 0 <= i < |s| ==> lo <= s[i]
    ensures lo <= Mean(s)
  {
    SumAtLeast(s, lo);
    DivAtLeast(Sum(s), |s| as real, lo);
  }

  /** A mean never exceeds the maximum. */
  lemma MeanAtMostMax(s: seq<real>)
    requires |s| > 0
    ensures Mean(s) <= Max(s)
  {
    var m := Max(s);
    forall i | 0 <= i < |s|
      ensures s[i] <= m
    {
      assert s[i] in s;
    }
    MeanAtMost(s, m);
  }

  /** Multiplying every element by `c` multiplies the sum by `c`. */
  lemma {:induction false} SumScaled(a: seq<real>, b: seq<real>, c: real)
    requires |a| == |b|
    requires forall i :: 0 <= i < |a| ==> b[i] == c * a[i]
    ensures Sum(b) == c * Sum(a)
  {
    if |a| > 0 {
      SumScaled(a[1..], b[1..], c);
    }
  }

  /** Multiplying every element by `c` multiplies the mean by `c`. */
  lemma MeanScaled(a: seq<real>, b: seq<real>, c: real)
    requires |a| == |b| > 0
    requires forall i :: 0 <= i < |a| ==> b[i] == c * a[i]
    ensures Mean(b) == c * Mean(a)
  {
    SumScaled(a, b, c);
    var n := |a| as real;
    var q := Sum(a) / n;
    assert q * n == Sum(a);
    assert (c * q) * n == c * Sum(a);
  }
}

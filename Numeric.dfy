/**
 * Arithmetic on the numeric columns: `sum`, `min`, `max`, the mean,
 * `sorted`, numpy's half-to-even `round()` and Python's truncating
 * `int()`. Floating point is modelled by `real`.
 */
module Numeric {
  import opened Sequences

  /** `sum(xs)`, accumulated left to right. */
  function Sum(xs: seq<real>): real {
    if xs == [] then 0.0 else Sum(xs[..|xs| - 1]) + xs[|xs| - 1]
  }

  lemma {:induction false} SumAppend(a: seq<real>, b: seq<real>)
    ensures Sum(a + b) == Sum(a) + Sum(b)
  {
    if b == [] {
      assert a + b == a;
    } else {
      assert (a + b)[..|a + b| - 1] == a + b[..|b| - 1];
      SumAppend(a, b[..|b| - 1]);
    }
  }

  /** A sum of `n` values between `lo` and `hi` lies between `n * lo` and `n * hi`. */
  lemma {:induction false} SumBounds(xs: seq<real>, lo: real, hi: real)
    requires forall i :: 0 <= i < |xs| ==> lo <= xs[i] <= hi
    ensures |xs| as real * lo <= Sum(xs) <= |xs| as real * hi
  {
    if xs != [] {
      var n := |xs| as real;
      SumBounds(xs[..|xs| - 1], lo, hi);
      assert n * lo == (n - 1.0) * lo + lo;
      assert n * hi == (n - 1.0) * hi + hi;
    }
  }

  /** A sum of non-negative values is non-negative. */
  lemma SumNonNegative(xs: seq<real>)
    requires forall i :: 0 <= i < |xs| ==> 0.0 <= xs[i]
    ensures 0.0 <= Sum(xs)
  {
    if xs != [] {
      SumBounds(xs, 0.0, MaxOf(xs));
    }
  }

  /** A sum of non-negative values with one positive value is positive. */
  lemma {:induction false} SumPositive(xs: seq<real>, k: nat)
    requires k < |xs| && xs[k] > 0.0
    requires forall i :: 0 <= i < |xs| ==> xs[i] >= 0.0
    ensures Sum(xs) > 0.0
  {
    var init := xs[..|xs| - 1];
    assert forall i :: 0 <= i < |init| ==> init[i] == xs[i];
    if k == |xs| - 1 {
      SumBounds(init, 0.0, MaxOf(xs));
    } else {
      SumPositive(init, k);
    }
  }

  /** `min(xs)`: an element of `xs` no larger than any other. */
  function MinOf(xs: seq<real>): (m: real)
    requires xs != []
    ensures m in xs
    ensures forall i :: 0 <= i < |xs| ==> m <= xs[i]
  {
    if |xs| == 1 then xs[0]
    else
      var m := MinOf(xs[..|xs| - 1]);
      assert forall i :: 0 <= i < |xs| - 1 ==> xs[i] == xs[..|xs| - 1][i];
      if xs[|xs| - 1] < m then xs[|xs| - 1] else m
  }

  /** `max(xs)`: an element of `xs` no smaller than any other. */
  function MaxOf(xs: seq<real>): (m: real)
    requires xs != []
    ensures m in xs
    ensures forall i :: 0 <= i < |xs| ==> xs[i] <= m
  {
    if |xs| == 1 then xs[0]
    else
      var m := MaxOf(xs[..|xs| - 1]);
      assert forall i :: 0 <= i < |xs| - 1 ==> xs[i] == xs[..|xs| - 1][i];
      if xs[|xs| - 1] > m then xs[|xs| - 1] else m
  }

  /** `sum(xs) / len(xs)`, which is also pandas' `mean()`. */
  function Mean(xs: seq<real>): real
    requires xs != []
  {
    Sum(xs) / |xs| as real
  }

  /** The mean lies between the minimum and the maximum. */
  lemma MeanBounds(xs: seq<real>)
    requires xs != []
    ensures MinOf(xs) <= Mean(xs) <= MaxOf(xs)
  {
    MeanBetween(xs, MinOf(xs), MaxOf(xs));
  }

  /** Values that all lie between `lo` and `hi` have their mean there too. */
  lemma MeanBetween(xs: seq<real>, lo: real, hi: real)
    requires xs != []
    requires forall i :: 0 <= i < |xs| ==> lo <= xs[i] <= hi
    ensures lo <= Mean(xs) <= hi
  {
    SumBounds(xs, lo, hi);
    QuotientBounds(Sum(xs), |xs| as real, lo, hi);
  }

  lemma QuotientBounds(s: real, n: real, lo: real, hi: real)
    requires n > 0.0 && n * lo <= s <= n * hi
    ensures lo <= s / n <= hi
  {
    var q := s / n;
    assert q * n == s;
    assert n * (q - lo) >= 0.0;
    assert n * (hi - q) >= 0.0;
  }

  /** The mean of values that are all equal to `c` is `c`. */
  lemma MeanConstant(xs: seq<real>, c: real)
    requires xs != []
    requires forall i :: 0 <= i < |xs| ==> xs[i] == c
    ensures Mean(xs) == c
  {
    MeanBetween(xs, c, c);
  }

  predicate Sorted(xs: seq<real>) {
    forall i, j :: 0 <= i <= j < |xs| ==> xs[i] <= xs[j]
  }

  /** A value no greater than the head of an ascending sequence extends it in order. */
  lemma SortedCons(h: real, t: seq<real>)
    requires Sorted(t) && (t != [] ==> h <= t[0])
    ensures Sorted([h] + t)
  {
    forall i, j | 0 <= i <= j < |[h] + t|
      ensures ([h] + t)[i] <= ([h] + t)[j]
    {
      if 0 < i {
        assert ([h] + t)[i] == t[i - 1] && ([h] + t)[j] == t[j - 1];
      } else if 0 < j {
        assert ([h] + t)[j] == t[j - 1] && t[0] <= t[j - 1];
      }
    }
  }

  function Insert(x: real, s: seq<real>): (r: seq<real>)
    requires Sorted(s)
    ensures Sorted(r)
    ensures multiset(r) == multiset(s) + multiset{x}
    ensures r[0] == x || (s != [] && r[0] == s[0])
  {
    if s == [] || x <= s[0] then
      SortedCons(x, s);
      [x] + s
    else
      var t := Insert(x, s[1..]);
      MultisetCons(s);
      SortedCons(s[0], t);
      [s[0]] + t
  }

  /** `sorted(xs)`: the same values in non-decreasing order. */
  function Sort(xs: seq<real>): (r: seq<real>)
    ensures Sorted(r)
    ensures multiset(r) == multiset(xs)
    ensures |r| == |xs|
  {
    if xs == [] then []
    else
      assert xs == [xs[0]] + xs[1..];
      var r := Insert(xs[0], Sort(xs[1..]));
      assert |r| == |multiset(r)|;
      r
  }
  /** Two values are sorted into ascending order, whichever comes first. */
  lemma SortPair(x: real, y: real)
    ensures Sort([x, y]) == if x <= y then [x, y] else [y, x]
  {
    var r := Sort([x, y]);
    assert r[0] in multiset(r) && r[1] in multiset(r);
    assert multiset(r) == multiset{x, y};
    assert r[0] <= r[1];
    if x <= y {
      assert r == [x, y];
    } else {
      assert r == [y, x];
    }
  }

  /** The first element of an ascending rearrangement of `xs` is the minimum of `xs`. */
  lemma SortedFirstIsMin(xs: seq<real>, r: seq<real>)
    requires xs != [] && Sorted(r) && multiset(r) == multiset(xs)
    ensures |r| == |xs| && r[0] == MinOf(xs)
  {
    assert |r| == |multiset(r)| == |multiset(xs)| == |xs|;
    assert MinOf(xs) in multiset(r);
    var i :| 0 <= i < |r| && r[i] == MinOf(xs);
    assert r[0] <= r[i];
    assert r[0] in multiset(xs);
    var p :| 0 <= p < |xs| && xs[p] == r[0];
  }

  /** The last element of an ascending rearrangement of `xs` is the maximum of `xs`. */
  lemma SortedLastIsMax(xs: seq<real>, r: seq<real>)
    requires xs != [] && Sorted(r) && multiset(r) == multiset(xs)
    ensures |r| == |xs| && r[|r| - 1] == MaxOf(xs)
  {
    assert |r| == |multiset(r)| == |multiset(xs)| == |xs|;
    var n := |r| - 1;
    assert MaxOf(xs) in multiset(r);
    var j :| 0 <= j < |r| && r[j] == MaxOf(xs);
    assert r[j] <= r[n];
    assert r[n] in multiset(xs);
    var q :| 0 <= q < |xs| && xs[q] == r[n];
  }

  /** The first and last elements of the sorted values are the minimum and the maximum. */
  lemma SortEnds(xs: seq<real>)
    requires xs != []
    ensures Sort(xs)[0] == MinOf(xs)
    ensures Sort(xs)[|xs| - 1] == MaxOf(xs)
  {
    SortedFirstIsMin(xs, Sort(xs));
    SortedLastIsMax(xs, Sort(xs));
  }

  /** How many of `xs` lie strictly below `v` or, when `inclusive`, at or below it. */
  function Count(xs: seq<real>, v: real, inclusive: bool): (n: nat)
    ensures n <= |xs|
  {
    if xs == [] then 0
    else (if xs[0] < v || (inclusive && xs[0] == v) then 1 else 0) + Count(xs[1..], v, inclusive)
  }

  /** Inserting `x` adds one to the count exactly when `x` itself is counted. */
  lemma {:induction false} CountInsert(x: real, s: seq<real>, v: real, inclusive: bool)
    requires Sorted(s)
    ensures Count(Insert(x, s), v, inclusive) ==
      Count(s, v, inclusive) + (if x < v || (inclusive && x == v) then 1 else 0)
  {
    if s == [] || x <= s[0] {
      assert ([x] + s)[1..] == s;
    } else {
      CountInsert(x, s[1..], v, inclusive);
      assert ([s[0]] + Insert(x, s[1..]))[1..] == Insert(x, s[1..]);
    }
  }

  /** Sorting keeps every count. */
  lemma {:induction false} CountSort(xs: seq<real>, v: real, inclusive: bool)
    ensures Count(Sort(xs), v, inclusive) == Count(xs, v, inclusive)
  {
    if xs != [] {
      CountSort(xs[1..], v, inclusive);
      CountInsert(xs[0], Sort(xs[1..]), v, inclusive);
    }
  }

  /** No value below `v` gives a strict count of zero. */
  lemma {:induction false} CountNoneBelow(xs: seq<real>, v: real)
    requires forall i :: 0 <= i < |xs| ==> v <= xs[i]
    ensures Count(xs, v, false) == 0
  {
    if xs != [] {
      assert forall i :: 0 <= i < |xs[1..]| ==> xs[1..][i] == xs[i + 1];
      CountNoneBelow(xs[1..], v);
    }
  }

  /** In an ascending sequence, at most `k` values lie below `s[k]` and more than `k` lie at or below it. */
  lemma {:induction false} SortedRank(s: seq<real>, k: nat)
    requires Sorted(s) && k < |s|
    ensures Count(s, s[k], false) <= k < Count(s, s[k], true)
  {
    var t := s[1..];
    assert forall i :: 0 <= i < |t| ==> t[i] == s[i + 1];
    assert Sorted(t);
    if k == 0 {
      CountNoneBelow(s, s[0]);
    } else {
      assert s[0] <= s[k] && t[k - 1] == s[k];
      SortedRank(t, k - 1);
    }
  }

  /**
   * `sorted(xs)[k]` is the value of rank `k`: at most `k` values of `xs`
   * lie below it, and more than `k` lie at or below it.
   */
  lemma RankOfSorted(xs: seq<real>, k: nat)
    requires k < |xs|
    ensures Count(xs, Sort(xs)[k], false) <= k < Count(xs, Sort(xs)[k], true)
  {
    var v := Sort(xs)[k];
    SortedRank(Sort(xs), k);
    CountSort(xs, v, false);
    CountSort(xs, v, true);
  }

  /** Every value equals the first. */
  predicate AllEqual(xs: seq<real>) {
    forall i :: 0 <= i < |xs| ==> xs[i] == xs[0]
  }

  /** Sorting neither creates nor removes a difference between values. */
  lemma SortAllEqual(xs: seq<real>)
    ensures AllEqual(Sort(xs)) <==> AllEqual(xs)
  {
    var r := Sort(xs);
    if xs != [] {
      if !AllEqual(xs) {
        var i :| 0 <= i < |xs| && xs[i] != xs[0];
        assert xs[i] in multiset(r) && xs[0] in multiset(r);
      }
      if !AllEqual(r) {
        var i :| 0 <= i < |r| && r[i] != r[0];
        assert r[i] in multiset(xs) && r[0] in multiset(xs);
      }
    }
  }

  /** numpy's `round()`: the nearest integer, a tie going to the even neighbour. */
  function RoundHalfEven(x: real): (n: int)
    ensures x - 0.5 <= n as real <= x + 0.5
    ensures (n as real == x - 0.5 || n as real == x + 0.5) ==> n % 2 == 0
  {
    var f := x.Floor;
    var d := x - f as real;
    if d < 0.5 then f
    else if d > 0.5 then f + 1
    else if f % 2 == 0 then f
    else f + 1
  }

  /** Rounding a value between two integers stays between them. */
  lemma RoundBetween(x: real, lo: int, hi: int)
    requires lo as real <= x <= hi as real
    ensures lo <= RoundHalfEven(x) <= hi
  {
    var f := x.Floor;
    assert lo <= f;
    if f == hi {
      assert x == hi as real;
    }
  }

  /** Python's `int()` on a float: truncation toward zero. */
  function Trunc(x: real): (n: int)
    ensures 0.0 <= x ==> n as real <= x < n as real + 1.0
    ensures x < 0.0 ==> n as real - 1.0 < x <= n as real
  {
    if x >= 0.0 then x.Floor else -((-x).Floor)
  }
}

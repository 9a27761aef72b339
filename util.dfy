/** `app/util.py` and the two `statistics` functions the reader and the drift
    filter use: `median` (the middle of a sorted copy) and `pstdev` (the
    square root of the population variance), and the exponential moving
    average both smoothing stages share. The model stays with the variance,
    so a spread is compared by its square. */
module Util {
  import opened Wrappers

  /** `abs` on a real. */
  function Abs(x: real): real {
    if x < 0.0 then -x else x
  }

  predicate Sorted(s: seq<real>) {
    forall i, j :: 0 <= i < j < |s| ==> s[i] <= s[j]
  }

  /** Insert `x` into a sorted sequence, before the first element not below it. */
  function Insert(x: real, s: seq<real>): (r: seq<real>)
    requires Sorted(s)
    ensures Sorted(r)
    ensures multiset(r) == multiset(s) + multiset{x}
    decreases |s|
  {
    if s == [] || x <= s[0] then [x] + s
    else
      var t := Insert(x, s[1..]);
      assert s == [s[0]] + s[1..];
      HeadBelowAll(x, s, t);
      ConsSorted(s[0], t);
      [s[0]] + t
  }

  lemma ConsSorted(h: real, t: seq<real>)
    requires Sorted(t) && forall k :: 0 <= k < |t| ==> h <= t[k]
    ensures Sorted([h] + t)
  {
  }

  /** The head of a sorted sequence is below every element of its tail with
      `x` added, when it is below `x`. */
  lemma HeadBelowAll(x: real, s: seq<real>, t: seq<real>)
    requires Sorted(s) && s != [] && s[0] <= x
    requires multiset(t) == multiset(s[1..]) + multiset{x}
    ensures forall k :: 0 <= k < |t| ==> s[0] <= t[k]
  {
    forall k | 0 <= k < |t| ensures s[0] <= t[k] {
      assert t[k] in multiset(t);
      if t[k] != x {
        assert t[k] in multiset(s[1..]);
        var j :| 0 <= j < |s[1..]| && s[1..][j] == t[k];
        assert s[j + 1] == t[k];
      }
    }
  }

  /** Python's `sorted(values)`: an ascending permutation of the input. */
  function SortedCopy(s: seq<real>): (r: seq<real>)
    ensures Sorted(r)
    ensures multiset(r) == multiset(s)
    ensures |r| == |s|
    decreases |s|
  {
    if s == [] then []
    else
      assert s == [s[0]] + s[1..];
      Insert(s[0], SortedCopy(s[1..]))
  }

  /** Two ascending sequences holding the same elements are equal: sorting has one answer. */
  lemma {:induction false} SortedUnique(a: seq<real>, b: seq<real>)
    requires Sorted(a) && Sorted(b)
    requires multiset(a) == multiset(b)
    ensures a == b
    decreases |a|
  {
    if a != [] {
      SortedHeadsAgree(a, b);
      MultisetOfTail(a);
      MultisetOfTail(b);
      SortedTail(a);
      SortedTail(b);
      SortedUnique(a[1..], b[1..]);
      assert a == [a[0]] + a[1..];
      assert b == [b[0]] + b[1..];
    }
  }

  /** Two ascending sequences holding the same elements start alike. */
  lemma SortedHeadsAgree(a: seq<real>, b: seq<real>)
    requires Sorted(a) && Sorted(b)
    requires multiset(a) == multiset(b)
    requires a != []
    ensures b != [] && a[0] == b[0]
  {
    assert a[0] in multiset(b);
    var i :| 0 <= i < |b| && b[i] == a[0];
    assert b[0] in multiset(a);
    var j :| 0 <= j < |a| && a[j] == b[0];
    assert b[0] <= b[i] && a[0] <= a[j];
  }

  lemma SortedTail(a: seq<real>)
    requires Sorted(a) && a != []
    ensures Sorted(a[1..])
  {
  }

  lemma MultisetOfTail(a: seq<real>)
    requires a != []
    ensures multiset(a[1..]) == multiset(a) - multiset{a[0]}
  {
    assert a == [a[0]] + a[1..];
  }

  function Min(s: seq<real>): (m: real)
    requires |s| > 0
    ensures m in s
    ensures forall k :: 0 <= k < |s| ==> m <= s[k]
  {
    if |s| == 1 then s[0]
    else
      var t := Min(s[1..]);
      if s[0] <= t then s[0] else t
  }

  function Max(s: seq<real>): (m: real)
    requires |s| > 0
    ensures m in s
    ensures forall k :: 0 <= k < |s| ==> s[k] <= m
  {
    if |s| == 1 then s[0]
    else
      var t := Max(s[1..]);
      if s[0] >= t then s[0] else t
  }

  /** `statistics.median` on a non-empty sequence: the middle element of the
      sorted copy for an odd length, the mean of the two middle ones for an
      even length. */
  function Median(s: seq<real>): real
    requires |s| > 0
  {
    var t := SortedCopy(s);
    var n := |t|;
    if n % 2 == 1 then t[n / 2] else (t[n / 2 - 1] + t[n / 2]) / 2.0
  }

  /** `median_of`: the median, or 0.0 for no values. */
  function MedianOf(values: seq<real>): (r: real)
    ensures values == [] ==> r == 0.0
    ensures values != [] ==> Min(values) <= r <= Max(values)
  {
    if values == [] then 0.0
    else
      MedianBounded(values);
      Median(values)
  }

  /** The median is the middle of ANY ascending arrangement of the values. */
  lemma MedianOfSortedArrangement(s: seq<real>, t: seq<real>)
    requires |s| > 0
    requires Sorted(t) && multiset(t) == multiset(s)
    ensures |t| == |s|
    ensures Median(s) == if |t| % 2 == 1 then t[|t| / 2] else (t[|t| / 2 - 1] + t[|t| / 2]) / 2.0
  {
    SortedUnique(SortedCopy(s), t);
  }

  /** The median does not depend on the order of its input. */
  lemma MedianOrderIndependent(s: seq<real>, t: seq<real>)
    requires |s| > 0
    requires multiset(s) == multiset(t)
    ensures |t| > 0 && Median(s) == Median(t)
  {
    assert s[0] in multiset(t);
    SortedUnique(SortedCopy(s), SortedCopy(t));
  }

  /** The median lies between the smallest and the largest value. */
  lemma MedianBounded(s: seq<real>)
    requires |s| > 0
    ensures Min(s) <= Median(s) <= Max(s)
  {
    var t := SortedCopy(s);
    var lo, hi := Min(s), Max(s);
    forall k | 0 <= k < |t| ensures lo <= t[k] <= hi {
      assert t[k] in multiset(s);
      var j :| 0 <= j < |s| && s[j] == t[k];
    }
    var n := |t|;
    if n % 2 == 0 {
      assert lo <= t[n / 2 - 1] <= hi && lo <= t[n / 2] <= hi;
    }
  }

  function Sum(s: seq<real>): real
    decreases |s|
  {
    if s == [] then 0.0 else s[0] + Sum(s[1..])
  }

  /** The sum of the squared distances of the values from `c`. */
  function SquaredDeviations(s: seq<real>, c: real): (r: real)
    ensures r >= 0.0
    decreases |s|
  {
    if s == [] then 0.0
    else
      var d := s[0] - c;
      d * d + SquaredDeviations(s[1..], c)
  }

  function Mean(s: seq<real>): real
    requires |s| > 0
  {
    Sum(s) / |s| as real
  }

  /** `statistics.pvariance`: the mean squared distance from the mean. */
  function PVariance(s: seq<real>): (v: real)
    requires |s| > 0
    ensures v >= 0.0
  {
    SquaredDeviations(s, Mean(s)) / |s| as real
  }

  /** What `stdev_of` returns: infinity below two values, otherwise the
      population standard deviation, the square root of `variance`. */
  datatype Stdev = Infinite | SqrtOf(variance: real)

  /** `stdev_of` */
  function StdevOf(values: seq<real>): (r: Stdev)
    ensures r.Infinite? <==> |values| < 2
    ensures r.SqrtOf? ==> r.variance >= 0.0
  {
    if |values| >= 2 then SqrtOf(PVariance(values)) else Infinite
  }

  lemma {:induction false} SumOfConstant(s: seq<real>, c: real)
    requires forall k :: 0 <= k < |s| ==> s[k] == c
    ensures Sum(s) == |s| as real * c
    decreases |s|
  {
    if s != [] {
      SumOfConstant(s[1..], c);
    }
  }

  lemma {:induction false} SquaredDeviationsOfConstant(s: seq<real>, c: real)
    requires forall k :: 0 <= k < |s| ==> s[k] == c
    ensures SquaredDeviations(s, c) == 0.0
    decreases |s|
  {
    if s != [] {
      SquaredDeviationsOfConstant(s[1..], c);
    }
  }

  /** Equal values have no spread. */
  lemma PVarianceOfConstant(s: seq<real>)
    requires |s| > 0
    requires forall k :: 0 <= k < |s| ==> s[k] == s[0]
    ensures PVariance(s) == 0.0
  {
    SumOfConstant(s, s[0]);
    assert Mean(s) == s[0];
    SquaredDeviationsOfConstant(s, s[0]);
  }

  /** `stdev_of` of two or more equal values is zero. */
  lemma StdevOfConstant(values: seq<real>)
    requires |values| >= 2
    requires forall k :: 0 <= k < |values| ==> values[k] == values[0]
    ensures StdevOf(values) == SqrtOf(0.0)
  {
    PVarianceOfConstant(values);
  }

  /** An exponential moving average with weight `alpha` after one more
      value `m`: the value itself when there is no average yet. */
  function EmaStep(alpha: real, ema: Option<real>, m: real): real {
    if ema.None? then m else alpha * m + (1.0 - alpha) * ema.value
  }

  /** With a weight between 0 and 1 the average moves from its previous value
      towards the new value and never past it. */
  lemma EmaStepBetween(alpha: real, prev: real, m: real)
    requires 0.0 <= alpha <= 1.0
    ensures prev <= m ==> prev <= EmaStep(alpha, Some(prev), m) <= m
    ensures m <= prev ==> m <= EmaStep(alpha, Some(prev), m) <= prev
  {
    var e := EmaStep(alpha, Some(prev), m);
    assert e == prev + alpha * (m - prev);
    if prev <= m {
      MulNonNegative(alpha, m - prev);
      MulNonNegative(1.0 - alpha, m - prev);
    } else {
      MulNonNegative(alpha, prev - m);
      MulNonNegative(1.0 - alpha, prev - m);
    }
  }

  lemma MulNonNegative(a: real, b: real)
    requires a >= 0.0 && b >= 0.0
    ensures a * b >= 0.0
  {
  }
}

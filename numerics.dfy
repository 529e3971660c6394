/** Exact real arithmetic standing in for the floating-point library calls of
    the pricer, plus the sums and means of NumPy that the pricer reduces with. */
module Numerics {

  /** numpy.exp, numpy.log, numpy.sqrt and scipy.stats.norm.cdf, passed in as
      functions about which nothing is known except the laws stated below. */
  datatype NumLib = NumLib(exp: real -> real, log: real -> real, sqrt: real -> real, normCdf: real -> real)
  {
    /** The exponential is strictly positive and maps 0 to 1. */
    ghost predicate ExpLaws() {
      (forall x :: exp(x) > 0.0) && exp(0.0) == 1.0
    }

    /** The exponential is strictly increasing. */
    ghost predicate ExpIncreasing() {
      forall x, y :: x < y ==> exp(x) < exp(y)
    }

    /** The square root of a positive number is positive. */
    ghost predicate SqrtLaws() {
      forall x :: x > 0.0 ==> sqrt(x) > 0.0
    }

    /** The standard normal distribution function lies in [0, 1] and is
        symmetric about 0. */
    ghost predicate CdfLaws() {
      forall x :: 0.0 <= normCdf(x) <= 1.0 && normCdf(x) + normCdf(-x) == 1.0
    }
  }

  function Max(a: real, b: real): (m: real)
    ensures m >= a && m >= b
    ensures m == a || m == b
  {
    if a >= b then a else b
  }

  function Abs(x: real): (a: real)
    ensures a >= 0.0
    ensures a == x || a == -x
  {
    if x < 0.0 then -x else x
  }

  /** numpy.sum of a vector. */
  function Sum(s: seq<real>): real
  {
    if |s| == 0 then 0.0 else s[0] + Sum(s[1..])
  }

  /** numpy.mean of a non-empty vector. */
  function Mean(s: seq<real>): real
    requires |s| >= 1
  {
    Sum(s) / |s| as real
  }

  lemma {:induction false} SumNonNegative(s: seq<real>)
    requires forall i :: 0 <= i < |s| ==> s[i] >= 0.0
    ensures Sum(s) >= 0.0
  {
    if |s| > 0 {
      SumNonNegative(s[1..]);
    }
  }

  lemma MeanNonNegative(s: seq<real>)
    requires |s| >= 1
    requires forall i :: 0 <= i < |s| ==> s[i] >= 0.0
    ensures Mean(s) >= 0.0
  {
    SumNonNegative(s);
  }

  /** If a and b differ elementwise by c minus a constant k, their sums differ
      by the sum of c minus |c| copies of k. */
  lemma {:induction false} SumOfDifferences(a: seq<real>, b: seq<real>, c: seq<real>, k: real)
    requires |a| == |b| == |c|
    requires forall i :: 0 <= i < |c| ==> a[i] - b[i] == c[i] - k
    ensures Sum(a) - Sum(b) == Sum(c) - |c| as real * k
  {
    if |c| > 0 {
      SumOfDifferences(a[1..], b[1..], c[1..], k);
    }
  }

  /** The mean of a and the mean of b differ by the mean of c minus k. */
  lemma MeanOfDifferences(a: seq<real>, b: seq<real>, c: seq<real>, k: real)
    requires 1 <= |a| == |b| == |c|
    requires forall i :: 0 <= i < |c| ==> a[i] - b[i] == c[i] - k
    ensures Mean(a) - Mean(b) == Mean(c) - k
  {
    SumOfDifferences(a, b, c, k);
    var n := |c| as real;
    calc {
      Mean(a) - Mean(b);
      Sum(a) / n - Sum(b) / n;
      (Sum(a) - Sum(b)) / n;
      (Sum(c) - n * k) / n;
      Sum(c) / n - k;
    }
  }
}

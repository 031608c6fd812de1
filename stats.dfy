/**
 * Sums, means and population variance over exact reals, as the dashboard's
 * `reduce` folds and pandas's `mean` compute them (floating-point rounding is
 * not modelled). The square root is not part of the language: it is passed
 * in as a function that satisfies `IsSqrt`.
 */
module Stats {
  import opened Wrappers

  /** `s.reduce((a, b) => a + b, 0)`: a left fold from 0. */
  function Sum(s: seq<real>): real {
    if |s| == 0 then 0.0 else Sum(s[..|s| - 1]) + s[|s| - 1]
  }

  /** A sum of n values between lo and hi lies between n·lo and n·hi. */
  lemma {:induction false} SumBounds(s: seq<real>, lo: real, hi: real)
    requires forall i :: 0 <= i < |s| ==> lo <= s[i] <= hi
    ensures |s| as real * lo <= Sum(s) <= |s| as real * hi
  {
    if |s| > 0 {
      var p := s[..|s| - 1];
      assert forall i :: 0 <= i < |p| ==> p[i] == s[i];
      SumBounds(p, lo, hi);
    }
  }

  /** n copies of c sum to n·c. */
  lemma SumConstant(s: seq<real>, c: real)
    requires forall i :: 0 <= i < |s| ==> s[i] == c
    ensures Sum(s) == |s| as real * c
  {
    SumBounds(s, c, c);
  }

  /** `sum / n`; None is the NaN of 0 / 0 for an empty series. */
  function Mean(s: seq<real>): (m: Option<real>)
    ensures m.Some? <==> |s| > 0
    ensures m.Some? ==> m.value * |s| as real == Sum(s)
  {
    if |s| == 0 then None else Some(Sum(s) / |s| as real)
  }

  /** The mean of a non-empty series. */
  function MeanOf(s: seq<real>): (m: real)
    requires |s| > 0
    ensures Mean(s) == Some(m)
  {
    Mean(s).value
  }

  /** The mean lies between the bounds of the values. */
  lemma MeanBounds(s: seq<real>, lo: real, hi: real)
    requires |s| > 0 && forall i :: 0 <= i < |s| ==> lo <= s[i] <= hi
    ensures lo <= Mean(s).value <= hi
  {
    SumBounds(s, lo, hi);
    var n := |s| as real;
    var m := Mean(s).value;
    assert n * lo <= m * n <= n * hi;
    ScaleCancel(lo, m, n);
    ScaleCancel(m, hi, n);
  }

  /** Dividing an inequality by a positive factor. */
  lemma ScaleCancel(a: real, b: real, n: real)
    requires n > 0.0 && a * n <= b * n
    ensures a <= b
  {
    assert (b - a) * n >= 0.0;
    if b - a < 0.0 {
      ProductOfSigns(a - b, n);
    }
  }

  lemma ProductOfSigns(x: real, y: real)
    requires x > 0.0 && y > 0.0
    ensures x * y > 0.0
  {
  }

  lemma SquareNonNegative(x: real)
    ensures x * x >= 0.0
  {
    if x > 0.0 {
      ProductOfSigns(x, x);
    } else if x < 0.0 {
      ProductOfSigns(-x, -x);
    }
  }

  /** `s.reduce((sum, r) => sum + Math.pow(r - m, 2), 0)`. */
  function SquaredDeviations(s: seq<real>, m: real): real {
    if |s| == 0 then 0.0
    else SquaredDeviations(s[..|s| - 1], m) + (s[|s| - 1] - m) * (s[|s| - 1] - m)
  }

  lemma {:induction false} SquaredDeviationsNonNegative(s: seq<real>, m: real)
    ensures SquaredDeviations(s, m) >= 0.0
  {
    if |s| > 0 {
      SquaredDeviationsNonNegative(s[..|s| - 1], m);
      SquareNonNegative(s[|s| - 1] - m);
    }
  }

  /** A series all of whose values are m has no deviation from m. */
  lemma {:induction false} SquaredDeviationsConstant(s: seq<real>, m: real)
    requires forall i :: 0 <= i < |s| ==> s[i] == m
    ensures SquaredDeviations(s, m) == 0.0
  {
    if |s| > 0 {
      var p := s[..|s| - 1];
      assert forall i :: 0 <= i < |p| ==> p[i] == s[i];
      SquaredDeviationsConstant(p, m);
    }
  }

  /** The population variance: squared deviations from the mean divided by n; None (NaN) when empty. */
  function PopulationVariance(s: seq<real>): (v: Option<real>)
    ensures v.Some? <==> |s| > 0
    ensures v.Some? ==> v.value >= 0.0
  {
    match Mean(s)
    case None => None
    case Some(m) =>
      SquaredDeviationsNonNegative(s, m);
      Some(SquaredDeviations(s, m) / |s| as real)
  }

  /** A constant series has variance 0. */
  lemma ConstantVarianceZero(s: seq<real>, c: real)
    requires |s| > 0 && forall i :: 0 <= i < |s| ==> s[i] == c
    ensures PopulationVariance(s) == Some(0.0)
  {
    SumConstant(s, c);
    var m := Mean(s).value;
    assert m * |s| as real == |s| as real * c;
    assert m == c;
    SquaredDeviationsConstant(s, c);
  }

  /** What `Math.sqrt` satisfies: the non-negative root of a non-negative number, and +0 for +0 (ECMA-262, Math.sqrt). */
  ghost predicate IsSqrt(sqrt: real -> real) {
    sqrt(0.0) == 0.0 &&
    forall x :: x >= 0.0 ==> sqrt(x) >= 0.0 && sqrt(x) * sqrt(x) == x
  }
}

/**
 * Exact arithmetic over readings: sums, means and the population variance
 * that numpy's `mean` and `std` compute (with `ddof=0`), plus the two-decimal
 * rounding the sensor drivers apply to their results.
 */
module Numeric {

  function Sum(s: seq<real>): real
  {
    if s == [] then 0.0 else s[0] + Sum(s[1..])
  }

  function Mean(s: seq<real>): real
    requires |s| > 0
  {
    Sum(s) / (|s| as real)
  }

  /** Sum of squared deviations from `m`. */
  function SumSqDev(s: seq<real>, m: real): real
  {
    if s == [] then 0.0 else (s[0] - m) * (s[0] - m) + SumSqDev(s[1..], m)
  }

  /** Population variance: the square of numpy's `std` with its default `ddof=0`. */
  function PopVariance(s: seq<real>): real
    requires |s| > 0
  {
    SumSqDev(s, Mean(s)) / (|s| as real)
  }

  ghost predicate Within(s: seq<real>, lo: real, hi: real)
  {
    forall i :: 0 <= i < |s| ==> lo <= s[i] <= hi
  }

  ghost predicate AllEqual(s: seq<real>, c: real)
  {
    forall i :: 0 <= i < |s| ==> s[i] == c
  }

  lemma {:induction false} SumBounds(s: seq<real>, lo: real, hi: real)
    requires Within(s, lo, hi)
    ensures (|s| as real) * lo <= Sum(s) <= (|s| as real) * hi
  {
    if s != [] {
      assert Within(s[1..], lo, hi) by {
        forall i | 0 <= i < |s[1..]| ensures lo <= s[1..][i] <= hi {
          assert s[1..][i] == s[i + 1];
        }
      }
      SumBounds(s[1..], lo, hi);
    }
  }

  /** The mean of readings that all lie in [lo, hi] lies in [lo, hi]. */
  lemma MeanBounds(s: seq<real>, lo: real, hi: real)
    requires |s| > 0 && Within(s, lo, hi)
    ensures lo <= Mean(s) <= hi
  {
    SumBounds(s, lo, hi);
    var n := |s| as real;
    assert n * lo <= Sum(s) <= n * hi;
    assert Sum(s) / n >= lo by {
      assert Sum(s) / n * n == Sum(s);
    }
    assert Sum(s) / n <= hi by {
      assert Sum(s) / n * n == Sum(s);
    }
  }

  lemma {:induction false} SumConstant(s: seq<real>, c: real)
    requires AllEqual(s, c)
    ensures Sum(s) == (|s| as real) * c
  {
    if s != [] {
      assert AllEqual(s[1..], c) by {
        forall i | 0 <= i < |s[1..]| ensures s[1..][i] == c {
          assert s[1..][i] == s[i + 1];
        }
      }
      SumConstant(s[1..], c);
    }
  }

  lemma {:induction false} SumSqDevConstant(s: seq<real>, c: real)
    requires AllEqual(s, c)
    ensures SumSqDev(s, c) == 0.0
  {
    if s != [] {
      assert AllEqual(s[1..], c) by {
        forall i | 0 <= i < |s[1..]| ensures s[1..][i] == c {
          assert s[1..][i] == s[i + 1];
        }
      }
      SumSqDevConstant(s[1..], c);
    }
  }

  /** A window of identical readings has mean equal to that reading and zero variance. */
  lemma ConstantWindow(s: seq<real>, c: real)
    requires |s| > 0 && AllEqual(s, c)
    ensures Mean(s) == c && PopVariance(s) == 0.0
  {
    SumConstant(s, c);
    assert Mean(s) == c;
    SumSqDevConstant(s, c);
  }

  lemma {:induction false} SumSqDevNonNegative(s: seq<real>, m: real)
    ensures SumSqDev(s, m) >= 0.0
  {
    if s != [] {
      SumSqDevNonNegative(s[1..], m);
      assert (s[0] - m) * (s[0] - m) >= 0.0;
    }
  }

  lemma VarianceNonNegative(s: seq<real>)
    requires |s| > 0
    ensures PopVariance(s) >= 0.0
  {
    SumSqDevNonNegative(s, Mean(s));
  }

  lemma SquarePositive(t: real)
    requires t > 0.0
    ensures t * t > 0.0
  {
    assert t * t > 0.0 * t;
  }

  /**
   * Comparing a standard deviation against a tolerance is the same as
   * comparing the variance against the squared tolerance, provided the
   * tolerance is positive; a tolerance of zero or less is never met,
   * because a standard deviation is never negative.
   */
  lemma StdevBelowTolerance(stdev: real, variance: real, tol: real)
    requires stdev >= 0.0 && stdev * stdev == variance
    ensures stdev < tol <==> (tol > 0.0 && variance < tol * tol)
  {
    if stdev < tol {
      calc {
        variance;
        == stdev * stdev;
        <= stdev * tol;
        < tol * tol;
      }
    } else if tol > 0.0 {
      assert stdev * stdev >= tol * stdev;
      assert tol * stdev >= tol * tol;
      assert !(variance < tol * tol);
    }
  }

  /**
   * `round(x, 2)`: nearest multiple of 1/100, ties upward (see README for
   * how this differs from rounding of binary doubles).
   */
  function Round2(x: real): (r: real)
    ensures x - 1.0 / 200.0 < r <= x + 1.0 / 200.0
    ensures (r * 100.0).Floor as real == r * 100.0
  {
    ((x * 100.0 + 0.5).Floor as real) / 100.0
  }

  lemma Round2Monotone(x: real, y: real)
    requires x <= y
    ensures Round2(x) <= Round2(y)
  {
    var a, b := (x * 100.0 + 0.5).Floor, (y * 100.0 + 0.5).Floor;
    assert (a as real) <= x * 100.0 + 0.5 <= y * 100.0 + 0.5 < (b as real) + 1.0;
    assert a <= b;
  }

  lemma Round2OfHundredths(k: int)
    ensures Round2((k as real) / 100.0) == (k as real) / 100.0
  {
    var x := (k as real) / 100.0;
    assert x * 100.0 == k as real;
    assert (x * 100.0 + 0.5).Floor == k;
  }
}

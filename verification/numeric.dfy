/**
 * Small numeric helpers shared by the trader pools, the market node and the
 * order book: integer and real maxima/minima, Python's `int()` truncation of a
 * float, float64 comparisons of a quotient that may divide by zero, the
 * largest and smallest element of a sequence, and sums over sequences of
 * reals.
 */
module Numeric {

  function Max(a: int, b: int): (r: int)
    ensures r >= a && r >= b
    ensures r == a || r == b
  {
    if a >= b then a else b
  }

  function Min(a: int, b: int): (r: int)
    ensures r <= a && r <= b
    ensures r == a || r == b
  {
    if a <= b then a else b
  }

  /** `Max` over reals: Dafny has no numeric type common to `int` and `real`. */
  function MaxReal(a: real, b: real): (r: real)
    ensures r >= a && r >= b
    ensures r == a || r == b
  {
    if a >= b then a else b
  }

  /** `Min` over reals, for the same reason. */
  function MinReal(a: real, b: real): (r: real)
    ensures r <= a && r <= b
    ensures r == a || r == b
  {
    if a <= b then a else b
  }

  /** Python's `int(x)` on a float: truncation toward zero. */
  function Trunc(x: real): (r: int)
    ensures x >= 0.0 ==> r as real <= x < r as real + 1.0
    ensures x <= 0.0 ==> r as real - 1.0 < x <= r as real
  {
    if x >= 0.0 then x.Floor else -((-x).Floor)
  }

  /** A float64 quotient, with the IEEE results of dividing by zero. */
  datatype Signal = Finite(value: real) | PosInf | NegInf | NaN

  function Quotient(num: real, den: real): Signal
  {
    if den != 0.0 then Finite(num / den)
    else if num > 0.0 then PosInf
    else if num < 0.0 then NegInf
    else NaN
  }

  /** `signal > x` in float64 (false for NaN). */
  predicate Above(s: Signal, x: real)
  {
    match s
    case Finite(v) => v > x
    case PosInf => true
    case NegInf => false
    case NaN => false
  }

  /** `signal < x` in float64 (false for NaN). */
  predicate Below(s: Signal, x: real)
  {
    match s
    case Finite(v) => v < x
    case PosInf => false
    case NegInf => true
    case NaN => false
  }

  /** Python's `max` of a non-empty list of reals. */
  function SeqMax(s: seq<real>): (r: real)
    requires |s| > 0
    ensures r in s
    ensures forall i :: 0 <= i < |s| ==> s[i] <= r
  {
    if |s| == 1 then s[0] else MaxReal(SeqMax(s[..|s| - 1]), s[|s| - 1])
  }

  /** Python's `min` of a non-empty list of reals. */
  function SeqMin(s: seq<real>): (r: real)
    requires |s| > 0
    ensures r in s
    ensures forall i :: 0 <= i < |s| ==> r <= s[i]
  {
    if |s| == 1 then s[0] else MinReal(SeqMin(s[..|s| - 1]), s[|s| - 1])
  }

  /** Sum of a sequence of reals, peeled from the end so that it extends with appends. */
  function Sum(s: seq<real>): real
  {
    if |s| == 0 then 0.0 else Sum(s[..|s| - 1]) + s[|s| - 1]
  }

  /** Sum of the squares of a sequence of reals. */
  function SumSquares(s: seq<real>): real
  {
    if |s| == 0 then 0.0 else SumSquares(s[..|s| - 1]) + s[|s| - 1] * s[|s| - 1]
  }

  lemma {:induction false} SumAppend(a: seq<real>, b: seq<real>)
    ensures Sum(a + b) == Sum(a) + Sum(b)
    ensures SumSquares(a + b) == SumSquares(a) + SumSquares(b)
    decreases |b|
  {
    if |b| == 0 {
      assert a + b == a;
    } else {
      var b' := b[..|b| - 1];
      assert (a + b)[..|a + b| - 1] == a + b';
      SumAppend(a, b');
    }
  }

  /** A sum of non-negative terms is non-negative. */
  lemma {:induction false} SumNonNegative(s: seq<real>)
    requires forall i :: 0 <= i < |s| ==> s[i] >= 0.0
    ensures Sum(s) >= 0.0
    decreases |s|
  {
    if |s| > 0 {
      SumNonNegative(s[..|s| - 1]);
    }
  }

  /** The squared deviations of `s` from any `x` sum to a non-negative amount. */
  lemma {:induction false} DeviationNonNegative(s: seq<real>, x: real)
    ensures SumSquares(s) - 2.0 * x * Sum(s) + |s| as real * x * x >= 0.0
    decreases |s|
  {
    if |s| > 0 {
      var init := s[..|s| - 1];
      var y := s[|s| - 1];
      DeviationNonNegative(init, x);
      var n := |init| as real;
      assert |s| as real * x * x == n * x * x + x * x;
      assert 2.0 * x * Sum(s) == 2.0 * x * Sum(init) + 2.0 * x * y;
      assert y * y - 2.0 * x * y + x * x == (y - x) * (y - x);
    }
  }

  /** Cauchy-Schwarz for a sequence: `n * sum of squares >= (sum)^2`. */
  lemma {:induction false} SquareSumBound(s: seq<real>)
    ensures |s| as real * SumSquares(s) >= Sum(s) * Sum(s)
    decreases |s|
  {
    if |s| > 0 {
      var init := s[..|s| - 1];
      var y := s[|s| - 1];
      SquareSumBound(init);
      DeviationNonNegative(init, y);
      var n := |init| as real;
      var q := SumSquares(init);
      var t := Sum(init);
      assert (n + 1.0) * (q + y * y) - (t + y) * (t + y)
             == (n * q - t * t) + (q - 2.0 * y * t + n * y * y);
    }
  }
}

/** Real-number stand-ins for the floating-point values of the analysis. */
module Numerics {

  /** A non-negative real: triangle areas, hull areas and square-root frequencies. */
  type NonNeg = r: real | r >= 0.0

  /**
   * The value of a NumPy float division. Dividing by zero does not raise:
   * a non-zero numerator gives an infinity of its sign, zero over zero gives NaN.
   */
  datatype Num = Fin(v: real) | NaN | PosInf | NegInf

  function NumpyDiv(a: real, b: real): (q: Num)
    ensures q.Fin? <==> b != 0.0
    ensures q.Fin? ==> q.v * b == a
    ensures q == NaN <==> a == 0.0 && b == 0.0
    ensures q == PosInf <==> a > 0.0 && b == 0.0
  {
    if b != 0.0 then Fin(a / b)
    else if a == 0.0 then NaN
    else if a > 0.0 then PosInf
    else NegInf
  }

  /** Multiplication by 100 (a percentage); NaN and the infinities are kept. */
  function Percent(q: Num): (p: Num)
    ensures p.Fin? <==> q.Fin?
    ensures p.Fin? ==> p.v == 100.0 * q.v
    ensures !q.Fin? ==> p == q
  {
    match q
    case Fin(v) => Fin(v * 100.0)
    case _ => q
  }

  /** Zero percent of anything non-zero, NaN percent of nothing. */
  lemma ZeroPercent(b: real)
    ensures b != 0.0 ==> Percent(NumpyDiv(0.0, b)) == Fin(0.0)
    ensures b == 0.0 ==> Percent(NumpyDiv(0.0, b)) == NaN
  {
    if b != 0.0 {
      assert 0.0 / b == 0.0;
    }
  }

  /** The whole of anything non-zero is 100 percent of it. */
  lemma WholePercent(x: real)
    requires x != 0.0
    ensures Percent(NumpyDiv(x, x)) == Fin(100.0)
  {
    assert x / x == 1.0;
  }

  /** A part over a positive whole is a finite fraction in [0, 1]. */
  lemma FractionBounds(part: real, whole: real)
    requires 0.0 <= part <= whole && whole > 0.0
    ensures NumpyDiv(part, whole).Fin?
    ensures 0.0 <= NumpyDiv(part, whole).v <= 1.0
  {
    var q := part / whole;
    assert q * whole == part;
  }

  /** ... and as a percentage it lies in [0, 100]. */
  lemma PercentBounds(part: real, whole: real)
    requires 0.0 <= part <= whole && whole > 0.0
    ensures Percent(NumpyDiv(part, whole)).Fin?
    ensures 0.0 <= Percent(NumpyDiv(part, whole)).v <= 100.0
  {
    FractionBounds(part, whole);
  }

  /** Sum of a sequence of reals, taken left to right as np.sum and `+=` loops do. */
  function Sum(s: seq<real>): real
  {
    if |s| == 0 then 0.0 else Sum(s[..|s| - 1]) + s[|s| - 1]
  }

  lemma {:induction false} SumFront(s: seq<real>)
    requires |s| > 0
    ensures Sum(s) == s[0] + Sum(s[1..])
  {
    if |s| > 1 {
      var n := |s|;
      assert s[..n - 1][1..] == s[1..][..n - 2];
      SumFront(s[..n - 1]);
    }
  }

  lemma {:induction false} SumNonNeg(s: seq<real>)
    requires forall i :: 0 <= i < |s| ==> s[i] >= 0.0
    ensures Sum(s) >= 0.0
  {
    if |s| > 0 {
      SumNonNeg(s[..|s| - 1]);
    }
  }

  lemma {:induction false} SumScaled(s: seq<real>, t: seq<real>, k: real)
    requires |t| == |s|
    requires forall i :: 0 <= i < |s| ==> t[i] == s[i] * k
    ensures Sum(t) == Sum(s) * k
  {
    if |s| > 0 {
      SumScaled(s[..|s| - 1], t[..|t| - 1], k);
    }
  }

  /** With no negative entries, each entry is at most the sum. */
  lemma {:induction false} ElementAtMostSum(s: seq<real>, i: nat)
    requires i < |s|
    requires forall j :: 0 <= j < |s| ==> s[j] >= 0.0
    ensures s[i] <= Sum(s)
  {
    var n := |s|;
    if i == n - 1 {
      SumNonNeg(s[..n - 1]);
    } else {
      ElementAtMostSum(s[..n - 1], i);
    }
  }
}

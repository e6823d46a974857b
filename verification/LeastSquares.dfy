/**
 The straight-line fit behind the calibration velocity
 (src/airo_fanuc/receive_interface.py), over the reals.
 */
module LeastSquares {

  /** A product, named so that the lemmas below can treat it as one quantity. */
  function Times(x: real, y: real): real { x * y }

  function Sum(x: seq<real>): real {
    if x == [] then 0.0 else x[0] + Sum(x[1..])
  }

  function Dot(x: seq<real>, y: seq<real>): real
    requires |x| == |y|
  {
    if x == [] then 0.0 else Times(x[0], y[0]) + Dot(x[1..], y[1..])
  }

  function Mean(x: seq<real>): real
    requires x != []
  {
    Sum(x) / |x| as real
  }

  function Shift(x: seq<real>, c: real): (y: seq<real>)
    ensures |y| == |x|
  {
    seq(|x|, i requires 0 <= i < |x| => x[i] - c)
  }

  /** `x + c * y`, element by element. */
  function Combine(x: seq<real>, c: real, y: seq<real>): (z: seq<real>)
    requires |x| == |y|
    ensures |z| == |x|
  {
    seq(|x|, i requires 0 <= i < |x| => x[i] + Times(c, y[i]))
  }

  /** The vertical distances to the line `a + b * t`. */
  function Distances(t: seq<real>, q: seq<real>, a: real, b: real): (r: seq<real>)
    requires |t| == |q|
    ensures |r| == |t|
  {
    seq(|t|, i requires 0 <= i < |t| => q[i] - (a + Times(b, t[i])))
  }

  /** The sum of their squares, which a fit minimises. */
  function Residual(t: seq<real>, q: seq<real>, a: real, b: real): real
    requires |t| == |q|
  {
    Dot(Distances(t, q, a, b), Distances(t, q, a, b))
  }

  function Centred(x: seq<real>): (y: seq<real>)
    requires x != []
    ensures |y| == |x|
  {
    Shift(x, Mean(x))
  }

  function Variance(t: seq<real>): real
    requires t != []
  {
    Dot(Centred(t), Centred(t))
  }

  /** The centred dot product over the centred square, as the source computes it. */
  function Slope(t: seq<real>, q: seq<real>): real
    requires |t| == |q| > 0 && Variance(t) > 0.0
  {
    Dot(Centred(t), Centred(q)) / Variance(t)
  }

  /** The fitted line goes through the means. */
  function Intercept(t: seq<real>, q: seq<real>): real
    requires |t| == |q| > 0 && Variance(t) > 0.0
  {
    Mean(q) - Times(Slope(t, q), Mean(t))
  }

  lemma {:induction false} ShiftedDot(x: seq<real>, c: real)
    ensures Dot(Shift(x, c), Shift(x, c)) == Dot(x, x) - 2.0 * Times(c, Sum(x)) + Times(|x| as real, Times(c, c))
  {
    if x != [] {
      assert Shift(x, c)[1..] == Shift(x[1..], c);
      ShiftedDot(x[1..], c);
      ShiftStep(x[0], c, Dot(x[1..], x[1..]), Sum(x[1..]), |x[1..]| as real);
    }
  }

  lemma ShiftStep(x: real, c: real, dot: real, sum: real, n: real)
    ensures Times(x - c, x - c) + (dot - 2.0 * Times(c, sum) + Times(n, Times(c, c))) ==
            Times(x, x) + dot - 2.0 * Times(c, x + sum) + Times(n + 1.0, Times(c, c))
  {
  }

  lemma CombineRest(x: seq<real>, c: real, y: seq<real>)
    requires |x| == |y| > 0
    ensures Combine(x, c, y)[1..] == Combine(x[1..], c, y[1..])
  {
    forall i | 0 <= i < |x| - 1 ensures Combine(x, c, y)[1..][i] == Combine(x[1..], c, y[1..])[i] {
      assert x[1..][i] == x[i + 1] && y[1..][i] == y[i + 1];
    }
  }

  lemma {:induction false} CombineDot(x: seq<real>, c: real, y: seq<real>, z: seq<real>)
    requires |x| == |y| == |z|
    ensures Dot(Combine(x, c, y), z) == Dot(x, z) + Times(c, Dot(y, z))
  {
    if x != [] {
      CombineRest(x, c, y);
      CombineDot(x[1..], c, y[1..], z[1..]);
      CombineStep(x[0], c, y[0], z[0], Dot(x[1..], z[1..]), Dot(y[1..], z[1..]));
    }
  }

  lemma CombineStep(x: real, c: real, y: real, z: real, d: real, e: real)
    ensures Times(x + Times(c, y), z) + (d + Times(c, e)) == Times(x, z) + d + Times(c, Times(y, z) + e)
  {
  }

  lemma {:induction false} CombineSum(x: seq<real>, c: real, y: seq<real>)
    requires |x| == |y|
    ensures Sum(Combine(x, c, y)) == Sum(x) + Times(c, Sum(y))
  {
    if x != [] {
      CombineRest(x, c, y);
      CombineSum(x[1..], c, y[1..]);
    }
  }

  lemma {:induction false} DotSymmetric(x: seq<real>, y: seq<real>)
    requires |x| == |y|
    ensures Dot(x, y) == Dot(y, x)
  {
    if x != [] { DotSymmetric(x[1..], y[1..]); }
  }

  lemma {:induction false} ShiftedSum(x: seq<real>, c: real)
    ensures Sum(Shift(x, c)) == Sum(x) - |x| as real * c
  {
    if x != [] {
      assert Shift(x, c)[1..] == Shift(x[1..], c);
      ShiftedSum(x[1..], c);
    }
  }

  lemma Quotient(x: real, y: real)
    requires y != 0.0
    ensures Times(y, x / y) == x
  {
  }

  lemma CentredSum(x: seq<real>)
    requires x != []
    ensures Sum(Centred(x)) == 0.0
  {
    ShiftedSum(x, Mean(x));
    Quotient(Sum(x), |x| as real);
  }

  /** The distances, as a deviation of the slope and a common offset `m` from the means. */
  lemma DistancesForm(t: seq<real>, q: seq<real>, a: real, b: real)
    requires |t| == |q| > 0
    ensures Distances(t, q, a, b) == Shift(Combine(Centred(q), -b, Centred(t)), a + Times(b, Mean(t)) - Mean(q))
  {
    forall i | 0 <= i < |t|
      ensures Distances(t, q, a, b)[i] == Shift(Combine(Centred(q), -b, Centred(t)), a + Times(b, Mean(t)) - Mean(q))[i]
    {
      Regroup(q[i], t[i], a, b, Mean(q), Mean(t));
    }
  }

  lemma Regroup(q: real, t: real, a: real, b: real, mq: real, mt: real)
    ensures q - (a + Times(b, t)) == q - mq + Times(-b, t - mt) - (a + Times(b, mt) - mq)
  {
  }

  /** The square of a slope deviation, from its dot products. */
  lemma DeviationSquare(x: seq<real>, y: seq<real>, b: real)
    requires |x| == |y|
    ensures var u := Combine(x, -b, y);
            Dot(u, u) == Dot(x, x) - 2.0 * Times(b, Dot(y, x)) + Times(b, Times(b, Dot(y, y)))
  {
    var u := Combine(x, -b, y);
    CombineDot(x, -b, y, u);
    DotSymmetric(x, u);
    DotSymmetric(y, u);
    CombineDot(x, -b, y, x);
    CombineDot(x, -b, y, y);
    DotSymmetric(x, y);
    ExpandSquare(b, Dot(x, x), Dot(y, x), Dot(y, y));
  }

  lemma ExpandSquare(b: real, xx: real, yx: real, yy: real)
    ensures xx + Times(-b, yx) + Times(-b, yx + Times(-b, yy)) == xx - 2.0 * Times(b, yx) + Times(b, Times(b, yy))
  {
  }

  /** What no line removes, plus a square in the offset and a square in the slope error. */
  function Form(rest: real, n: real, v: real, m: real, e: real): real {
    rest + Times(n, Times(m, m)) + Times(v, Times(e, e))
  }

  function Floor(t: seq<real>, q: seq<real>): real
    requires |t| == |q| > 0 && Variance(t) > 0.0
  {
    Dot(Centred(q), Centred(q)) - Times(Variance(t), Times(Slope(t, q), Slope(t, q)))
  }

  lemma ResidualForm(t: seq<real>, q: seq<real>, a: real, b: real)
    requires |t| == |q| > 0 && Variance(t) > 0.0
    ensures Residual(t, q, a, b) ==
            Form(Floor(t, q), |t| as real, Variance(t), a + Times(b, Mean(t)) - Mean(q), b - Slope(t, q))
  {
    OffsetPart(t, q, a, b);
    DeviationPart(t, q, b);
  }

  lemma OffsetPart(t: seq<real>, q: seq<real>, a: real, b: real)
    requires |t| == |q| > 0
    ensures var u, m := Combine(Centred(q), -b, Centred(t)), a + Times(b, Mean(t)) - Mean(q);
            Residual(t, q, a, b) == Dot(u, u) + Times(|t| as real, Times(m, m))
  {
    DistancesForm(t, q, a, b);
    DeviationSum(t, q, b);
    ShiftedSquare(Combine(Centred(q), -b, Centred(t)), a + Times(b, Mean(t)) - Mean(q));
  }

  lemma DeviationSum(t: seq<real>, q: seq<real>, b: real)
    requires |t| == |q| > 0
    ensures Sum(Combine(Centred(q), -b, Centred(t))) == 0.0
  {
    CombineSum(Centred(q), -b, Centred(t));
    CentredSum(q);
    CentredSum(t);
  }

  lemma ShiftedSquare(u: seq<real>, m: real)
    requires Sum(u) == 0.0
    ensures Dot(Shift(u, m), Shift(u, m)) == Dot(u, u) + Times(|u| as real, Times(m, m))
  {
    ShiftedDot(u, m);
    assert Times(m, 0.0) == 0.0;
  }

  lemma SlopeEquation(t: seq<real>, q: seq<real>)
    requires |t| == |q| > 0 && Variance(t) > 0.0
    ensures Times(Variance(t), Slope(t, q)) == Dot(Centred(t), Centred(q))
  {
    Quotient(Dot(Centred(t), Centred(q)), Variance(t));
  }

  lemma DeviationPart(t: seq<real>, q: seq<real>, b: real)
    requires |t| == |q| > 0 && Variance(t) > 0.0
    ensures var u, e := Combine(Centred(q), -b, Centred(t)), b - Slope(t, q);
            Dot(u, u) == Floor(t, q) + Times(Variance(t), Times(e, e))
  {
    DeviationSquare(Centred(q), Centred(t), b);
    SlopeEquation(t, q);
    var u := Combine(Centred(q), -b, Centred(t));
    DeviationValue(Dot(u, u), Dot(Centred(q), Centred(q)), Dot(Centred(t), Centred(q)), Variance(t), Slope(t, q), b);
  }

  lemma DeviationValue(uu: real, qq: real, tq: real, v: real, best: real, b: real)
    requires Times(v, best) == tq && uu == qq - 2.0 * Times(b, tq) + Times(b, Times(b, v))
    ensures uu == qq - Times(v, Times(best, best)) + Times(v, Times(b - best, b - best))
  {
    CompleteSquare(qq, v, best, b);
  }

  lemma CompleteSquare(qq: real, v: real, best: real, b: real)
    ensures qq - 2.0 * Times(b, Times(v, best)) + Times(b, Times(b, v)) ==
            qq - Times(v, Times(best, best)) + Times(v, Times(b - best, b - best))
  {
    assert Times(b - best, b - best) == b * b - 2.0 * (b * best) + best * best;
    var p1, p2, p3 := b * b, b * best, best * best;
    assert v * (p1 - 2.0 * p2 + p3) == v * p1 - 2.0 * (v * p2) + v * p3;
    assert v * p1 == b * (b * v) && v * p2 == b * (v * best);
  }

  lemma Product(a: real, b: real)
    requires a >= 0.0 && b >= 0.0
    ensures Times(a, b) >= 0.0
    ensures a > 0.0 && b > 0.0 ==> Times(a, b) > 0.0
  {
  }

  lemma Square(x: real)
    ensures Times(x, x) >= 0.0
    ensures x != 0.0 ==> Times(x, x) > 0.0
  {
    if x >= 0.0 { Product(x, x); } else { Product(-x, -x); assert Times(-x, -x) == Times(x, x); }
  }

  /** A nonnegative factor times a square. */
  lemma ScaledSquare(v: real, x: real)
    requires v >= 0.0
    ensures Times(v, Times(x, x)) >= 0.0
    ensures v > 0.0 && x != 0.0 ==> Times(v, Times(x, x)) > 0.0
  {
    Square(x);
    Product(v, Times(x, x));
  }

  lemma FormIsLeastAtZero(rest: real, n: real, v: real, m: real, e: real)
    requires n > 0.0 && v > 0.0
    ensures Form(rest, n, v, 0.0, 0.0) == rest <= Form(rest, n, v, m, e)
    ensures Form(rest, n, v, m, e) == rest ==> e == 0.0
  {
    ScaledSquare(n, m);
    ScaledSquare(v, e);
    assert Times(0.0, 0.0) == 0.0 && Times(n, 0.0) == 0.0 && Times(v, 0.0) == 0.0;
  }

  /** No line has a smaller residual than the fitted one through the means. */
  lemma SlopeMinimises(t: seq<real>, q: seq<real>, a: real, b: real)
    requires |t| == |q| > 0 && Variance(t) > 0.0
    ensures Residual(t, q, Intercept(t, q), Slope(t, q)) <= Residual(t, q, a, b)
  {
    FitResidual(t, q);
    ResidualForm(t, q, a, b);
    FormIsLeastAtZero(Floor(t, q), |t| as real, Variance(t), a + Times(b, Mean(t)) - Mean(q), b - Slope(t, q));
  }

  lemma FitResidual(t: seq<real>, q: seq<real>)
    requires |t| == |q| > 0 && Variance(t) > 0.0
    ensures Residual(t, q, Intercept(t, q), Slope(t, q)) == Floor(t, q)
  {
    ResidualForm(t, q, Intercept(t, q), Slope(t, q));
    assert Intercept(t, q) + Times(Slope(t, q), Mean(t)) - Mean(q) == 0.0;
    FormIsLeastAtZero(Floor(t, q), |t| as real, Variance(t), 0.0, 0.0);
  }

  /** On samples of a straight line the fit is exact. */
  lemma ExactOnLines(t: seq<real>, q: seq<real>, a: real, b: real)
    requires |t| == |q| > 0 && Variance(t) > 0.0
    requires forall i :: 0 <= i < |t| ==> q[i] == a + Times(b, t[i])
    ensures Slope(t, q) == b
  {
    ZeroDot(Distances(t, q, a, b));
    ResidualForm(t, q, a, b);
    FitResidual(t, q);
    SquaresNonnegative(Distances(t, q, Intercept(t, q), Slope(t, q)));
    FormIsLeastAtZero(Floor(t, q), |t| as real, Variance(t), a + Times(b, Mean(t)) - Mean(q), b - Slope(t, q));
  }

  lemma {:induction false} SquaresNonnegative(x: seq<real>)
    ensures Dot(x, x) >= 0.0
    ensures forall i :: 0 <= i < |x| && x[i] != 0.0 ==> Dot(x, x) > 0.0
  {
    if x != [] {
      Square(x[0]);
      SquaresNonnegative(x[1..]);
      forall i | 0 <= i < |x| && x[i] != 0.0 ensures Dot(x, x) > 0.0 {
        if i > 0 { assert x[1..][i - 1] == x[i]; }
      }
    }
  }

  /** Two different stamps give a positive variance, and equal stamps give none. */
  lemma VarianceIffSpan(t: seq<real>)
    requires t != []
    ensures Variance(t) > 0.0 <==> exists i, j :: 0 <= i < |t| && 0 <= j < |t| && t[i] != t[j]
  {
    var x := Centred(t);
    SquaresNonnegative(x);
    if i, j :| 0 <= i < |t| && 0 <= j < |t| && t[i] != t[j] {
      assert x[i] != 0.0 || x[j] != 0.0;
    } else {
      ConstantSum(t);
      Quotient(Sum(t), |t| as real);
      Cancel(|t| as real, Mean(t), t[0]);
      forall i | 0 <= i < |x| ensures x[i] == 0.0 { assert t[i] == t[0]; }
      ZeroDot(x);
    }
  }

  lemma {:induction false} ConstantSum(t: seq<real>)
    requires t != [] && forall i, j :: 0 <= i < |t| && 0 <= j < |t| ==> t[i] == t[j]
    ensures Sum(t) == Times(|t| as real, t[0])
  {
    if |t| > 1 {
      ConstantSum(t[1..]);
      assert t[1] == t[0];
      assert Times(|t| as real, t[0]) == t[0] + Times(|t[1..]| as real, t[0]);
    }
  }

  lemma Cancel(n: real, a: real, b: real)
    requires n > 0.0 && Times(n, a) == Times(n, b)
    ensures a == b
  {
    assert Times(n, a - b) == 0.0;
    if a > b { Product(n, a - b); } else if a < b { Product(n, b - a); }
  }

  lemma {:induction false} ZeroDot(x: seq<real>)
    requires forall i :: 0 <= i < |x| ==> x[i] == 0.0
    ensures Dot(x, x) == 0.0
  {
    if x != [] { ZeroDot(x[1..]); }
  }
}

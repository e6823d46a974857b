/**
 Knot velocities derived for a position-only path (src/airo_fanuc/driver.py), the
 trajectory checks, and the sampler that plays the knots back
 (src/cpp/tick_engine/hermite.cpp). Joints are independent, so the path functions take
 one joint's column; positions, velocities and seconds are reals, knot times are
 integer nanoseconds.
 */
module KnotVelocities {
  import opened Options
  import opened Hermite

  const JOINTS := 6
  const INT64_MAX := 0x7fff_ffff_ffff_ffff
  const NS_PER_S := 1000000000.0

  predicate Increasing(times: seq<int>) {
    forall i, j :: 0 <= i < j < |times| ==> times[i] < times[j]
  }

  /** Length of interval `k` in seconds. */
  function Interval(times: seq<int>, k: nat): (h: real)
    requires k + 1 < |times| && Increasing(times)
    ensures h > 0.0
  {
    (times[k + 1] - times[k]) as real / NS_PER_S
  }

  function Secant(times: seq<int>, q: seq<real>, k: nat): real
    requires k + 1 < |times| == |q| && Increasing(times)
  {
    (q[k + 1] - q[k]) / Interval(times, k)
  }

  /** The weighted harmonic mean of the two adjacent slopes, zero at an extremum or a flat run. */
  function Tangent(hl: real, hr: real, dl: real, dr: real): real
    requires hl > 0.0 && hr > 0.0
  {
    if dl * dr > 0.0 then
      var wl, wr := 2.0 * hr + hl, hr + 2.0 * hl;
      assert dl != 0.0 && dr != 0.0;
      MeanIsNonzero(wl, wr, dl, dr);
      1.0 / ((wl / dl + wr / dr) / (wl + wr))
    else 0.0
  }

  lemma Quotient(x: real, y: real)
    requires y != 0.0
    ensures x / y * y == x
    ensures x > 0.0 && y > 0.0 ==> x / y > 0.0
    ensures x > 0.0 && y < 0.0 ==> x / y < 0.0
  {
  }

  lemma MeanIsNonzero(wl: real, wr: real, dl: real, dr: real)
    requires wl > 0.0 && wr > 0.0 && dl * dr > 0.0
    ensures dl != 0.0 && dr != 0.0 && (dl > 0.0 <==> dr > 0.0)
    ensures dl > 0.0 ==> wl / dl + wr / dr > 0.0 && (wl / dl + wr / dr) / (wl + wr) > 0.0
    ensures dl < 0.0 ==> wl / dl + wr / dr < 0.0 && (wl / dl + wr / dr) / (wl + wr) < 0.0
  {
    SameSign(dl, dr);
    Quotient(wl, dl);
    Quotient(wr, dr);
    var m := wl / dl + wr / dr;
    Quotient(m, wl + wr);
    Quotient(-m, wl + wr);
    assert (-m) / (wl + wr) == -(m / (wl + wr));
  }

  lemma SameSign(a: real, b: real)
    requires a * b > 0.0
    ensures a != 0.0 && b != 0.0 && (a > 0.0 <==> b > 0.0)
  {
  }

  function Velocity(times: seq<int>, q: seq<real>, k: nat): real
    requires k < |times| == |q| && Increasing(times)
  {
    if k == 0 || k + 1 == |q| then 0.0
    else Tangent(Interval(times, k - 1), Interval(times, k), Secant(times, q, k - 1), Secant(times, q, k))
  }

  /** The derived tangents of one joint; the two ends are at rest. */
  function Velocities(times: seq<int>, q: seq<real>): (v: seq<real>)
    requires |times| == |q| && Increasing(times)
    ensures |v| == |q|
  {
    seq(|q|, k requires 0 <= k < |q| => Velocity(times, q, k))
  }

  /** On the rising side the tangent lies between the two slopes and below three times the smaller. */
  lemma RisingTangent(hl: real, hr: real, dl: real, dr: real)
    requires hl > 0.0 && hr > 0.0 && dl > 0.0 && dr > 0.0
    ensures var v := Tangent(hl, hr, dl, dr);
            && 0.0 < v <= 3.0 * dl && v <= 3.0 * dr
            && Between(v, dl, dr)
  {
    assert dl * dr > 0.0;
    var wl, wr := 2.0 * hr + hl, hr + 2.0 * hl;
    var x, y := wl / dl, wr / dr;
    Quotient(wl, dl);
    Quotient(wr, dr);
    var v := Tangent(hl, hr, dl, dr);
    MeanIsNonzero(wl, wr, dl, dr);
    InverseOfMean(x + y, wl + wr, v);
    MeanBounds(x, y, wl, wr, dl, dr, v);
  }

  lemma InverseOfMean(m: real, w: real, v: real)
    requires m > 0.0 && w > 0.0 && m / w > 0.0 && v == 1.0 / (m / w)
    ensures v * m == w && v > 0.0
  {
    Quotient(m, w);
    Quotient(1.0, m / w);
    var r := m / w;
    assert v * r == 1.0;
    assert v * m == v * (r * w) == v * r * w;
  }

  lemma MeanBounds(x: real, y: real, wl: real, wr: real, dl: real, dr: real, v: real)
    requires x > 0.0 && y > 0.0 && x * dl == wl && y * dr == wr && v * (x + y) == wl + wr && v > 0.0
    requires dl > 0.0 && dr > 0.0 && wl + wr <= 3.0 * wl && wl + wr <= 3.0 * wr
    ensures v <= 3.0 * dl && v <= 3.0 * dr && Between(v, dl, dr)
  {
    ThriceBound(v, dl, x, y);
    ThriceBound(v, dr, y, x);
    if dl <= dr { WeightedMean(x, y, dl, dr, v); } else { WeightedMean(y, x, dr, dl, v); }
  }

  lemma WeightedMean(x: real, y: real, a: real, b: real, v: real)
    requires x > 0.0 && y > 0.0 && a <= b && v * (x + y) == x * a + y * b
    ensures a <= v <= b
  {
    Product(b - a, y);
    Product(b - a, x);
    assert v * (x + y) == a * (x + y) + (b - a) * y;
    assert b * (x + y) == v * (x + y) + (b - a) * x;
    Compare(a, v, x + y);
    Compare(v, b, x + y);
  }

  lemma ThriceBound(v: real, d: real, x: real, y: real)
    requires x > 0.0 && y > 0.0 && d > 0.0 && v * (x + y) <= 3.0 * (x * d)
    ensures v <= 3.0 * d
  {
    Product(d, y);
    assert 3.0 * d * (x + y) == 3.0 * (x * d) + 3.0 * (d * y);
    Compare(v, 3.0 * d, x + y);
  }

  lemma Compare(a: real, b: real, m: real)
    requires m > 0.0
    ensures a <= b <==> a * m <= b * m
  {
    if a > b { assert (a - b) * m > 0.0; } else { assert (b - a) * m >= 0.0; }
  }

  lemma TangentOdd(hl: real, hr: real, dl: real, dr: real)
    requires hl > 0.0 && hr > 0.0
    ensures Tangent(hl, hr, -dl, -dr) == -Tangent(hl, hr, dl, dr)
  {
    NegatedProduct(dl, dr);
    if dl * dr > 0.0 {
      SameSign(dl, dr);
      var wl, wr := 2.0 * hr + hl, hr + 2.0 * hl;
      MeanIsNonzero(wl, wr, dl, dr);
      NegatedDivisor(wl, dl);
      NegatedDivisor(wr, dr);
      var m, w := wl / dl + wr / dr, wl + wr;
      NegatedDividend(m, w);
      NegatedDivisor(1.0, m / w);
    }
  }

  lemma NegatedProduct(x: real, y: real)
    ensures -x * -y == x * y
  {
  }

  lemma NegatedDivisor(x: real, y: real)
    requires y != 0.0
    ensures x / -y == -(x / y)
  {
  }

  lemma NegatedDividend(x: real, y: real)
    requires y != 0.0
    ensures -x / y == -(x / y)
  {
  }

  /** Every tangent follows both secants it was derived from. */
  lemma TangentFollows(hl: real, hr: real, dl: real, dr: real)
    requires hl > 0.0 && hr > 0.0
    ensures var v := Tangent(hl, hr, dl, dr); Follows(v, dl) && Follows(v, dr)
    ensures dl * dr > 0.0 ==> Between(Tangent(hl, hr, dl, dr), dl, dr)
    ensures dl * dr <= 0.0 ==> Tangent(hl, hr, dl, dr) == 0.0
  {
    if dl * dr > 0.0 {
      SameSign(dl, dr);
      if dl > 0.0 {
        RisingTangent(hl, hr, dl, dr);
      } else {
        RisingTangent(hl, hr, -dl, -dr);
        TangentOdd(hl, hr, dl, dr);
      }
    }
  }

  lemma {:induction false} VelocitiesFollow(times: seq<int>, q: seq<real>, k: nat)
    requires |times| == |q| && Increasing(times) && k + 1 < |q|
    ensures var v := Velocities(times, q);
            Follows(v[k], Secant(times, q, k)) && Follows(v[k + 1], Secant(times, q, k))
    ensures Velocities(times, q)[0] == 0.0 && Velocities(times, q)[|q| - 1] == 0.0
  {
    if k > 0 {
      TangentFollows(Interval(times, k - 1), Interval(times, k), Secant(times, q, k - 1), Secant(times, q, k));
    }
    if k + 2 < |q| {
      TangentFollows(Interval(times, k), Interval(times, k + 1), Secant(times, q, k), Secant(times, q, k + 1));
    }
  }

  /** The tangent is the harmonic mean of the slopes with weights `2 hr + hl` and `hr + 2 hl`. */
  lemma WeightedHarmonicMean(hl: real, hr: real, dl: real, dr: real)
    requires hl > 0.0 && hr > 0.0 && dl > 0.0 && dr > 0.0
    ensures var v := Tangent(hl, hr, dl, dr);
            Times(v, Times(2.0 * hr + hl, dr) + Times(hr + 2.0 * hl, dl)) == Times(3.0 * (hl + hr), Times(dl, dr))
    ensures Tangent(hl, hr, -dl, -dr) == -Tangent(hl, hr, dl, dr)
  {
    assert dl * dr > 0.0;
    var wl, wr := 2.0 * hr + hl, hr + 2.0 * hl;
    Quotient(wl, dl);
    Quotient(wr, dr);
    MeanIsNonzero(wl, wr, dl, dr);
    var v := Tangent(hl, hr, dl, dr);
    InverseOfMean(wl / dl + wr / dr, wl + wr, v);
    TangentOdd(hl, hr, dl, dr);
    hide Tangent;
    CrossMultiplied(wl / dl, wr / dr, wl, wr, dl, dr, v);
    assert wl + wr == 3.0 * (hl + hr);
  }

  lemma CrossMultiplied(x: real, y: real, wl: real, wr: real, dl: real, dr: real, v: real)
    requires x * dl == wl && y * dr == wr && v * (x + y) == wl + wr
    ensures Times(v, Times(wl, dr) + Times(wr, dl)) == Times(wl + wr, Times(dl, dr))
  {
    var p := dl * dr;
    assert wl * dr == x * p by { assert (x * dl) * dr == x * (dl * dr); }
    assert wr * dl == y * p by { assert (y * dr) * dl == y * (dl * dr); }
    assert v * (x * p + y * p) == v * (x + y) * p;
  }

  /**
   The shorter interval counts more: against the plain harmonic mean of the two slopes, the
   tangent lies strictly on the side of the slope of the shorter interval, whichever that is,
   and on the mean only where the intervals or the slopes are equal.
   */
  lemma ShorterIntervalCountsMore(hl: real, hr: real, dl: real, dr: real)
    requires hl > 0.0 && hr > 0.0 && dl > 0.0 && dr > 0.0
    ensures var mean := 2.0 * Times(dl, dr);
            var v := Times(Tangent(hl, hr, dl, dr), dl + dr);
            && ((hl < hr && dl < dr) || (hl > hr && dl > dr) ==> v < mean)
            && ((hl < hr && dl > dr) || (hl > hr && dl < dr) ==> v > mean)
            && (hl == hr || dl == dr ==> v == mean)
  {
    WeightedHarmonicMean(hl, hr, dl, dr);
    var v := Tangent(hl, hr, dl, dr);
    hide Tangent, Times;
    Lean(2.0 * hr + hl, hr + 2.0 * hl, dl, dr, v);
    assert (2.0 * hr + hl) + (hr + 2.0 * hl) == 3.0 * (hl + hr);
    SidesOfMean(hr - hl, dr - dl, 2.0 * Times(dl, dr) - Times(v, dl + dr), dl, dr, Times(2.0 * hr + hl, dr) + Times(hr + 2.0 * hl, dl));
  }

  lemma Lean(wl: real, wr: real, dl: real, dr: real, v: real)
    requires wl > 0.0 && wr > 0.0 && dl > 0.0 && dr > 0.0
    requires Times(v, Times(wl, dr) + Times(wr, dl)) == Times(wl + wr, Times(dl, dr))
    ensures var d := Times(wl, dr) + Times(wr, dl);
            d > 0.0 && Times(2.0 * Times(dl, dr) - Times(v, dl + dr), d) == Times(Times(dl, dr), Times(wl - wr, dr - dl))
  {
    Positive(wl, dr);
    Positive(wr, dl);
    LeanOf(wl, wr, dl, dr, v, wl * dr + wr * dl);
  }

  lemma SidesOfMean(a: real, b: real, k: real, dl: real, dr: real, d: real)
    requires dl > 0.0 && dr > 0.0 && d > 0.0 && Times(k, d) == Times(Times(dl, dr), Times(a, b))
    ensures (a > 0.0 && b > 0.0) || (a < 0.0 && b < 0.0) ==> k > 0.0
    ensures (a > 0.0 && b < 0.0) || (a < 0.0 && b > 0.0) ==> k < 0.0
    ensures a == 0.0 || b == 0.0 ==> k == 0.0
  {
    Positive(dl, dr);
    Sides(a, b, k, dl * dr, d);
  }

  lemma Positive(x: real, y: real)
    requires x > 0.0 && y > 0.0
    ensures x * y > 0.0
  {
  }

  lemma LeanOf(wl: real, wr: real, dl: real, dr: real, v: real, d: real)
    requires d == wl * dr + wr * dl && v * d == (wl + wr) * (dl * dr)
    ensures Times(2.0 * (dl * dr) - v * (dl + dr), d) == Times(dl * dr, (wl - wr) * (dr - dl))
  {
    var p := dl * dr;
    assert v * (dl + dr) * d == (dl + dr) * (v * d) == (dl + dr) * ((wl + wr) * p) == p * ((dl + dr) * (wl + wr));
    assert 2.0 * p * d == p * (2.0 * d);
    assert 2.0 * d - (dl + dr) * (wl + wr) == (wl - wr) * (dr - dl);
    assert p * (2.0 * d) - p * ((dl + dr) * (wl + wr)) == p * (2.0 * d - (dl + dr) * (wl + wr));
  }

  /** A product with two positive factors has the sign of the other two. */
  lemma Sides(a: real, b: real, k: real, p: real, d: real)
    requires p > 0.0 && d > 0.0 && Times(k, d) == Times(p, a * b)
    ensures (a > 0.0 && b > 0.0) || (a < 0.0 && b < 0.0) ==> k > 0.0
    ensures (a > 0.0 && b < 0.0) || (a < 0.0 && b > 0.0) ==> k < 0.0
    ensures a == 0.0 || b == 0.0 ==> k == 0.0
  {
    if (a > 0.0 && b > 0.0) || (a < 0.0 && b < 0.0) {
      assert a * b > 0.0;
      Positive(p, a * b);
      if k <= 0.0 { Product(-k, d); }
    } else if (a > 0.0 && b < 0.0) || (a < 0.0 && b > 0.0) {
      assert a * b < 0.0;
      Positive(p, -(a * b));
      if k >= 0.0 { Product(k, d); }
    } else {
      assert k * d == 0.0;
    }
  }

  // ---- playback ----------------------------------------------------------------

  /** The cast from double to a 64-bit integer drops the fraction, toward zero. */
  function Trunc(x: real): int {
    if x >= 0.0 then x.Floor else -(-x).Floor
  }

  /** The first knot after time `t`. */
  function UpperBound(times: seq<int>, t: int): (hi: nat)
    requires Increasing(times)
    ensures hi <= |times|
    ensures forall i :: 0 <= i < hi ==> times[i] <= t
    ensures forall i :: hi <= i < |times| ==> times[i] > t
  {
    var last := |times| - 1;
    if times == [] || times[last] <= t then |times| else UpperBound(times[..last], t)
  }

  /** The segment the sampler plays at query time `tq`. */
  function Segment(times: seq<int>, tq: real): (lo: nat)
    requires Increasing(times) && |times| >= 2
    ensures lo + 1 < |times|
  {
    var hi := UpperBound(times, Trunc(tq));
    if hi < 1 then 0 else if hi > |times| - 1 then |times| - 2 else hi - 1
  }

  /** The query time of wire time `tau` under a speed scale. */
  function QueryTime(times: seq<int>, speed: real, tau: int): real
    requires |times| > 0
  {
    times[0] as real + speed * tau as real
  }

  /** Where in segment `lo` the query time is. */
  function Fraction(times: seq<int>, lo: nat, tq: real): real
    requires Increasing(times) && lo + 1 < |times|
  {
    (tq - times[lo] as real) / (times[lo + 1] - times[lo]) as real
  }

  function Sample(times: seq<int>, q: seq<real>, v: seq<real>, tq: real): real
    requires Increasing(times) && |times| == |q| == |v| >= 2
  {
    if tq <= times[0] as real then q[0]
    else if tq >= times[|times| - 1] as real then q[|q| - 1]
    else
      var lo := Segment(times, tq);
      Eval(q[lo], v[lo], q[lo + 1], v[lo + 1], Fraction(times, lo, tq), Interval(times, lo))
  }

  predicate Inside(times: seq<int>, tq: real)
    requires |times| >= 2
  {
    times[0] as real < tq < times[|times| - 1] as real
  }

  /** The played segment contains the query time. */
  predicate Brackets(times: seq<int>, tq: real)
    requires Increasing(times) && |times| >= 2
  {
    var lo := Segment(times, tq);
    times[lo] as real <= tq <= times[lo + 1] as real
  }

  /** No interior knot is at or before time zero. */
  predicate PositiveInterior(times: seq<int>) {
    |times| == 2 || (|times| > 2 && times[1] > 0)
  }

  /**
   Truncating toward zero moves a negative query time forward, so the sampler can pick
   the segment after the one it is in. It never does, for any query time, exactly when
   every interior knot is after time zero.
   */
  lemma SamplerBracketsIff(times: seq<int>)
    requires Increasing(times) && |times| >= 2
    ensures (forall tq: real :: Inside(times, tq) ==> Brackets(times, tq)) <==> PositiveInterior(times)
  {
    if PositiveInterior(times) {
      forall tq: real | Inside(times, tq) ensures Brackets(times, tq) {
        BracketsWhenPositive(times, tq);
      }
    } else {
      var tq := times[1] as real - 0.5;
      assert times[0] < times[1] < times[2] <= times[|times| - 1];
      TruncHalfBelow(times[1]);
      assert UpperBound(times, times[1]) == 2;
      assert Inside(times, tq) && !Brackets(times, tq);
    }
  }

  lemma TruncHalfBelow(k: int)
    requires k <= 0
    ensures Trunc(k as real - 0.5) == k
  {
    assert (-(k as real - 0.5)).Floor == -k;
  }

  lemma BracketsWhenPositive(times: seq<int>, tq: real)
    requires Increasing(times) && |times| >= 2 && PositiveInterior(times) && Inside(times, tq)
    ensures Brackets(times, tq)
  {
    var t := Trunc(tq);
    if tq >= 0.0 {
      assert t as real <= tq < t as real + 1.0;
    } else if |times| > 2 {
      assert t <= 0;
    }
  }

  /** For a speed other than the pinned one, every wire time past the start reaches any query time inside. */
  lemma QueryTimesAreReached(times: seq<int>, tq: real, tau: int)
    requires |times| >= 2 && Inside(times, tq) && tau > 0
    ensures exists speed: real :: speed > 0.0 && QueryTime(times, speed, tau) == tq
  {
    var speed := (tq - times[0] as real) / tau as real;
    Quotient(tq - times[0] as real, tau as real);
    assert QueryTime(times, speed, tau) == tq;
  }

  /** At half speed, one tick of 8 ms and a splice residue of 1 ns into a path, the sampler is a segment ahead. */
  lemma HalfSpeedMisses()
    ensures var times := [-4_000_001, 0, 8_000_000];
            var tq := QueryTime(times, 0.5, 8_000_001);
            Increasing(times) && Inside(times, tq) && !Brackets(times, tq)
  {
    var times := [-4_000_001, 0, 8_000_000];
    assert QueryTime(times, 0.5, 8_000_001) == -0.5;
    TruncHalfBelow(0);
    assert UpperBound(times, 0) == 2;
  }

  /**
   Where the sampler does not bracket the query time, it is less than a nanosecond short of the
   segment it plays, and the sample is off that segment's first knot by at most 23 times the
   segment's rise over its length in nanoseconds.
   */
  lemma MissedByANanosecond(times: seq<int>, q: seq<real>, tq: real)
    requires Increasing(times) && |times| == |q| >= 2 && Inside(times, tq) && !Brackets(times, tq)
    ensures var lo := Segment(times, tq);
            && lo > 0 && times[lo] as real - 1.0 < tq < times[lo] as real
            && Times(AbsReal(Sample(times, q, Velocities(times, q), tq) - q[lo]), (times[lo + 1] - times[lo]) as real)
               <= 23.0 * AbsReal(q[lo + 1] - q[lo])
  {
    MissedBefore(times, tq);
    var lo := Segment(times, tq);
    var b := MissedFraction(times, lo, tq);
    SampledAt(times, q, tq, -b);
    MissedSize(times, q, lo, b);
    hide Sample, PlayedAt, AbsReal, Velocities, Fraction, Times, Brackets, Segment;
  }

  lemma SampledAt(times: seq<int>, q: seq<real>, tq: real, s: real)
    requires Increasing(times) && |times| == |q| >= 2 && Inside(times, tq) && Fraction(times, Segment(times, tq), tq) == s
    ensures Sample(times, q, Velocities(times, q), tq) == PlayedAt(times, q, Segment(times, tq), s)
  {
    hide Segment, Fraction, Eval, Velocity;
  }

  lemma MissedSize(times: seq<int>, q: seq<real>, lo: nat, b: real)
    requires Increasing(times) && lo + 1 < |times| == |q| && 0.0 <= b <= 1.0
    requires Times(b, (times[lo + 1] - times[lo]) as real) <= 1.0
    ensures Times(AbsReal(PlayedAt(times, q, lo, -b) - q[lo]), (times[lo + 1] - times[lo]) as real) <= 23.0 * AbsReal(q[lo + 1] - q[lo])
  {
    PlayedBefore(times, q, lo, b);
    var off, rise, len := AbsReal(PlayedAt(times, q, lo, -b) - q[lo]), AbsReal(q[lo + 1] - q[lo]), (times[lo + 1] - times[lo]) as real;
    assert rise >= 0.0 && len > 0.0;
    hide PlayedAt, AbsReal, Increasing, Times;
    ScaleBound(off, rise, b, len);
  }

  lemma PlayedBefore(times: seq<int>, q: seq<real>, lo: nat, b: real)
    requires Increasing(times) && lo + 1 < |times| == |q| && 0.0 <= b <= 1.0
    ensures AbsReal(PlayedAt(times, q, lo, -b) - q[lo]) <= 23.0 * Times(AbsReal(q[lo + 1] - q[lo]), b)
  {
    var v := Velocities(times, q);
    VelocitiesFollow(times, q, lo);
    JustBefore(q[lo], v[lo], q[lo + 1], v[lo + 1], Interval(times, lo), b);
  }

  lemma MissedFraction(times: seq<int>, lo: nat, tq: real) returns (b: real)
    requires Increasing(times) && lo + 1 < |times| && times[lo] as real - 1.0 < tq < times[lo] as real
    ensures Fraction(times, lo, tq) == -b && 0.0 <= b <= 1.0 && Times(b, (times[lo + 1] - times[lo]) as real) <= 1.0
  {
    var len := (times[lo + 1] - times[lo]) as real;
    b := -Fraction(times, lo, tq);
    Quotient(tq - times[lo] as real, len);
    Negated(b, -b, len, tq - times[lo] as real);
  }

  lemma Negated(b: real, s: real, len: real, x: real)
    requires b == -s && s * len == x && len >= 1.0 && -1.0 < x <= 0.0
    ensures 0.0 <= b <= 1.0 && b * len <= 1.0
  {
    assert b * len == -x;
  }

  lemma MissedBefore(times: seq<int>, tq: real)
    requires Increasing(times) && |times| >= 2 && Inside(times, tq) && !Brackets(times, tq)
    ensures var lo := Segment(times, tq); lo > 0 && times[lo] as real - 1.0 < tq < times[lo] as real
  {
    var t := Trunc(tq);
    assert tq - 1.0 < t as real < tq + 1.0;
    assert tq >= 0.0 ==> t as real <= tq;
    assert tq < 0.0 ==> t as real >= tq;
  }

  lemma ScaleBound(x: real, d: real, b: real, len: real)
    requires d >= 0.0 && len > 0.0 && Times(b, len) <= 1.0 && x <= 23.0 * Times(d, b)
    ensures Times(x, len) <= 23.0 * d
  {
    assert (23.0 * (d * b) - x) * len >= 0.0;
    assert (d * b) * len == d * (b * len);
    assert d * (1.0 - b * len) >= 0.0;
  }

  /** The driver submits every trajectory at its own speed. */
  const SPEED_SCALE: real := 1.0

  /** At that speed a query time is a whole number of nanoseconds, so truncating it changes nothing. */
  lemma {:induction false} PinnedSpeedBrackets(times: seq<int>, tau: int)
    requires Increasing(times) && |times| >= 2 && Inside(times, QueryTime(times, SPEED_SCALE, tau))
    ensures Brackets(times, QueryTime(times, SPEED_SCALE, tau))
  {
    var t := times[0] + tau;
    assert QueryTime(times, SPEED_SCALE, tau) == t as real;
    assert Trunc(t as real) == t;
  }

  /**
   Playback of a submitted path: for any increasing times, any positions and any two wire
   times, every sample is the first knot, the last knot or between the two knots around it,
   and samples of one interval come in order.
   */
  lemma {:induction false} PlaybackStaysBetweenKnots(times: seq<int>, q: seq<real>, tau: int, later: int)
    requires Increasing(times) && |times| == |q| >= 2 && tau <= later
    ensures var v := Velocities(times, q);
            var tq, tl := QueryTime(times, SPEED_SCALE, tau), QueryTime(times, SPEED_SCALE, later);
            && (tau <= 0 ==> Sample(times, q, v, tq) == q[0])
            && (tau >= times[|times| - 1] - times[0] ==> Sample(times, q, v, tq) == q[|q| - 1])
            && (0 < tau < times[|times| - 1] - times[0] ==>
                  var lo := Segment(times, tq);
                  && times[lo] <= times[0] + tau <= times[lo + 1]
                  && Between(Sample(times, q, v, tq), q[lo], q[lo + 1])
                  && (later < times[|times| - 1] - times[0] && Segment(times, tl) == lo ==>
                        InOrder(Sample(times, q, v, tq), Sample(times, q, v, tl), q[lo], q[lo + 1])))
  {
    var end := times[|times| - 1] - times[0];
    var tq, tl := QueryTime(times, SPEED_SCALE, tau), QueryTime(times, SPEED_SCALE, later);
    assert tq == (times[0] + tau) as real && tl == (times[0] + later) as real;
    if 0 < tau < end {
      PinnedSpeedBrackets(times, tau);
      var last := tl;
      if later < end { PinnedSpeedBrackets(times, later); } else { last := tq; }
      BracketedPlayback(times, q, tq, last);
    }
  }

  /** At any speed: a sample whose query time the sampler brackets lies between the knots around it. */
  lemma BracketedPlayback(times: seq<int>, q: seq<real>, tq: real, later: real)
    requires Increasing(times) && |times| == |q| >= 2 && tq <= later
    requires Inside(times, tq) && Inside(times, later) && Brackets(times, tq) && Brackets(times, later)
    ensures var v, lo := Velocities(times, q), Segment(times, tq);
            && Between(Sample(times, q, v, tq), q[lo], q[lo + 1])
            && (Segment(times, later) == lo ==>
                  InOrder(Sample(times, q, v, tq), Sample(times, q, v, later), q[lo], q[lo + 1]))
  {
    var lo := Segment(times, tq);
    FractionOrder(times, lo, tq, tq);
    SegmentPlayback(times, q, lo, Fraction(times, lo, tq), Fraction(times, lo, tq));
    if Segment(times, later) == lo {
      FractionOrder(times, lo, tq, later);
      SegmentPlayback(times, q, lo, Fraction(times, lo, tq), Fraction(times, lo, later));
    }
  }

  function PlayedAt(times: seq<int>, q: seq<real>, lo: nat, s: real): real
    requires Increasing(times) && lo + 1 < |times| == |q|
  {
    var v := Velocities(times, q);
    Eval(q[lo], v[lo], q[lo + 1], v[lo + 1], s, Interval(times, lo))
  }

  lemma SegmentPlayback(times: seq<int>, q: seq<real>, lo: nat, s: real, t: real)
    requires Increasing(times) && lo + 1 < |times| == |q| && 0.0 <= s <= t <= 1.0
    ensures Between(PlayedAt(times, q, lo, s), q[lo], q[lo + 1])
    ensures InOrder(PlayedAt(times, q, lo, s), PlayedAt(times, q, lo, t), q[lo], q[lo + 1])
  {
    var v := Velocities(times, q);
    VelocitiesFollow(times, q, lo);
    MonotoneSegment(q[lo], v[lo], q[lo + 1], v[lo + 1], Interval(times, lo), s, t);
  }

  lemma FractionOrder(times: seq<int>, lo: nat, tq: real, later: real)
    requires Increasing(times) && lo + 1 < |times|
    requires times[lo] as real <= tq <= later <= times[lo + 1] as real
    ensures 0.0 <= Fraction(times, lo, tq) <= Fraction(times, lo, later) <= 1.0
  {
    var x, y, seg := tq - times[lo] as real, later - times[lo] as real, (times[lo + 1] - times[lo]) as real;
    Quotient(x, seg);
    Quotient(y, seg);
    Compare(0.0, x / seg, seg);
    Compare(x / seg, y / seg, seg);
    Compare(y / seg, 1.0, seg);
  }

  // ---- the checks before a path is played --------------------------------------

  type Vec6 = v: seq<real> | |v| == JOINTS witness [0.0, 0.0, 0.0, 0.0, 0.0, 0.0]

  datatype Rejection = VelocityShape | TooFewKnots | TimesLength | TimesRange | TimesOrder | VelocityLimit | CaptureEnvelope

  datatype Checked = Accepted(qd: seq<Vec6>) | Rejected(why: Rejection)

  const EPS := 0.000000001

  function Column(q: seq<Vec6>, j: nat): (c: seq<real>)
    requires j < JOINTS
    ensures |c| == |q|
  {
    seq(|q|, k requires 0 <= k < |q| => q[k][j])
  }

  function Derived(times: seq<int>, q: seq<Vec6>): (qd: seq<Vec6>)
    requires |times| == |q| && Increasing(times)
    ensures |qd| == |q|
  {
    seq(|q|, k requires 0 <= k < |q| =>
      seq(JOINTS, j requires 0 <= j < JOINTS => Velocity(times, Column(q, j), k)))
  }

  predicate OverLimit(qd: seq<Vec6>, vlim: Vec6) {
    exists k, j :: 0 <= k < |qd| && 0 <= j < JOINTS && AbsReal(qd[k][j]) > vlim[j] + EPS
  }

  predicate OverCapture(first: Vec6, rate: real) {
    exists j :: 0 <= j < JOINTS && AbsReal(first[j]) > rate * (1.0 + EPS)
  }

  predicate InRange(times: seq<int>) {
    forall i :: 0 <= i < |times| ==> -INT64_MAX <= times[i] <= INT64_MAX
  }

  function Validate(times: seq<int>, q: seq<Vec6>, given: Option<seq<Vec6>>, vlim: Vec6, rate: real): Checked {
    if given.Some? && |given.value| != |q| then Rejected(VelocityShape)
    else if |q| < 2 then Rejected(TooFewKnots)
    else if |times| != |q| then Rejected(TimesLength)
    else if !InRange(times) then Rejected(TimesRange)
    else if !Increasing(times) then Rejected(TimesOrder)
    else
      var qd := if given.Some? then given.value else Derived(times, q);
      if OverLimit(qd, vlim) then Rejected(VelocityLimit)
      else if OverCapture(qd[0], rate) then Rejected(CaptureEnvelope)
      else Accepted(qd)
  }

  /**
   A position-only path is refused only for its times or for a velocity limit, never by
   the capture envelope; an accepted one is played with the derived tangents.
   */
  lemma DerivedPathAcceptedIff(times: seq<int>, q: seq<Vec6>, vlim: Vec6, rate: real)
    requires rate >= 0.0
    ensures var r := Validate(times, q, None, vlim, rate);
            && (r.Accepted? <==> |q| >= 2 && |times| == |q| && InRange(times) && Increasing(times)
                                 && !OverLimit(Derived(times, q), vlim))
            && r != Rejected(CaptureEnvelope)
            && (r.Accepted? ==> forall j :: 0 <= j < JOINTS ==> Column(r.qd, j) == Velocities(times, Column(q, j)))
  {
    Product(rate, 1.0 + EPS);
    if |q| >= 2 && |times| == |q| && Increasing(times) {
      forall j | 0 <= j < JOINTS
        ensures Column(Derived(times, q), j) == Velocities(times, Column(q, j)) && Derived(times, q)[0][j] == 0.0
      {
      }
    }
  }
}

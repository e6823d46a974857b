/**
 What a sampled path looks like (src/cpp/tick_engine/hermite.cpp): where playback is at a
 query time, how it passes its knots, and with which velocity.
 */
module SampledPath {
  import opened Options
  import opened Hermite
  import opened KnotVelocities

  // ---- one segment -------------------------------------------------------------

  /** The segment as a cubic in `s`, with its rise `d` and its scaled tangents `u` and `w`. */
  lemma CubicForm(q0: real, v0: real, q1: real, v1: real, s: real, h: real)
    ensures var d, u, w := q1 - q0, Times(h, v0), Times(h, v1);
            Eval(q0, v0, q1, v1, s, h) == q0 + Times(s, u) + Times(Times(s, s), 3.0 * d - 2.0 * u - w + Times(s, u + w - 2.0 * d))
  {
    OffsetForm(q0, v0, q1, v1, s, h);
    BasisForm(s);
    var d, u, w := q1 - q0, Times(h, v0), Times(h, v1);
    hide Eval, H01, H10, H11;
    Gather(d, u, w, s, s * s, s * s * s);
  }

  lemma BasisForm(s: real)
    ensures var s2, s3 := s * s, s * s * s;
            H01(s) == 3.0 * s2 - 2.0 * s3 && H10(s) == s3 - 2.0 * s2 + s && H11(s) == s3 - s2
  {
  }

  lemma Gather(d: real, u: real, w: real, s: real, s2: real, s3: real)
    requires s2 == s * s && s3 == s2 * s
    ensures Weigh(d, u, w, 3.0 * s2 - 2.0 * s3, s3 - 2.0 * s2 + s, s3 - s2)
            == Times(s, u) + Times(Times(s, s), 3.0 * d - 2.0 * u - w + Times(s, u + w - 2.0 * d))
  {
    var a, b := 3.0 * d - 2.0 * u - w, u + w - 2.0 * d;
    assert s2 * (a + s * b) == s2 * a + s3 * b;
    assert d * (3.0 * s2 - 2.0 * s3) == 3.0 * (s2 * d) - 2.0 * (s3 * d);
    assert u * (s3 - 2.0 * s2 + s) == s3 * u - 2.0 * (s2 * u) + s * u;
    assert w * (s3 - s2) == s3 * w - s2 * w;
  }

  /** Played backwards, a segment is the segment from its end to its start with the tangents turned round. */
  lemma PlayedBackwards(q0: real, v0: real, q1: real, v1: real, s: real, h: real)
    ensures Eval(q0, v0, q1, v1, s, h) == Eval(q1, -v1, q0, -v0, 1.0 - s, h)
  {
    Complement(s);
    hide H00, H10, H01, H11;
    var a, b := H10(s), H11(s);
    assert b * h * v1 == -b * h * -v1 && a * h * v0 == -a * h * -v0;
  }

  lemma Complement(s: real)
    ensures H00(1.0 - s) == H01(s) && H01(1.0 - s) == H00(s) && H10(1.0 - s) == -H11(s) && H11(1.0 - s) == -H10(s)
  {
    var t := 1.0 - s;
    assert t * t == 1.0 - 2.0 * s + s * s;
    assert t * t * t == 1.0 - 3.0 * s + 3.0 * s * s - s * s * s by { assert t * t * t == t * t - s * (t * t); }
  }

  /** How much a segment can bend: from its rise and its two scaled tangents. */
  function Bend(d: real, u: real, w: real): (b: real)
    ensures b >= 0.0
  {
    5.0 * AbsReal(d) + 3.0 * AbsReal(u) + 3.0 * AbsReal(w)
  }

  /** Near its first knot a segment is the line through the knot with the knot's velocity, up to a square. */
  lemma LeavesAlongTangent(q0: real, v0: real, q1: real, v1: real, s: real, h: real)
    requires -1.0 <= s <= 1.0
    ensures AbsReal(Eval(q0, v0, q1, v1, s, h) - (q0 + Times(s, Times(h, v0)))) <= Times(Times(s, s), Bend(q1 - q0, Times(h, v0), Times(h, v1)))
  {
    CubicForm(q0, v0, q1, v1, s, h);
    var d, u, w := q1 - q0, Times(h, v0), Times(h, v1);
    hide Eval, Bend, AbsReal, Times;
    CubicSize(d, u, w, s);
  }

  lemma CubicSize(d: real, u: real, w: real, s: real)
    requires -1.0 <= s <= 1.0
    ensures AbsReal(Times(Times(s, s), 3.0 * d - 2.0 * u - w + Times(s, u + w - 2.0 * d))) <= Times(Times(s, s), Bend(d, u, w))
  {
    Square(s);
    assert Times(s, s) >= 0.0;
    SlopeSize(s, u + w - 2.0 * d);
    hide Times;
    BendSize(d, u, w, Times(s, u + w - 2.0 * d));
    hide Bend, AbsReal;
    ScaledSize(Times(s, s), 3.0 * d - 2.0 * u - w + Times(s, u + w - 2.0 * d), Bend(d, u, w));
  }

  lemma BendSize(d: real, u: real, w: real, x: real)
    requires AbsReal(x) <= AbsReal(u + w - 2.0 * d)
    ensures AbsReal(3.0 * d - 2.0 * u - w + x) <= Bend(d, u, w)
  {
  }

  lemma SlopeSize(s: real, x: real)
    requires -1.0 <= s <= 1.0
    ensures AbsReal(Times(s, x)) <= AbsReal(x)
  {
    if x >= 0.0 {
      Product(1.0 - s, x);
      Product(1.0 + s, x);
    } else {
      Product(1.0 - s, -x);
      Product(1.0 + s, -x);
    }
  }

  lemma ScaledSize(k: real, x: real, bound: real)
    requires k >= 0.0 && AbsReal(x) <= bound
    ensures AbsReal(Times(k, x)) <= Times(k, bound)
  {
    Product(k, bound - x);
    Product(k, bound + x);
  }

  /** And near its last knot, the line through that knot with that knot's velocity. */
  lemma ArrivesAlongTangent(q0: real, v0: real, q1: real, v1: real, r: real, h: real)
    requires -1.0 <= r <= 1.0
    ensures AbsReal(Eval(q0, v0, q1, v1, 1.0 - r, h) - (q1 - Times(r, Times(h, v1)))) <= Times(Times(r, r), Bend(q1 - q0, Times(h, v0), Times(h, v1)))
  {
    PlayedBackwards(q0, v0, q1, v1, 1.0 - r, h);
    LeavesAlongTangent(q1, -v1, q0, -v0, r, h);
    hide Eval, Bend, Times, AbsReal;
    Turned(q1 - q0, h, v0, v1, r);
  }

  lemma Turned(d: real, h: real, v0: real, v1: real, r: real)
    ensures Bend(-d, Times(h, -v1), Times(h, -v0)) == Bend(d, Times(h, v0), Times(h, v1))
    ensures Times(r, Times(h, -v1)) == -Times(r, Times(h, v1))
  {
    assert h * -v1 == -(h * v1) && h * -v0 == -(h * v0);
    assert AbsReal(-d) == AbsReal(d) && AbsReal(-(h * v1)) == AbsReal(h * v1) && AbsReal(-(h * v0)) == AbsReal(h * v0);
  }

  /** A segment whose tangents are its secant is a straight line. */
  lemma StraightSegment(q0: real, v: real, q1: real, s: real, h: real)
    requires Times(h, v) == q1 - q0
    ensures Eval(q0, v, q1, v, s, h) == q0 + Times(s, Times(h, v))
  {
    CubicForm(q0, v, q1, v, s, h);
  }

  // ---- the sampler -------------------------------------------------------------

  predicate Path(times: seq<int>, q: seq<real>, v: seq<real>) {
    Increasing(times) && |times| == |q| == |v| >= 2
  }

  /** Seconds from knot `k` to the query time. */
  function Elapsed(times: seq<int>, k: nat, tq: real): real
    requires k < |times|
  {
    (tq - times[k] as real) / NS_PER_S
  }

  lemma SampleIsEval(times: seq<int>, q: seq<real>, v: seq<real>, tq: real)
    requires Path(times, q, v) && Inside(times, tq)
    ensures var lo := Segment(times, tq);
            Sample(times, q, v, tq) == Eval(q[lo], v[lo], q[lo + 1], v[lo + 1], Fraction(times, lo, tq), Interval(times, lo))
  {
    hide Eval, Fraction, Interval, Segment;
  }

  /** The position in a segment, times its length, is the time elapsed in it. */
  lemma FractionOfInterval(times: seq<int>, lo: nat, tq: real)
    requires Increasing(times) && lo + 1 < |times|
    ensures Fraction(times, lo, tq) * Interval(times, lo) == Elapsed(times, lo, tq)
    ensures Fraction(times, lo, tq) * (times[lo + 1] - times[lo]) as real == tq - times[lo] as real
  {
    var x, len := tq - times[lo] as real, (times[lo + 1] - times[lo]) as real;
    var s := x / len;
    Quotient(x, len);
    assert s * (len / NS_PER_S) == (s * len) / NS_PER_S;
  }

  lemma PlayedSegment(times: seq<int>, k: nat)
    requires Increasing(times) && |times| >= 2 && k + 1 < |times|
    ensures Segment(times, times[k] as real) == k
  {
    assert (times[k] as real).Floor == times[k] && (-(times[k] as real)).Floor == -times[k];
    assert times[k + 1] > times[k];
  }

  /** Playback meets every knot at its time, whatever the velocities. */
  lemma {:induction false} SampleMeetsKnots(times: seq<int>, q: seq<real>, v: seq<real>, k: nat)
    requires Path(times, q, v) && k < |times|
    ensures Sample(times, q, v, times[k] as real) == q[k]
  {
    var tq := times[k] as real;
    if 0 < k < |times| - 1 {
      PlayedSegment(times, k);
      SampleIsEval(times, q, v, tq);
      assert Fraction(times, k, tq) == 0.0;
      EndPoints(q[k], v[k], q[k + 1], v[k + 1], Interval(times, k));
    }
  }

  /** The bend of segment `k`. */
  function BendOf(times: seq<int>, q: seq<real>, v: seq<real>, k: nat): (b: real)
    requires Path(times, q, v) && k + 1 < |times|
    ensures b >= 0.0
  {
    Bend(q[k + 1] - q[k], Times(Interval(times, k), v[k]), Times(Interval(times, k), v[k + 1]))
  }

  /** The fraction of segment `k` that a stretch of `x` seconds is. */
  function Share(times: seq<int>, k: nat, x: real): real
    requires Increasing(times) && k + 1 < |times|
  {
    x / Interval(times, k)
  }

  lemma ShareOfElapsed(times: seq<int>, lo: nat, tq: real)
    requires Increasing(times) && lo + 1 < |times|
    ensures Share(times, lo, Elapsed(times, lo, tq)) == Fraction(times, lo, tq)
    ensures Share(times, lo, -Elapsed(times, lo + 1, tq)) == 1.0 - Fraction(times, lo, tq)
    ensures Times(Interval(times, lo), Fraction(times, lo, tq)) == Elapsed(times, lo, tq)
    ensures Times(Interval(times, lo), 1.0 - Fraction(times, lo, tq)) == -Elapsed(times, lo + 1, tq)
  {
    FractionOfInterval(times, lo, tq);
    assert Interval(times, lo) == Elapsed(times, lo, tq) - Elapsed(times, lo + 1, tq);
    var s, h, x := Fraction(times, lo, tq), Interval(times, lo), Elapsed(times, lo, tq);
    hide Fraction, Interval, Elapsed;
    assert h * (1.0 - s) == h - s * h;
    Divided(x, h, s);
    Divided(h - x, h, 1.0 - s);
  }

  lemma Divided(x: real, h: real, s: real)
    requires h > 0.0 && h * s == x
    ensures x / h == s
  {
  }

  lemma Reordered(s: real, h: real, v: real)
    ensures Times(s, Times(h, v)) == Times(v, Times(h, s))
  {
    assert s * (h * v) == v * (h * s);
  }

  /**
   Playback leaves the first knot of a segment with that knot's velocity: it is off the line
   through the knot by at most the square of the fraction played, times the segment's bend.
   */
  lemma SampleLeavesKnot(times: seq<int>, q: seq<real>, v: seq<real>, tq: real)
    requires Path(times, q, v) && Inside(times, tq) && Brackets(times, tq)
    ensures var lo := Segment(times, tq);
            var x := Elapsed(times, lo, tq);
            var s := Share(times, lo, x);
            AbsReal(Sample(times, q, v, tq) - (q[lo] + Times(v[lo], x))) <= Times(Times(s, s), BendOf(times, q, v, lo))
  {
    hide Eval, Fraction, Interval, Elapsed, Sample, Bend, AbsReal, Times, Share, Segment;
    var lo := Segment(times, tq);
    var s, h := Fraction(times, lo, tq), Interval(times, lo);
    SampleIsEval(times, q, v, tq);
    FractionOrder(times, lo, tq, tq);
    ShareOfElapsed(times, lo, tq);
    LeavesAlongTangent(q[lo], v[lo], q[lo + 1], v[lo + 1], s, h);
    Reordered(s, h, v[lo]);
  }

  /** And it arrives at the last knot of the segment with that knot's velocity. */
  lemma SampleReachesKnot(times: seq<int>, q: seq<real>, v: seq<real>, tq: real)
    requires Path(times, q, v) && Inside(times, tq) && Brackets(times, tq)
    ensures var lo := Segment(times, tq);
            var x := -Elapsed(times, lo + 1, tq);
            var r := Share(times, lo, x);
            AbsReal(Sample(times, q, v, tq) - (q[lo + 1] - Times(v[lo + 1], x))) <= Times(Times(r, r), BendOf(times, q, v, lo))
  {
    hide Eval, Fraction, Interval, Elapsed, Sample, Bend, AbsReal, Times, Share, Segment;
    var lo := Segment(times, tq);
    var r, h := 1.0 - Fraction(times, lo, tq), Interval(times, lo);
    SampleIsEval(times, q, v, tq);
    FractionOrder(times, lo, tq, tq);
    ShareOfElapsed(times, lo, tq);
    ArrivesAlongTangent(q[lo], v[lo], q[lo + 1], v[lo + 1], r, h);
    Reordered(r, h, v[lo + 1]);
  }

  /** Where both tangents of a segment are its secant, playback is the straight line, at every query time. */
  lemma StraightSample(times: seq<int>, q: seq<real>, v: seq<real>, tq: real)
    requires Path(times, q, v) && Inside(times, tq)
    requires var lo := Segment(times, tq); v[lo] == v[lo + 1] == Secant(times, q, lo)
    ensures var lo := Segment(times, tq);
            Sample(times, q, v, tq) == q[lo] + Times(Secant(times, q, lo), Elapsed(times, lo, tq))
  {
    var lo := Segment(times, tq);
    var s, h, m := Fraction(times, lo, tq), Interval(times, lo), Secant(times, q, lo);
    SampleIsEval(times, q, v, tq);
    ShareOfElapsed(times, lo, tq);
    SecantRises(q[lo + 1] - q[lo], h, m);
    StraightSegment(q[lo], m, q[lo + 1], s, h);
    Reordered(s, h, m);
    hide Eval, Fraction, Interval, Elapsed, Sample, Times, Segment, Secant;
  }

  lemma SecantRises(d: real, h: real, m: real)
    requires h > 0.0 && m == d / h
    ensures Times(h, m) == d
  {
  }

  /** Equal slopes on both sides of a knot are the knot's own derived slope. */
  lemma EvenTangent(hl: real, hr: real, d: real)
    requires hl > 0.0 && hr > 0.0
    ensures Tangent(hl, hr, d, d) == d
  {
    TangentFollows(hl, hr, d, d);
    if d != 0.0 { assert d * d > 0.0; }
  }

  /** Where a submitted path has the same slope on three intervals, the middle one is played as a straight line. */
  lemma StraightPathIsPlayedStraight(times: seq<int>, q: seq<real>, tq: real)
    requires Increasing(times) && |times| == |q| >= 2 && Inside(times, tq)
    requires var lo := Segment(times, tq);
             0 < lo && lo + 2 < |times|
             && Secant(times, q, lo - 1) == Secant(times, q, lo) == Secant(times, q, lo + 1)
    ensures var lo := Segment(times, tq);
            Sample(times, q, Velocities(times, q), tq) == q[lo] + Times(Secant(times, q, lo), Elapsed(times, lo, tq))
  {
    var lo := Segment(times, tq);
    EvenTangent(Interval(times, lo - 1), Interval(times, lo), Secant(times, q, lo));
    EvenTangent(Interval(times, lo), Interval(times, lo + 1), Secant(times, q, lo));
    StraightSample(times, q, Velocities(times, q), tq);
  }

  // ---- the limit at a knot -----------------------------------------------------

  /** How fast playback of segment `k` can move, per unit of its length. */
  function PaceOf(times: seq<int>, q: seq<real>, v: seq<real>, k: nat): (b: real)
    requires Path(times, q, v) && k + 1 < |times|
    ensures b >= 0.0
  {
    BendOf(times, q, v, k) + AbsReal(Times(Interval(times, k), v[k])) + AbsReal(Times(Interval(times, k), v[k + 1]))
  }

  /** The paces of the two segments that meet at knot `k + 1`. */
  function PaceAround(times: seq<int>, q: seq<real>, v: seq<real>, k: nat): (b: real)
    requires Path(times, q, v) && k + 1 < |times|
    ensures b >= PaceOf(times, q, v, k) >= 0.0
    ensures k + 2 < |times| ==> b >= PaceOf(times, q, v, k + 1)
  {
    PaceOf(times, q, v, k) + if k + 2 < |times| then PaceOf(times, q, v, k + 1) else 0.0
  }

  /** Within a square of a line through `q` of slope `u`, hence within a multiple of `s` of `q`. */
  lemma NearTangent(x: real, q: real, s: real, u: real, bend: real, pace: real)
    requires -1.0 <= s <= 1.0 && AbsReal(x - (q + Times(s, u))) <= Times(Times(s, s), bend)
    requires bend >= 0.0 && pace >= bend + AbsReal(u)
    ensures AbsReal(x - q) <= Times(AbsReal(s), pace)
  {
    SizeOfTimes(s, u);
    SquareSize(s, bend);
    Spread(AbsReal(s), bend, AbsReal(u), pace);
    hide Times;
  }

  lemma Spread(n: real, a: real, b: real, c: real)
    requires n >= 0.0 && c >= a + b
    ensures Times(n, a) + Times(n, b) <= Times(n, c)
  {
    assert n * a + n * b == n * (a + b);
    Product(n, c - (a + b));
    assert n * (c - (a + b)) == n * c - n * (a + b);
  }

  lemma SizeOfTimes(x: real, y: real)
    ensures AbsReal(Times(x, y)) == Times(AbsReal(x), AbsReal(y))
  {
  }

  lemma SquareSize(s: real, bend: real)
    requires -1.0 <= s <= 1.0 && bend >= 0.0
    ensures Times(Times(s, s), bend) <= Times(AbsReal(s), bend)
  {
    var n := AbsReal(s);
    assert s * s == n * n;
    Product(n, 1.0 - n);
    Product(n * (1.0 - n), bend);
    assert n * (1.0 - n) * bend == n * bend - n * n * bend;
  }

  lemma NearFirstKnot(times: seq<int>, q: seq<real>, v: seq<real>, k: nat, s: real)
    requires Path(times, q, v) && k + 1 < |times| && -1.0 <= s <= 1.0
    ensures AbsReal(Eval(q[k], v[k], q[k + 1], v[k + 1], s, Interval(times, k)) - q[k]) <= Times(AbsReal(s), PaceOf(times, q, v, k))
  {
    PaceBounds(times, q, v, k);
    hide Eval, Bend, AbsReal, Interval, PaceOf, Times;
    var h := Interval(times, k);
    LeavesAlongTangent(q[k], v[k], q[k + 1], v[k + 1], s, h);
    NearTangent(Eval(q[k], v[k], q[k + 1], v[k + 1], s, h), q[k], s, Times(h, v[k]), BendOf(times, q, v, k), PaceOf(times, q, v, k));
  }

  lemma NearLastKnot(times: seq<int>, q: seq<real>, v: seq<real>, k: nat, r: real)
    requires Path(times, q, v) && k + 1 < |times| && 0.0 <= r <= 1.0
    ensures AbsReal(Eval(q[k], v[k], q[k + 1], v[k + 1], 1.0 - r, Interval(times, k)) - q[k + 1]) <= Times(r, PaceOf(times, q, v, k))
  {
    PaceBounds(times, q, v, k);
    Opposite(r, Times(Interval(times, k), v[k + 1]));
    hide Eval, Bend, AbsReal, Interval, PaceOf, Times;
    var h := Interval(times, k);
    var u := Times(h, v[k + 1]);
    ArrivesAlongTangent(q[k], v[k], q[k + 1], v[k + 1], r, h);
    NearTangent(Eval(q[k], v[k], q[k + 1], v[k + 1], 1.0 - r, h), q[k + 1], r, -u, BendOf(times, q, v, k), PaceOf(times, q, v, k));
  }

  lemma PaceBounds(times: seq<int>, q: seq<real>, v: seq<real>, k: nat)
    requires Path(times, q, v) && k + 1 < |times|
    ensures var u, w := Times(Interval(times, k), v[k]), Times(Interval(times, k), v[k + 1]);
            PaceOf(times, q, v, k) >= BendOf(times, q, v, k) + AbsReal(u) && PaceOf(times, q, v, k) >= BendOf(times, q, v, k) + AbsReal(w)
  {
    hide Times, Interval, BendOf;
  }

  lemma Opposite(r: real, u: real)
    ensures Times(r, -u) == -Times(r, u) && AbsReal(-u) == AbsReal(u) && (r >= 0.0 ==> AbsReal(r) == r)
  {
  }

  /** Less than a nanosecond before knot `k + 1` the sampler plays the segment before the knot or the one after it. */
  lemma SegmentBefore(times: seq<int>, k: nat, tq: real)
    requires Increasing(times) && k + 1 < |times| && times[k + 1] as real - 1.0 < tq < times[k + 1] as real
    ensures Segment(times, tq) == k || (Segment(times, tq) == k + 1 && k + 2 < |times|)
  {
    var t := Trunc(tq);
    assert times[k + 1] - 1 <= t <= times[k + 1];
    assert times[k] <= times[k + 1] - 1;
    var hi := UpperBound(times, t);
    assert k < hi;
    if k + 2 < |times| { assert times[k + 2] > times[k + 1]; }
  }

  /** Just before a knot playback is as near to the knot as the time left, times the pace around it. */
  lemma SampleNearsKnot(times: seq<int>, q: seq<real>, v: seq<real>, k: nat, tq: real)
    requires Path(times, q, v) && k + 1 < |times|
    requires times[k + 1] as real - 1.0 < tq < times[k + 1] as real && Inside(times, tq)
    ensures AbsReal(Sample(times, q, v, tq) - q[k + 1]) <= Times(times[k + 1] as real - tq, PaceAround(times, q, v, k))
  {
    hide Sample, Eval, PaceOf, PaceAround, Segment, Interval, Fraction, Times, AbsReal;
    var lo, left := Segment(times, tq), times[k + 1] as real - tq;
    SegmentBefore(times, k, tq);
    SampleIsEval(times, q, v, tq);
    FractionBefore(times, k, lo, tq);
    var s, pace, around := Fraction(times, lo, tq), PaceOf(times, q, v, lo), PaceAround(times, q, v, k);
    hide Increasing;
    if lo == k {
      NearLastKnot(times, q, v, k, 1.0 - s);
      assert 1.0 - (1.0 - s) == s;
      Grows(1.0 - s, left, pace, around);
    } else {
      NearFirstKnot(times, q, v, k + 1, s);
      Grows(AbsReal(s), left, pace, around);
    }
  }

  lemma FractionBefore(times: seq<int>, k: nat, lo: nat, tq: real)
    requires Increasing(times) && k <= lo <= k + 1 && lo + 1 < |times|
    requires times[k + 1] as real - 1.0 < tq < times[k + 1] as real
    ensures var s, left := Fraction(times, lo, tq), times[k + 1] as real - tq;
            && -1.0 <= s <= 1.0
            && (lo == k ==> s >= 0.0 && 1.0 - s <= left)
            && (lo != k ==> 0.0 <= AbsReal(s) <= left)
  {
    var x, len := tq - times[lo] as real, (times[lo + 1] - times[lo]) as real;
    Quotient(x, len);
    assert len >= 1.0;
    hide Increasing, AbsReal;
    if lo == k { LastPart(x / len, len, len - x); } else { FirstPart(x / len, len, -x); }
  }

  lemma LastPart(s: real, len: real, left: real)
    requires len >= 1.0 && s * len == len - left && 0.0 < left <= 1.0
    ensures 0.0 <= s <= 1.0 && 1.0 - s <= left
  {
    var r := 1.0 - s;
    assert r * len == left;
    Compare(0.0, r, len);
    Compare(r, left, len);
    Product(left, len - 1.0);
  }

  lemma FirstPart(s: real, len: real, left: real)
    requires len >= 1.0 && s * len == -left && 0.0 < left <= 1.0
    ensures -1.0 <= s <= 0.0 && 0.0 <= AbsReal(s) <= left
  {
    var r := -s;
    assert r * len == left;
    Compare(0.0, r, len);
    Compare(r, left, len);
    Product(left, len - 1.0);
  }

  lemma Grows(a: real, b: real, c: real, d: real)
    requires 0.0 <= a <= b && 0.0 <= c <= d
    ensures Times(a, c) <= Times(b, d)
  {
    Product(b - a, c);
    Product(b, d - c);
  }

  /** For less than `delta` before knot `k`, playback is within `eps` of the knot. */
  ghost predicate NearsKnot(times: seq<int>, q: seq<real>, v: seq<real>, k: nat, delta: real, eps: real)
    requires Path(times, q, v) && k < |times|
  {
    delta > 0.0 &&
    forall tq: real :: times[k] as real - delta < tq < times[k] as real ==> AbsReal(Sample(times, q, v, tq) - q[k]) < eps
  }

  /** So playback meets both ends of every interval: its limit from the left at a knot is the knot. */
  lemma SampleReachesEveryKnot(times: seq<int>, q: seq<real>, v: seq<real>, k: nat, eps: real)
    requires Path(times, q, v) && 0 < k < |times| && eps > 0.0
    ensures exists delta: real :: NearsKnot(times, q, v, k, delta, eps)
  {
    var pace := PaceAround(times, q, v, k - 1) + 1.0;
    var delta := if eps / pace < 1.0 then eps / pace else 1.0;
    Quotient(eps, pace);
    assert times[k - 1] as real <= times[k] as real - 1.0;
    assert times[0] <= times[k - 1] && times[k] <= times[|times| - 1];
    forall tq: real | times[k] as real - delta < tq < times[k] as real
      ensures AbsReal(Sample(times, q, v, tq) - q[k]) < eps
    {
      hide Sample, PaceAround, AbsReal, Times, Increasing;
      SampleNearsKnot(times, q, v, k - 1, tq);
      BelowEps(times[k] as real - tq, pace, eps);
    }
    hide Sample, PaceAround, AbsReal, Times, Increasing;
    assert NearsKnot(times, q, v, k, delta, eps);
  }

  lemma BelowEps(left: real, pace: real, eps: real)
    requires pace >= 1.0 && 0.0 < left < eps / pace
    ensures Times(left, pace - 1.0) < eps
  {
    Quotient(eps, pace);
    Compare(left, eps / pace, pace);
  }
}

/**
 Cubic Hermite playback of one joint over the reals (src/cpp/tick_engine/hermite.cpp).
 `h` is an interval length in seconds and `s` the position inside it.
 */
module Hermite {

  function H00(s: real): real { 2.0 * s * s * s - 3.0 * s * s + 1.0 }
  function H10(s: real): real { s * s * s - 2.0 * s * s + s }
  function H01(s: real): real { -2.0 * s * s * s + 3.0 * s * s }
  function H11(s: real): real { s * s * s - s * s }

  function AbsReal(x: real): real { if x < 0.0 then -x else x }

  function Times(x: real, y: real): real { x * y }

  function Eval(q0: real, v0: real, q1: real, v1: real, s: real, h: real): real {
    H00(s) * q0 + H10(s) * h * v0 + H01(s) * q1 + H11(s) * h * v1
  }

  /** The tangent has the sign of the secant `d` or is zero, and is at most three times it. */
  predicate Follows(v: real, d: real) {
    if d >= 0.0 then 0.0 <= v <= 3.0 * d else 3.0 * d <= v <= 0.0
  }

  predicate Between(x: real, a: real, b: real) {
    a <= x <= b || b <= x <= a
  }

  /** `x` and `y` are met in this order when travelling from `a` to `b`. */
  predicate InOrder(x: real, y: real, a: real, b: real) {
    if a <= b then x <= y else y <= x
  }

  // The four corner cubics of the tangent square are each nondecreasing on [0, 1].

  lemma Square(x: real)
    ensures x * x >= 0.0
  {
  }

  lemma CornerBothFlat(s: real, t: real)
    requires 0.0 <= s <= t <= 1.0
    ensures H01(s) <= H01(t)
  {
    var k := 3.0 * (t + s) - 2.0 * (t * t + t * s + s * s);
    assert k == t * (1.0 - s) + s * (1.0 - t) + 2.0 * t * (1.0 - t) + 2.0 * s * (1.0 - s);
    Product(t, 1.0 - s);
    Product(s, 1.0 - t);
    Product(t, 1.0 - t);
    Product(s, 1.0 - s);
    Product(t - s, k);
    assert H01(t) - H01(s) == (t - s) * k;
  }

  lemma Product(a: real, b: real)
    requires a >= 0.0 && b >= 0.0
    ensures a * b >= 0.0
  {
  }

  lemma CornerStartSteep(s: real, t: real)
    requires 0.0 <= s <= t <= 1.0
    ensures H01(s) + 3.0 * H10(s) <= H01(t) + 3.0 * H10(t)
  {
    CubeFromOne(s);
    CubeFromOne(t);
    hide H01, H10;
    CubeGrows(1.0 - t, 1.0 - s);
  }

  lemma CubeFromOne(s: real)
    ensures H01(s) + 3.0 * H10(s) == 1.0 - (1.0 - s) * (1.0 - s) * (1.0 - s)
  {
    var a := 1.0 - s;
    assert a * a == 1.0 - 2.0 * s + s * s;
    assert a * a * a == a * a - s * (a * a);
    assert s * (a * a) == s - 2.0 * s * s + s * s * s;
  }

  lemma CornerEndSteep(s: real, t: real)
    requires 0.0 <= s <= t <= 1.0
    ensures H01(s) + 3.0 * H11(s) <= H01(t) + 3.0 * H11(t)
  {
    assert H01(s) + 3.0 * H11(s) == s * s * s;
    assert H01(t) + 3.0 * H11(t) == t * t * t;
    CubeGrows(s, t);
  }

  lemma CornerBothSteep(s: real, t: real)
    requires 0.0 <= s <= t <= 1.0
    ensures H01(s) + 3.0 * H10(s) + 3.0 * H11(s) <= H01(t) + 3.0 * H10(t) + 3.0 * H11(t)
  {
    var x, y := t + s - 1.0, t - s;
    var k := 3.0 * (x * x) + y * y;
    Square(x);
    Square(y);
    Product(t - s, k);
    assert k == 4.0 * (t * t + t * s + s * s) - 6.0 * (t + s) + 3.0;
    assert H01(s) + 3.0 * H10(s) + 3.0 * H11(s) == 4.0 * s * s * s - 6.0 * s * s + 3.0 * s;
    assert H01(t) + 3.0 * H10(t) + 3.0 * H11(t) == 4.0 * t * t * t - 6.0 * t * t + 3.0 * t;
  }

  lemma CubeGrows(a: real, b: real)
    requires 0.0 <= a <= b
    ensures a * a * a <= b * b * b
  {
    assert a * a <= b * b by { assert (b - a) * (b + a) >= 0.0; }
    assert a * a * a <= b * b * a;
    assert b * b * (b - a) >= 0.0;
  }

  /** An affine form that is nonnegative at the corners of a square is so inside it. */
  lemma CornersSuffice(dist: real, a: real, b: real, c: real, u: real, w: real)
    requires dist >= 0.0 && 0.0 <= u <= 3.0 * dist && 0.0 <= w <= 3.0 * dist
    requires a >= 0.0 && a + 3.0 * b >= 0.0 && a + 3.0 * c >= 0.0 && a + 3.0 * b + 3.0 * c >= 0.0
    ensures dist * a + u * b + w * c >= 0.0
  {
    var x := if b >= 0.0 then 0.0 else 3.0 * b;
    var y := if c >= 0.0 then 0.0 else 3.0 * c;
    assert u * b >= dist * x by {
      if b >= 0.0 { assert u * b >= 0.0; } else { assert (3.0 * dist - u) * -b >= 0.0; }
    }
    assert w * c >= dist * y by {
      if c >= 0.0 { assert w * c >= 0.0; } else { assert (3.0 * dist - w) * -c >= 0.0; }
    }
    assert dist * (a + x + y) >= 0.0;
  }

  /** How far playback has moved from the first knot: affine in each scaled tangent. */
  function Offset(d: real, u: real, w: real, s: real): real {
    Weigh(d, u, w, H01(s), H10(s), H11(s))
  }

  function Weigh(d: real, u: real, w: real, a: real, b: real, c: real): real {
    d * a + u * b + w * c
  }

  lemma {:induction false} OffsetGrows(d: real, u: real, w: real, s: real, t: real)
    requires 0.0 <= s <= t <= 1.0 && 0.0 <= u <= 3.0 * d && 0.0 <= w <= 3.0 * d
    ensures Offset(d, u, w, s) <= Offset(d, u, w, t)
  {
    CornerBothFlat(s, t);
    CornerStartSteep(s, t);
    CornerEndSteep(s, t);
    CornerBothSteep(s, t);
    OffsetsGrow(d, u, w, H01(s), H10(s), H11(s), H01(t), H10(t), H11(t));
  }

  lemma OffsetForm(q0: real, v0: real, q1: real, v1: real, s: real, h: real)
    ensures Eval(q0, v0, q1, v1, s, h) == q0 + Offset(q1 - q0, h * v0, h * v1, s)
  {
    var a, b, c := H01(s), H10(s), H11(s);
    assert H00(s) == 1.0 - a;
    assert (1.0 - a) * q0 + b * h * v0 + a * q1 + c * h * v1 == q0 + ((q1 - q0) * a + h * v0 * b + h * v1 * c);
  }

  lemma RisingSegment(q0: real, v0: real, q1: real, v1: real, h: real, s: real, t: real)
    requires 0.0 <= s <= t <= 1.0
    requires 0.0 <= h * v0 <= 3.0 * (q1 - q0) && 0.0 <= h * v1 <= 3.0 * (q1 - q0)
    ensures Eval(q0, v0, q1, v1, s, h) <= Eval(q0, v0, q1, v1, t, h)
  {
    OffsetForm(q0, v0, q1, v1, s, h);
    OffsetForm(q0, v0, q1, v1, t, h);
    OffsetGrows(q1 - q0, h * v0, h * v1, s, t);
  }

  lemma OffsetsGrow(d: real, u: real, w: real, a: real, b: real, c: real, a': real, b': real, c': real)
    requires d >= 0.0 && 0.0 <= u <= 3.0 * d && 0.0 <= w <= 3.0 * d
    requires a <= a' && a + 3.0 * b <= a' + 3.0 * b' && a + 3.0 * c <= a' + 3.0 * c'
    requires a + 3.0 * b + 3.0 * c <= a' + 3.0 * b' + 3.0 * c'
    ensures Weigh(d, u, w, a, b, c) <= Weigh(d, u, w, a', b', c')
  {
    CornersSuffice(d, a' - a, b' - b, c' - c, u, w);
    assert d * (a' - a) + u * (b' - b) + w * (c' - c) == d * a' + u * b' + w * c' - (d * a + u * b + w * c);
  }

  lemma Mirror(q0: real, v0: real, q1: real, v1: real, s: real, h: real)
    ensures Eval(-q0, -v0, -q1, -v1, s, h) == -Eval(q0, v0, q1, v1, s, h)
  {
  }

  lemma EndPoints(q0: real, v0: real, q1: real, v1: real, h: real)
    ensures Eval(q0, v0, q1, v1, 0.0, h) == q0 && Eval(q0, v0, q1, v1, 1.0, h) == q1
  {
    assert H10(1.0) == 0.0 && H11(1.0) == 0.0 && H00(1.0) == 0.0 && H01(1.0) == 1.0;
  }

  lemma SegmentInOrder(q0: real, v0: real, q1: real, v1: real, h: real, s: real, t: real)
    requires h > 0.0 && 0.0 <= s <= t <= 1.0
    requires Follows(v0, (q1 - q0) / h) && Follows(v1, (q1 - q0) / h)
    ensures InOrder(Eval(q0, v0, q1, v1, s, h), Eval(q0, v0, q1, v1, t, h), q0, q1)
  {
    ScaleTangent(v0, q1 - q0, h);
    ScaleTangent(v1, q1 - q0, h);
    if q0 <= q1 {
      RisingSegment(q0, v0, q1, v1, h, s, t);
    } else {
      assert h * -v0 == -(h * v0) && h * -v1 == -(h * v1);
      RisingSegment(-q0, -v0, -q1, -v1, h, s, t);
      Mirror(q0, v0, q1, v1, s, h);
      Mirror(q0, v0, q1, v1, t, h);
    }
  }

  /**
   Playback between two knots whose tangents follow the secant is monotone in time, so
   it never leaves the two knots, and it meets both of them.
   */
  lemma {:induction false} MonotoneSegment(q0: real, v0: real, q1: real, v1: real, h: real, s: real, t: real)
    requires h > 0.0 && 0.0 <= s <= t <= 1.0
    requires Follows(v0, (q1 - q0) / h) && Follows(v1, (q1 - q0) / h)
    ensures InOrder(Eval(q0, v0, q1, v1, s, h), Eval(q0, v0, q1, v1, t, h), q0, q1)
    ensures Between(Eval(q0, v0, q1, v1, s, h), q0, q1)
    ensures Eval(q0, v0, q1, v1, 0.0, h) == q0 && Eval(q0, v0, q1, v1, 1.0, h) == q1
  {
    SegmentInOrder(q0, v0, q1, v1, h, s, t);
    SegmentInOrder(q0, v0, q1, v1, h, 0.0, s);
    SegmentInOrder(q0, v0, q1, v1, h, s, 1.0);
    EndPoints(q0, v0, q1, v1, h);
  }

  /** Run on backwards from its first knot by the fraction `b`, the segment leaves the knot by at most 23 times that. */
  lemma JustBefore(q0: real, v0: real, q1: real, v1: real, h: real, b: real)
    requires h > 0.0 && 0.0 <= b <= 1.0
    requires Follows(v0, (q1 - q0) / h) && Follows(v1, (q1 - q0) / h)
    ensures AbsReal(Eval(q0, v0, q1, v1, -b, h) - q0) <= 23.0 * Times(AbsReal(q1 - q0), b)
  {
    TangentSize(v0, q1 - q0, h);
    TangentSize(v1, q1 - q0, h);
    OffsetForm(q0, v0, q1, v1, -b, h);
    OffsetBound(q1 - q0, h * v0, h * v1, b);
    hide Eval, Offset, Follows, Times;
  }

  lemma OffsetBound(d: real, u: real, w: real, b: real)
    requires AbsReal(u) <= 3.0 * AbsReal(d) && AbsReal(w) <= 3.0 * AbsReal(d) && 0.0 <= b <= 1.0
    ensures AbsReal(Offset(d, u, w, -b)) <= 23.0 * Times(AbsReal(d), b)
  {
    BasisBefore(b);
    var m := AbsReal(d);
    hide H01, H10, H11, Weigh, AbsReal, Times;
    WeighedBound(d, u, w, H01(-b), H10(-b), H11(-b), m, b);
  }

  lemma TangentSize(v: real, d: real, h: real)
    requires h > 0.0 && Follows(v, d / h)
    ensures AbsReal(h * v) <= 3.0 * AbsReal(d)
  {
    ScaleTangent(v, d, h);
  }

  lemma BasisBefore(b: real)
    requires 0.0 <= b <= 1.0
    ensures AbsReal(H01(-b)) <= 5.0 * b && AbsReal(H10(-b)) <= 4.0 * b && AbsReal(H11(-b)) <= 2.0 * b
  {
    var b2 := b * b;
    var b3 := b2 * b;
    Shrinks(b, b);
    assert b2 >= 0.0;
    Shrinks(b2, b);
    assert 0.0 <= b3 <= b2 <= b;
    assert H01(-b) == 2.0 * b3 + 3.0 * b2;
    assert H10(-b) == -b3 - 2.0 * b2 - b;
    assert H11(-b) == -b3 - b2;
    hide H01, H10, H11;
    Basis(H01(-b), H10(-b), H11(-b), b, b2, b3);
  }

  lemma Basis(x: real, y: real, z: real, b: real, b2: real, b3: real)
    requires 0.0 <= b3 <= b2 <= b && x == 2.0 * b3 + 3.0 * b2 && y == -b3 - 2.0 * b2 - b && z == -b3 - b2
    ensures AbsReal(x) <= 5.0 * b && AbsReal(y) <= 4.0 * b && AbsReal(z) <= 2.0 * b
  {
  }

  lemma Shrinks(x: real, b: real)
    requires 0.0 <= b <= 1.0 && x >= 0.0
    ensures 0.0 <= x * b <= x
  {
    assert x * (1.0 - b) >= 0.0;
  }

  lemma WeighedBound(d: real, u: real, w: real, a: real, e: real, f: real, m: real, b: real)
    requires AbsReal(d) <= m && AbsReal(u) <= 3.0 * m && AbsReal(w) <= 3.0 * m
    requires AbsReal(a) <= 5.0 * b && AbsReal(e) <= 4.0 * b && AbsReal(f) <= 2.0 * b
    ensures AbsReal(Weigh(d, u, w, a, e, f)) <= 23.0 * Times(m, b)
  {
    assert Weigh(d, u, w, a, e, f) == Times(d, a) + Times(u, e) + Times(w, f);
    hide AbsReal, Times, Weigh;
    SizeOfProduct(d, a, m, b, 1.0, 5.0);
    SizeOfProduct(u, e, m, b, 3.0, 4.0);
    SizeOfProduct(w, f, m, b, 3.0, 2.0);
    SizeOfSum(Times(d, a), Times(u, e), Times(w, f), Times(m, b));
  }

  lemma SizeOfProduct(x: real, y: real, m: real, b: real, k: real, l: real)
    requires AbsReal(x) <= k * m && AbsReal(y) <= l * b
    ensures AbsReal(Times(x, y)) <= k * l * Times(m, b)
  {
    var p, r, v, z := AbsReal(x), AbsReal(y), k * m, l * b;
    assert AbsReal(Times(x, y)) == p * r;
    Monotone(p, r, v, z);
    assert v * z == k * l * (m * b);
  }

  lemma Monotone(p: real, r: real, v: real, z: real)
    requires 0.0 <= p <= v && 0.0 <= r <= z
    ensures p * r <= v * z
  {
    Product(v - p, z);
    Product(p, z - r);
  }

  lemma SizeOfSum(x: real, y: real, z: real, n: real)
    requires AbsReal(x) <= 1.0 * 5.0 * n && AbsReal(y) <= 3.0 * 4.0 * n && AbsReal(z) <= 3.0 * 2.0 * n
    ensures AbsReal(x + y + z) <= 23.0 * n
  {
  }

  lemma ScaleTangent(v: real, d: real, h: real)
    requires h > 0.0 && Follows(v, d / h)
    ensures if d >= 0.0 then 0.0 <= h * v <= 3.0 * d else 3.0 * d <= h * v <= 0.0
  {
    var m := d / h;
    assert m * h == d;
    if d >= 0.0 {
      assert m >= 0.0;
      assert h * (3.0 * m - v) >= 0.0;
    } else {
      assert m < 0.0;
      assert h * (v - 3.0 * m) >= 0.0;
    }
  }
}

/**
 Bitwise "and" on naturals, and the power-of-two mask both rings index with: masking
 with `cap - 1` is the remainder modulo `cap`, and the compile-time test
 `(cap & (cap - 1)) == 0` accepts exactly the powers of two.
 */
module Bits {

  function Pow2(k: nat): (p: nat)
    ensures p > 0
  {
    if k == 0 then 1 else 2 * Pow2(k - 1)
  }

  function And(x: nat, y: nat): nat {
    if x == 0 || y == 0 then 0 else 2 * And(x / 2, y / 2) + (x % 2) * (y % 2)
  }

  lemma Multiples(m: int, d: int)
    requires m > 0
    ensures d >= 1 ==> m * d >= m
    ensures d <= -1 ==> m * d <= -m
  {
  }

  /** The remainder is the only `r` below `m` with `x == m * q + r`. */
  lemma ModUnique(x: nat, m: nat, q: int, r: nat)
    requires m > 0 && x == m * q + r && r < m
    ensures x % m == r && x / m == q
  {
    assert x == m * (x / m) + x % m;
    assert m * (x / m - q) == r - x % m;
    Multiples(m, x / m - q);
  }

  lemma DoubleMod(x: nat, p: nat)
    requires p > 0
    ensures x % (2 * p) == 2 * (x / 2 % p) + x % 2
  {
    var h, b := x / 2, x % 2;
    var q, r := h / p, h % p;
    assert h == p * q + r;
    assert 2 * (p * q) == 2 * p * q;
    ModUnique(x, 2 * p, q, 2 * r + b);
  }

  lemma {:induction false} MaskIsMod(x: nat, k: nat)
    ensures And(x, Pow2(k) - 1) == x % Pow2(k)
  {
    if x == 0 {
      ModUnique(0, Pow2(k), 0, 0);
    } else if k > 0 {
      var p := Pow2(k - 1);
      MaskIsMod(x / 2, k - 1);
      DoubleMod(x, p);
      assert (2 * p - 1) / 2 == p - 1 && (2 * p - 1) % 2 == 1;
    }
  }

  lemma {:induction false} AndSelf(x: nat)
    ensures And(x, x) == x
  {
    if x > 0 {
      AndSelf(x / 2);
      BitSquare(x % 2);
    }
  }

  lemma BitSquare(b: nat)
    requires b < 2
    ensures b * b == b
  {
  }

  /** The capacity check of the ring template, for every positive capacity. */
  lemma {:induction false} PowerOfTwoTest(c: nat)
    requires c > 0
    ensures And(c, c - 1) == 0 <==> exists k: nat :: c == Pow2(k)
  {
    if c == 1 {
      assert c == Pow2(0);
    } else if c % 2 == 1 {
      AndSelf(c / 2);
      forall k: nat ensures c != Pow2(k) {}
    } else {
      PowerOfTwoTest(c / 2);
      assert (c - 1) / 2 == c / 2 - 1;
      if And(c, c - 1) == 0 {
        var k: nat :| c / 2 == Pow2(k);
        assert c == Pow2(k + 1);
      } else {
        forall k: nat ensures c != Pow2(k) {
          if k > 0 { assert c / 2 != Pow2(k - 1); }
        }
      }
    }
  }

  /** Stepping an index round the ring. */
  lemma ModNext(n: nat, m: nat)
    requires m > 0
    ensures (n % m + 1) % m == (n + 1) % m
  {
    var q, r := n / m, n % m;
    if r + 1 < m {
      ModUnique(n + 1, m, q, r + 1);
      ModUnique(r + 1, m, 0, r + 1);
    } else {
      assert n + 1 == m * (q + 1) + 0;
      ModUnique(n + 1, m, q + 1, 0);
      ModUnique(m, m, 1, 0);
    }
  }

  /** Two indices less than one lap apart use different slots. */
  lemma ModDistinct(a: nat, b: nat, m: nat)
    requires m > 0 && a < b < a + m
    ensures a % m != b % m
  {
    if a % m == b % m {
      assert b - a == m * (b / m - a / m);
      Multiples(m, b / m - a / m);
    }
  }

  /** Whole laps do not change a slot. */
  lemma Regroup(x: nat, m: nat, a: nat, y: nat)
    requires m > 0 && x == m * a + y
    ensures x % m == y % m
  {
    var q, r := y / m, y % m;
    assert y == m * q + r;
    assert m * a + m * q == m * (a + q);
    ModUnique(x, m, a + q, r);
  }

  lemma {:induction false} Pow2Split(a: nat, b: nat)
    ensures Pow2(a + b) == Pow2(a) * Pow2(b)
  {
    if a > 0 { Pow2Split(a - 1, b); }
  }
}

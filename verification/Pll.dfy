/**
 The phase servo of the 8 ms send clock (src/cpp/rt_core/pll.cpp, pll.hpp).

 Times are integer nanoseconds. The gain is the rational `num / den` in (0, 1], and a
 gain times an error is truncated toward zero, as the cast from double does; rounding
 of the double product itself is not modelled. All bounds are on deadlines.
 */
module Pll {
  import opened Bits

  datatype Config = Config(rxLead: int, num: int, den: int, tick: int, cap: int)

  /** What a servo is built with: a gain in (0, 1] and a positive period. */
  predicate Sane(c: Config) { 0 < c.num <= c.den && c.tick > 0 }

  /** The clamp is narrower than a period, which is what spaces the deadlines. */
  predicate Spaced(c: Config) { Sane(c) && 0 <= c.cap < c.tick }

  /** One call's arguments after the deadline that just fired. */
  datatype Input = Input(haveRx: bool, rx: int, now: int)

  datatype Output = Output(next: int, correction: int, skipped: int)

  function Abs(x: int): nat { if x < 0 then -x else x }

  /** Integer division truncating toward zero. */
  function TruncDiv(x: int, d: int): int
    requires d > 0
  {
    if x >= 0 then x / d else -(-x / d)
  }

  function Clamp(v: int, lo: int, hi: int): int {
    if v < lo then lo else if v > hi then hi else v
  }

  function Correction(c: Config, err: int): int
    requires Sane(c)
  {
    Clamp(TruncDiv(c.num * err, c.den), -c.cap, c.cap)
  }

  /** The deadline before the clock is looked at. */
  function Candidate(c: Config, sched: int, i: Input): int
    requires Sane(c)
  {
    var next := sched + c.tick - (if i.haveRx then Correction(c, sched - (i.rx + c.rxLead)) else 0);
    if next <= sched then sched + 1 else next
  }

  function Tick(c: Config, sched: int, i: Input): Output
    requires Sane(c)
  {
    var corr := if i.haveRx then Correction(c, sched - (i.rx + c.rxLead)) else 0;
    var next := Candidate(c, sched, i);
    if next <= i.now then Output(i.now + c.tick, corr, (i.now - next) / c.tick + 1)
    else Output(next, corr, 0)
  }

  class Servo {
    const config: Config
    var lastCorrection: int
    var lastSkipped: int

    constructor (config: Config)
      ensures this.config == config && lastCorrection == 0 && lastSkipped == 0
    {
      this.config := config;
      lastCorrection, lastSkipped := 0, 0;
    }

    method NextTick(sched: int, haveRx: bool, rx: int, now: int) returns (next: int)
      requires Sane(config)
      modifies this
      ensures Output(next, lastCorrection, lastSkipped) == Tick(config, sched, Input(haveRx, rx, now))
    {
      if haveRx {
        var err := sched - (rx + config.rxLead);
        var corr := Clamp(TruncDiv(config.num * err, config.den), -config.cap, config.cap);
        lastCorrection := corr;
        next := sched + config.tick - corr;
      } else {
        lastCorrection := 0;
        next := sched + config.tick;
      }
      if next <= sched {
        next := sched + 1;
      }
      lastSkipped := 0;
      if next <= now {
        lastSkipped := (now - next) / config.tick + 1;
        next := now + config.tick;
      }
    }
  }

  // ---- spacing -----------------------------------------------------------------

  /** A deadline is after the previous one and after the clock, whatever the clamp. */
  lemma DeadlineIsAhead(c: Config, sched: int, i: Input)
    requires Sane(c)
    ensures Tick(c, sched, i).next > sched && Tick(c, sched, i).next > i.now
  {
  }

  lemma OneTickSpacing(c: Config, sched: int, i: Input)
    requires Spaced(c)
    ensures var o := Tick(c, sched, i);
            && o.next - sched >= c.tick - c.cap
            && (o.skipped == 0 ==> o.next - sched <= c.tick + c.cap)
            && -c.cap <= o.correction <= c.cap
  {
  }

  function Max(a: int, b: int): int { if a < b then b else a }

  /**
   Only a deadline the clock has reached is moved, then exactly one period past the clock, and
   `skipped` counts the windows it was late by, begun ones included.
   */
  lemma RebaseDropsWholeWindows(c: Config, sched: int, i: Input)
    requires Sane(c)
    ensures var o := Tick(c, sched, i);
            var due := Max(sched + 1, sched + c.tick - o.correction);
            && o.skipped >= 0
            && (o.skipped > 0 <==> due <= i.now)
            && (o.skipped > 0 ==> o.next == i.now + c.tick && (o.skipped - 1) * c.tick <= i.now - due < o.skipped * c.tick)
            && (o.skipped == 0 ==> o.next == due)
  {
    var late := Candidate(c, sched, i);
    if late <= i.now { WindowsBegun(i.now - late, c.tick); }
    hide Correction;
  }

  lemma WindowsBegun(d: int, tick: int)
    requires d >= 0 && tick > 0
    ensures var n := d / tick + 1; n > 0 && (n - 1) * tick <= d < n * tick
  {
    var q := d / tick;
    assert d == tick * q + d % tick;
    assert (q + 1) * tick == tick * q + tick && (q + 1 - 1) * tick == tick * q;
    Multiples(tick, q);
  }

  /** The correction reported is the clamped pull towards the status, and none without a status. */
  lemma CorrectionReported(c: Config, sched: int, i: Input)
    requires Sane(c) && c.cap >= 0
    ensures var err := sched - (i.rx + c.rxLead);
            var pull := Min(Pull(c, Abs(err)), c.cap);
            Tick(c, sched, i).correction == if !i.haveRx then 0 else if err >= 0 then pull else -pull
  {
    CorrectionIsPull(c, sched - (i.rx + c.rxLead));
  }

  /** The deadlines of a run, starting with the one already armed. */
  function Deadlines(c: Config, sched: int, inputs: seq<Input>): (ds: seq<int>)
    requires Sane(c)
    ensures |ds| == |inputs| + 1
    decreases |inputs|
  {
    if inputs == [] then [sched]
    else [sched] + Deadlines(c, Tick(c, sched, inputs[0]).next, inputs[1..])
  }

  lemma {:induction false} DeadlinesStep(c: Config, sched: int, inputs: seq<Input>, k: nat)
    requires Sane(c) && k < |inputs|
    ensures var ds := Deadlines(c, sched, inputs); ds[k + 1] == Tick(c, ds[k], inputs[k]).next
    decreases k
  {
    if k > 0 { DeadlinesStep(c, Tick(c, sched, inputs[0]).next, inputs[1..], k - 1); }
  }

  /**
   Over any run, no send is due sooner than a period after a late one: a deadline that had to skip
   windows is exactly one period after the clock reading that found it late, and any other is
   a period less the correction after the deadline before it.
   */
  lemma DeadlinesOfRun(c: Config, sched: int, inputs: seq<Input>, k: nat)
    requires Spaced(c) && k < |inputs|
    ensures var ds := Deadlines(c, sched, inputs);
            var o, now := Tick(c, ds[k], inputs[k]), inputs[k].now;
            && (o.skipped > 0 <==> now >= ds[k] + c.tick - o.correction)
            && (o.skipped > 0 ==> ds[k + 1] == now + c.tick)
            && (o.skipped == 0 ==> ds[k + 1] == ds[k] + c.tick - o.correction)
  {
    DeadlinesStep(c, sched, inputs, k);
    var prev := Deadlines(c, sched, inputs)[k];
    RebaseDropsWholeWindows(c, prev, inputs[k]);
    OneTickSpacing(c, prev, inputs[k]);
    hide Tick, Deadlines;
  }

  /** Served on time and without statuses, the clock runs freely: deadline `k` is exactly `k` periods on. */
  lemma {:induction false} FreeRunning(c: Config, sched: int, inputs: seq<Input>, k: nat)
    requires Sane(c) && k <= |inputs|
    requires forall j :: 0 <= j < k ==> !inputs[j].haveRx && inputs[j].now < sched + Times(j + 1, c.tick)
    ensures Deadlines(c, sched, inputs)[k] == sched + Times(k, c.tick)
    ensures k < |inputs| && !inputs[k].haveRx ==> Tick(c, Deadlines(c, sched, inputs)[k], inputs[k]).correction == 0
  {
    if k > 0 {
      FreeRunning(c, sched, inputs, k - 1);
      DeadlinesStep(c, sched, inputs, k - 1);
      RebaseDropsWholeWindows(c, sched + Times(k - 1, c.tick), inputs[k - 1]);
      OneMore(k, c.tick);
    }
  }

  function Times(n: int, d: int): int { n * d }

  /** Any two deadlines of any run are at least `tick - cap` apart per step. */
  lemma {:induction false} RunSpacing(c: Config, sched: int, inputs: seq<Input>, i: nat, j: nat)
    requires Spaced(c) && i <= j <= |inputs|
    ensures var ds := Deadlines(c, sched, inputs);
            ds[j] - ds[i] >= Times(j - i, c.tick - c.cap)
    decreases |inputs|
  {
    if inputs != [] {
      OneTickSpacing(c, sched, inputs[0]);
      var next := Tick(c, sched, inputs[0]).next;
      hide Tick, Times;
      if i > 0 {
        RunSpacing(c, next, inputs[1..], i - 1, j - 1);
      } else if j > 0 {
        RunSpacing(c, next, inputs[1..], 0, j - 1);
        OneMore(j, c.tick - c.cap);
      }
    }
  }

  lemma OneMore(n: int, d: int)
    ensures Times(n, d) == Times(n - 1, d) + d
  {
  }

  /** A window of length `len` holds at most `len / (tick - cap) + 1` deadlines. */
  lemma WindowHoldsFewDeadlines(c: Config, sched: int, inputs: seq<Input>, i: nat, j: nat, len: nat)
    requires Spaced(c) && i <= j <= |inputs|
    requires Deadlines(c, sched, inputs)[j] - Deadlines(c, sched, inputs)[i] <= len
    ensures j - i + 1 <= len / (c.tick - c.cap) + 1
  {
    RunSpacing(c, sched, inputs, i, j);
    DivBound(j - i, c.tick - c.cap, len);
  }

  lemma DivBound(n: int, d: int, len: int)
    requires d > 0 && n * d <= len
    ensures n <= len / d
  {
    var q := len / d;
    assert len == d * q + len % d;
    assert n * d == d * q + d * (n - q);
    Multiples(d, n - q);
  }

  // ---- convergence -------------------------------------------------------------

  /** The truncated gain, on the magnitude of the error. */
  function Pull(c: Config, m: nat): nat
    requires Sane(c)
  {
    assert c.num * m >= 0;
    c.num * m / c.den
  }

  /** The phase error after an on-time tick whose status arrives one period later. */
  function NextError(c: Config, err: int): int
    requires Sane(c)
  {
    err - Correction(c, err)
  }

  /** The error recurrence is what the servo does on time, for either sign of the error. */
  lemma ErrorRecurrence(c: Config, sched: int, rx: int, now: int)
    requires Spaced(c)
    requires Tick(c, sched, Input(true, rx, now)).skipped == 0
    ensures var next := Tick(c, sched, Input(true, rx, now)).next;
            next - (rx + c.tick + c.rxLead) == NextError(c, sched - (rx + c.rxLead))
  {
  }

  lemma PullIsPartial(c: Config, m: nat)
    requires Sane(c)
    ensures Pull(c, m) <= m
    ensures Pull(c, m) > 0 <==> c.num * m >= c.den
  {
    var x := c.num * m;
    assert x >= 0;
    assert (c.den - c.num) * m >= 0;
    assert x == c.den * (x / c.den) + x % c.den;
    assert c.den * (x / c.den) == c.den * m + c.den * (x / c.den - m);
    Multiples(c.den, x / c.den - m);
    Multiples(c.den, x / c.den);
  }

  function Min(a: int, b: int): int { if a < b then a else b }

  /**
   One on-time tick: the error keeps its sign and shrinks by the truncated pull,
   or by exactly `cap` while the clamp binds.
   */
  lemma {:induction false} ErrorShrinks(c: Config, err: int)
    requires Sane(c) && c.cap >= 0
    ensures var e' := NextError(c, err);
            && Abs(e') == Abs(err) - Min(Pull(c, Abs(err)), c.cap)
            && (err >= 0 ==> 0 <= e' <= err)
            && (err <= 0 ==> err <= e' <= 0)
            && (c.cap > 0 && c.num * Abs(err) >= c.den ==> Abs(e') < Abs(err))
            && (c.num * Abs(err) < c.den ==> e' == err)
  {
    PullIsPartial(c, Abs(err));
    CorrectionIsPull(c, err);
    hide Correction, Pull;
  }

  lemma CorrectionIsPull(c: Config, err: int)
    requires Sane(c) && c.cap >= 0
    ensures var p := Min(Pull(c, Abs(err)), c.cap); Correction(c, err) == if err >= 0 then p else -p
  {
    var x := c.num * Abs(err);
    assert x >= 0;
    assert c.num * err == if err >= 0 then x else -x;
    TruncOdd(x, c.den);
  }

  lemma TruncOdd(x: int, d: int)
    requires x >= 0 && d > 0
    ensures TruncDiv(x, d) == x / d >= 0 && TruncDiv(-x, d) == -(x / d)
  {
    assert x == d * (x / d) + x % d;
    Multiples(d, x / d);
  }

  function ErrorAfter(c: Config, err: int, n: nat): int
    requires Sane(c)
    decreases n
  {
    if n == 0 then err else ErrorAfter(c, NextError(c, err), n - 1)
  }

  /** The dead zone of the truncation, where the servo stops pulling. */
  predicate Locked(c: Config, err: int) { c.num * Abs(err) < c.den }

  lemma {:induction false} ErrorAfterSplit(c: Config, err: int, n: nat, m: nat)
    requires Sane(c)
    ensures ErrorAfter(c, err, n + m) == ErrorAfter(c, ErrorAfter(c, err, n), m)
    decreases n
  {
    if n > 0 { ErrorAfterSplit(c, NextError(c, err), n - 1, m); }
  }

  /** If every pull on the way is at least `d`, each tick takes `d` off, down to a floor of `f`. */
  lemma {:induction false} SteadyDescent(c: Config, err: int, d: int, f: int, n: nat)
    requires Sane(c) && c.cap >= 0 && d > 0
    requires forall m: nat :: f <= m ==> Min(Pull(c, m), c.cap) >= d
    ensures Abs(ErrorAfter(c, err, n)) < f || Abs(ErrorAfter(c, err, n)) <= Abs(err) - n * d
    ensures Abs(ErrorAfter(c, err, n)) <= Abs(err)
    decreases n
  {
    if n > 0 {
      var e' := NextError(c, err);
      ErrorShrinks(c, err);
      PullIsPartial(c, Abs(err));
      SteadyDescent(c, e', d, f, n - 1);
      assert n * d == (n - 1) * d + d;
    }
  }

  /** The smallest error magnitude that still pulls: `1 / gain`, rounded up. */
  function Threshold(c: Config): (m: nat)
    requires Sane(c)
    ensures m > 0
  {
    assert c.den + c.num - 1 == c.num * ((c.den + c.num - 1) / c.num) + (c.den + c.num - 1) % c.num;
    (c.den + c.num - 1) / c.num
  }

  lemma ThresholdPulls(c: Config, m: nat, d: nat)
    requires Sane(c) && m >= d * Threshold(c)
    ensures Pull(c, m) >= d
  {
    var t := Threshold(c);
    assert c.den + c.num - 1 == c.num * t + (c.den + c.num - 1) % c.num;
    assert c.num * t >= c.den;
    assert c.num * m >= c.den * d by {
      assert c.num * (m - d * t) >= 0;
      assert d * (c.num * t - c.den) >= 0;
      assert c.num * (d * t) == d * (c.num * t);
    }
    DivBound(d, c.den, c.num * m);
  }

  /** Inside the dead zone is the same as below the threshold. */
  lemma LockedIffBelowThreshold(c: Config, err: int)
    requires Sane(c)
    ensures Locked(c, err) <==> Abs(err) < Threshold(c)
  {
    BelowCeiling(c.num, c.den, Abs(err));
  }

  lemma BelowCeiling(n: int, d: int, e: int)
    requires n > 0
    ensures n * e < d <==> e < (d + n - 1) / n
  {
    var q := (d + n - 1) / n;
    DivSplit(d + n - 1, n);
    if e < q { Scaled(n, e, q - 1); } else { Scaled(n, q, e); }
  }

  lemma DivSplit(x: int, n: int)
    requires n > 0
    ensures n * (x / n - 1) + n == n * (x / n) <= x < n * (x / n) + n
  {
  }

  lemma Scaled(n: int, a: int, b: int)
    requires n > 0 && a <= b
    ensures n * a <= n * b
  {
  }

  /** While the error is at least `d` thresholds, each tick takes at least `d` nanoseconds off. */
  lemma Descend(c: Config, err: int, d: int, n: nat)
    requires Sane(c) && 0 < d <= c.cap
    ensures Abs(ErrorAfter(c, err, n)) < d * Threshold(c) || Abs(ErrorAfter(c, err, n)) <= Abs(err) - n * d
  {
    forall m: nat | d * Threshold(c) <= m
      ensures Min(Pull(c, m), c.cap) >= d
    {
      ThresholdPulls(c, m, d);
    }
    SteadyDescent(c, err, d, d * Threshold(c), n);
  }

  /** Below the clamp, `Threshold` ticks halve the error. */
  lemma Halve(c: Config, err: int, p: int)
    requires Sane(c) && 0 < p <= c.cap && Abs(err) < 2 * p * Threshold(c)
    ensures Abs(ErrorAfter(c, err, Threshold(c))) < p * Threshold(c)
  {
    Descend(c, err, p, Threshold(c));
    HalfLeft(Abs(ErrorAfter(c, err, Threshold(c))), Abs(err), p, Threshold(c));
  }

  lemma HalfLeft(e: int, before: int, p: int, t: int)
    requires before < 2 * p * t && (e < p * t || e <= before - t * p)
    ensures e < p * t
  {
    assert 2 * p * t == p * t + t * p;
  }

  /** `j` halvings of `Threshold` ticks each. */
  function HalvingTicks(c: Config, j: nat): nat
    requires Sane(c)
  {
    if j == 0 then 0 else Threshold(c) + HalvingTicks(c, j - 1)
  }

  lemma {:induction false} HalvingPhase(c: Config, err: int, j: nat)
    requires Sane(c) && c.cap > 0 && Abs(err) < Pow2(j) * Threshold(c)
    requires j == 0 || Pow2(j - 1) <= c.cap
    ensures Locked(c, ErrorAfter(c, err, HalvingTicks(c, j)))
    decreases j
  {
    if j == 0 {
      LockedIffBelowThreshold(c, err);
    } else {
      var e := ErrorAfter(c, err, Threshold(c));
      Halve(c, err, Pow2(j - 1));
      if j > 1 { assert Pow2(j - 2) <= Pow2(j - 1); }
      HalvingPhase(c, e, j - 1);
      ErrorAfterSplit(c, err, Threshold(c), HalvingTicks(c, j - 1));
    }
  }

  lemma {:induction false} HalvingTicksProduct(c: Config, j: nat)
    requires Sane(c)
    ensures HalvingTicks(c, j) == j * Threshold(c)
  {
    if j > 0 {
      HalvingTicksProduct(c, j - 1);
      assert j * Threshold(c) == (j - 1) * Threshold(c) + Threshold(c);
    }
  }

  /** The ticks an error can spend under the clamp. */
  function ClampedTicks(c: Config, err: int): nat
    requires c.cap > 0
  {
    DivBound(0, c.cap, Abs(err));
    Abs(err) / c.cap
  }

  lemma ClampedPhase(c: Config, err: int)
    requires Sane(c) && 0 < c.cap
    ensures Abs(ErrorAfter(c, err, ClampedTicks(c, err))) < c.cap * Threshold(c)
  {
    var n := ClampedTicks(c, err);
    Descend(c, err, c.cap, n);
    RemainderLeft(Abs(ErrorAfter(c, err, n)), Abs(err), c.cap, Threshold(c));
  }

  lemma RemainderLeft(e: int, before: int, cap: int, t: int)
    requires cap > 0 && t > 0 && (e < cap * t || e <= before - before / cap * cap)
    ensures e < cap * t
  {
    assert before == cap * (before / cap) + before % cap;
    assert cap * (t - 1) >= 0;
  }

  /**
   From any error, on-time ticks lock the phase within `|err| / cap` clamped ticks and
   `j` halvings of `Threshold` ticks each, where `2^j` is the first power of two that
   reaches the clamp.
   */
  lemma {:induction false} LocksWithin(c: Config, err: int, j: nat)
    requires Sane(c) && 0 < c.cap <= Pow2(j)
    requires j == 0 || Pow2(j - 1) <= c.cap
    ensures Locked(c, ErrorAfter(c, err, ClampedTicks(c, err) + HalvingTicks(c, j)))
    ensures HalvingTicks(c, j) == j * Threshold(c)
  {
    ClampedPhase(c, err);
    Scale(c.cap, Pow2(j), Threshold(c));
    HalvingPhase(c, ErrorAfter(c, err, ClampedTicks(c, err)), j);
    ErrorAfterSplit(c, err, ClampedTicks(c, err), HalvingTicks(c, j));
    HalvingTicksProduct(c, j);
  }

  lemma Scale(a: int, b: int, t: int)
    requires a <= b && t >= 0
    ensures a * t <= b * t
  {
  }

  /** Once locked the error stays as it is. */
  lemma {:induction false} LockedStays(c: Config, err: int, n: nat)
    requires Sane(c) && c.cap >= 0 && Locked(c, err)
    ensures ErrorAfter(c, err, n) == err
    decreases n
  {
    if n > 0 {
      ErrorShrinks(c, err);
      LockedStays(c, err, n - 1);
    }
  }

  /** Ticks served before their next deadline, with statuses exactly one period apart. */
  ghost predicate OnTime(c: Config, sched: int, rx: int, inputs: seq<Input>)
    requires Sane(c)
    decreases |inputs|
  {
    inputs == [] ||
    (&& inputs[0].haveRx && inputs[0].rx == rx && Tick(c, sched, inputs[0]).skipped == 0
     && OnTime(c, Tick(c, sched, inputs[0]).next, rx + c.tick, inputs[1..]))
  }

  /** When the status `n` periods after `rx` arrives. */
  function Arrival(rx: int, tick: int, n: nat): int
    decreases n
  {
    if n == 0 then rx else Arrival(rx + tick, tick, n - 1)
  }

  lemma {:induction false} ArrivalTime(rx: int, tick: int, n: nat)
    ensures Arrival(rx, tick, n) == rx + n * tick
    decreases n
  {
    if n > 0 {
      ArrivalTime(rx + tick, tick, n - 1);
      assert n * tick == (n - 1) * tick + tick;
    }
  }

  /** An on-time run of the servo follows the error recurrence. */
  lemma {:induction false} OnTimeRun(c: Config, sched: int, rx: int, inputs: seq<Input>)
    requires Spaced(c) && OnTime(c, sched, rx, inputs)
    ensures var n := |inputs|;
            Deadlines(c, sched, inputs)[n] - (Arrival(rx, c.tick, n) + c.rxLead) == ErrorAfter(c, sched - (rx + c.rxLead), n)
    decreases |inputs|
  {
    if inputs != [] {
      OnTimeStep(c, sched, rx, inputs[0]);
      OnTimeRun(c, Tick(c, sched, inputs[0]).next, rx + c.tick, inputs[1..]);
    }
  }

  lemma OnTimeStep(c: Config, sched: int, rx: int, i: Input)
    requires Spaced(c) && i.haveRx && i.rx == rx && Tick(c, sched, i).skipped == 0
    ensures Tick(c, sched, i).next - (rx + c.tick + c.rxLead) == NextError(c, sched - (rx + c.rxLead))
  {
    ErrorRecurrence(c, sched, rx, i.now);
  }
}

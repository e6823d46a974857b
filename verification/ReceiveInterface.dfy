/**
 The calibration side of the read-only interface (src/airo_fanuc/receive_interface.py):
 the joint velocity over a window of samples, the stillness predicate, and the capture
 that builds a calibration dataset. Joint angles and seconds are reals, stamps are
 integer nanoseconds; the clock readings are parameters.
 */
module ReceiveInterface {
  import opened Options
  import opened LeastSquares

  datatype Source = Stream | RmiUnconverted | RmiConverted | Other(tag: string)

  datatype JointSample = JointSample(q: seq<real>, t: int, source: Source)

  datatype Config = Config(dof: nat, stillness: real, minSamples: nat, minSpanFraction: real,
                           minChange: real, verified: bool, ringSize: nat)

  const NS_PER_S := 1000000000.0

  /** J2 and J3 exist, and an empty window is never enough. */
  predicate Sane(c: Config) { c.dof >= 3 && c.minSamples > 0 }

  predicate Shaped(c: Config, samples: seq<JointSample>) {
    forall s :: s in samples ==> |s.q| == c.dof
  }

  // ---- velocity ----------------------------------------------------------------

  function InWindow(ring: seq<JointSample>, now: int, window: real): (w: seq<JointSample>)
    ensures forall s :: s in w ==> s in ring && (now - s.t) as real <= window * NS_PER_S
  {
    if ring == [] then []
    else
      (if (now - ring[0].t) as real <= window * NS_PER_S then [ring[0]] else [])
      + InWindow(ring[1..], now, window)
  }

  lemma {:induction false} InWindowCounts(ring: seq<JointSample>, now: int, window: real, s: JointSample)
    ensures multiset(InWindow(ring, now, window))[s] ==
            if (now - s.t) as real <= window * NS_PER_S then multiset(ring)[s] else 0
  {
    if ring != [] {
      assert ring == [ring[0]] + ring[1..];
      InWindowCounts(ring[1..], now, window, s);
    }
  }

  predicate Sorted(w: seq<JointSample>) {
    forall i, j :: 0 <= i < j < |w| ==> w[i].t <= w[j].t
  }

  function Insert(s: JointSample, w: seq<JointSample>): seq<JointSample> {
    if w == [] || s.t <= w[0].t then [s] + w else [w[0]] + Insert(s, w[1..])
  }

  /** The stable sort by stamp. */
  function SortByStamp(w: seq<JointSample>): seq<JointSample> {
    if w == [] then [] else Insert(w[0], SortByStamp(w[1..]))
  }

  lemma {:induction false} InsertAdds(s: JointSample, w: seq<JointSample>)
    ensures multiset(Insert(s, w)) == multiset(w) + multiset{s}
  {
    if w != [] {
      assert w == [w[0]] + w[1..];
      if s.t > w[0].t { InsertAdds(s, w[1..]); }
    }
  }

  lemma {:induction false} InsertSorts(s: JointSample, w: seq<JointSample>)
    requires Sorted(w)
    ensures Sorted(Insert(s, w))
  {
    if w != [] && s.t > w[0].t {
      InsertSorts(s, w[1..]);
      InsertAdds(s, w[1..]);
      var r := Insert(s, w[1..]);
      forall x | x in r ensures w[0].t <= x.t {
        assert x in multiset(r);
        if x != s { assert x in w[1..]; }
      }
    }
  }

  lemma {:induction false} SortSorts(w: seq<JointSample>)
    ensures Sorted(SortByStamp(w)) && multiset(SortByStamp(w)) == multiset(w)
  {
    if w != [] {
      assert w == [w[0]] + w[1..];
      SortSorts(w[1..]);
      InsertSorts(w[0], SortByStamp(w[1..]));
      InsertAdds(w[0], SortByStamp(w[1..]));
    }
  }

  function Window(ring: seq<JointSample>, now: int, window: real): (w: seq<JointSample>)
    ensures Sorted(w) && multiset(w) == multiset(InWindow(ring, now, window))
  {
    SortSorts(InWindow(ring, now, window));
    SortByStamp(InWindow(ring, now, window))
  }

  /** The window is every sample of the ring that is recent, as often as it is there, and nothing else, by stamp. */
  lemma WindowIsRecent(ring: seq<JointSample>, now: int, window: real, s: JointSample)
    ensures Sorted(Window(ring, now, window))
    ensures multiset(Window(ring, now, window))[s] ==
            if (now - s.t) as real <= window * NS_PER_S then multiset(ring)[s] else 0
  {
    InWindowCounts(ring, now, window, s);
  }

  lemma WindowOfRing(c: Config, ring: seq<JointSample>, now: int, window: real)
    requires Shaped(c, ring)
    ensures Shaped(c, Window(ring, now, window))
  {
    var w := Window(ring, now, window);
    forall s | s in w ensures s in ring { assert s in multiset(InWindow(ring, now, window)); }
  }

  /** Seconds since the first sample. */
  function Seconds(w: seq<JointSample>): (t: seq<real>)
    ensures |t| == |w|
  {
    seq(|w|, i requires 0 <= i < |w| => (w[i].t - w[0].t) as real / NS_PER_S)
  }

  function Column(c: Config, w: seq<JointSample>, j: nat): (x: seq<real>)
    requires Shaped(c, w) && j < c.dof
    ensures |x| == |w|
  {
    seq(|w|, i requires 0 <= i < |w| => w[i].q[j])
  }

  function Span(w: seq<JointSample>): real
    requires w != []
  {
    (w[|w| - 1].t - w[0].t) as real / NS_PER_S
  }

  /** Per-joint least-squares slope, or none when the window cannot support one. */
  function Velocity(c: Config, ring: seq<JointSample>, now: int, window: real): (v: Option<seq<real>>)
    requires Sane(c) && Shaped(c, ring)
    ensures v.Some? ==> |v.value| == c.dof
  {
    var w := Window(ring, now, window);
    WindowOfRing(c, ring, now, window);
    if |w| < c.minSamples then None
    else if Span(w) < window * c.minSpanFraction then None
    else
      var t := Seconds(w);
      if Variance(t) <= 0.0 then None
      else Some(seq(c.dof, j requires 0 <= j < c.dof => Slope(t, Column(c, w, j))))
  }

  /** A window has a velocity exactly when it is full and long enough and its stamps are not all equal. */
  lemma VelocityAvailableIff(c: Config, ring: seq<JointSample>, now: int, window: real)
    requires Sane(c) && Shaped(c, ring)
    ensures var w := Window(ring, now, window);
            Velocity(c, ring, now, window).Some? <==>
            |w| >= c.minSamples && Span(w) >= window * c.minSpanFraction && Span(w) > 0.0
  {
    hide Window, Sorted, Variance, Slope, Column, Seconds;
    var w := Window(ring, now, window);
    WindowOfRing(c, ring, now, window);
    if |w| >= c.minSamples { SpanGivesVariance(w); }
  }

  /** A positive time span is the same as a positive variance of the stamps. */
  lemma SpanGivesVariance(w: seq<JointSample>)
    requires w != [] && Sorted(w)
    ensures Variance(Seconds(w)) > 0.0 <==> Span(w) > 0.0
  {
    var t, n := Seconds(w), |w| - 1;
    VarianceIffSpan(t);
    assert t[n] == Span(w) && t[0] == 0.0;
    if Span(w) <= 0.0 {
      assert w[0].t >= w[n].t;
      forall i | 0 <= i < |t| ensures t[i] == 0.0 {
        if i > 0 { assert w[0].t <= w[i].t; }
        if i < n { assert w[i].t <= w[n].t; }
      }
    }
  }

  /** A returned velocity is, for every joint, the slope no line through the window's samples beats. */
  lemma VelocityIsBestFit(c: Config, ring: seq<JointSample>, now: int, window: real, j: nat, a: real, b: real)
    requires Sane(c) && Shaped(c, ring) && j < c.dof
    requires Velocity(c, ring, now, window).Some?
    ensures Shaped(c, Window(ring, now, window))
    ensures var w := Window(ring, now, window);
            var t, x, v := Seconds(w), Column(c, w, j), Velocity(c, ring, now, window).value[j];
            Residual(t, x, Mean(x) - Times(v, Mean(t)), v) <= Residual(t, x, a, b)
  {
    WindowOfRing(c, ring, now, window);
    var w := Window(ring, now, window);
    SlopeMinimises(Seconds(w), Column(c, w, j), a, b);
  }

  /** A joint that moved on a straight line is reported at exactly its speed. */
  lemma VelocityExactOnAffineMotion(c: Config, ring: seq<JointSample>, now: int, window: real, j: nat, q0: real, speed: real)
    requires Sane(c) && Shaped(c, ring) && j < c.dof
    requires Velocity(c, ring, now, window).Some?
    requires forall s :: s in ring ==> s.q[j] == q0 + Times(speed, s.t as real / NS_PER_S)
    ensures Velocity(c, ring, now, window).value[j] == speed
  {
    WindowOfRing(c, ring, now, window);
    var w := Window(ring, now, window);
    forall s | s in w ensures s.q[j] == q0 + Times(speed, s.t as real / NS_PER_S) {
      assert s in multiset(InWindow(ring, now, window));
    }
    AffineColumn(c, w, j, q0, speed);
    ExactOnLines(Seconds(w), Column(c, w, j), q0 + Times(speed, w[0].t as real / NS_PER_S), speed);
  }

  lemma AffineColumn(c: Config, w: seq<JointSample>, j: nat, q0: real, speed: real)
    requires Shaped(c, w) && j < c.dof && w != []
    requires forall s :: s in w ==> s.q[j] == q0 + Times(speed, s.t as real / NS_PER_S)
    ensures forall i :: 0 <= i < |w| ==>
              Column(c, w, j)[i] == q0 + Times(speed, w[0].t as real / NS_PER_S) + Times(speed, Seconds(w)[i])
  {
    forall i | 0 <= i < |w|
      ensures Column(c, w, j)[i] == q0 + Times(speed, w[0].t as real / NS_PER_S) + Times(speed, Seconds(w)[i])
    {
      assert w[i] in w;
      AffineStep(q0, speed, w[i].t, w[0].t);
    }
  }

  lemma AffineStep(q0: real, speed: real, t: int, t0: int)
    ensures q0 + Times(speed, t as real / NS_PER_S) ==
            q0 + Times(speed, t0 as real / NS_PER_S) + Times(speed, (t - t0) as real / NS_PER_S)
  {
    assert (t - t0) as real / NS_PER_S == t as real / NS_PER_S - t0 as real / NS_PER_S;
  }

  // ---- stillness ---------------------------------------------------------------

  function Abs(x: real): real { if x < 0.0 then -x else x }

  function Max(x: real, y: real): real { if x < y then y else x }

  function MaxAbs(x: seq<real>): real
    requires x != []
  {
    if |x| == 1 then Abs(x[0]) else Max(Abs(x[0]), MaxAbs(x[1..]))
  }

  lemma {:induction false} MaxAbsIsMax(x: seq<real>, bound: real)
    requires x != []
    ensures MaxAbs(x) <= bound <==> forall i :: 0 <= i < |x| ==> -bound <= x[i] <= bound
  {
    if |x| > 1 {
      MaxAbsIsMax(x[1..], bound);
      assert forall i :: 0 < i < |x| ==> x[i] == x[1..][i - 1];
      assert forall i :: 0 <= i < |x| - 1 ==> x[1..][i] == x[i + 1];
    }
  }

  function MaxAbsChange(a: seq<real>, b: seq<real>): real
    requires |a| == |b| > 0
  {
    MaxAbs(seq(|a|, i requires 0 <= i < |a| => a[i] - b[i]))
  }

  /** Some joint moved by at least the bound. */
  predicate Changed(a: seq<real>, b: seq<real>, bound: real)
    requires |a| == |b|
  {
    exists j :: 0 <= j < |a| && (a[j] - b[j] >= bound || b[j] - a[j] >= bound)
  }

  /** The largest change reaches a bound exactly when some joint's change does. */
  lemma ChangedIff(a: seq<real>, b: seq<real>, bound: real)
    requires |a| == |b| > 0
    ensures MaxAbsChange(a, b) >= bound <==> Changed(a, b, bound)
  {
    var x := seq(|a|, i requires 0 <= i < |a| => a[i] - b[i]);
    MaxAbsReaches(x, bound);
    if j :| 0 <= j < |a| && (a[j] - b[j] >= bound || b[j] - a[j] >= bound) { assert x[j] >= bound || -x[j] >= bound; }
  }

  lemma {:induction false} MaxAbsReaches(x: seq<real>, bound: real)
    requires x != []
    ensures MaxAbs(x) >= bound <==> exists i :: 0 <= i < |x| && (x[i] >= bound || -x[i] >= bound)
  {
    if |x| > 1 {
      MaxAbsReaches(x[1..], bound);
      assert forall i :: 0 < i < |x| ==> x[i] == x[1..][i - 1];
      assert forall i :: 0 <= i < |x| - 1 ==> x[1..][i] == x[i + 1];
    }
  }

  datatype Reason = Settled | NoSamples | VelocityUnavailable | Moving | PositionUnchanged

  datatype SettleResult = SettleResult(settled: bool, count: nat, maxVelocity: Option<real>, reason: Reason)

  function Settle(c: Config, ring: seq<JointSample>, now: int, later: int, threshold: real, window: real,
                  previous: Option<seq<real>>): SettleResult
    requires Sane(c) && Shaped(c, ring) && (previous.Some? ==> |previous.value| == c.dof)
  {
    var n := |InWindow(ring, now, window)|;
    if ring == [] then SettleResult(false, 0, None, NoSamples)
    else
      var vel := Velocity(c, ring, later, window);
      if vel.None? then SettleResult(false, n, None, VelocityUnavailable)
      else
        var maxVel := MaxAbs(vel.value);
        if maxVel > threshold then SettleResult(false, n, Some(maxVel), Moving)
        else if previous.Some? && MaxAbsChange(ring[|ring| - 1].q, previous.value) < c.minChange then
          SettleResult(false, n, Some(maxVel), PositionUnchanged)
        else SettleResult(true, n, Some(maxVel), Settled)
  }

  /** Settled means every joint's fitted slope is within the threshold, and the pose is new. */
  lemma SettledIff(c: Config, ring: seq<JointSample>, now: int, later: int, threshold: real, window: real,
                   previous: Option<seq<real>>)
    requires Sane(c) && Shaped(c, ring) && (previous.Some? ==> |previous.value| == c.dof)
    ensures var vel := Velocity(c, ring, later, window);
            Settle(c, ring, now, later, threshold, window, previous).settled <==>
            && ring != [] && vel.Some?
            && (forall j :: 0 <= j < c.dof ==> -threshold <= vel.value[j] <= threshold)
            && (previous.Some? ==> Changed(ring[|ring| - 1].q, previous.value, c.minChange))
  {
    var vel := Velocity(c, ring, later, window);
    if vel.Some? { MaxAbsIsMax(vel.value, threshold); }
    if ring != [] && previous.Some? { ChangedIff(ring[|ring| - 1].q, previous.value, c.minChange); }
    hide MaxAbs, MaxAbsChange, Changed;
  }

  /** What is reported with it: how many samples are recent, and the first reason not to be settled, in this order. */
  lemma SettleReports(c: Config, ring: seq<JointSample>, now: int, later: int, threshold: real, window: real,
                      previous: Option<seq<real>>)
    requires Sane(c) && Shaped(c, ring) && (previous.Some? ==> |previous.value| == c.dof)
    ensures var r, vel := Settle(c, ring, now, later, threshold, window, previous), Velocity(c, ring, later, window);
            var slow := vel.Some? && forall j :: 0 <= j < c.dof ==> -threshold <= vel.value[j] <= threshold;
            && r.count == |InWindow(ring, now, window)|
            && (r.reason == NoSamples <==> ring == [])
            && (r.reason == VelocityUnavailable <==> ring != [] && vel.None?)
            && (r.reason == Moving <==> ring != [] && vel.Some? && !slow)
            && (r.reason == Settled <==> r.settled)
  {
    var vel := Velocity(c, ring, later, window);
    if vel.Some? { MaxAbsIsMax(vel.value, threshold); }
    hide MaxAbs, MaxAbsChange, Velocity, Shaped;
  }

  /** The velocity reported is the largest of the joints', and none when there is none. */
  lemma LargestReported(c: Config, ring: seq<JointSample>, now: int, later: int, threshold: real, window: real,
                        previous: Option<seq<real>>)
    requires Sane(c) && Shaped(c, ring) && (previous.Some? ==> |previous.value| == c.dof)
    ensures var m, vel := Settle(c, ring, now, later, threshold, window, previous).maxVelocity, Velocity(c, ring, later, window);
            && (m.Some? <==> ring != [] && vel.Some?)
            && (m.Some? ==> && (forall j :: 0 <= j < c.dof ==> -m.value <= vel.value[j] <= m.value)
                            && (exists j :: 0 <= j < c.dof && (vel.value[j] == m.value || vel.value[j] == -m.value)))
  {
    var vel := Velocity(c, ring, later, window);
    if vel.Some? {
      var m := MaxAbs(vel.value);
      MaxAbsIsMax(vel.value, m);
      MaxAbsReaches(vel.value, m);
      var j :| 0 <= j < c.dof && (vel.value[j] >= m || -vel.value[j] >= m);
      assert vel.value[j] == m || vel.value[j] == -m;
    }
    hide MaxAbs, MaxAbsChange, Velocity, Shaped;
  }

  // ---- capture -----------------------------------------------------------------

  datatype CaptureError = NothingToCapture | SourceRejected | SourcesMixed | NoVelocity | StillMoving | PoseUnchanged

  datatype Outcome = Accepted(sample: JointSample) | Refused(error: CaptureError)

  /** What a capture remembers of the dataset so far. */
  datatype Memory = Memory(lastQ: Option<seq<real>>, source: Option<Source>)

  /** The one place where the coupled J3 is converted, and only when that is confirmed. */
  function ApplySourcePolicy(c: Config, s: JointSample): (r: Option<JointSample>)
    requires c.dof >= 3 && |s.q| == c.dof
    ensures r.Some? ==> |r.value.q| == c.dof && r.value.source != RmiUnconverted
  {
    if s.source != RmiUnconverted then Some(s)
    else if !c.verified then None
    else Some(s.(q := s.q[2 := s.q[2] + s.q[1]], source := RmiConverted))
  }

  /**
   A sample taken on the command plane, whose J3 is the stream's less J2, is given back in the
   stream's frame when the conversion is confirmed; a sample of any other source is left as
   it is; and only an unconverted one that is not confirmed is refused.
   */
  lemma PolicyRestoresStreamFrame(c: Config, s: JointSample, p: seq<real>)
    requires c.dof >= 3 && |p| == |s.q| == c.dof
    requires s.q == p[2 := p[2] - p[1]]
    ensures ApplySourcePolicy(c, s) ==
            if s.source == RmiUnconverted then if c.verified then Some(JointSample(p, s.t, RmiConverted)) else None
            else Some(s)
  {
    if s.source == RmiUnconverted && c.verified { assert s.q[2 := s.q[2] + s.q[1]] == p; }
  }

  /** Every sample is some stream-frame pose with its J3 coupled, so the policy is pinned for all of them. */
  lemma PolicyRefusesIff(c: Config, s: JointSample)
    requires c.dof >= 3 && |s.q| == c.dof
    ensures var r := ApplySourcePolicy(c, s);
            && (r.None? <==> s.source == RmiUnconverted && !c.verified)
            && (r.Some? && s.source != RmiUnconverted ==> r.value == s)
            && (r.Some? && s.source == RmiUnconverted ==>
                  s.q == r.value.q[2 := r.value.q[2] - r.value.q[1]] && r.value.t == s.t && r.value.source == RmiConverted)
  {
  }

  function Capture(c: Config, m: Memory, newest: Option<JointSample>, r: SettleResult): (Memory, Outcome)
    requires Sane(c) && (newest.Some? ==> |newest.value.q| == c.dof) && (m.lastQ.Some? ==> |m.lastQ.value| == c.dof)
  {
    if newest.None? then (m, Refused(NothingToCapture))
    else
      var policy := ApplySourcePolicy(c, newest.value);
      if policy.None? then (m, Refused(SourceRejected))
      else
        var s := policy.value;
        if m.source.Some? && s.source != m.source.value then (m, Refused(SourcesMixed))
        else if r.reason == VelocityUnavailable then (m, Refused(NoVelocity))
        else if !r.settled then (m, Refused(StillMoving))
        else if m.lastQ.Some? && MaxAbsChange(s.q, m.lastQ.value) < c.minChange then (m, Refused(PoseUnchanged))
        else (Memory(Some(s.q), Some(s.source)), Accepted(s))
  }

  /** The pose a calibration would use: coupled samples brought into the stream's frame. */
  function StreamPose(s: JointSample): (p: seq<real>)
    requires |s.q| >= 3
    ensures |p| == |s.q|
  {
    if s.source == RmiUnconverted then s.q[2 := s.q[1] + s.q[2]] else s.q
  }

  predicate NotRefusedBySource(c: Config, s: JointSample) { s.source == RmiUnconverted ==> c.verified }

  predicate SameSourceAs(m: Memory, s: JointSample) {
    m.source.Some? ==> m.source.value == if s.source == RmiUnconverted then RmiConverted else s.source
  }

  predicate NewPose(c: Config, m: Memory, s: JointSample)
    requires Sane(c) && |s.q| == c.dof && (m.lastQ.Some? ==> |m.lastQ.value| == c.dof)
  {
    m.lastQ.Some? ==> Changed(StreamPose(s), m.lastQ.value, c.minChange)
  }

  /**
   When a capture is accepted, and what it answers otherwise: the first check that fails, in this
   order. An accepted capture is the newest sample in the stream's frame, and is what the next
   one is compared with; a refused one changes nothing.
   */
  lemma CaptureDecides(c: Config, m: Memory, newest: Option<JointSample>, r: SettleResult)
    requires Sane(c) && (newest.Some? ==> |newest.value.q| == c.dof) && (m.lastQ.Some? ==> |m.lastQ.value| == c.dof)
    ensures var (m', outcome) := Capture(c, m, newest, r);
            && (newest.None? <==> outcome == Refused(NothingToCapture))
            && (newest.Some? ==>
                  var s := newest.value;
                  var source := NotRefusedBySource(c, s);
                  var same := source && SameSourceAs(m, s);
                  var known := same && r.reason != VelocityUnavailable;
                  var still := known && r.settled;
                  && (!source <==> outcome == Refused(SourceRejected))
                  && (source && !same <==> outcome == Refused(SourcesMixed))
                  && (same && !known <==> outcome == Refused(NoVelocity))
                  && (known && !still <==> outcome == Refused(StillMoving))
                  && (still && !NewPose(c, m, s) <==> outcome == Refused(PoseUnchanged))
                  && (still && NewPose(c, m, s) <==> outcome.Accepted?))
            && (outcome.Accepted? ==>
                  && outcome.sample.q == StreamPose(newest.value) && outcome.sample.t == newest.value.t
                  && m' == Memory(Some(outcome.sample.q), Some(outcome.sample.source)))
            && (outcome.Refused? ==> m' == m)
  {
    if newest.Some? {
      PolicyRefusesIff(c, newest.value);
      assert NotRefusedBySource(c, newest.value) ==> ApplySourcePolicy(c, newest.value).value.q == StreamPose(newest.value);
      if m.lastQ.Some? { ChangedIff(StreamPose(newest.value), m.lastQ.value, c.minChange); }
    }
    hide MaxAbsChange;
  }

  /** What an accepted capture gives: the newest sample, in the stream's frame. */
  lemma AcceptedPose(c: Config, m: Memory, newest: Option<JointSample>, r: SettleResult)
    requires Sane(c) && (newest.Some? ==> |newest.value.q| == c.dof) && (m.lastQ.Some? ==> |m.lastQ.value| == c.dof)
    ensures var outcome := Capture(c, m, newest, r).1;
            outcome.Accepted? ==> newest.Some? && outcome.sample.q == StreamPose(newest.value)
  {
    CaptureDecides(c, m, newest, r);
  }

  const EMPTY := Memory(None, None)

  /** One source, never the unconverted one, and every pose at least `minChange` from the one before. */
  predicate Clean(c: Config, dataset: seq<JointSample>) {
    && Shaped(c, dataset)
    && (forall i, j :: 0 <= i < |dataset| && 0 <= j < |dataset| ==> dataset[i].source == dataset[j].source)
    && (forall i :: 0 <= i < |dataset| ==> dataset[i].source != RmiUnconverted)
    && (forall i :: 0 < i < |dataset| ==> Changed(dataset[i].q, dataset[i - 1].q, c.minChange))
  }

  /** The memory describes the dataset's last sample. */
  predicate Remembers(m: Memory, dataset: seq<JointSample>) {
    if dataset == [] then m == EMPTY
    else m == Memory(Some(dataset[|dataset| - 1].q), Some(dataset[|dataset| - 1].source))
  }

  datatype Event = Attempt(newest: Option<JointSample>, settle: SettleResult) | Reset

  predicate ShapedEvents(c: Config, events: seq<Event>) {
    forall i :: 0 <= i < |events| && events[i].Attempt? && events[i].newest.Some? ==> |events[i].newest.value.q| == c.dof
  }

  /** The memory and the dataset after any sequence of attempts and resets. */
  function Collect(c: Config, events: seq<Event>): (r: (Memory, seq<JointSample>))
    requires Sane(c) && ShapedEvents(c, events)
    ensures r.0.lastQ.Some? ==> |r.0.lastQ.value| == c.dof
  {
    if events == [] then (EMPTY, [])
    else
      var n := |events| - 1;
      var (m, dataset) := Collect(c, events[..n]);
      match events[n]
      case Reset => (EMPTY, [])
      case Attempt(newest, settle) =>
        var (m', outcome) := Capture(c, m, newest, settle);
        (m', if outcome.Accepted? then dataset + [outcome.sample] else dataset)
  }

  /** Whatever samples and settle results the attempts see, the dataset stays clean. */
  lemma {:induction false} DatasetIsClean(c: Config, events: seq<Event>)
    requires Sane(c) && ShapedEvents(c, events)
    ensures var (m, dataset) := Collect(c, events); Clean(c, dataset) && Remembers(m, dataset)
  {
    if events != [] {
      var n := |events| - 1;
      DatasetIsClean(c, events[..n]);
      var (m, dataset) := Collect(c, events[..n]);
      if events[n].Attempt? { CaptureKeepsClean(c, m, dataset, events[n].newest, events[n].settle); }
    }
  }

  lemma CaptureKeepsClean(c: Config, m: Memory, dataset: seq<JointSample>, newest: Option<JointSample>, r: SettleResult)
    requires Sane(c) && (newest.Some? ==> |newest.value.q| == c.dof)
    requires Clean(c, dataset) && Remembers(m, dataset)
    ensures m.lastQ.Some? ==> |m.lastQ.value| == c.dof
    ensures var (m', outcome) := Capture(c, m, newest, r);
            var dataset' := if outcome.Accepted? then dataset + [outcome.sample] else dataset;
            Clean(c, dataset') && Remembers(m', dataset') && (outcome.Accepted? ==> r.settled)
  {
    if dataset != [] { assert dataset[|dataset| - 1] in dataset; }
    var (m', outcome) := Capture(c, m, newest, r);
    if outcome.Accepted? {
      var dataset' := dataset + [outcome.sample];
      if dataset != [] { ChangedIff(outcome.sample.q, m.lastQ.value, c.minChange); }
      hide MaxAbsChange, Changed;
      forall i | 0 < i < |dataset'| ensures Changed(dataset'[i].q, dataset'[i - 1].q, c.minChange) {
        if i < |dataset| { assert dataset'[i] == dataset[i] && dataset'[i - 1] == dataset[i - 1]; }
      }
    }
  }

  /** The interface object: a bounded ring of samples and the dataset's memory. */
  class Interface {
    const config: Config
    var ring: seq<JointSample>
    var lastAcceptedQ: Option<seq<real>>
    var acceptedSource: Option<Source>
    ghost var dataset: seq<JointSample>

    ghost predicate Valid()
      reads this
    {
      && Sane(config) && Shaped(config, ring) && |ring| <= config.ringSize
      && Clean(config, dataset) && Remembers(Memory(lastAcceptedQ, acceptedSource), dataset)
    }

    constructor (config: Config)
      requires Sane(config)
      ensures Valid() && ring == [] && dataset == [] && this.config == config
    {
      this.config := config;
      ring, lastAcceptedQ, acceptedSource, dataset := [], None, None, [];
    }

    method IngestSample(s: JointSample)
      requires Valid() && |s.q| == config.dof
      modifies this`ring
      ensures Valid()
      ensures ring == if config.ringSize == 0 then []
                      else if |old(ring)| < config.ringSize then old(ring) + [s] else old(ring)[1..] + [s]
    {
      if config.ringSize > 0 {
        ring := (if |ring| < config.ringSize then ring else ring[1..]) + [s];
      }
    }

    function Newest(): (s: Option<JointSample>)
      reads this
      ensures s.Some? ==> s.value in ring
    {
      if ring == [] then None else Some(ring[|ring| - 1])
    }

    ghost function Remembered(): Memory
      reads this
    {
      Memory(lastAcceptedQ, acceptedSource)
    }

    ghost predicate Ready()
      reads this
    {
      && Sane(config) && Shaped(config, ring)
      && (lastAcceptedQ.Some? ==> |lastAcceptedQ.value| == config.dof)
    }

    /** The checks in the source's order; `result` is what the stillness predicate said. */
    method Decide(newest: Option<JointSample>, result: SettleResult) returns (outcome: Outcome)
      requires Ready() && (newest.Some? ==> |newest.value.q| == config.dof)
      modifies this`lastAcceptedQ, this`acceptedSource
      ensures (Remembered(), outcome) == Capture(config, old(Remembered()), newest, result)
    {
      if newest.None? {
        return Refused(NothingToCapture);
      }
      var policy := ApplySourcePolicy(config, newest.value);
      if policy.None? {
        return Refused(SourceRejected);
      }
      var s := policy.value;
      if acceptedSource.Some? && s.source != acceptedSource.value {
        return Refused(SourcesMixed);
      }
      if result.reason == VelocityUnavailable {
        return Refused(NoVelocity);
      }
      if !result.settled {
        return Refused(StillMoving);
      }
      if lastAcceptedQ.Some? && MaxAbsChange(s.q, lastAcceptedQ.value) < config.minChange {
        return Refused(PoseUnchanged);
      }
      lastAcceptedQ, acceptedSource := Some(s.q), Some(s.source);
      return Accepted(s);
    }

    method CaptureCalibrationSample(now: int, later: int, threshold: real, window: real) returns (outcome: Outcome)
      requires Valid()
      modifies this`lastAcceptedQ, this`acceptedSource, this`dataset
      ensures Valid()
      ensures dataset == if outcome.Accepted? then old(dataset) + [outcome.sample] else old(dataset)
      ensures outcome.Accepted? ==> Settle(config, ring, now, later, threshold, window, None).settled
      ensures outcome.Accepted? ==> ring != [] && outcome.sample.q == StreamPose(ring[|ring| - 1])
    {
      outcome := CaptureWith(Settle(config, ring, now, later, threshold, window, None));
    }

    method CaptureWith(result: SettleResult) returns (outcome: Outcome)
      requires Valid()
      modifies this`lastAcceptedQ, this`acceptedSource, this`dataset
      ensures Valid()
      ensures dataset == if outcome.Accepted? then old(dataset) + [outcome.sample] else old(dataset)
      ensures outcome.Accepted? ==> result.settled && ring != [] && outcome.sample.q == StreamPose(ring[|ring| - 1])
    {
      hide Capture, Clean, MaxAbsChange, StreamPose, Remembers;
      var newest := Newest();
      CaptureKeepsClean(config, Remembered(), dataset, newest, result);
      AcceptedPose(config, Remembered(), newest, result);
      outcome := Decide(newest, result);
      if outcome.Accepted? {
        dataset := dataset + [outcome.sample];
      }
    }

    method ResetCalibrationDataset()
      requires Valid()
      modifies this`lastAcceptedQ, this`acceptedSource, this`dataset
      ensures Valid() && dataset == []
    {
      lastAcceptedQ, acceptedSource, dataset := None, None, [];
    }
  }
}

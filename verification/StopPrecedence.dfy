/**
 Stop precedence over every interleaving of callers and the real-time thread
 (src/cpp/rt_core/realtime_core.cpp, src/cpp/rt_core/tick_core.cpp). The log of a run
 orders the stop increments, the stamps of submissions, the consume-time loads of the
 stop generation and the hand-overs to the tick.
 */
module StopPrecedence {
  import opened Motion
  import opened Options
  import opened TickCore
  import opened RealtimeCore

  function StopCount(log: seq<LogEvent>): nat {
    if log == [] then 0
    else StopCount(log[..|log| - 1]) + (if log[|log| - 1].StopIncrement? then 1 else 0)
  }

  /** Some stop was issued strictly between positions `i` and `j` of the log. */
  predicate StoppedBetween(log: seq<LogEvent>, i: nat, j: nat)
    requires j <= |log|
  {
    exists k :: i < k < j && log[k].StopIncrement?
  }

  /** The target carries the number of stops issued before its own stamp. */
  predicate Stamped(log: seq<LogEvent>, t: Target) {
    && t.stampAt < |log| && log[t.stampAt] == LogEvent.Stamp(t.id)
    && t.stopGen == StopCount(log[..t.stampAt])
  }

  /** The judgement logged at `at` is the one made of this target. */
  predicate JudgedAt(log: seq<LogEvent>, t: Target, at: nat, superseded: bool) {
    t.stampAt < at < |log| && log[at] == Judged(t.id, t.stampAt, superseded)
  }

  predicate EventOk(log: seq<LogEvent>, j: nat)
    requires j < |log|
  {
    match log[j]
    case Judged(id, stampAt, superseded) =>
      stampAt < j && log[stampAt] == LogEvent.Stamp(id) && (superseded <==> StoppedBetween(log, stampAt, j))
    case Handed(t, loadAt, accepted) =>
      loadAt < j && exists superseded ::
        && JudgedAt(log, t, loadAt, superseded)
        && (superseded && accepted ==> t.kind.Hold? || t.kind.Brake?)
    case _ => true
  }

  predicate LogOk(s: State) {
    && s.stopGen == StopCount(s.log)
    && (forall j :: 0 <= j < |s.log| ==> EventOk(s.log, j))
  }

  predicate AllStamped(log: seq<LogEvent>, s: State) {
    && (s.sub.SStamped? ==> Stamped(log, s.sub.t))
    && (forall t :: t in s.mailbox ==> Stamped(log, t))
    && (forall t :: t in Held(s.rt) ==> Stamped(log, t))
  }

  predicate TargetsStamped(s: State) { AllStamped(s.log, s) }

  predicate JudgementLogged(s: State) {
    s.rt.RJudged? && s.rt.pending.Some? ==> JudgedAt(s.log, s.rt.pending.value, s.rt.loadAt, s.rt.superseded)
  }

  // ---- counting stops ----------------------------------------------------------

  lemma {:induction false} StopsCounted(log: seq<LogEvent>, i: nat)
    requires i < |log| && log[i].Stamp?
    ensures StopCount(log[..i]) <= StopCount(log)
    ensures StopCount(log[..i]) != StopCount(log) <==> StoppedBetween(log, i, |log|)
  {
    var n := |log| - 1;
    var init := log[..n];
    if i == n {
    } else {
      StopsCounted(init, i);
      assert init[..i] == log[..i];
      if log[n].StopIncrement? {
      } else {
        if k :| i < k < |log| && log[k].StopIncrement? { assert init[k].StopIncrement?; }
        if k :| i < k < |init| && init[k].StopIncrement? { assert log[k].StopIncrement?; }
      }
    }
  }

  lemma StopCountAppend(log: seq<LogEvent>, e: LogEvent)
    ensures StopCount(log + [e]) == StopCount(log) + (if e.StopIncrement? then 1 else 0)
  {
    assert (log + [e])[..|log|] == log;
  }

  lemma StampedStays(log: seq<LogEvent>, e: LogEvent, t: Target)
    requires Stamped(log, t)
    ensures Stamped(log + [e], t)
  {
    assert (log + [e])[..t.stampAt] == log[..t.stampAt];
  }

  lemma EventStays(log: seq<LogEvent>, e: LogEvent, j: nat)
    requires j < |log| && EventOk(log, j)
    ensures EventOk(log + [e], j)
  {
    var more := log + [e];
    assert more[j] == log[j];
    match log[j] {
      case Judged(id, stampAt, superseded) =>
        if k :| stampAt < k < j && log[k].StopIncrement? { assert more[k].StopIncrement?; }
        if k :| stampAt < k < j && more[k].StopIncrement? { assert log[k].StopIncrement?; }
      case Handed(t, loadAt, accepted) =>
        var superseded :| JudgedAt(log, t, loadAt, superseded) && (superseded && accepted ==> t.kind.Hold? || t.kind.Brake?);
        assert JudgedAt(more, t, loadAt, superseded);
      case _ =>
    }
  }

  // ---- every step keeps the log right ------------------------------------------

  /** The event a step appends, if it appends one. */
  function Logged(s: State, a: Action): Option<LogEvent> {
    match a
    case LoadStopGen => if s.sub.SEpoch? then Some(LogEvent.Stamp(s.sub.id)) else None
    case StopJ => Some(StopIncrement)
    case JudgeStop =>
      if s.rt.RDrained? && s.rt.pending.Some? then
        var p := s.rt.pending.value;
        Some(Judged(p.id, p.stampAt, p.stopGen != s.stopGen))
      else None
    case TickNow(before, fits, _) =>
      if s.rt.RJudged? && s.rt.pending.Some? then
        var c1 := Apply(s.core, before).0;
        var accepted := Consume(c1, s.rt.pending.value, s.rt.superseded, fits).accepted;
        Some(Handed(s.rt.pending.value, s.rt.loadAt, accepted))
      else None
    case _ => None
  }

  lemma StepAppends(s: State, a: Action)
    ensures var s' := Step(s, a);
            && s'.log == (if Logged(s, a).Some? then s.log + [Logged(s, a).value] else s.log)
            && s'.stopGen == s.stopGen + (if a.StopJ? then 1 else 0)
  {
    hide Apply, Consume;
  }

  lemma NewEventOk(s: State, a: Action)
    requires LogOk(s) && TargetsStamped(s) && JudgementLogged(s) && Logged(s, a).Some?
    ensures EventOk(s.log + [Logged(s, a).value], |s.log|)
  {
    var e := Logged(s, a).value;
    var more := s.log + [e];
    assert more[|s.log|] == e;
    match a {
      case JudgeStop =>
        var p := s.rt.pending.value;
        assert p in Held(s.rt);
        StopsCounted(s.log, p.stampAt);
        if k :| p.stampAt < k < |s.log| && s.log[k].StopIncrement? { assert more[k].StopIncrement?; }
        if k :| p.stampAt < k < |s.log| && more[k].StopIncrement? { assert s.log[k].StopIncrement?; }
      case TickNow(before, fits, _) =>
        var t := s.rt.pending.value;
        StaleIfAccepted(Apply(s.core, before).0, t, s.rt.superseded, fits);
        assert JudgedAt(more, t, s.rt.loadAt, s.rt.superseded);
      case _ =>
    }
  }

  lemma StaleIfAccepted(c: Core, t: Target, superseded: bool, fits: bool)
    ensures superseded && Consume(c, t, superseded, fits).accepted ==> t.kind.Hold? || t.kind.Brake?
  {
    if Consume(c, t, superseded, fits).accepted { StaleNeverStarts(c, t, superseded, fits); }
  }

  lemma StepKeepsLogOk(s: State, a: Action)
    requires LogOk(s) && TargetsStamped(s) && JudgementLogged(s)
    ensures LogOk(Step(s, a))
  {
    hide Step;
    StepAppends(s, a);
    if Logged(s, a).Some? {
      var e := Logged(s, a).value;
      NewEventOk(s, a);
      StopCountAppend(s.log, e);
      forall j | 0 <= j < |s.log| ensures EventOk(s.log + [e], j) { EventStays(s.log, e, j); }
    }
  }

  lemma AllStampedStays(s: State, e: LogEvent)
    requires TargetsStamped(s)
    ensures AllStamped(s.log + [e], s)
  {
    forall t | Stamped(s.log, t) ensures Stamped(s.log + [e], t) { StampedStays(s.log, e, t); }
  }

  lemma NewStamp(s: State)
    requires LogOk(s) && s.sub.SEpoch?
    ensures var s' := Step(s, LoadStopGen); s'.sub.SStamped? && Stamped(s'.log, s'.sub.t)
  {
    var s' := Step(s, LoadStopGen);
    assert s'.log[..|s.log|] == s.log;
  }

  predicate OnlyMoved(s: State, a: Action, s': State) {
    && (s'.sub.SStamped? ==> s'.sub == s.sub || (a.LoadStopGen? && s.sub.SEpoch?))
    && (forall t :: t in s'.mailbox ==> t in s.mailbox || (s.sub.SStamped? && t == s.sub.t))
    && (forall t :: t in Held(s'.rt) ==> t in Held(s.rt) || t in s.mailbox)
  }

  lemma CallersOnlyMove(s: State, a: Action)
    ensures OnlyMoved(s, a, CallerStep(s, a))
  {
  }

  lemma RtOnlyMoves(s: State, a: Action)
    ensures OnlyMoved(s, a, RtStep(s, a))
  {
    hide Apply, Consume;
    if s.mailbox != [] { assert s.mailbox[0] in s.mailbox; }
    if s.rt.RTwo? { assert s.rt.t == Held(s.rt)[1]; }
    if s.rt.RDrain? && s.rt.last.Some? { assert s.rt.last.value == Held(s.rt)[0]; }
  }

  /** Targets only move: from the submitter to the mailbox, the drain and the tick. */
  lemma TargetsOnlyMove(s: State, a: Action)
    ensures OnlyMoved(s, a, Step(s, a))
  {
    hide OnlyMoved, CallerStep, RtStep;
    CallersOnlyMove(s, a);
    RtOnlyMoves(s, a);
  }

  lemma StepKeepsStamps(s: State, a: Action)
    requires LogOk(s) && TargetsStamped(s)
    ensures TargetsStamped(Step(s, a))
  {
    hide Step;
    StepAppends(s, a);
    TargetsOnlyMove(s, a);
    if Logged(s, a).Some? { AllStampedStays(s, Logged(s, a).value); }
    if a.LoadStopGen? && s.sub.SEpoch? { NewStamp(s); }
  }

  lemma StepKeepsJudgement(s: State, a: Action)
    requires TargetsStamped(s) && JudgementLogged(s)
    ensures JudgementLogged(Step(s, a))
  {
    hide Apply, Consume;
    if s.rt.RDrained? && s.rt.pending.Some? { assert s.rt.pending.value in Held(s.rt); }
  }

  lemma {:induction false} RunKeepsLog(schedule: seq<Action>)
    ensures var s := Run(Init(), schedule); LogOk(s) && TargetsStamped(s) && JudgementLogged(s)
  {
    hide Step;
    if schedule != [] {
      var before, a := schedule[..|schedule| - 1], schedule[|schedule| - 1];
      RunKeepsLog(before);
      StepKeepsLogOk(Run(Init(), before), a);
      StepKeepsStamps(Run(Init(), before), a);
      StepKeepsJudgement(Run(Init(), before), a);
    }
  }

  /** A target is judged superseded exactly when a stop fell between its stamp and the load that judges it. */
  lemma SupersededIffStopped(schedule: seq<Action>, j: nat)
    requires var log := Run(Init(), schedule).log; j < |log| && log[j].Judged?
    ensures var log := Run(Init(), schedule).log;
            var e := log[j];
            && e.stampAt < j && log[e.stampAt] == LogEvent.Stamp(e.id)
            && (e.superseded <==> StoppedBetween(log, e.stampAt, j))
  {
    RunKeepsLog(schedule);
    assert EventOk(Run(Init(), schedule).log, j);
  }

  /** No trajectory and no servo target starts once a stop fell between its stamp and that load. */
  lemma StopWins(schedule: seq<Action>, j: nat)
    requires var log := Run(Init(), schedule).log; j < |log| && log[j].Handed?
    ensures var log := Run(Init(), schedule).log;
            var e := log[j];
            && e.t.stampAt < e.loadAt < j && log[e.t.stampAt] == LogEvent.Stamp(e.t.id)
            && log[e.loadAt].Judged? && log[e.loadAt].id == e.t.id
            && (StoppedBetween(log, e.t.stampAt, e.loadAt) && e.accepted ==> e.t.kind.Hold? || e.t.kind.Brake?)
  {
    RunKeepsLog(schedule);
    var log := Run(Init(), schedule).log;
    assert EventOk(log, j);
    assert EventOk(log, log[j].loadAt);
  }
}

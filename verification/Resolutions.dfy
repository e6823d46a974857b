/**
 How each motion ends: over every schedule of the real-time core, which status every
 motion is recorded with (src/cpp/rt_core/realtime_core.cpp, src/cpp/rt_core/tick_core.cpp).
 */
module Resolutions {
  import opened Motion
  import opened Options
  import opened TickCore
  import opened RealtimeCore
  import opened SubmissionFates

  /** The motion under way. */
  function Running(c: Core): Option<nat> { if c.activeStatus.Running? then Some(c.activeId) else None }

  /** The effect ends motion `running` with the status of `r`. */
  predicate Ends(running: Option<nat>, e: Effect, r: Record) {
    running.Some? && e.resolve.Some? && Terminal(e.resolve.value) && r == Record(running.value, e.resolve.value)
  }

  function Surviving(running: Option<nat>, e: Effect): Option<nat> {
    if e.resolve.Some? && Terminal(e.resolve.value) then None else running
  }

  /**
   Why a step records `r`: a newer submission superseded a queued one, an effect of the tick
   ended the running motion, a target was refused, an accepted one preempted the running
   motion, or a hold was accepted, which is done at once.
   */
  predicate Causes(s: State, a: Action, r: Record) {
    match a
    case Coalesce => s.rt.RTwo? && r == Record(s.rt.prev.id, Preempted)
    case TickNow(before, fits, after) =>
      && s.rt.RJudged?
      && var met := Surviving(Running(s.core), before);
         || Ends(Running(s.core), before, r)
         || (if s.rt.pending.None? then Ends(met, after, r)
             else
               var t := s.rt.pending.value;
               if Refuses(Apply(s.core, before).0, t, s.rt.superseded, fits) then r == Record(t.id, Rejected)
               else
                 || (met.Some? && r == Record(met.value, Preempted))
                 || (if t.kind.Hold? then r == Record(t.id, Done) else Ends(Some(t.id), after, r)))
    case _ => false
  }

  lemma ApplyEnds(c: Core, e: Effect, r: Record)
    ensures r in Apply(c, e).1 <==> Ends(Running(c), e, r)
    ensures Running(Apply(c, e).0) == Surviving(Running(c), e)
  {
  }

  lemma ConsumeEnds(c: Core, t: Target, superseded: bool, fits: bool, r: Record)
    ensures var o, running := Consume(c, t, superseded, fits), Running(c);
            && (!o.accepted <==> Refuses(c, t, superseded, fits))
            && (!o.accepted ==> (r in o.records <==> r == Record(t.id, Rejected)) && Running(o.core).None?)
            && (o.accepted ==>
                  && (r in o.records <==>
                        || (running.Some? && r == Record(running.value, Preempted))
                        || (t.kind.Hold? && r == Record(t.id, Done)))
                  && Running(o.core) == if t.kind.Hold? then None else Some(t.id))
  {
    RefusedIff(c, t, superseded, fits);
  }

  lemma TickRecords(s: State, before: Effect, fits: bool, after: Effect, r: Record)
    requires s.rt.RJudged?
    ensures r in TickStep(s, before, fits, after).records <==> r in s.records || Causes(s, TickNow(before, fits, after), r)
  {
    var c1 := Apply(s.core, before).0;
    ApplyEnds(s.core, before, r);
    if s.rt.pending.None? {
      ApplyEnds(c1, after, r);
    } else {
      ConsumeEnds(c1, s.rt.pending.value, s.rt.superseded, fits, r);
      ApplyEnds(Consume(c1, s.rt.pending.value, s.rt.superseded, fits).core, after, r);
    }
    hide Apply, Consume, Ends, Surviving, Running, Refuses;
  }

  lemma StepRecords(s: State, a: Action, r: Record)
    ensures r in Step(s, a).records <==> r in s.records || Causes(s, a, r)
  {
    hide TickStep, Apply, Refuses, Ends, Surviving;
    match a {
      case TickNow(before, fits, after) => if s.rt.RJudged? { TickRecords(s, before, fits, after, r); }
      case Coalesce =>
      case _ => OthersLeaveRecords(s, a);
    }
  }

  predicate CausesAt(schedule: seq<Action>, k: nat, r: Record)
    requires k < |schedule|
  {
    Causes(Run(Init(), schedule[..k]), schedule[k], r)
  }

  /** For every run: a motion is recorded with a status if and only if some step gives a reason for exactly that status. */
  lemma {:induction false} RecordedIff(schedule: seq<Action>, r: Record)
    ensures r in Run(Init(), schedule).records <==> exists k :: 0 <= k < |schedule| && CausesAt(schedule, k, r)
  {
    hide Step, Causes;
    if schedule != [] {
      var n := |schedule| - 1;
      RecordedIff(schedule[..n], r);
      StepRecords(Run(Init(), schedule[..n]), schedule[n], r);
      hide Run;
      forall k | 0 <= k < n ensures CausesAt(schedule, k, r) == CausesAt(schedule[..n], k, r) {
        assert schedule[..n][..k] == schedule[..k];
      }
      if k :| 0 <= k < n && CausesAt(schedule[..n], k, r) { assert CausesAt(schedule, k, r); }
      if k :| 0 <= k < |schedule| && CausesAt(schedule, k, r) { assert k < n ==> CausesAt(schedule[..n], k, r); }
      assert CausesAt(schedule, n, r) == Causes(Run(Init(), schedule[..n]), schedule[n], r);
    }
  }

  /** The handle ends with this status and no other. */
  predicate EndsAs(s: State, id: nat, status: MotionStatus) {
    Record(id, status) in s.records && forall r :: r in s.records && r.id == id ==> r.status == status
  }

  lemma OneEnding(schedule: seq<Action>, k: nat, r: Record)
    requires k < |schedule| && CausesAt(schedule, k, r)
    ensures EndsAs(Run(Init(), schedule), r.id, r.status)
  {
    RecordedIff(schedule, r);
    EachMotionRecordedOnce(schedule, r.id);
  }

  /**
   What a caller's handle says, over every run: a submission superseded in the queue ends as
   preempted, and so does the motion an accepted target meets running; a refused target ends
   as rejected, and a hold that is accepted as done.
   */
  lemma HandlesTellTheTruth(schedule: seq<Action>, k: nat)
    requires k < |schedule|
    ensures var s, a, end := Run(Init(), schedule[..k]), schedule[k], Run(Init(), schedule);
            && (a.Coalesce? && s.rt.RTwo? ==> EndsAs(end, s.rt.prev.id, Preempted))
            && (a.TickNow? && s.rt.RJudged? && s.rt.pending.Some? ==>
                  var t, c := s.rt.pending.value, Apply(s.core, a.before).0;
                  if Refuses(c, t, s.rt.superseded, a.fits) then EndsAs(end, t.id, Rejected)
                  else
                    && (c.activeStatus.Running? ==> EndsAs(end, c.activeId, Preempted))
                    && (t.kind.Hold? ==> EndsAs(end, t.id, Done)))
  {
    var s, a := Run(Init(), schedule[..k]), schedule[k];
    if a.Coalesce? && s.rt.RTwo? { OneEnding(schedule, k, Record(s.rt.prev.id, Preempted)); }
    if a.TickNow? && s.rt.RJudged? && s.rt.pending.Some? {
      var t, c := s.rt.pending.value, Apply(s.core, a.before).0;
      hide Run;
      if Refuses(c, t, s.rt.superseded, a.fits) {
        OneEnding(schedule, k, Record(t.id, Rejected));
      } else {
        if c.activeStatus.Running? { OneEnding(schedule, k, Record(c.activeId, Preempted)); }
        if t.kind.Hold? { OneEnding(schedule, k, Record(t.id, Done)); }
      }
    }
  }

  lemma CoalescedStepRecorded(s: State, a: Action, f: Fate)
    requires f.Coalesced? && (f in s.fates ==> Record(f.id, Preempted) in s.records)
    ensures f in Step(s, a).fates ==> Record(f.id, Preempted) in Step(s, a).records
  {
    hide Apply, Consume;
  }

  /** The fate `Coalesced` is the record `Preempted`. */
  lemma {:induction false} CoalescedIsPreempted(schedule: seq<Action>, id: nat)
    ensures Coalesced(id) in Run(Init(), schedule).fates ==> EndsAs(Run(Init(), schedule), id, Preempted)
  {
    if schedule != [] && Coalesced(id) in Run(Init(), schedule).fates {
      CoalescedRecorded(schedule, id);
      EachMotionRecordedOnce(schedule, id);
    }
  }

  lemma {:induction false} CoalescedRecorded(schedule: seq<Action>, id: nat)
    ensures Coalesced(id) in Run(Init(), schedule).fates ==> Record(id, Preempted) in Run(Init(), schedule).records
  {
    hide Step;
    if schedule != [] {
      CoalescedRecorded(schedule[..|schedule| - 1], id);
      CoalescedStepRecorded(Run(Init(), schedule[..|schedule| - 1]), schedule[|schedule| - 1], Coalesced(id));
    }
  }
}

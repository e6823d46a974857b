/**
 Exactly-once resolution and the latest-wins drain, over every schedule of the
 real-time core (src/cpp/rt_core/realtime_core.cpp, src/cpp/rt_core/tick_core.cpp).
 */
module SubmissionFates {
  import opened Motion
  import opened Options
  import opened TickCore
  import opened RealtimeCore

  function Ids(ts: seq<Target>): seq<nat> { seq(|ts|, i requires 0 <= i < |ts| => ts[i].id) }

  function FateIds(fs: seq<Fate>): seq<nat> { seq(|fs|, i requires 0 <= i < |fs| => fs[i].id) }

  predicate Increasing(xs: seq<nat>) { forall i, j :: 0 <= i < j < |xs| ==> xs[i] < xs[j] }

  /** The id the submitter has drawn and not yet enqueued or given up. */
  function Drawn(b: Submitter): Option<nat> {
    match b
    case SNumbered(_, _, id) => Some(id)
    case SEpoch(_, _, id, _) => Some(id)
    case SStamped(t) => Some(t.id)
    case _ => None
  }

  /** Accepted submissions pass through in order: first to a fate, then in hand, then queued. */
  predicate Pipeline(s: State) { s.enqueued == FateIds(s.fates) + Ids(Held(s.rt)) + Ids(s.mailbox) }

  predicate Numbering(s: State) {
    && s.nextId >= 1
    && Increasing(s.enqueued)
    && (forall id :: id in s.enqueued ==> 0 < id < s.nextId)
    && (forall id :: id in s.refused ==> 0 < id < s.nextId && id !in s.enqueued)
    && (Drawn(s.sub).Some? ==>
          var id := Drawn(s.sub).value;
          && 0 < id < s.nextId && id !in s.refused
          && forall other :: other in s.enqueued ==> other < id)
  }

  lemma PushKeepsPipeline(s: State)
    requires Pipeline(s) && s.sub.SStamped?
    ensures Pipeline(PushStep(s))
  {
    if |s.mailbox| < MAILBOX_CAP { assert Ids(PushStep(s).mailbox) == Ids(s.mailbox) + [s.sub.t.id]; }
  }

  lemma PopKeepsPipeline(s: State)
    requires Pipeline(s) && s.rt.RDrain?
    ensures Pipeline(PopStep(s))
  {
    var s' := PopStep(s);
    if s.mailbox != [] {
      assert Ids(Held(s'.rt)) == Ids(Held(s.rt)) + [s.mailbox[0].id];
      assert Ids(s.mailbox) == [s.mailbox[0].id] + Ids(s'.mailbox);
    }
  }

  lemma CoalesceKeepsPipeline(s: State)
    requires Pipeline(s) && s.rt.RTwo?
    ensures Pipeline(CoalesceStep(s))
  {
    var s' := CoalesceStep(s);
    assert FateIds(s'.fates) == FateIds(s.fates) + [s.rt.prev.id];
    assert Ids(Held(s.rt)) == [s.rt.prev.id] + Ids(Held(s'.rt));
  }

  lemma TickKeepsPipeline(s: State, before: Effect, fits: bool, after: Effect)
    requires Pipeline(s) && s.rt.RJudged?
    ensures Pipeline(TickStep(s, before, fits, after))
  {
    hide Apply, Consume;
    var s' := TickStep(s, before, fits, after);
    if s.rt.pending.Some? {
      assert FateIds(s'.fates) == FateIds(s.fates) + [s.rt.pending.value.id];
      assert Ids(Held(s.rt)) == [s.rt.pending.value.id];
    }
  }

  /** What the fates lemmas read: everything else in the state may change freely. */
  predicate SameFates(s: State, s': State) {
    && s'.enqueued == s.enqueued && s'.fates == s.fates && Held(s'.rt) == Held(s.rt) && s'.mailbox == s.mailbox
  }

  lemma OtherStepsKeepFates(s: State, a: Action)
    requires !a.PushMailbox? && !a.PopMailbox? && !a.Coalesce? && !a.TickNow?
    ensures SameFates(s, Step(s, a))
  {
  }

  lemma StepKeepsPipeline(s: State, a: Action)
    requires Pipeline(s)
    ensures Pipeline(Step(s, a))
  {
    hide PushStep, PopStep, CoalesceStep, TickStep, JudgeStep, RetireStep, ReapStep;
    match a {
      case PushMailbox => if s.sub.SStamped? { PushKeepsPipeline(s); }
      case PopMailbox => if s.rt.RDrain? { PopKeepsPipeline(s); }
      case Coalesce => if s.rt.RTwo? { CoalesceKeepsPipeline(s); }
      case TickNow(before, fits, after) => if s.rt.RJudged? { TickKeepsPipeline(s, before, fits, after); }
      case _ => OtherStepsKeepFates(s, a);
    }
  }

  predicate SameNumbers(s: State, s': State) {
    && s'.enqueued == s.enqueued && s'.refused == s.refused && s'.nextId == s.nextId && s'.sub == s.sub
  }

  lemma RtLeavesNumbers(s: State, a: Action)
    ensures SameNumbers(s, RtStep(s, a))
  {
  }

  lemma CallerKeepsNumbering(s: State, a: Action)
    requires Numbering(s)
    ensures Numbering(CallerStep(s, a))
  {
    hide PushStep, Increasing;
    if a.PushMailbox? && s.sub.SStamped? { PushKeepsNumbering(s); }
  }

  lemma PushKeepsNumbering(s: State)
    requires Numbering(s) && s.sub.SStamped?
    ensures Numbering(PushStep(s))
  {
    IncreasingAppend(s.enqueued, s.sub.t.id);
    hide Increasing;
  }

  lemma IncreasingAppend(xs: seq<nat>, y: nat)
    requires Increasing(xs) && forall x :: x in xs ==> x < y
    ensures Increasing(xs + [y])
  {
    forall i, j | 0 <= i < j < |xs + [y]| ensures (xs + [y])[i] < (xs + [y])[j] {
      assert xs[i] in xs;
    }
  }

  lemma StepKeepsNumbering(s: State, a: Action)
    requires Numbering(s)
    ensures Numbering(Step(s, a))
  {
    hide RtStep, CallerStep;
    RtLeavesNumbers(s, a);
    CallerKeepsNumbering(s, a);
  }

  lemma {:induction false} RunKeepsFates(schedule: seq<Action>)
    ensures Pipeline(Run(Init(), schedule)) && Numbering(Run(Init(), schedule))
  {
    if schedule != [] {
      RunKeepsFates(schedule[..|schedule| - 1]);
      StepKeepsPipeline(Run(Init(), schedule[..|schedule| - 1]), schedule[|schedule| - 1]);
      StepKeepsNumbering(Run(Init(), schedule[..|schedule| - 1]), schedule[|schedule| - 1]);
    }
  }

  /** Where a drawn id is, on the caller's side: still in hand, accepted or refused. */
  function Answered(s: State, id: nat): nat {
    (if Drawn(s.sub) == Some(id) then 1 else 0) + (if id in s.enqueued then 1 else 0) + (if id in s.refused then 1 else 0)
  }

  predicate AllAnswered(s: State) { s.nextId >= 1 && forall id :: 0 < id < s.nextId ==> Answered(s, id) >= 1 }

  lemma StepAnswers(s: State, a: Action)
    requires AllAnswered(s)
    ensures AllAnswered(Step(s, a))
  {
    hide RtStep;
    RtLeavesNumbers(s, a);
    var s' := Step(s, a);
    forall id | 0 < id < s'.nextId ensures Answered(s', id) >= 1 {
      if id < s.nextId { assert Answered(s, id) >= 1; }
    }
  }

  lemma {:induction false} RunAnswers(schedule: seq<Action>)
    ensures AllAnswered(Run(Init(), schedule))
  {
    hide Step;
    if schedule != [] {
      hide AllAnswered;
      RunAnswers(schedule[..|schedule| - 1]);
      StepAnswers(Run(Init(), schedule[..|schedule| - 1]), schedule[|schedule| - 1]);
    }
  }

  /** For every run, every id drawn is exactly one of the submitter's, accepted and refused. */
  lemma EveryIdAnswered(schedule: seq<Action>, id: nat)
    ensures var s := Run(Init(), schedule);
            Answered(s, id) == if 0 < id < s.nextId then 1 else 0
  {
    RunAnswers(schedule);
    RunKeepsFates(schedule);
    hide Run, Increasing, Pipeline;
    var s := Run(Init(), schedule);
    if 0 < id < s.nextId { assert Answered(s, id) >= 1; }
  }

  predicate Waiting(s: State, id: nat) { id in Ids(Held(s.rt)) || id in Ids(s.mailbox) }

  predicate HasFate(s: State, id: nat) { exists k :: 0 <= k < |s.fates| && s.fates[k].id == id }

  lemma SplitOfIncreasing(xs: seq<nat>, ys: seq<nat>, id: nat)
    ensures Increasing(xs + ys) && id in xs ==> id !in ys
    ensures id in xs + ys <==> id in xs || id in ys
  {
    if id in xs && id in ys {
      var j :| 0 <= j < |xs| && xs[j] == id;
      var k :| 0 <= k < |ys| && ys[k] == id;
      assert (xs + ys)[j] == (xs + ys)[|xs| + k];
    }
  }

  lemma FateIdsHas(s: State, id: nat)
    ensures HasFate(s, id) <==> id in FateIds(s.fates)
  {
    if k :| 0 <= k < |s.fates| && s.fates[k].id == id { assert FateIds(s.fates)[k] == id; }
  }

  /**
   Exactly once: a submission that returned its id is waiting or has met one fate, never
   both and never two; one that returned 0 is nowhere; and fates are met in submission order.
   */
  lemma ExactlyOneFate(schedule: seq<Action>, id: nat)
    ensures var s := Run(Init(), schedule);
            && (id in s.enqueued <==> Waiting(s, id) || HasFate(s, id))
            && !(Waiting(s, id) && HasFate(s, id))
            && (forall j, k :: 0 <= j < k < |s.fates| ==> s.fates[j].id < s.fates[k].id)
            && (id in s.refused ==> !Waiting(s, id) && !HasFate(s, id))
  {
    RunKeepsFates(schedule);
    var s := Run(Init(), schedule);
    SplitOfIncreasing(FateIds(s.fates), Ids(Held(s.rt)) + Ids(s.mailbox), id);
    assert s.enqueued == FateIds(s.fates) + (Ids(Held(s.rt)) + Ids(s.mailbox));
    FateIdsHas(s, id);
    forall j, k | 0 <= j < k < |s.fates| ensures s.fates[j].id < s.fates[k].id {
      assert s.enqueued[j] == s.fates[j].id && s.enqueued[k] == s.fates[k].id;
    }
  }

  /** Latest wins: what a drain hands on is the newest submission accepted when it saw the mailbox empty. */
  lemma DrainHandsOnTheNewest(schedule: seq<Action>)
    requires var s := Run(Init(), schedule); s.rt.RDrain? && s.mailbox == []
    ensures var s := Run(Init(), schedule);
            var drained := PopStep(s);
            && drained.rt.RDrained?
            && (drained.rt.pending.Some? ==>
                  && drained.rt.pending.value.id in s.enqueued
                  && (forall id :: id in s.enqueued ==> id <= drained.rt.pending.value.id)
                  && (forall id :: id in s.enqueued && id != drained.rt.pending.value.id ==> HasFate(s, id)))
            && (drained.rt.pending.None? ==> forall id :: id in s.enqueued ==> HasFate(s, id))
  {
    RunKeepsFates(schedule);
    var s := Run(Init(), schedule);
    assert s.enqueued == FateIds(s.fates) + Ids(Held(s.rt));
    if s.rt.last.Some? {
      assert s.enqueued[|s.enqueued| - 1] == s.rt.last.value.id;
    }
    forall id | id in s.enqueued && (s.rt.last.Some? ==> id != s.rt.last.value.id) ensures HasFate(s, id) {
      ExactlyOneFate(schedule, id);
    }
  }

  // ---- every fate ends in one record -------------------------------------------

  function InFates(fs: seq<Fate>, x: nat): nat {
    if fs == [] then 0 else (if fs[0].id == x then 1 else 0) + InFates(fs[1..], x)
  }

  function InRecords(rs: seq<Record>, x: nat): nat {
    if rs == [] then 0 else (if rs[0].id == x then 1 else 0) + InRecords(rs[1..], x)
  }

  function Runs(c: Core, x: nat): nat { if c.activeStatus.Running? && c.activeId == x then 1 else 0 }

  /** The step is a tick that refuses a target while motion `x` is running. */
  predicate Displaces(s: State, a: Action, x: nat) {
    && a.TickNow? && s.rt.RJudged? && s.rt.pending.Some?
    && var c := Apply(s.core, a.before).0;
       Runs(c, x) == 1 && Refuses(c, s.rt.pending.value, s.rt.superseded, a.fits)
  }

  /** How many steps of the run displace motion `x`. */
  function Displacements(schedule: seq<Action>, x: nat): nat {
    if schedule == [] then 0
    else
      var before, a := schedule[..|schedule| - 1], schedule[|schedule| - 1];
      Displacements(before, x) + (if Displaces(Run(Init(), before), a, x) then 1 else 0)
  }

  /** A motion with a fate is recorded once, still running, or was displaced (`lost` times). */
  predicate Accounted(s: State, x: nat, lost: nat) {
    InFates(s.fates, x) == InRecords(s.records, x) + Runs(s.core, x) + lost
  }

  lemma {:induction false} InFatesAppend(fs: seq<Fate>, f: Fate, x: nat)
    ensures InFates(fs + [f], x) == InFates(fs, x) + (if f.id == x then 1 else 0)
  {
    if fs == [] {
      assert (fs + [f])[1..] == [];
    } else {
      InFatesAppend(fs[1..], f, x);
      assert (fs + [f])[1..] == fs[1..] + [f];
    }
  }

  lemma {:induction false} InRecordsConcat(rs: seq<Record>, more: seq<Record>, x: nat)
    ensures InRecords(rs + more, x) == InRecords(rs, x) + InRecords(more, x)
  {
    if rs == [] {
      assert rs + more == more;
    } else {
      InRecordsConcat(rs[1..], more, x);
      assert (rs + more)[1..] == rs[1..] + more;
    }
  }

  /** Resolving the running motion moves it from running to recorded. */
  lemma ApplyAccounts(c: Core, e: Effect, x: nat)
    ensures var (c', records) := Apply(c, e);
            && InRecords(records, x) + Runs(c', x) == Runs(c, x)
            && (c.activeStatus.Running? || !c'.activeStatus.Running?)
  {
  }

  lemma ConsumeAccounts(c: Core, t: Target, superseded: bool, fits: bool, x: nat)
    ensures var r := Consume(c, t, superseded, fits);
            var lost := if Runs(c, x) == 1 && Refuses(c, t, superseded, fits) then 1 else 0;
            InRecords(r.records, x) + Runs(r.core, x) + lost == Runs(c, x) + (if t.id == x then 1 else 0)
  {
    RefusedIff(c, t, superseded, fits);
    var r := Consume(c, t, superseded, fits);
    if r.accepted && t.kind.Hold? {
      InRecordsConcat(Resolve(c, Preempted).1, [Record(t.id, Done)], x);
    }
  }

  lemma TickAccounts(s: State, before: Effect, fits: bool, after: Effect, x: nat, lost: nat)
    requires Accounted(s, x, lost) && s.rt.RJudged?
    ensures Accounted(TickStep(s, before, fits, after), x, lost + (if Displaces(s, TickNow(before, fits, after), x) then 1 else 0))
  {
    var (c1, records1) := Apply(s.core, before);
    ApplyAccounts(s.core, before, x);
    InRecordsConcat(s.records, records1, x);
    if s.rt.pending.None? {
      ApplyAccounts(c1, after, x);
      InRecordsConcat(s.records + records1, Apply(c1, after).1, x);
    } else {
      var t := s.rt.pending.value;
      var r := Consume(c1, t, s.rt.superseded, fits);
      ConsumeAccounts(c1, t, s.rt.superseded, fits, x);
      ApplyAccounts(r.core, after, x);
      InRecordsConcat(s.records + records1, r.records, x);
      InRecordsConcat(s.records + records1 + r.records, Apply(r.core, after).1, x);
      InFatesAppend(s.fates, Ticked(t.id), x);
      hide Apply, Consume, Refuses;
    }
  }

  lemma CoalesceAccounts(s: State, x: nat, lost: nat)
    requires Accounted(s, x, lost) && s.rt.RTwo?
    ensures Accounted(CoalesceStep(s), x, lost)
  {
    InFatesAppend(s.fates, Coalesced(s.rt.prev.id), x);
    InRecordsConcat(s.records, [Record(s.rt.prev.id, Preempted)], x);
  }

  lemma OthersLeaveRecords(s: State, a: Action)
    requires !a.Coalesce? && !a.TickNow?
    ensures var s' := Step(s, a);
            s'.fates == s.fates && s'.records == s.records && s'.core == s.core
  {
  }

  lemma StepAccounts(s: State, a: Action, x: nat, lost: nat)
    requires Accounted(s, x, lost)
    ensures Accounted(Step(s, a), x, lost + (if Displaces(s, a, x) then 1 else 0))
  {
    hide CoalesceStep, TickStep, Apply, Refuses;
    match a {
      case Coalesce => if s.rt.RTwo? { CoalesceAccounts(s, x, lost); }
      case TickNow(before, fits, after) => if s.rt.RJudged? { TickAccounts(s, before, fits, after, x, lost); }
      case _ => OthersLeaveRecords(s, a);
    }
  }

  lemma {:induction false} RunAccounts(schedule: seq<Action>, x: nat)
    ensures Accounted(Run(Init(), schedule), x, Displacements(schedule, x))
  {
    hide Step, Displaces;
    if schedule != [] {
      hide Accounted;
      var before, a := schedule[..|schedule| - 1], schedule[|schedule| - 1];
      RunAccounts(before, x);
      StepAccounts(Run(Init(), before), a, x, Displacements(before, x));
    }
  }

  lemma {:induction false} InFatesOnce(fs: seq<Fate>, x: nat)
    requires forall j, k :: 0 <= j < k < |fs| ==> fs[j].id < fs[k].id
    ensures InFates(fs, x) == if exists k :: 0 <= k < |fs| && fs[k].id == x then 1 else 0
  {
    if fs != [] {
      InFatesOnce(fs[1..], x);
      if k :| 0 <= k < |fs[1..]| && fs[1..][k].id == x { assert fs[k + 1].id == x; }
      if k :| 0 <= k < |fs| && fs[k].id == x { assert k > 0 ==> fs[1..][k - 1].id == x; }
    }
  }

  lemma {:induction false} TwoRecords(rs: seq<Record>, x: nat, i: nat, j: nat)
    requires i < j < |rs| && rs[i].id == rs[j].id == x
    ensures InRecords(rs, x) >= 2
  {
    if i > 0 { TwoRecords(rs[1..], x, i - 1, j - 1); } else { OneRecord(rs[1..], x, j - 1); }
  }

  lemma {:induction false} OneRecord(rs: seq<Record>, x: nat, j: nat)
    requires j < |rs| && rs[j].id == x
    ensures InRecords(rs, x) >= 1
  {
    if j > 0 { OneRecord(rs[1..], x, j - 1); }
  }

  /**
   No id is recorded twice, which is what the resolution table relies on; and every
   accepted submission is waiting, recorded, running, or was displaced unrecorded,
   one and only one of the four.
   */
  lemma EachMotionRecordedOnce(schedule: seq<Action>, id: nat)
    ensures var s := Run(Init(), schedule);
            && (forall i, j :: 0 <= i < j < |s.records| ==> s.records[i].id != s.records[j].id)
            && (id in s.enqueued ==>
                  (if Waiting(s, id) then 1 else 0) + InRecords(s.records, id) + Runs(s.core, id) + Displacements(schedule, id) == 1)
            && (id !in s.enqueued ==> InRecords(s.records, id) == 0)
  {
    var s := Run(Init(), schedule);
    ExactlyOneFate(schedule, id);
    InFatesOnce(s.fates, id);
    RunAccounts(schedule, id);
    forall i, j | 0 <= i < j < |s.records| ensures s.records[i].id != s.records[j].id {
      if s.records[i].id == s.records[j].id {
        var x := s.records[i].id;
        ExactlyOneFate(schedule, x);
        InFatesOnce(s.fates, x);
        RunAccounts(schedule, x);
        TwoRecords(s.records, x, i, j);
      }
    }
  }

  // ---- when a handle is left without a resolution ------------------------------

  /** The submission has left the queue, and nothing will tell its handle how it ended. */
  predicate Unresolved(s: State, id: nat) {
    id in s.enqueued && !Waiting(s, id) && InRecords(s.records, id) == 0 && Runs(s.core, id) == 0
  }

  predicate DisplacedAt(schedule: seq<Action>, k: nat, id: nat)
    requires k < |schedule|
  {
    Displaces(Run(Init(), schedule[..k]), schedule[k], id)
  }

  lemma {:induction false} DisplacedIff(schedule: seq<Action>, id: nat)
    ensures Displacements(schedule, id) > 0 <==> exists k :: 0 <= k < |schedule| && DisplacedAt(schedule, k, id)
  {
    hide Displaces, Run;
    if schedule != [] {
      var n := |schedule| - 1;
      DisplacedIff(schedule[..n], id);
      forall k | 0 <= k < n ensures DisplacedAt(schedule, k, id) == DisplacedAt(schedule[..n], k, id) {
        assert schedule[..n][..k] == schedule[..k];
      }
      if k :| 0 <= k < n && DisplacedAt(schedule[..n], k, id) { assert DisplacedAt(schedule, k, id); }
      if k :| 0 <= k < |schedule| && DisplacedAt(schedule, k, id) { assert k < n ==> DisplacedAt(schedule[..n], k, id); }
      assert DisplacedAt(schedule, n, id) == Displaces(Run(Init(), schedule[..n]), schedule[n], id);
    }
  }

  /**
   For every run and every id: an accepted submission is neither waiting nor recorded nor
   running if and only if some tick met it running and, by one of the guards of the refusing
   branches, refused another target, which took over the active slot.
   */
  lemma {:induction false} UnresolvedIffDisplaced(schedule: seq<Action>, id: nat)
    ensures Unresolved(Run(Init(), schedule), id) <==> exists k :: 0 <= k < |schedule| && DisplacedAt(schedule, k, id)
  {
    hide Run, Displaces, Displacements;
    EachMotionRecordedOnce(schedule, id);
    if id !in Run(Init(), schedule).enqueued { NotEnqueued(schedule, id); }
    DisplacedIff(schedule, id);
  }

  /** Only an accepted submission is ever recorded, running or displaced. */
  lemma NotEnqueued(schedule: seq<Action>, id: nat)
    requires id !in Run(Init(), schedule).enqueued
    ensures Displacements(schedule, id) == 0 && Runs(Run(Init(), schedule).core, id) == 0
  {
    ExactlyOneFate(schedule, id);
    InFatesOnce(Run(Init(), schedule).fates, id);
    RunAccounts(schedule, id);
  }

  /** A displaced motion is never recorded later: its handle never resolves. */
  lemma {:induction false} DisplacedStaysUnresolved(schedule: seq<Action>, more: seq<Action>, id: nat)
    requires Unresolved(Run(Init(), schedule), id)
    ensures Unresolved(Run(Init(), schedule + more), id)
  {
    hide Run, Displaces, Unresolved;
    UnresolvedIffDisplaced(schedule, id);
    UnresolvedIffDisplaced(schedule + more, id);
    var k :| 0 <= k < |schedule| && DisplacedAt(schedule, k, id);
    assert (schedule + more)[..k] == schedule[..k] && (schedule + more)[k] == schedule[k];
    assert DisplacedAt(schedule + more, k, id);
  }

  // ---- and it does happen ------------------------------------------------------

  lemma Extend(s: State, trace: seq<Action>, a: Action) returns (s': State, more: seq<Action>)
    requires s == Run(Init(), trace)
    ensures s' == Step(s, a) && s' == Run(Init(), more)
  {
    more := trace + [a];
    s' := Step(s, a);
    RunStep(Init(), trace, a);
  }

  lemma SubmitTrajectory(s: State, trace: seq<Action>) returns (s': State, more: seq<Action>)
    requires s == Run(Init(), trace) && s.sub.SFree? && s.retire == [] && s.mailbox == [] && s.rt.RIdle?
    ensures s' == Run(Init(), more)
    ensures |s'.mailbox| == 1 && s'.mailbox[0] == Target(s.nextId, Trajectory, s.publishedEpoch, s.stopGen, Some(s.nextOwner), |s.log|)
    ensures s'.sub.SFree? && s'.rt == s.rt && s'.retire == [] && s'.core == s.core
    ensures s'.nextId == s.nextId + 1 && s'.stopGen == s.stopGen && s'.publishedEpoch == s.publishedEpoch
    ensures s'.active == s.active && s'.records == s.records && s'.enqueued == s.enqueued + [s.nextId]
  {
    hide Run;
    s', more := Extend(s, trace, Lock(Some(Trajectory)));
    s', more := Extend(s', more, Reap);
    assert s'.sub == SReady(Trajectory, Some(s.nextOwner));
    s', more := Extend(s', more, FetchId);
    s', more := Extend(s', more, LoadEpoch);
    assert s'.sub == SEpoch(Trajectory, Some(s.nextOwner), s.nextId, s.publishedEpoch);
    s', more := Extend(s', more, LoadStopGen);
    s', more := Extend(s', more, PushMailbox);
  }

  lemma DrainOnce(s: State, trace: seq<Action>) returns (s': State, more: seq<Action>)
    requires s == Run(Init(), trace) && s.rt.RIdle? && |s.mailbox| == 1
    ensures s' == Run(Init(), more)
    ensures s' == s.(rt := RDrained(Some(s.mailbox[0])), mailbox := [])
  {
    hide Run, CoalesceStep, JudgeStep, TickStep, RetireStep, ReapStep, PushStep;
    s', more := Extend(s, trace, BeginDrain);
    s', more := Extend(s', more, PopMailbox);
    s', more := Extend(s', more, PopMailbox);
  }

  lemma TickOnce(s: State, trace: seq<Action>, before: Effect, fits: bool, after: Effect) returns (s': State, more: seq<Action>)
    requires s == Run(Init(), trace) && s.rt.RIdle? && |s.mailbox| == 1 && s.mailbox[0].stopGen == s.stopGen
    ensures s' == Run(Init(), more)
    ensures var c := Apply(s.core, before).0;
            var r := Consume(c, s.mailbox[0], false, fits);
            && s'.core == Apply(r.core, after).0 && s'.publishedEpoch == s'.core.epoch
            && s'.records == s.records + Apply(s.core, before).1 + r.records + Apply(r.core, after).1
            && (r.accepted && s.active.None? ==> s'.retire == s.retire)
    ensures s'.sub == s.sub && s'.rt.RIdle? && s'.mailbox == [] && s'.enqueued == s.enqueued
    ensures s'.nextId == s.nextId && s'.stopGen == s.stopGen
  {
    hide Run, Apply, Consume, PopStep, CoalesceStep, ReapStep, PushStep;
    s', more := DrainOnce(s, trace);
    s', more := Extend(s', more, JudgeStop);
    s', more := Extend(s', more, TickNow(before, fits, after));
    s', more := Extend(s', more, RetireBuffers);
  }

  const HOLDS := Effect(None, HoldMode, false, 0)
  const PLAYS := Effect(None, TrajectoryMode, false, 0)

  lemma FirstCore(t: Target)
    requires t.kind.Trajectory? && t.id == 1 && t.epoch == 0
    ensures var c0 := Apply(Init().core, HOLDS);
            var r := Consume(c0.0, t, false, true);
            var c1 := Apply(r.core, PLAYS);
            && c0.1 == [] && r.accepted && r.records == [] && c1.1 == []
            && c1.0.activeStatus.Running? && c1.0.activeId == 1 && c1.0.mode.TrajectoryMode?
  {
  }

  lemma FirstPlays() returns (s: State, trace: seq<Action>)
    ensures s == Run(Init(), trace) && s.rt.RIdle? && s.sub.SFree? && s.retire == [] && s.mailbox == []
    ensures s.nextId == 2 && s.enqueued == [1] && s.records == [] && s.publishedEpoch == s.core.epoch
    ensures s.core.activeStatus.Running? && s.core.activeId == 1 && s.core.mode.TrajectoryMode?
  {
    RunNone(Init());
    hide Run, Apply, Consume;
    s, trace := SubmitTrajectory(Init(), []);
    FirstCore(s.mailbox[0]);
    s, trace := TickOnce(s, trace, HOLDS, true, PLAYS);
  }

  lemma UnresolvedBeside(s: State)
    requires s.rt.RIdle? && s.mailbox == [] && s.enqueued == [1, 2] && s.records == [Record(2, Rejected)]
    requires s.core.activeId == 2
    ensures Unresolved(s, 1)
  {
    assert s.records[1..] == [];
  }

  /** A trajectory refused by the capture gate while another plays: the playing one plays on, and never resolves. */
  lemma RefusalDisplacesPlayback()
    ensures exists schedule :: var s := Run(Init(), schedule); Unresolved(s, 1) && s.core.mode.TrajectoryMode?
  {
    hide Run, Unresolved;
    var s, trace := FirstPlays();
    s, trace := SubmitTrajectory(s, trace);
    s, trace := TickOnce(s, trace, PLAYS, false, PLAYS);
    UnresolvedBeside(s);
  }
}

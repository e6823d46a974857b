/**
 The motion epoch across threads (src/cpp/rt_core/realtime_core.cpp): what a submission is
 stamped with, and when a tick finds that stamp stale, over every schedule.
 */
module EpochStamps {
  import opened Options
  import opened TickCore
  import opened RealtimeCore
  import opened SubmissionFates

  lemma StepPublishes(s: State, a: Action)
    requires s.publishedEpoch == s.core.epoch
    ensures Step(s, a).publishedEpoch == Step(s, a).core.epoch
  {
    hide Apply, Consume;
  }

  /** Between ticks the callers see the epoch of the core: every tick publishes it, with or without a target. */
  lemma {:induction false} PublishedIsCurrent(schedule: seq<Action>)
    ensures Run(Init(), schedule).publishedEpoch == Run(Init(), schedule).core.epoch
  {
    hide Step;
    if schedule != [] {
      PublishedIsCurrent(schedule[..|schedule| - 1]);
      StepPublishes(Run(Init(), schedule[..|schedule| - 1]), schedule[|schedule| - 1]);
    }
  }

  /** By how much the step moves the epoch on. */
  function Bumps(s: State, a: Action): nat {
    if a.TickNow? && s.rt.RJudged? then a.before.bumps + a.after.bumps else 0
  }

  lemma ConsumeKeepsEpoch(c: Core, t: Target, superseded: bool, fits: bool)
    ensures Consume(c, t, superseded, fits).core.epoch == c.epoch
  {
  }

  lemma StepBumps(s: State, a: Action)
    ensures Step(s, a).core.epoch == s.core.epoch + Bumps(s, a)
  {
    if a.TickNow? && s.rt.RJudged? && s.rt.pending.Some? {
      ConsumeKeepsEpoch(Apply(s.core, a.before).0, s.rt.pending.value, s.rt.superseded, a.fits);
    }
    hide Consume;
  }

  /** Every target numbered `id`, wherever it is, carries the epoch `e`, and the id is not drawn again. */
  predicate Carries(s: State, id: nat, e: nat) {
    && id < s.nextId
    && (s.sub.SNumbered? ==> s.sub.id != id)
    && (s.sub.SEpoch? && s.sub.id == id ==> s.sub.epoch == e)
    && (s.sub.SStamped? && s.sub.t.id == id ==> s.sub.t.epoch == e)
    && (forall t :: t in s.mailbox && t.id == id ==> t.epoch == e)
    && (forall t :: t in Held(s.rt) && t.id == id ==> t.epoch == e)
  }

  lemma CallerCarries(s: State, a: Action, id: nat, e: nat)
    requires Carries(s, id, e)
    ensures Carries(CallerStep(s, a), id, e)
  {
  }

  lemma RtCarries(s: State, a: Action, id: nat, e: nat)
    requires Carries(s, id, e)
    ensures Carries(RtStep(s, a), id, e)
  {
    hide Apply, Consume;
    if a.PopMailbox? && s.rt.RDrain? && s.mailbox != [] { assert s.mailbox[0] in s.mailbox; }
    if s.rt.RTwo? { assert s.rt.t in Held(s.rt); }
  }

  lemma {:induction false} RunCarries(s: State, schedule: seq<Action>, id: nat, e: nat)
    requires Carries(s, id, e)
    ensures Carries(Run(s, schedule), id, e)
    decreases |schedule|
  {
    if schedule != [] {
      var before := schedule[..|schedule| - 1];
      RunCarries(s, before, id, e);
      hide Carries, CallerStep, RtStep;
      CallerCarries(Run(s, before), schedule[|schedule| - 1], id, e);
      RtCarries(Run(s, before), schedule[|schedule| - 1], id, e);
    }
  }

  lemma LoadedOnce(schedule: seq<Action>)
    requires Run(Init(), schedule).sub.SNumbered?
    ensures var s := Run(Init(), schedule); Carries(Step(s, LoadEpoch), s.sub.id, s.publishedEpoch)
  {
    var s := Run(Init(), schedule);
    RunKeepsFates(schedule);
    forall t | t in s.mailbox ensures t.id != s.sub.id {
      var i :| 0 <= i < |s.mailbox| && s.mailbox[i] == t;
      assert Ids(s.mailbox)[i] in s.enqueued;
    }
    forall t | t in Held(s.rt) ensures t.id != s.sub.id {
      var i :| 0 <= i < |Held(s.rt)| && Held(s.rt)[i] == t;
      assert Ids(Held(s.rt))[i] in s.enqueued;
    }
  }

  predicate BumpsAt(s: State, schedule: seq<Action>, m: nat)
    requires m < |schedule|
  {
    Bumps(Run(s, schedule[..m]), schedule[m]) > 0
  }

  /** The epoch only grows, and has moved exactly when some tick bumped it. */
  lemma {:induction false} EpochMovesIff(s: State, schedule: seq<Action>)
    ensures Run(s, schedule).core.epoch >= s.core.epoch
    ensures Run(s, schedule).core.epoch != s.core.epoch <==> exists m :: 0 <= m < |schedule| && BumpsAt(s, schedule, m)
    decreases |schedule|
  {
    hide Step, Bumps;
    if schedule != [] {
      var n := |schedule| - 1;
      EpochMovesIff(s, schedule[..n]);
      StepBumps(Run(s, schedule[..n]), schedule[n]);
      assert Run(s, schedule) == Step(Run(s, schedule[..n]), schedule[n]);
      hide Run;
      forall m | 0 <= m < n ensures BumpsAt(s, schedule, m) == BumpsAt(s, schedule[..n], m) {
        assert schedule[..n][..m] == schedule[..m];
      }
      if m :| 0 <= m < n && BumpsAt(s, schedule[..n], m) { assert BumpsAt(s, schedule, m); }
      if m :| 0 <= m < |schedule| && BumpsAt(s, schedule, m) { assert m < n ==> BumpsAt(s, schedule[..n], m); }
      assert BumpsAt(s, schedule, n) == (Bumps(Run(s, schedule[..n]), schedule[n]) > 0);
    }
  }

  /**
   For every run: a submission that loads the epoch and is ticked later is refused as stale, that
   is, does not carry the epoch the consume compares with, if and only if the epoch was bumped
   after the load: by a tick in between, or before the consume in its own tick.
   */
  lemma StaleIffBumped(before: seq<Action>, between: seq<Action>, first: Effect)
    requires Run(Init(), before).sub.SNumbered?
    requires var s := Run(Step(Run(Init(), before), LoadEpoch), between);
             s.rt.RJudged? && s.rt.pending.Some? && s.rt.pending.value.id == Run(Init(), before).sub.id
    ensures var loaded := Step(Run(Init(), before), LoadEpoch);
            var s := Run(loaded, between);
            s.rt.pending.value.epoch != Apply(s.core, first).0.epoch <==>
            first.bumps > 0 || exists m :: 0 <= m < |between| && BumpsAt(loaded, between, m)
  {
    hide Run, Step, Apply, BumpsAt, Carries, Bumps;
    var s0 := Run(Init(), before);
    var loaded := Step(s0, LoadEpoch);
    PublishedIsCurrent(before);
    LoadedOnce(before);
    StepBumps(s0, LoadEpoch);
    NoBumps(s0);
    RunCarries(loaded, between, s0.sub.id, s0.publishedEpoch);
    EpochMovesIff(loaded, between);
    var s := Run(loaded, between);
    PendingCarries(s, s0.sub.id, s0.publishedEpoch);
    AppliedEpoch(s.core, first);
  }

  lemma NoBumps(s: State)
    ensures Bumps(s, LoadEpoch) == 0
  {
  }

  lemma PendingCarries(s: State, id: nat, e: nat)
    requires Carries(s, id, e) && s.rt.RJudged? && s.rt.pending.Some? && s.rt.pending.value.id == id
    ensures s.rt.pending.value.epoch == e
  {
    assert s.rt.pending.value in Held(s.rt);
  }

  lemma AppliedEpoch(c: Core, e: Effect)
    ensures Apply(c, e).0.epoch == c.epoch + e.bumps
  {
  }
}

/**
 Who owns each trajectory buffer, over every schedule of the real-time core
 (src/cpp/rt_core/realtime_core.cpp, src/cpp/rt_core/realtime_core.hpp).
 */
module BufferOwnership {
  import opened Motion
  import opened Options
  import opened TickCore
  import opened RealtimeCore

  function InOpt(o: Option<Owner>, x: Owner): nat { if o == Some(x) then 1 else 0 }

  function InTargets(ts: seq<Target>, x: Owner): nat {
    if ts == [] then 0 else InOpt(ts[0].owner, x) + InTargets(ts[1..], x)
  }

  function InHand(b: Submitter, x: Owner): nat {
    match b
    case SReady(_, owner) => InOpt(owner, x)
    case SNumbered(_, owner, _) => InOpt(owner, x)
    case SEpoch(_, owner, _, _) => InOpt(owner, x)
    case SStamped(t) => InOpt(t.owner, x)
    case _ => 0
  }

  function InDrain(r: RtThread, x: Owner): nat {
    match r
    case RIdle => 0
    case RDrain(last) => if last.Some? then InOpt(last.value.owner, x) else 0
    case RTwo(prev, t) => InOpt(prev.owner, x) + InOpt(t.owner, x)
    case RDrained(p) => if p.Some? then InOpt(p.value.owner, x) else 0
    case RJudged(p, _, _) => if p.Some? then InOpt(p.value.owner, x) else 0
    case RTicked(t, _) => InOpt(t.owner, x)
  }

  /** How often buffer `x` occurs, over every place a buffer can be. */
  function Places(s: State, x: Owner): nat {
    InHand(s.sub, x) + InTargets(s.mailbox, x) + InDrain(s.rt, x) + InOpt(s.active, x) + Count(s.retire, x)
  }

  /** A buffer that was made is in one place, dropped by a full ring, or freed once; `live_buffers_` knows which. */
  predicate Conserved(s: State, x: Owner) {
    && Places(s, x) + Count(s.leaked, x) + Count(s.freed, x) == (if x < s.nextOwner then 1 else 0)
    && (x in s.live <==> Places(s, x) + Count(s.leaked, x) == 1)
  }

  lemma {:induction false} InTargetsAppend(ts: seq<Target>, t: Target, x: Owner)
    ensures InTargets(ts + [t], x) == InTargets(ts, x) + InOpt(t.owner, x)
  {
    if ts == [] {
      assert (ts + [t])[1..] == [];
    } else {
      InTargetsAppend(ts[1..], t, x);
      assert (ts + [t])[1..] == ts[1..] + [t];
    }
  }

  lemma RetiredCounts(s: State, o: Option<Owner>, x: Owner)
    ensures var s' := Retired(s, o);
            && Count(s'.retire, x) + Count(s'.leaked, x) == Count(s.retire, x) + Count(s.leaked, x) + InOpt(o, x)
            && s' == s.(retire := s'.retire, leaked := s'.leaked)
  {
    if o.Some? {
      CountAppend(s.retire, o.value, x);
      CountAppend(s.leaked, o.value, x);
    }
  }

  lemma ReapConserves(s: State, x: Owner)
    requires Conserved(s, x) && s.sub.SReaping?
    ensures Conserved(ReapStep(s), x)
  {
    var s' := ReapStep(s);
    hide InTargets, InDrain;
    if s.retire != [] {
      var o := s.retire[0];
      CountAppend(s.freed, o, x);
      assert Count(s.retire, x) == Count(s'.retire, x) + (if o == x then 1 else 0);
      hide Count;
    } else if s.sub.next.Some? && s.sub.next.value.Trajectory? {
      assert InHand(s'.sub, x) == if x == s.nextOwner then 1 else 0;
    }
  }

  lemma PushConserves(s: State, x: Owner)
    requires Conserved(s, x) && s.sub.SStamped?
    ensures Conserved(PushStep(s), x)
  {
    hide Count, InTargets;
    var s', t := PushStep(s), s.sub.t;
    if |s.mailbox| < MAILBOX_CAP {
      InTargetsAppend(s.mailbox, t, x);
      assert InTargets(s'.mailbox, x) == InTargets(s.mailbox, x) + InOpt(t.owner, x);
    } else if t.owner.Some? {
      CountAppend(s.freed, t.owner.value, x);
    }
  }

  lemma CallerConserves(s: State, a: Action, x: Owner)
    requires Conserved(s, x)
    ensures Conserved(CallerStep(s, a), x)
  {
    hide ReapStep, PushStep;
    match a {
      case Reap => if s.sub.SReaping? { ReapConserves(s, x); }
      case PushMailbox => if s.sub.SStamped? { PushConserves(s, x); }
      case _ =>
    }
  }

  lemma RetireConserves(s: State, x: Owner)
    requires Conserved(s, x) && Kinds(s) && s.rt.RTicked?
    ensures Conserved(RetireStep(s), x)
  {
    RetiredCounts(s, s.active, x);
    RetiredCounts(s, s.rt.t.owner, x);
  }

  lemma PopConserves(s: State, x: Owner)
    requires Conserved(s, x) && s.rt.RDrain?
    ensures Conserved(PopStep(s), x)
  {
  }

  lemma CoalesceConserves(s: State, x: Owner)
    requires Conserved(s, x) && s.rt.RTwo?
    ensures Conserved(CoalesceStep(s), x)
  {
    RetiredCounts(s, s.rt.prev.owner, x);
  }

  lemma JudgeConserves(s: State, x: Owner)
    requires Conserved(s, x) && s.rt.RDrained?
    ensures Conserved(JudgeStep(s), x)
  {
  }

  lemma TickConserves(s: State, before: Effect, fits: bool, after: Effect, x: Owner)
    requires Conserved(s, x) && s.rt.RJudged?
    ensures Conserved(TickStep(s, before, fits, after), x)
  {
    hide Apply, Consume;
  }

  lemma RtConserves(s: State, a: Action, x: Owner)
    requires Conserved(s, x) && Kinds(s)
    ensures Conserved(RtStep(s, a), x)
  {
    hide PopStep, CoalesceStep, JudgeStep, TickStep, RetireStep, Kinds;
    match a {
      case PopMailbox => if s.rt.RDrain? { PopConserves(s, x); }
      case Coalesce => if s.rt.RTwo? { CoalesceConserves(s, x); }
      case JudgeStop => if s.rt.RDrained? { JudgeConserves(s, x); }
      case TickNow(before, fits, after) => if s.rt.RJudged? { TickConserves(s, before, fits, after, x); }
      case RetireBuffers => if s.rt.RTicked? { RetireConserves(s, x); }
      case _ =>
    }
  }

  lemma {:induction false} RunConserves(schedule: seq<Action>, x: Owner)
    ensures Conserved(Run(Init(), schedule), x)
  {
    if schedule != [] {
      var before, a := schedule[..|schedule| - 1], schedule[|schedule| - 1];
      RunConserves(before, x);
      RunKeepsKinds(before);
      CallerConserves(Run(Init(), before), a, x);
      RtConserves(Run(Init(), before), a, x);
    }
  }

  // ---- the retire ring never overflows -----------------------------------------

  /** Whether the submitter holds a target, or is about to. */
  function HandSize(b: Submitter): nat { if b.SFree? || b.SReaping? then 0 else 1 }

  /** How many targets the real-time thread has popped and not yet retired. */
  function DrainSize(r: RtThread): nat { if r.RTicked? then 1 else |Held(r)| }

  function ActiveSize(o: Option<Owner>): nat { if o.Some? then 1 else 0 }

  /** The submitter, the mailbox, the drain and the active slot at their fullest. */
  const MOST := 1 + MAILBOX_CAP + 2 + 1

  /** A buffer is made only when the ring has been seen empty, so the ring holds no more than the rest can. */
  predicate Bounded(s: State) {
    && |s.mailbox| <= MAILBOX_CAP
    && |s.retire| + HandSize(s.sub) + |s.mailbox| + DrainSize(s.rt) + ActiveSize(s.active) <= MOST
    && s.leaked == []
  }

  lemma CallerKeepsBounded(s: State, a: Action)
    requires Bounded(s)
    ensures Bounded(CallerStep(s, a))
  {
  }

  lemma RtKeepsBounded(s: State, a: Action)
    requires Bounded(s)
    ensures Bounded(RtStep(s, a))
  {
    hide Apply, Consume;
  }

  /**
   For every schedule: the retire ring holds at most 19 of its 63 buffers, so no push onto it is
   ever refused and no buffer leaks.
   */
  lemma {:induction false} RetireRingNeverOverflows(schedule: seq<Action>)
    ensures var s := Run(Init(), schedule);
            Bounded(s) && |s.retire| <= MOST < RETIRE_CAP && s.leaked == []
  {
    if schedule != [] {
      hide CallerStep, RtStep, Bounded;
      var before, a := schedule[..|schedule| - 1], schedule[|schedule| - 1];
      RetireRingNeverOverflows(before);
      CallerKeepsBounded(Run(Init(), before), a);
      RtKeepsBounded(Run(Init(), before), a);
      BoundedRing(Run(Init(), schedule));
    }
  }

  lemma BoundedRing(s: State)
    requires Bounded(s)
    ensures |s.retire| <= MOST < RETIRE_CAP && s.leaked == []
  {
  }

  /**
   For every schedule: each live buffer is in exactly one of the submitter's hand, the
   mailbox, the drain, the active slot and the retire ring; a freed buffer is in none of
   them and is freed once; and every buffer made is live or freed.
   */
  lemma {:induction false} OneOwner(schedule: seq<Action>, x: Owner)
    ensures var s := Run(Init(), schedule);
            && (x in s.live <==> Places(s, x) == 1)
            && (x in s.live ==> x !in s.freed)
            && (x in s.freed ==> Places(s, x) == 0 && x !in s.live)
            && (x < s.nextOwner <==> x in s.live || x in s.freed)
            && (forall i, j :: 0 <= i < j < |s.freed| ==> s.freed[i] != s.freed[j])
  {
    var s := Run(Init(), schedule);
    RunConserves(schedule, x);
    RetireRingNeverOverflows(schedule);
    CountZeroIffAbsent(s.freed, x);
    forall i, j | 0 <= i < j < |s.freed| ensures s.freed[i] != s.freed[j] {
      RunConserves(schedule, s.freed[i]);
      if s.freed[i] == s.freed[j] { CountedOnce(s.freed, s.freed[i], i, j); }
    }
  }

  // ---- what the tick reads -----------------------------------------------------

  /** The buffer the tick points into is the active one, or the one it has just accepted. */
  predicate PlaysOwned(s: State) {
    && PlaysWhatItHolds(s.core)
    && (s.core.playing.Some? ==>
          if s.rt.RTicked? && s.rt.accepted then s.rt.t.kind.Trajectory? && s.core.playing == s.rt.t.owner
          else s.core.playing == s.active)
  }

  lemma TickPlaysOwned(s: State, before: Effect, fits: bool, after: Effect)
    requires PlaysOwned(s) && Kinds(s) && s.rt.RJudged?
    ensures PlaysOwned(TickStep(s, before, fits, after))
  {
    var c1 := Apply(s.core, before).0;
    if s.rt.pending.Some? {
      var t := s.rt.pending.value;
      assert t in Held(s.rt);
      PlaybackIsHonest(c1, t, s.rt.superseded, fits, after);
      PlaybackIsHonest(Consume(c1, t, s.rt.superseded, fits).core, t, s.rt.superseded, fits, after);
    }
  }

  lemma {:induction false} RunPlaysOwned(schedule: seq<Action>)
    ensures PlaysOwned(Run(Init(), schedule))
  {
    if schedule != [] {
      var before, a := schedule[..|schedule| - 1], schedule[|schedule| - 1];
      RunPlaysOwned(before);
      RunKeepsKinds(before);
      var s := Run(Init(), before);
      if a.TickNow? && s.rt.RJudged? { TickPlaysOwned(s, a.before, a.fits, a.after); }
    }
  }

  /** What a tick may read is neither freed nor retired: the playing buffer, and those in the drain or queued. */
  lemma {:induction false} NoReadAfterFree(schedule: seq<Action>, x: Owner)
    requires var s := Run(Init(), schedule);
             s.core.playing == Some(x) || InDrain(s.rt, x) > 0 || InTargets(s.mailbox, x) > 0
    ensures var s := Run(Init(), schedule);
            x in s.live && x !in s.freed && x !in s.retire
  {
    var s := Run(Init(), schedule);
    RunConserves(schedule, x);
    RunPlaysOwned(schedule);
    CountZeroIffAbsent(s.freed, x);
    CountZeroIffAbsent(s.retire, x);
  }
}

/**
 The submission path and the mailbox drain of the real-time core
 (src/cpp/rt_core/realtime_core.cpp), for one start-to-stop session, as a state machine.

 `Step` runs one atomic action of a caller or of the real-time thread; a schedule is
 any list of actions and an action that is not due does nothing. The two rings are
 queues here: `SpscRing` proves that their interleaved loads and stores make them so.
 Submitters and reapers hold one mutex. Buffers are numbered and a number is never
 reused; 64-bit counters do not wrap.
 */
module RealtimeCore {
  import opened Motion
  import opened Options
  import opened TickCore

  const MAILBOX_CAP := 15  // SpscRing<Target, 16> holds one less than its size
  const RETIRE_CAP := 63   // SpscRing<const void*, 64>

  /** The holder of the submit mutex. `None` as the next kind is a plain reap (kick). */
  datatype Submitter =
    | SFree
    | SReaping(next: Option<Kind>)
    | SReady(kind: Kind, owner: Option<Owner>)
    | SNumbered(kind: Kind, owner: Option<Owner>, id: nat)
    | SEpoch(kind: Kind, owner: Option<Owner>, id: nat, epoch: nat)
    | SStamped(t: Target)

  datatype RtThread =
    | RIdle
    | RDrain(last: Option<Target>)                       // in the drain loop
    | RTwo(prev: Target, t: Target)                       // popped t while holding prev
    | RDrained(pending: Option<Target>)                  // mailbox seen empty
    | RJudged(pending: Option<Target>, superseded: bool, loadAt: nat)
    | RTicked(t: Target, accepted: bool)                 // buffers not yet retired

  datatype LogEvent =
    | StopIncrement
    | Stamp(id: nat)
    | Judged(id: nat, stampAt: nat, superseded: bool)
    | Handed(t: Target, loadAt: nat, accepted: bool)

  datatype Fate = Coalesced(id: nat) | Ticked(id: nat)

  datatype State = State(
    // shared with the callers
    nextId: nat, stopGen: nat, publishedEpoch: nat, mailbox: seq<Target>, retire: seq<Owner>, live: set<Owner>,
    sub: Submitter,
    // of the real-time thread
    rt: RtThread, active: Option<Owner>, core: Core,
    // histories
    nextOwner: nat, freed: seq<Owner>, leaked: seq<Owner>,
    enqueued: seq<nat>, refused: set<nat>, fates: seq<Fate>, records: seq<Record>,
    log: seq<LogEvent>)

  datatype Action =
    | Lock(next: Option<Kind>) | Reap | FetchId | LoadEpoch | LoadStopGen | PushMailbox
    | StopJ
    | BeginDrain | PopMailbox | Coalesce | JudgeStop
    | TickNow(before: Effect, fits: bool, after: Effect) | RetireBuffers

  function Init(): State {
    State(1, 0, 0, [], [], {}, SFree,
          RIdle, None, Core(StreamDown, false, 0, 0, Pending, None),
          0, [], [], [], {}, [], [], [])
  }

  // ---- callers -----------------------------------------------------------------

  /** One pop of the retire ring and the erase, or the step after the ring is seen empty. */
  function ReapStep(s: State): State
    requires s.sub.SReaping?
  {
    if s.retire != [] then
      var o := s.retire[0];
      if o in s.live then s.(retire := s.retire[1..], live := s.live - {o}, freed := s.freed + [o])
      else s.(retire := s.retire[1..])
    else if s.sub.next.None? then s.(sub := SFree)
    else if s.sub.next.value.Trajectory? then
      s.(live := s.live + {s.nextOwner}, nextOwner := s.nextOwner + 1, sub := SReady(Trajectory, Some(s.nextOwner)))
    else s.(sub := SReady(s.sub.next.value, None))
  }

  /** The push, or the direct reclaim of the submitter's own buffer when the mailbox is full. */
  function PushStep(s: State): State
    requires s.sub.SStamped?
  {
    var t := s.sub.t;
    if |s.mailbox| < MAILBOX_CAP then
      s.(mailbox := s.mailbox + [t], enqueued := s.enqueued + [t.id], sub := SFree)
    else if t.owner.Some? && t.owner.value in s.live then
      s.(live := s.live - {t.owner.value}, freed := s.freed + [t.owner.value], refused := s.refused + {t.id}, sub := SFree)
    else s.(refused := s.refused + {t.id}, sub := SFree)
  }

  function CallerStep(s: State, a: Action): State {
    match a
    case Lock(next) => if s.sub.SFree? then s.(sub := SReaping(next)) else s
    case Reap => if s.sub.SReaping? then ReapStep(s) else s
    case FetchId =>
      if s.sub.SReady? then s.(sub := SNumbered(s.sub.kind, s.sub.owner, s.nextId), nextId := s.nextId + 1) else s
    case LoadEpoch =>
      if s.sub.SNumbered? then s.(sub := SEpoch(s.sub.kind, s.sub.owner, s.sub.id, s.publishedEpoch)) else s
    case LoadStopGen =>
      if s.sub.SEpoch? then
        var b := s.sub;
        s.(sub := SStamped(Target(b.id, b.kind, b.epoch, s.stopGen, b.owner, |s.log|)), log := s.log + [Stamp(b.id)])
      else s
    case PushMailbox => if s.sub.SStamped? then PushStep(s) else s
    case StopJ => s.(stopGen := s.stopGen + 1, log := s.log + [StopIncrement])
    case _ => s
  }

  // ---- the real-time thread ----------------------------------------------------

  /** A full retire ring would drop the buffer, and nobody would free it; `BufferOwnership` proves that it never fills. */
  function Retired(s: State, o: Option<Owner>): State {
    if o.None? then s
    else if |s.retire| < RETIRE_CAP then s.(retire := s.retire + [o.value])
    else s.(leaked := s.leaked + [o.value])
  }

  function PopStep(s: State): State
    requires s.rt.RDrain?
  {
    if s.mailbox == [] then s.(rt := RDrained(s.rt.last))
    else if s.rt.last.None? then s.(rt := RDrain(Some(s.mailbox[0])), mailbox := s.mailbox[1..])
    else s.(rt := RTwo(s.rt.last.value, s.mailbox[0]), mailbox := s.mailbox[1..])
  }

  function CoalesceStep(s: State): State
    requires s.rt.RTwo?
  {
    var prev := s.rt.prev;
    Retired(s, prev.owner).(rt := RDrain(Some(s.rt.t)), fates := s.fates + [Coalesced(prev.id)],
                           records := s.records + [Record(prev.id, Preempted)])
  }

  function JudgeStep(s: State): State
    requires s.rt.RDrained?
  {
    var p := s.rt.pending;
    if p.None? then s.(rt := RJudged(None, false, |s.log|))
    else
      var superseded := p.value.stopGen != s.stopGen;
      s.(rt := RJudged(p, superseded, |s.log|), log := s.log + [Judged(p.value.id, p.value.stampAt, superseded)])
  }

  /** The one tick of a window: effects before, the consume, effects after. */
  function TickStep(s: State, before: Effect, fits: bool, after: Effect): State
    requires s.rt.RJudged?
  {
    var (c1, records1) := Apply(s.core, before);
    if s.rt.pending.None? then
      var (c2, records2) := Apply(c1, after);
      s.(core := c2, rt := RIdle, publishedEpoch := c2.epoch, records := s.records + records1 + records2)
    else
      var t := s.rt.pending.value;
      var r := Consume(c1, t, s.rt.superseded, fits);
      var (c3, records3) := Apply(r.core, after);
      s.(core := c3, rt := RTicked(t, r.accepted), publishedEpoch := c3.epoch,
         fates := s.fates + [Ticked(t.id)],
         records := s.records + records1 + r.records + records3,
         log := s.log + [Handed(t, s.rt.loadAt, r.accepted)])
  }

  function RetireStep(s: State): State
    requires s.rt.RTicked?
  {
    var t, accepted := s.rt.t, s.rt.accepted;
    if t.kind.Trajectory? then
      if accepted then Retired(s, s.active).(active := t.owner, rt := RIdle)
      else Retired(s, t.owner).(rt := RIdle)
    else if accepted then Retired(s, s.active).(active := None, rt := RIdle)
    else s.(rt := RIdle)
  }

  function RtStep(s: State, a: Action): State {
    match a
    case BeginDrain => if s.rt.RIdle? then s.(rt := RDrain(None)) else s
    case PopMailbox => if s.rt.RDrain? then PopStep(s) else s
    case Coalesce => if s.rt.RTwo? then CoalesceStep(s) else s
    case JudgeStop => if s.rt.RDrained? then JudgeStep(s) else s
    case TickNow(before, fits, after) => if s.rt.RJudged? then TickStep(s, before, fits, after) else s
    case RetireBuffers => if s.rt.RTicked? then RetireStep(s) else s
    case _ => s
  }

  predicate OfRt(a: Action) {
    a.BeginDrain? || a.PopMailbox? || a.Coalesce? || a.JudgeStop? || a.TickNow? || a.RetireBuffers?
  }

  function Step(s: State, a: Action): State {
    if OfRt(a) then RtStep(s, a) else CallerStep(s, a)
  }

  function Run(s: State, schedule: seq<Action>): State {
    if schedule == [] then s else Step(Run(s, schedule[..|schedule| - 1]), schedule[|schedule| - 1])
  }

  lemma RunNone(s: State)
    ensures Run(s, []) == s
  {
  }

  lemma RunStep(s: State, schedule: seq<Action>, a: Action)
    ensures Run(s, schedule + [a]) == Step(Run(s, schedule), a)
  {
    assert (schedule + [a])[..|schedule|] == schedule;
  }

  // ---- what the lemmas about a run share ---------------------------------------

  predicate WellKinded(t: Target) { t.owner.Some? <==> t.kind.Trajectory? }

  predicate SubmitterKinds(b: Submitter) {
    match b
    case SReady(kind, owner) => owner.Some? <==> kind.Trajectory?
    case SNumbered(kind, owner, _) => owner.Some? <==> kind.Trajectory?
    case SEpoch(kind, owner, _, _) => owner.Some? <==> kind.Trajectory?
    case SStamped(t) => WellKinded(t)
    case _ => true
  }

  /** The targets the real-time thread holds and has not handed to a tick, oldest first. */
  function Held(r: RtThread): seq<Target> {
    match r
    case RIdle => []
    case RDrain(last) => if last.Some? then [last.value] else []
    case RTwo(prev, t) => [prev, t]
    case RDrained(p) => if p.Some? then [p.value] else []
    case RJudged(p, _, _) => if p.Some? then [p.value] else []
    case RTicked(_, _) => []
  }

  /** A target carries a buffer exactly when it is a trajectory. */
  predicate Kinds(s: State) {
    && SubmitterKinds(s.sub)
    && (forall t :: t in s.mailbox ==> WellKinded(t))
    && (forall t :: t in Held(s.rt) ==> WellKinded(t))
    && (s.rt.RTicked? ==> WellKinded(s.rt.t))
  }

  lemma CallerKeepsKinds(s: State, a: Action)
    requires Kinds(s)
    ensures Kinds(CallerStep(s, a))
  {
  }

  lemma RtKeepsKinds(s: State, a: Action)
    requires Kinds(s)
    ensures Kinds(RtStep(s, a))
  {
    hide Apply, Consume;
    if a.PopMailbox? && s.rt.RDrain? && s.mailbox != [] { assert s.mailbox[0] in s.mailbox; }
    if s.rt.RTwo? { assert s.rt.prev in Held(s.rt) && s.rt.t in Held(s.rt); }
    if s.rt.RJudged? && s.rt.pending.Some? { assert s.rt.pending.value in Held(s.rt); }
  }

  lemma StepKeepsKinds(s: State, a: Action)
    requires Kinds(s)
    ensures Kinds(Step(s, a))
  {
    hide Kinds, CallerStep, RtStep;
    CallerKeepsKinds(s, a);
    RtKeepsKinds(s, a);
  }

  lemma {:induction false} RunKeepsKinds(schedule: seq<Action>)
    ensures Kinds(Run(Init(), schedule))
  {
    if schedule != [] {
      RunKeepsKinds(schedule[..|schedule| - 1]);
      StepKeepsKinds(Run(Init(), schedule[..|schedule| - 1]), schedule[|schedule| - 1]);
    }
  }

  function Count<T(==)>(xs: seq<T>, x: T): nat {
    if xs == [] then 0 else (if xs[0] == x then 1 else 0) + Count(xs[1..], x)
  }

  lemma {:induction false} CountAppend<T>(xs: seq<T>, y: T, x: T)
    ensures Count(xs + [y], x) == Count(xs, x) + (if y == x then 1 else 0)
  {
    if xs == [] {
      assert (xs + [y])[1..] == [];
    } else {
      CountAppend(xs[1..], y, x);
      assert (xs + [y])[1..] == xs[1..] + [y];
    }
  }

  lemma {:induction false} CountZeroIffAbsent<T>(xs: seq<T>, x: T)
    ensures Count(xs, x) == 0 <==> x !in xs
  {
    if xs != [] { CountZeroIffAbsent(xs[1..], x); }
  }

  lemma {:induction false} CountedOnce<T>(xs: seq<T>, x: T, i: nat, j: nat)
    requires i < j < |xs| && xs[i] == xs[j] == x
    ensures Count(xs, x) >= 2
  {
    if i == 0 {
      CountZeroIffAbsent(xs[1..], x);
      assert xs[1..][j - 1] == x;
    } else {
      CountedOnce(xs[1..], x, i - 1, j - 1);
    }
  }
}

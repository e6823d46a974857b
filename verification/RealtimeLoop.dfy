/**
 The submission calls and one timer tick of the real-time core in their own form
 (src/cpp/rt_core/realtime_core.cpp): each method runs its loop alone, and is proved to be
 one schedule of the state machine in `RealtimeCore`, so that what is proved there for
 every interleaving holds of these bodies.
 */
module RealtimeLoop {
  import opened Motion
  import opened Options
  import opened TickCore
  import opened RealtimeCore

  function Times(a: Action, n: nat): seq<Action> { seq(n, _ => a) }

  function DrainSchedule(n: nat): seq<Action> {
    if n == 0 then [BeginDrain] else DrainSchedule(n - 1) + [PopMailbox, Coalesce]
  }

  function ReapSchedule(next: Option<Kind>, n: nat): seq<Action> { [Lock(next)] + Times(Reap, n + 1) }

  function SubmitSchedule(kind: Kind, n: nat): seq<Action> {
    ReapSchedule(Some(kind), n) + [FetchId, LoadEpoch, LoadStopGen, PushMailbox]
  }

  function TickSchedule(n: nat, before: Effect, fits: bool, after: Effect): seq<Action> {
    DrainSchedule(n) + [PopMailbox, JudgeStop, TickNow(before, fits, after), RetireBuffers]
  }

  /** A drain of these targets coalesces all but the last, and ticks the last. */
  function Outcomes(ts: seq<Target>): seq<Fate> {
    if ts == [] then [] else Superseded(ts[..|ts| - 1]) + [Ticked(ts[|ts| - 1].id)]
  }

  function Superseded(ts: seq<Target>): seq<Fate> { seq(|ts|, i requires 0 <= i < |ts| => Coalesced(ts[i].id)) }

  /** The flags by which callers ask the real-time thread for something. */
  datatype Requests = Requests(stop: bool, hold: bool, recover: bool, kick: bool, heartbeat: bool)

  const NO_REQUESTS := Requests(false, false, false, false, false)

  class Loop {
    var nextMotionId: nat
    var stopGen: nat
    var publishedEpoch: nat
    var mailbox: seq<Target>
    var retireRing: seq<Owner>
    var liveBuffers: set<Owner>
    var nextBuffer: nat
    var activeOwner: Option<Owner>
    var tickCore: Core
    var requests: Requests
    var events: nat  // length of the run's history: it labels targets and decides nothing
    ghost var state: State

    ghost predicate Agrees()
      reads this
    {
      && state.nextId == nextMotionId && state.stopGen == stopGen && state.publishedEpoch == publishedEpoch
      && state.mailbox == mailbox && state.retire == retireRing && state.live == liveBuffers
      && state.nextOwner == nextBuffer && state.active == activeOwner && state.core == tickCore
      && |state.log| == events && nextMotionId > 0
    }

    /** Between calls: no submitter holds the mutex and no tick is under way. */
    ghost predicate Valid()
      reads this
    {
      Agrees() && state.sub.SFree? && state.rt.RIdle?
    }

    constructor ()
      ensures Valid() && state == Init()
    {
      nextMotionId, stopGen, publishedEpoch := 1, 0, 0;
      mailbox, retireRing, liveBuffers, nextBuffer := [], [], {}, 0;
      activeOwner, tickCore := None, Core(StreamDown, false, 0, 0, Pending, None);
      events, requests := 0, NO_REQUESTS;
      state := Init();
    }

    ghost method Advance(start: State, trace: seq<Action>, a: Action) returns (more: seq<Action>)
      requires state == Run(start, trace)
      modifies this`state
      ensures state == Step(old(state), a) && more == trace + [a] && state == Run(start, more)
    {
      more := trace + [a];
      RunStep(start, trace, a);
      state := Step(state, a);
    }

    /** reap_retired_locked_: empty the retire ring, erasing each buffer from the live ones. */
    method ReapRetiredLocked(next: Option<Kind>, ghost start: State, ghost trace: seq<Action>)
      returns (ghost more: seq<Action>)
      requires Agrees() && state.sub == SReaping(next) && state == Run(start, trace)
      modifies this`retireRing, this`liveBuffers, this`state
      ensures Agrees() && state.sub == SReaping(next) && state.rt == old(state.rt)
      ensures state == Run(start, more) && more == trace + Times(Reap, |old(retireRing)|)
      ensures retireRing == [] && liveBuffers == old(liveBuffers) - (set o | o in old(retireRing))
    {
      hide Run, PushStep, PopStep, CoalesceStep, JudgeStep, TickStep, RetireStep;
      more := trace;
      ghost var k := 0;
      while retireRing != []
        invariant 0 <= k <= |old(retireRing)| && retireRing == old(retireRing)[k..]
        invariant Agrees() && state.sub == SReaping(next) && state.rt == old(state.rt)
        invariant state == Run(start, more) && more == trace + Times(Reap, k)
        invariant liveBuffers == old(liveBuffers) - (set o | o in old(retireRing)[..k])
        decreases |retireRing|
      {
        var o := retireRing[0];
        assert old(retireRing)[..k + 1] == old(retireRing)[..k] + [o];
        retireRing := retireRing[1..];
        liveBuffers := liveBuffers - {o};
        more := Advance(start, more, Reap);
        k := k + 1;
        assert trace + Times(Reap, k) == (trace + Times(Reap, k - 1)) + [Reap];
      }
      assert old(retireRing)[..k] == old(retireRing);
    }

    /** kick: reclaim retired buffers off the real-time thread. */
    method Kick()
      requires Valid()
      modifies this
      ensures requests == old(requests).(kick := true)
      ensures Valid() && state == Run(old(state), ReapSchedule(None, |old(retireRing)|))
      ensures retireRing == [] && liveBuffers == old(liveBuffers) - (set o | o in old(retireRing))
    {
      RunNone(state);
      hide Run, PushStep, PopStep, CoalesceStep, JudgeStep, TickStep, RetireStep;
      requests := requests.(kick := true);
      ghost var start, n := state, |retireRing|;
      ghost var trace := Advance(start, [], Lock(None));
      trace := ReapRetiredLocked(None, start, trace);
      trace := Advance(start, trace, Reap);
      assert trace == ReapSchedule(None, n);
    }

    /** The buffer of a trajectory, and the end of the reap. */
    method Allocate(kind: Kind, ghost start: State, ghost before: seq<Action>)
      returns (owner: Option<Owner>, ghost trace: seq<Action>)
      requires Agrees() && state.rt.RIdle? && state.sub == SReaping(Some(kind)) && retireRing == [] && state == Run(start, before)
      modifies this`liveBuffers, this`nextBuffer, this`state
      ensures Agrees() && state.rt.RIdle? && state.sub == SReady(kind, owner)
      ensures state == Run(start, trace) && trace == before + [Reap]
      ensures (owner.Some? <==> kind.Trajectory?) && (owner.Some? ==> owner.value in liveBuffers)
    {
      hide Run, PushStep, PopStep, CoalesceStep, JudgeStep, TickStep, RetireStep;
      owner := None;
      if kind.Trajectory? {
        owner := Some(nextBuffer);
        liveBuffers := liveBuffers + {nextBuffer};
        nextBuffer := nextBuffer + 1;
      }
      trace := Advance(start, before, Reap);
    }

    /** Reap under the mutex, and make the buffer of a trajectory. */
    method Prepare(kind: Kind) returns (owner: Option<Owner>, ghost trace: seq<Action>)
      requires Valid()
      modifies this`retireRing, this`liveBuffers, this`nextBuffer, this`state
      ensures Agrees() && state.rt.RIdle? && state.sub == SReady(kind, owner)
      ensures state == Run(old(state), trace) && trace == ReapSchedule(Some(kind), |old(retireRing)|)
      ensures (owner.Some? <==> kind.Trajectory?) && (owner.Some? ==> owner.value in liveBuffers)
    {
      RunNone(state);
      hide Run, ReapStep, PushStep, PopStep, CoalesceStep, JudgeStep, TickStep, RetireStep;
      ghost var start, n := state, |retireRing|;
      trace := Advance(start, [], Lock(Some(kind)));
      trace := ReapRetiredLocked(Some(kind), start, trace);
      owner, trace := Allocate(kind, start, trace);
      assert trace == ReapSchedule(Some(kind), n);
    }

    method DrawId(kind: Kind, owner: Option<Owner>, ghost start: State, ghost before: seq<Action>)
      returns (id: nat, ghost trace: seq<Action>)
      requires Agrees() && state.rt.RIdle? && state.sub == SReady(kind, owner) && state == Run(start, before)
      modifies this`nextMotionId, this`state
      ensures Agrees() && state.rt.RIdle? && state.sub == SNumbered(kind, owner, id) && id == old(nextMotionId)
      ensures state == Run(start, trace) && trace == before + [FetchId]
    {
      hide Run, ReapStep, PushStep, PopStep, CoalesceStep, JudgeStep, TickStep, RetireStep;
      id := nextMotionId;
      nextMotionId := nextMotionId + 1;
      trace := Advance(start, before, FetchId);
    }

    /** enqueue_, up to the stamp: the id, the epoch and the stop generation, in that order. */
    method Stamp(kind: Kind, owner: Option<Owner>, ghost start: State, ghost before: seq<Action>)
      returns (t: Target, ghost trace: seq<Action>)
      requires Agrees() && state.rt.RIdle? && state.sub == SReady(kind, owner) && state == Run(start, before)
      modifies this`nextMotionId, this`events, this`state
      ensures Agrees() && state.rt.RIdle? && state.sub == SStamped(t)
      ensures state == Run(start, trace) && trace == before + [FetchId, LoadEpoch, LoadStopGen]
      ensures t == Target(old(nextMotionId), kind, publishedEpoch, stopGen, owner, old(events))
    {
      hide Run, ReapStep, PushStep, PopStep, CoalesceStep, JudgeStep, TickStep, RetireStep;
      var id;
      id, trace := DrawId(kind, owner, start, before);
      t := Target(id, kind, publishedEpoch, stopGen, owner, events);
      trace := Advance(start, trace, LoadEpoch);
      events := events + 1;
      trace := Advance(start, trace, LoadStopGen);
    }

    /** submit_*: reap, number and stamp the target, and queue it; 0 when the mailbox is full. */
    method Submit(kind: Kind) returns (id: nat)
      requires Valid()
      modifies this
      ensures Valid() && state == Run(old(state), SubmitSchedule(kind, |old(retireRing)|))
      ensures id == 0 || id == old(nextMotionId)
      ensures id == 0 <==> |old(mailbox)| >= MAILBOX_CAP
      ensures id == 0 ==> mailbox == old(mailbox)
      ensures requests == old(requests)
      ensures |old(mailbox)| < MAILBOX_CAP ==>
                && |mailbox| == |old(mailbox)| + 1 && mailbox[..|old(mailbox)|] == old(mailbox)
                && var t := mailbox[|old(mailbox)|];
                   && t.id == old(nextMotionId) && t.kind == kind && t.stopGen == stopGen && t.epoch == publishedEpoch
                   && (t.owner.Some? ==> t.owner.value in liveBuffers)
    {
      hide Run, ReapStep, PopStep, CoalesceStep, JudgeStep, TickStep, RetireStep;
      ghost var start, n := state, |retireRing|;
      var owner, trace := Prepare(kind);
      var t;
      t, trace := Stamp(kind, owner, start, trace);
      id := t.id;
      if |mailbox| < MAILBOX_CAP {
        mailbox := mailbox + [t];
      } else {
        if owner.Some? { liveBuffers := liveBuffers - {owner.value}; }
        id := 0;
      }
      trace := Advance(start, trace, PushMailbox);
      assert trace == SubmitSchedule(kind, n);
    }

    method StopMotion()
      requires Valid()
      modifies this
      ensures Valid() && state == Step(old(state), StopJ) && stopGen == old(stopGen) + 1
      ensures requests == old(requests).(stop := true)
    {
      stopGen := stopGen + 1;
      events := events + 1;
      state := Step(state, StopJ);
      requests := requests.(stop := true);
    }

    method Retire(o: Option<Owner>)
      modifies this`retireRing
      ensures o.Some? && |old(retireRing)| < RETIRE_CAP ==> retireRing == old(retireRing) + [o.value]
      ensures o.None? || |old(retireRing)| >= RETIRE_CAP ==> retireRing == old(retireRing)
    {
      if o.Some? && |retireRing| < RETIRE_CAP { retireRing := retireRing + [o.value]; }
    }

    /** One turn of the drain loop: the popped target takes the place of the one held. */
    method TakeNext(last: Option<Target>, ghost start: State, ghost before: seq<Action>)
      returns (next: Option<Target>, ghost trace: seq<Action>)
      requires Agrees() && state.sub.SFree? && state.rt == RDrain(last) && mailbox != [] && state == Run(start, before)
      modifies this`mailbox, this`retireRing, this`state
      ensures Agrees() && state.sub.SFree? && state.rt == RDrain(next)
      ensures next == Some(old(mailbox)[0]) && mailbox == old(mailbox)[1..]
      ensures state == Run(start, trace) && trace == before + [PopMailbox, Coalesce]
      ensures state.fates == old(state.fates) + if last.Some? then [Coalesced(last.value.id)] else []
    {
      hide Run, ReapStep, PushStep, JudgeStep, TickStep, RetireStep;
      next := Some(mailbox[0]);
      mailbox := mailbox[1..];
      trace := Advance(start, before, PopMailbox);
      if last.Some? { Retire(last.value.owner); }
      trace := Advance(start, trace, Coalesce);
    }

    method OpenDrain(ghost start: State) returns (ghost trace: seq<Action>)
      requires Valid() && start == state
      modifies this`state
      ensures Agrees() && state.sub.SFree? && state.rt == RDrain(None)
      ensures state == Run(start, trace) && trace == [BeginDrain]
      ensures state.fates == old(state.fates)
    {
      RunNone(state);
      hide Run, ReapStep, PushStep, PopStep, CoalesceStep, JudgeStep, TickStep, RetireStep;
      trace := Advance(start, [], BeginDrain);
    }

    method CloseDrain(last: Option<Target>, ghost start: State, ghost before: seq<Action>) returns (ghost trace: seq<Action>)
      requires Agrees() && state.sub.SFree? && state.rt == RDrain(last) && mailbox == [] && state == Run(start, before)
      modifies this`state
      ensures Agrees() && state.sub.SFree? && state.rt == RDrained(last)
      ensures state == Run(start, trace) && trace == before + [PopMailbox]
      ensures state.fates == old(state.fates)
    {
      hide Run, ReapStep, PushStep, CoalesceStep, JudgeStep, TickStep, RetireStep;
      trace := Advance(start, before, PopMailbox);
    }

    /** The drain loop: the newest target stays, every other is retired and recorded preempted. */
    method Drain(ghost start: State) returns (last: Option<Target>, ghost trace: seq<Action>)
      requires Valid() && start == state
      modifies this`mailbox, this`retireRing, this`state
      ensures Agrees() && state.rt == RDrained(last) && state.sub.SFree?
      ensures state == Run(start, trace) && trace == DrainSchedule(|old(mailbox)|) + [PopMailbox]
      ensures mailbox == [] && last == if old(mailbox) == [] then None else Some(old(mailbox)[|old(mailbox)| - 1])
      ensures state.fates == old(state.fates) + if old(mailbox) == [] then [] else Superseded(old(mailbox)[..|old(mailbox)| - 1])
    {
      hide Run, Agrees;
      last := None;
      trace := OpenDrain(start);
      ghost var k := 0;
      while mailbox != []
        invariant 0 <= k <= |old(mailbox)| && mailbox == old(mailbox)[k..]
        invariant Agrees() && state.rt == RDrain(last) && state.sub.SFree?
        invariant last == if k == 0 then None else Some(old(mailbox)[k - 1])
        invariant state == Run(start, trace) && trace == DrainSchedule(k)
        invariant state.fates == old(state.fates) + if k == 0 then [] else Superseded(old(mailbox)[..k - 1])
        decreases |mailbox|
      {
        if last.Some? {
          assert Superseded(old(mailbox)[..k]) == Superseded(old(mailbox)[..k - 1]) + [Coalesced(last.value.id)];
        }
        last, trace := TakeNext(last, start, trace);
        k := k + 1;
      }
      trace := CloseDrain(last, start, trace);
    }

    /** The buffer the consumed target replaced, or its own if refused, goes to the retire ring. */
    method RetireConsumed(t: Target, accepted: bool, ghost start: State, ghost before: seq<Action>)
      returns (ghost trace: seq<Action>)
      requires Agrees() && state.sub.SFree? && state.rt == RTicked(t, accepted) && state == Run(start, before)
      modifies this`retireRing, this`activeOwner, this`state
      ensures Valid() && state == Run(start, trace) && trace == before + [RetireBuffers]
      ensures state.fates == old(state.fates)
    {
      hide Run, ReapStep, PushStep, PopStep, CoalesceStep, JudgeStep, TickStep;
      if t.kind.Trajectory? {
        if accepted {
          Retire(activeOwner);
          activeOwner := t.owner;
        } else {
          Retire(t.owner);
        }
      } else if accepted {
        Retire(activeOwner);
        activeOwner := None;
      }
      trace := Advance(start, before, RetireBuffers);
    }

    /** With nothing consumed there is nothing to retire. */
    method RetireNothing(ghost start: State, ghost before: seq<Action>) returns (ghost trace: seq<Action>)
      requires Valid() && state == Run(start, before)
      modifies this`state
      ensures Valid() && state == Run(start, trace) && trace == before + [RetireBuffers] && state.fates == old(state.fates)
    {
      hide Run, ReapStep, PushStep, PopStep, CoalesceStep, JudgeStep, TickStep, RetireStep;
      trace := Advance(start, before, RetireBuffers);
    }

    /** The stop judgement and the one tick of the window. */
    method JudgeAndTick(last: Option<Target>, before: Effect, fits: bool, after: Effect, ghost start: State, ghost drained: seq<Action>)
      returns (accepted: bool, ghost trace: seq<Action>)
      requires Agrees() && state.sub.SFree? && state.rt == RDrained(last) && state == Run(start, drained)
      modifies this`tickCore, this`publishedEpoch, this`events, this`state
      ensures Agrees() && state.sub.SFree? && state.rt == if last.Some? then RTicked(last.value, accepted) else RIdle
      ensures state == Run(start, trace) && trace == drained + [JudgeStop, TickNow(before, fits, after)]
      ensures state.fates == old(state.fates) + if last.Some? then [Ticked(last.value.id)] else []
    {
      hide Run, Apply, Consume, ReapStep, PushStep, PopStep, CoalesceStep, RetireStep;
      var superseded := last.Some? && last.value.stopGen != stopGen;
      if last.Some? { events := events + 1; }
      trace := Advance(start, drained, JudgeStop);
      var core := Apply(tickCore, before).0;
      accepted := false;
      if last.Some? {
        var r := Consume(core, last.value, superseded, fits);
        core, accepted := r.core, r.accepted;
        events := events + 1;
      }
      tickCore := Apply(core, after).0;
      publishedEpoch := tickCore.epoch;
      trace := Advance(start, trace, TickNow(before, fits, after));
    }

    method RequestHold()
      modifies this`requests
      ensures requests == old(requests).(hold := true)
    {
      requests := requests.(hold := true);
    }

    method RequestRecover()
      modifies this`requests
      ensures requests == old(requests).(recover := true)
    {
      requests := requests.(recover := true);
    }

    method Heartbeat()
      modifies this`requests
      ensures requests == old(requests).(heartbeat := true)
    {
      requests := requests.(heartbeat := true);
    }

    /** The flags that the callers set are exchanged for false, before the drain. */
    method TakeRequests() returns (taken: Requests)
      requires Valid()
      modifies this`requests
      ensures Valid() && taken == old(requests) && requests == NO_REQUESTS
    {
      taken, requests := requests, NO_REQUESTS;
    }

    /**
     One timer tick: take the control requests that are forwarded to the tick core, drain, judge
     against the stop generation, tick, and retire what it replaced.
     */
    method Tick(before: Effect, fits: bool, after: Effect) returns (taken: Requests)
      requires Valid()
      modifies this
      ensures Valid() && state == Run(old(state), TickSchedule(|old(mailbox)|, before, fits, after))
      ensures taken == old(requests) && requests == NO_REQUESTS
      ensures mailbox == [] && liveBuffers == old(liveBuffers)
      ensures state.fates == old(state.fates) + Outcomes(old(mailbox))
    {
      hide Run, DrainSchedule, Step, Agrees;
      taken := TakeRequests();
      ghost var start, n := state, |mailbox|;
      var last, trace := Drain(start);
      var accepted;
      accepted, trace := JudgeAndTick(last, before, fits, after, start, trace);
      if last.Some? {
        trace := RetireConsumed(last.value, accepted, start, trace);
      } else {
        trace := RetireNothing(start, trace);
      }
      assert trace == TickSchedule(n, before, fits, after);
    }
  }
}

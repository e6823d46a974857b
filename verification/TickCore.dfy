/**
 The part of the motion tick that decides which motion is active and how it resolves
 (src/cpp/rt_core/tick_core.cpp). Everything else in a tick is an `Effect`: it may
 resolve the running motion, leave playback, latch a fault or bump the epoch, in any
 combination; it never starts a motion.
 */
module TickCore {
  import opened Motion
  import opened Options

  type Owner = nat

  datatype Kind = Hold | Trajectory | Servo | Brake

  /** `stampAt` is the position of the target's stop stamp in the history of a run. */
  datatype Target = Target(id: nat, kind: Kind, epoch: nat, stopGen: nat, owner: Option<Owner>, stampAt: nat)

  /** `playing` is the buffer that the captured or sampled trajectory points into. */
  datatype Core = Core(mode: Mode, faulted: bool, epoch: nat, activeId: nat, activeStatus: MotionStatus,
                       playing: Option<Owner>)

  datatype Effect = Effect(resolve: Option<MotionStatus>, mode: Mode, faulted: bool, bumps: nat)

  datatype Consumed = Consumed(core: Core, accepted: bool, records: seq<Record>)

  predicate Plays(mode: Mode) { mode.CaptureMode? || mode.TrajectoryMode? }

  predicate Moves(mode: Mode) { Plays(mode) || mode.ServoMode? }

  predicate Terminal(st: MotionStatus) { !st.Pending? && !st.Running? }

  /** resolve_active: only a running motion resolves, once. */
  function Resolve(c: Core, st: MotionStatus): (Core, seq<Record>) {
    if c.activeStatus.Running? then (c.(activeStatus := st), [Record(c.activeId, st)]) else (c, [])
  }

  /** Playback goes on only where it was: from capture to trajectory, or unchanged. */
  predicate Reachable(before: Mode, after: Mode) {
    Plays(after) ==> after == before || before.CaptureMode?
  }

  function Apply(c: Core, e: Effect): (r: (Core, seq<Record>))
  {
    var (c1, records) :=
      if e.resolve.Some? && Terminal(e.resolve.value) then Resolve(c, e.resolve.value) else (c, []);
    var mode := if Reachable(c.mode, e.mode) then e.mode else c.mode;
    (c1.(mode := mode, faulted := e.faulted, epoch := c.epoch + e.bumps,
         playing := if Plays(mode) then c.playing else None),
     records)
  }

  function Reject(c: Core, t: Target): Consumed {
    Consumed(c.(activeId := t.id, activeStatus := Rejected), false, [Record(t.id, Rejected)])
  }

  function Start(c: Core, t: Target, mode: Mode): Consumed {
    var (c1, records) := Resolve(c, Preempted);
    Consumed(c1.(mode := mode, activeId := t.id, activeStatus := Running,
                     playing := if mode.CaptureMode? then t.owner else None), true, records)
  }

  predicate Blocked(c: Core) { c.faulted || c.mode.SafeFollow? || c.mode.RxSilentMode? }

  /** consume, branch by branch; `fits` says whether the capture gate and the splice allow the trajectory. */
  function Consume(c: Core, t: Target, superseded: bool, fits: bool): Consumed {
    if t.epoch != c.epoch then Reject(c, t)
    else if superseded && (t.kind.Trajectory? || t.kind.Servo?) then Reject(c, t)
    else
      match t.kind
      case Hold =>
        var (c1, records) := Resolve(c, Preempted);
        var stopped := if Moves(c.mode) then c1.(mode := BrakeMode, playing := None) else c1;
        Consumed(stopped.(activeId := t.id, activeStatus := Done), true, records + [Record(t.id, Done)])
      case Brake => if Blocked(c) then Reject(c, t) else Start(c, t, BrakeMode)
      case Servo => if Blocked(c) then Reject(c, t) else Start(c, t, ServoMode)
      case Trajectory => if Blocked(c) || !fits then Reject(c, t) else Start(c, t, CaptureMode)
  }

  /** The guards of the branches that refuse a target. */
  predicate Refuses(c: Core, t: Target, superseded: bool, fits: bool) {
    || t.epoch != c.epoch
    || (superseded && (t.kind.Trajectory? || t.kind.Servo?))
    || (Blocked(c) && !t.kind.Hold?)
    || (t.kind.Trajectory? && !fits)
  }

  /** A target is refused exactly by one of those guards, and is then recorded as rejected, whatever is running. */
  lemma RefusedIff(c: Core, t: Target, superseded: bool, fits: bool)
    ensures var r := Consume(c, t, superseded, fits);
            && (!r.accepted <==> Refuses(c, t, superseded, fits))
            && (!r.accepted ==>
                  && r.records == [Record(t.id, Rejected)]
                  && r.core == c.(activeId := t.id, activeStatus := Rejected))
  {
  }

  /**
   An accepted target takes the active slot: a hold is done at once and brakes what moves, and
   any other runs, in the mode of its kind. Neither the epoch nor a fault is touched.
   */
  lemma AcceptedTakesOver(c: Core, t: Target, superseded: bool, fits: bool)
    requires Consume(c, t, superseded, fits).accepted
    ensures var r := Consume(c, t, superseded, fits).core;
            && r.activeId == t.id && r.epoch == c.epoch && r.faulted == c.faulted
            && (r.activeStatus == if t.kind == Hold then Done else Running)
            && (t.kind == Hold ==>
                  r.mode == if c.mode == CaptureMode || c.mode == TrajectoryMode || c.mode == ServoMode then BrakeMode else c.mode)
            && (t.kind == Trajectory ==> r.mode == CaptureMode)
            && (t.kind == Servo ==> r.mode == ServoMode)
            && (t.kind == Brake ==> r.mode == BrakeMode)
  {
  }

  /** The rest of a tick never starts playback: it goes on as it was, or goes from capture to trajectory. */
  lemma EffectsStartNothing(c: Core, e: Effect)
    ensures var r := Apply(c, e).0;
            && r.activeId == c.activeId && r.faulted == e.faulted && r.epoch == c.epoch + e.bumps
            && (Plays(r.mode) ==> r.mode == c.mode || (c.mode == CaptureMode && r.mode == TrajectoryMode))
            && (r.activeStatus != c.activeStatus ==> c.activeStatus == Running && r.activeStatus != Pending)
  {
  }

  /** The buffer is only pointed to while it is being captured or played. */
  predicate PlaysWhatItHolds(c: Core) { c.playing.Some? ==> Plays(c.mode) }

  lemma PlaybackIsHonest(c: Core, t: Target, superseded: bool, fits: bool, e: Effect)
    requires PlaysWhatItHolds(c) && (t.owner.Some? <==> t.kind.Trajectory?)
    ensures var r := Consume(c, t, superseded, fits);
            && PlaysWhatItHolds(r.core)
            && (r.core.playing == c.playing || r.core.playing == None || (r.accepted && t.kind.Trajectory? && r.core.playing == t.owner))
            && (r.accepted && t.kind.Trajectory? ==> r.core.playing == t.owner)
            && (r.accepted && !t.kind.Trajectory? ==> r.core.playing == None)
            && (!r.accepted ==> r.core.playing == c.playing)
    ensures PlaysWhatItHolds(Apply(c, e).0) && (Apply(c, e).0.playing == c.playing || Apply(c, e).0.playing == None)
  {
  }

  /** What a stop or a fault must prevent: a superseded or stale motion never starts. */
  lemma StaleNeverStarts(c: Core, t: Target, superseded: bool, fits: bool)
    requires Consume(c, t, superseded, fits).accepted
    ensures t.epoch == c.epoch
    ensures superseded ==> t.kind.Hold? || t.kind.Brake?
    ensures !t.kind.Hold? ==> !Blocked(c)
  {
  }
}

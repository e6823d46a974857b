/**
 Recovery and the ARM gate (src/airo_fanuc/supervisor.py): the watch thread, any number of
 recovery ladders one after the other, the caller's `arm` and the shutdown, interleaved.
 `Step` runs one atomic action (one hold of a lock); an action that is not due does
 nothing. Each observation of the core is an argument, as stale or as false as you like.
 Bring-up after a shutdown is not part of this model.
 */
module Recovery {
  import opened Lifecycle
  import opened Motion

  datatype Ladder =
    | Entered                       // has set `_recovering`
    | FaultRead(fault: Fault)       // has read the fault it will record with RECOVERING
    | InBody
    | Finished(ok: bool)            // body returned or raised; `_recovering` still set
    | Released                      // `_recovering` cleared, the reclassification still to come
    | Gone

  /** What the ARM gate is about, in order. */
  datatype Event = Recorded(fault: Fault) | OperatorRequired | Armed

  datatype State = State(
    armGate: bool, state: Lifecycle, fault: Fault, inhibited: bool, operatorRequired: bool,
    recovering: bool, ladders: seq<Ladder>, log: seq<Event>)

  datatype Action =
    | WatchTick(mode: Mode, fault: Fault)
    | Enter | ReadFault(i: nat) | SetRecovering(i: nat)
    | RequireOperator(i: nat) | Fail(i: nat) | Commit(i: nat)
    | Release(i: nat) | Reclassify(i: nat, mode: Mode, fault: Fault)
    | OperatorDone | Arm | Shutdown

  /** The end of a bring-up. */
  function Init(armGate: bool): State { State(armGate, Streaming, NoFault, false, false, false, [], []) }

  /** _set_state_locked: the gate latches the moment an arm-class fault is recorded. */
  function SetState(s: State, state: Lifecycle, fault: Fault): State {
    s.(state := state, fault := fault, inhibited := s.inhibited || (s.armGate && RequiresArm(fault)),
       log := s.log + [Recorded(fault)])
  }

  predicate Is(s: State, i: nat, l: Ladder) { i < |s.ladders| && s.ladders[i] == l }

  function WatchStep(s: State, mode: Mode, fault: Fault): State {
    var observed := Classify(mode, fault, false);
    if s.state.ShuttingDown? || s.recovering then s
    else if observed.FaultedState? || observed.Degraded? then SetState(s, observed, fault)
    else if observed.Streaming? then SetState(s, Streaming, NoFault)
    else s
  }

  function LadderStep(s: State, a: Action): State {
    match a
    case Enter => if s.recovering then s else s.(recovering := true, ladders := s.ladders + [Entered])
    case ReadFault(i) => if Is(s, i, Entered) then s.(ladders := s.ladders[i := FaultRead(s.fault)]) else s
    case SetRecovering(i) =>
      if i < |s.ladders| && s.ladders[i].FaultRead? then
        SetState(s, Recovering, s.ladders[i].fault).(ladders := s.ladders[i := InBody])
      else s
    case RequireOperator(i) =>
      if Is(s, i, InBody) then
        var s1 := s.(operatorRequired := true, inhibited := s.inhibited || s.armGate, log := s.log + [OperatorRequired]);
        SetState(s1, FaultedState, s.fault).(ladders := s.ladders[i := Finished(false)])
      else s
    case Fail(i) => if Is(s, i, InBody) then s.(ladders := s.ladders[i := Finished(false)]) else s
    case Commit(i) =>
      if Is(s, i, InBody) then
        SetState(s.(operatorRequired := false), Streaming, NoFault).(ladders := s.ladders[i := Finished(true)])
      else s
    case Release(i) =>
      if i < |s.ladders| && s.ladders[i].Finished? then
        s.(recovering := false, ladders := s.ladders[i := if s.ladders[i].ok then Gone else Released])
      else s
    case Reclassify(i, mode, fault) =>
      if !Is(s, i, Released) then s
      else
        var observed := Classify(mode, fault, false);
        (if s.state.ShuttingDown? then s else SetState(s, observed, if observed.Streaming? then NoFault else fault))
        .(ladders := s.ladders[i := Gone])
    case _ => s
  }

  function Step(s: State, a: Action): State {
    match a
    case WatchTick(mode, fault) => WatchStep(s, mode, fault)
    case OperatorDone => s.(operatorRequired := false)
    case Arm => s.(inhibited := false, log := s.log + [Armed])
    case Shutdown => SetState(s, ShuttingDown, s.fault)
    case _ => LadderStep(s, a)
  }

  function Run(s: State, schedule: seq<Action>): State {
    if schedule == [] then s else Step(Run(s, schedule[..|schedule| - 1]), schedule[|schedule| - 1])
  }

  /** command_reject_reason is None. */
  predicate Accepting(s: State) { !s.inhibited && s.state.Streaming? }

  // ---- the ARM gate ------------------------------------------------------------

  /** What the gate latches on: an e-stop, a controller alarm, an operator-required stop. */
  predicate NeedsArm(e: Event) { e == Recorded(EStop) || e == Recorded(InError) || e == OperatorRequired }

  /** Every arm-class event of the log is followed by an `arm`. */
  predicate ArmedSince(log: seq<Event>) {
    forall i :: 0 <= i < |log| && NeedsArm(log[i]) ==> exists j :: i < j < |log| && log[j].Armed?
  }

  lemma ArmedSinceAppend(log: seq<Event>, e: Event)
    ensures ArmedSince(log + [e]) <==> e.Armed? || (ArmedSince(log) && !NeedsArm(e))
  {
    var more := log + [e];
    if e.Armed? {
      forall i | 0 <= i < |more| && NeedsArm(more[i]) ensures exists j :: i < j < |more| && more[j].Armed? {
        assert more[|log|].Armed?;
      }
    } else {
      if ArmedSince(more) {
        forall i | 0 <= i < |log| && NeedsArm(log[i]) ensures exists j :: i < j < |log| && log[j].Armed? {
          assert NeedsArm(more[i]);
          var j :| i < j < |more| && more[j].Armed?;
          assert log[j].Armed?;
        }
        assert more[|log|] == e;
      }
      if ArmedSince(log) && !NeedsArm(e) {
        forall i | 0 <= i < |more| && NeedsArm(more[i]) ensures exists j :: i < j < |more| && more[j].Armed? {
          assert NeedsArm(log[i]);
          var j :| i < j < |log| && log[j].Armed?;
          assert more[j].Armed?;
        }
      }
    }
  }

  predicate Gated(s: State) {
    && (s.armGate ==> (s.inhibited <==> !ArmedSince(s.log)))
    && (!s.armGate ==> !s.inhibited)
  }

  lemma SetStateGates(s: State, state: Lifecycle, fault: Fault)
    requires Gated(s)
    ensures Gated(SetState(s, state, fault)) && SetState(s, state, fault).armGate == s.armGate
  {
    ArmedSinceAppend(s.log, Recorded(fault));
    RequiresArmIff(fault);
  }

  lemma StepGates(s: State, a: Action)
    requires Gated(s)
    ensures Gated(Step(s, a)) && Step(s, a).armGate == s.armGate
  {
    hide ArmedSince, SetState;
    match a {
      case WatchTick(mode, fault) =>
        SetStateGates(s, Classify(mode, fault, false), fault);
        SetStateGates(s, Streaming, NoFault);
      case SetRecovering(i) => if i < |s.ladders| && s.ladders[i].FaultRead? { SetStateGates(s, Recovering, s.ladders[i].fault); }
      case RequireOperator(i) => OperatorGates(s, i);
      case Commit(i) => SetStateGates(s.(operatorRequired := false), Streaming, NoFault);
      case Reclassify(i, mode, fault) =>
        var observed := Classify(mode, fault, false);
        SetStateGates(s, observed, if observed.Streaming? then NoFault else fault);
      case Arm => ArmedSinceAppend(s.log, Armed);
      case Shutdown => SetStateGates(s, ShuttingDown, s.fault);
      case _ =>
    }
  }

  lemma OperatorGates(s: State, i: nat)
    requires Gated(s)
    ensures Gated(LadderStep(s, RequireOperator(i))) && LadderStep(s, RequireOperator(i)).armGate == s.armGate
  {
    hide ArmedSince;
    var s1 := s.(operatorRequired := true, inhibited := s.inhibited || s.armGate, log := s.log + [OperatorRequired]);
    ArmedSinceAppend(s.log, OperatorRequired);
    ArmedSinceAppend(s1.log, Recorded(s.fault));
  }

  predicate StreamingClean(s: State) { s.state.Streaming? ==> s.fault.NoFault? }

  lemma StepStreamsClean(s: State, a: Action)
    requires StreamingClean(s)
    ensures StreamingClean(Step(s, a))
  {
  }

  lemma {:induction false} RunGates(armGate: bool, schedule: seq<Action>)
    ensures var s := Run(Init(armGate), schedule); Gated(s) && StreamingClean(s) && s.armGate == armGate
  {
    hide Step;
    if schedule != [] {
      hide Gated;
      RunGates(armGate, schedule[..|schedule| - 1]);
      StepGates(Run(Init(armGate), schedule[..|schedule| - 1]), schedule[|schedule| - 1]);
      StepStreamsClean(Run(Init(armGate), schedule[..|schedule| - 1]), schedule[|schedule| - 1]);
    }
  }

  /**
   Over every interleaving: a driver that accepts motion is streaming with no fault, and with
   the gate on it has been armed since the last e-stop, controller alarm or operator-required
   stop that was recorded; and the gate refuses motion in exactly the other case.
   */
  lemma AcceptingIsArmed(armGate: bool, schedule: seq<Action>)
    ensures var s := Run(Init(armGate), schedule);
            && (Accepting(s) ==> s.state.Streaming? && s.fault.NoFault? && (armGate ==> ArmedSince(s.log)))
            && (armGate ==> (s.inhibited <==> !ArmedSince(s.log)))
  {
    RunGates(armGate, schedule);
  }

  /** With the gate on, motion is inhibited if and only if an e-stop, an alarm or an operator stop was recorded and not armed since. */
  lemma InhibitedIff(schedule: seq<Action>)
    ensures var s := Run(Init(true), schedule);
            s.inhibited <==>
            exists i :: 0 <= i < |s.log| && NeedsArm(s.log[i]) && forall j :: i < j < |s.log| ==> s.log[j] != Armed
  {
    RunGates(true, schedule);
    var log := Run(Init(true), schedule).log;
    hide Run;
    hide NeedsArm;
    assert forall j :: 0 <= j < |log| ==> (log[j] != Armed <==> !log[j].Armed?);
    if i :| 0 <= i < |log| && NeedsArm(log[i]) && forall j :: i < j < |log| ==> !log[j].Armed? {
      assert !ArmedSince(log);
    }
  }

  /** With the gate off, nothing inhibits motion. */
  lemma NeverInhibitedUngated(schedule: seq<Action>)
    ensures !Run(Init(false), schedule).inhibited
  {
    RunGates(false, schedule);
  }

  lemma {:induction false} StaysInhibited(s: State, schedule: seq<Action>)
    requires s.inhibited && Arm !in schedule
    ensures Run(s, schedule).inhibited
    decreases |schedule|
  {
    if schedule != [] {
      var n := |schedule| - 1;
      StaysInhibited(s, schedule[..n]);
      assert schedule[n] != Arm;
      hide Classify, RequiresArm;
    }
  }

  /**
   An e-stop or a controller alarm that the watch thread sees on an open stream, with the gate on
   and no ladder running, refuses motion until somebody arms, whatever else happens in between.
   */
  lemma AlarmRefusesUntilArmed(before: seq<Action>, mode: Mode, fault: Fault, after: seq<Action>)
    requires fault == EStop || fault == InError
    requires mode != StreamDown
    requires var s := Run(Init(true), before); !s.recovering && s.state != ShuttingDown
    requires Arm !in after
    ensures !Accepting(Run(Step(Run(Init(true), before), WatchTick(mode, fault)), after))
  {
    var s := Run(Init(true), before);
    RunGates(true, before);
    ObservedState(mode, fault, false);
    RequiresArmIff(fault);
    StaysInhibited(Step(s, WatchTick(mode, fault)), after);
  }

  /**
   What one observation of the watch thread does to a driver with no ladder running: a fault, a
   silent controller or one that is being followed refuses motion; a clean streaming mode
   accepts it unless the gate is latched; a stream that is down changes nothing.
   */
  lemma WatchAcceptsIff(s: State, mode: Mode, fault: Fault)
    requires !s.recovering && s.state != ShuttingDown
    ensures var s' := Step(s, WatchTick(mode, fault));
            if mode == StreamDown && fault != RxSilent then s' == s
            else if fault == NoFault && mode != RxSilentMode && mode != SafeFollow then
              s'.state == Streaming && s'.fault == NoFault && (Accepting(s') <==> !s.inhibited)
            else !Accepting(s') && s'.fault == fault && (s'.state == FaultedState || s'.state == Degraded)
  {
    ObservedState(mode, fault, false);
    RequiresArmIff(NoFault);
  }

  /** A shutdown refuses motion, keeps the fault for the record and leaves the ladders alone. */
  lemma ShutdownRefuses(s: State)
    ensures var s' := Step(s, Shutdown); s'.state == ShuttingDown && s'.fault == s.fault && !Accepting(s')
    ensures Step(s, Shutdown).ladders == s.ladders && Step(s, Shutdown).recovering == s.recovering
  {
  }

  /**
   With the gate on and not yet latched, an e-stop or alarm that the watch thread observes latches
   it if and only if no ladder is running, no shutdown is under way and the stream is not down.
   */
  lemma AlarmLatchesIff(s: State, mode: Mode, fault: Fault)
    requires s.armGate && !s.inhibited && (fault == EStop || fault == InError)
    ensures Step(s, WatchTick(mode, fault)).inhibited <==> !s.recovering && s.state != ShuttingDown && mode != StreamDown
  {
    ObservedState(mode, fault, false);
    RequiresArmIff(fault);
  }

  /** So an e-stop observed while a ladder is in its body, and over before it commits, lets motion go on with nobody arming. */
  lemma AlarmInLadderGoesUnarmed()
    ensures exists before, after :: var s := Run(Init(true), before);
              && s.state == Recovering && Accepting(Run(Step(s, WatchTick(SafeFollow, EStop)), after)) && Arm !in after
  {
    assert Run(Init(true), []) == Init(true);
    hide Run;
    var s, trace := LadderBegun(Init(true), []);
    var after := [Commit(0)];
    WatchHeldOff(s, SafeFollow, EStop);
    RunOne(s, Commit(0));
    assert Accepting(Step(s, Commit(0)));
    assert s == Run(Init(true), trace) && Accepting(Run(Step(s, WatchTick(SafeFollow, EStop)), after)) && Arm !in after;
  }

  lemma RunOne(s: State, a: Action)
    ensures Run(s, [a]) == Step(s, a)
  {
    assert [a][..0] == [];
  }

  /** Only an operator-required stop raises the operator flag, and its end takes it back. */
  lemma {:induction false} OperatorFlagIsLogged(armGate: bool, schedule: seq<Action>)
    ensures var s := Run(Init(armGate), schedule);
            && (s.operatorRequired ==> OperatorRequired in s.log)
            && !Step(s, OperatorDone).operatorRequired && Step(s, OperatorDone).inhibited == s.inhibited
  {
    hide Step;
    if schedule != [] {
      OperatorFlagIsLogged(armGate, schedule[..|schedule| - 1]);
      FlagIsLoggedStep(Run(Init(armGate), schedule[..|schedule| - 1]), schedule[|schedule| - 1]);
    }
    OperatorDoneClears(Run(Init(armGate), schedule));
  }

  lemma OperatorDoneClears(s: State)
    ensures !Step(s, OperatorDone).operatorRequired && Step(s, OperatorDone).inhibited == s.inhibited
  {
  }

  lemma FlagIsLoggedStep(s: State, a: Action)
    requires s.operatorRequired ==> OperatorRequired in s.log
    ensures Step(s, a).operatorRequired ==> OperatorRequired in Step(s, a).log
  {
    hide Classify, RequiresArm;
  }

  /**
   Motion comes back: a bring-up ends accepting, and so does any state without a ladder or a shutdown
   once somebody arms and a clean stream is observed; a ladder that commits accepts unless the gate is latched.
   */
  lemma ArmRestoresMotion(armGate: bool, s: State, i: nat)
    ensures Accepting(Init(armGate))
    ensures !s.recovering && s.state != ShuttingDown ==> Accepting(Step(Step(s, Arm), WatchTick(HoldMode, NoFault)))
    ensures Is(s, i, InBody) ==> (Accepting(Step(s, Commit(i))) <==> !s.inhibited)
  {
    RequiresArmIff(NoFault);
  }

  /** During a shutdown or a ladder an observation changes nothing. */
  lemma WatchHeldOff(s: State, mode: Mode, fault: Fault)
    ensures s.recovering || s.state == ShuttingDown ==> WatchStep(s, mode, fault) == s == Step(s, WatchTick(mode, fault))
  {
  }

  /** Otherwise it is recorded: a fault as it was seen, a clean stream as such, and a stream that is down not at all. */
  lemma WatchRecords(s: State, mode: Mode, fault: Fault)
    requires !s.recovering && s.state != ShuttingDown
    ensures var o := Classify(mode, fault, false);
            && (o == FaultedState || o == Degraded ==> WatchStep(s, mode, fault) == SetState(s, o, fault))
            && (o == Streaming ==> WatchStep(s, mode, fault) == SetState(s, Streaming, NoFault))
            && (o != FaultedState && o != Degraded && o != Streaming ==> WatchStep(s, mode, fault) == s)
  {
    hide Classify, SetState;
  }

  // ---- one ladder at a time ----------------------------------------------------

  predicate Active(l: Ladder) { l.Entered? || l.FaultRead? || l.InBody? || l.Finished? }

  /** The active ladder, if any, is the newest, and it is what `_recovering` says. */
  predicate SingleFlight(s: State) {
    && (forall i :: 0 <= i < |s.ladders| && Active(s.ladders[i]) ==> i == |s.ladders| - 1)
    && (s.recovering <==> |s.ladders| > 0 && Active(s.ladders[|s.ladders| - 1]))
  }

  /** A ladder that has yet to set another state. */
  predicate Holds(l: Ladder) { l.InBody? || l == Finished(false) || l.Released? }

  predicate RecoveringHeld(s: State) {
    s.state.Recovering? ==> exists i :: 0 <= i < |s.ladders| && Holds(s.ladders[i])
  }

  lemma StepFliesSingly(s: State, a: Action)
    requires SingleFlight(s)
    ensures SingleFlight(Step(s, a))
  {
    hide Classify;
  }

  lemma StepHoldsRecovering(s: State, a: Action)
    requires RecoveringHeld(s)
    ensures RecoveringHeld(Step(s, a))
  {
    var s' := Step(s, a);
    if a.WatchTick? || a.Reclassify? { StreamingIff(a.mode, a.fault, false); }
    hide Classify;
    if s'.state.Recovering? {
      if s.state.Recovering? {
        var i :| 0 <= i < |s.ladders| && Holds(s.ladders[i]);
        assert Holds(s'.ladders[i]);
      } else {
        assert a.SetRecovering? && Holds(s'.ladders[a.i]);
      }
    }
  }

  lemma {:induction false} RunFlies(armGate: bool, schedule: seq<Action>)
    ensures var s := Run(Init(armGate), schedule); SingleFlight(s) && RecoveringHeld(s)
  {
    hide Step;
    if schedule != [] {
      hide SingleFlight, RecoveringHeld;
      RunFlies(armGate, schedule[..|schedule| - 1]);
      StepFliesSingly(Run(Init(armGate), schedule[..|schedule| - 1]), schedule[|schedule| - 1]);
      StepHoldsRecovering(Run(Init(armGate), schedule[..|schedule| - 1]), schedule[|schedule| - 1]);
    }
  }

  /** At most one ladder runs, and no ladder leaves the driver recovering: that state has a ladder still to leave it. */
  lemma NoLadderLeavesRecovering(armGate: bool, schedule: seq<Action>)
    ensures var s := Run(Init(armGate), schedule);
            && (forall i, j :: 0 <= i < |s.ladders| && 0 <= j < |s.ladders| && Active(s.ladders[i]) && Active(s.ladders[j]) ==> i == j)
            && ((forall l :: l in s.ladders ==> l.Gone?) ==> !s.state.Recovering?)
  {
    RunFlies(armGate, schedule);
    hide Run;
    var s := Run(Init(armGate), schedule);
    if s.state.Recovering? {
      var i :| 0 <= i < |s.ladders| && Holds(s.ladders[i]);
      assert s.ladders[i] in s.ladders;
    }
  }

  // ---- motion during a ladder --------------------------------------------------

  predicate AnyReleased(s: State) { exists k :: 0 <= k < |s.ladders| && s.ladders[k].Released? }

  /** The ladder is in its body and nobody else is left to set the state. */
  predicate Undisturbed(s: State, i: nat) {
    Is(s, i, InBody) && SingleFlight(s) && !AnyReleased(s) && !s.state.Streaming?
  }

  predicate Left(s: State, i: nat) { i < |s.ladders| && !s.ladders[i].Entered? && !s.ladders[i].FaultRead? && !s.ladders[i].InBody? }

  lemma StepUndisturbed(s: State, a: Action, i: nat)
    requires Undisturbed(s, i)
    ensures Undisturbed(Step(s, a), i) || Left(Step(s, a), i)
  {
    hide Classify;
    StepFliesSingly(s, a);
    var s' := Step(s, a);
    if Is(s', i, InBody) {
      forall k | 0 <= k < |s'.ladders| ensures !s'.ladders[k].Released? {
        assert Active(s.ladders[i]);
        assert k < |s.ladders| ==> !s.ladders[k].Released? && (k != i ==> !Active(s.ladders[k]));
      }
    }
  }

  lemma StepLeft(s: State, a: Action, i: nat)
    requires Left(s, i)
    ensures Left(Step(s, a), i)
  {
    hide Classify;
  }

  lemma {:induction false} RunUndisturbed(s: State, schedule: seq<Action>, i: nat)
    requires Undisturbed(s, i)
    ensures Undisturbed(Run(s, schedule), i) || Left(Run(s, schedule), i)
    decreases |schedule|
  {
    if schedule != [] {
      hide Step, Undisturbed, Left;
      var before, a := schedule[..|schedule| - 1], schedule[|schedule| - 1];
      RunUndisturbed(s, before, i);
      if Undisturbed(Run(s, before), i) { StepUndisturbed(Run(s, before), a, i); } else { StepLeft(Run(s, before), a, i); }
    }
  }

  /** While the ladder is in its body, motion is refused, whatever happens. */
  ghost predicate RefusedThroughout(s: State, i: nat) {
    forall schedule :: Is(Run(s, schedule), i, InBody) ==> !Accepting(Run(s, schedule))
  }

  /** An earlier ladder's reclassification, after an `arm`, accepts motion in the body of this one. */
  lemma ArmedReclassifyAccepts(s: State, i: nat, k: nat)
    requires Is(s, i, InBody) && Is(s, k, Released) && s.state.Recovering?
    ensures exists schedule :: Is(Run(s, schedule), i, InBody) && Accepting(Run(s, schedule))
  {
    var undo := [Arm, Reclassify(k, HoldMode, NoFault)];
    assert undo[..1] == [Arm] && undo[..1][..0] == [] && Run(s, []) == s;
    var armed := Step(s, Arm);
    assert Run(s, [Arm]) == armed;
    assert Run(s, undo) == Step(armed, undo[1]);
    StreamingIff(HoldMode, NoFault, false);
    assert Is(Run(s, undo), i, InBody) && Accepting(Run(s, undo));
  }

  /**
   From its RECOVERING step until its body ends, a ladder keeps motion refused, whatever the
   watch thread and others do, if and only if no earlier ladder was still about to reclassify.
   */
  lemma RefusedUntilBodyEndsIff(armGate: bool, before: seq<Action>, i: nat)
    requires var s := Run(Init(armGate), before); i < |s.ladders| && s.ladders[i].FaultRead?
    ensures var s := Step(Run(Init(armGate), before), SetRecovering(i));
            Is(s, i, InBody) && s.state.Recovering? && (RefusedThroughout(s, i) <==> !AnyReleased(s))
  {
    var s0 := Run(Init(armGate), before);
    RunFlies(armGate, before);
    StepFliesSingly(s0, SetRecovering(i));
    var s := Step(s0, SetRecovering(i));
    if AnyReleased(s) {
      var k :| 0 <= k < |s.ladders| && s.ladders[k].Released?;
      ArmedReclassifyAccepts(s, i, k);
    } else {
      forall schedule | Is(Run(s, schedule), i, InBody) ensures !Accepting(Run(s, schedule)) {
        RunUndisturbed(s, schedule, i);
      }
    }
  }

  lemma Extend(s: State, trace: seq<Action>, a: Action) returns (s': State, more: seq<Action>)
    requires s == Run(Init(true), trace)
    ensures s' == Step(s, a) && s' == Run(Init(true), more)
  {
    more := trace + [a];
    s' := Step(s, a);
    assert more[..|trace|] == trace;
  }

  lemma LadderBegun(s0: State, trace0: seq<Action>) returns (s: State, trace: seq<Action>)
    requires s0 == Run(Init(true), trace0) && !s0.recovering && s0.fault.NoFault?
    ensures s == Run(Init(true), trace)
    ensures s == s0.(recovering := true, ladders := s0.ladders + [InBody], state := Recovering, log := s0.log + [Recorded(NoFault)])
  {
    hide Run, Classify, WatchStep;
    var n := |s0.ladders|;
    s, trace := Extend(s0, trace0, Enter);
    assert s == s0.(recovering := true, ladders := s0.ladders + [Entered]);
    s, trace := Extend(s, trace, ReadFault(n));
    assert s == s0.(recovering := true, ladders := s0.ladders + [FaultRead(NoFault)]);
    s, trace := Extend(s, trace, SetRecovering(n));
    assert s.ladders == s0.ladders + [InBody];
  }

  lemma LadderFails(s0: State, trace0: seq<Action>) returns (s: State, trace: seq<Action>)
    requires s0 == Run(Init(true), trace0) && s0.ladders == [InBody]
    ensures s == Run(Init(true), trace) && s == s0.(recovering := false, ladders := [Released])
  {
    hide Run, Classify, WatchStep, SetState;
    s, trace := Extend(s0, trace0, Fail(0));
    assert s == s0.(ladders := [Finished(false)]);
    s, trace := Extend(s, trace, Release(0));
  }

  lemma LadderReleased() returns (s: State, trace: seq<Action>)
    ensures s == Run(Init(true), trace)
    ensures s.ladders == [Released] && !s.recovering && !s.inhibited && s.fault.NoFault?
  {
    assert Run(Init(true), []) == Init(true);
    hide Run, Step;
    s, trace := LadderBegun(Init(true), []);
    s, trace := LadderFails(s, trace);
  }

  /** And that does happen: a failed ladder reclassifies after the next one has begun, and motion is accepted in its body. */
  lemma LateReclassifyAcceptsMotion()
    ensures exists schedule :: var s := Run(Init(true), schedule); Is(s, 1, InBody) && s.recovering && Accepting(s)
  {
    hide Run;
    var s, trace := LadderReleased();
    s, trace := LadderBegun(s, trace);
    assert s.ladders == [Released, InBody] && s.recovering && !s.inhibited;
    s, trace := Extend(s, trace, Reclassify(0, HoldMode, NoFault));
    assert Is(s, 1, InBody) && s.recovering && Accepting(s);
  }

  // ---- the supervisor's own form -----------------------------------------------

  datatype Body = Succeeds | GivesUp | NeedsOperator

  class Supervisor {
    const armGate: bool
    var state: Lifecycle
    var faultReason: Fault
    var motionInhibited: bool
    var operatorRequired: bool
    var recovering: bool
    ghost var model: State

    ghost predicate Valid()
      reads this
    {
      && model.armGate == armGate && model.state == state && model.fault == faultReason
      && model.inhibited == motionInhibited && model.operatorRequired == operatorRequired
      && model.recovering == recovering
    }

    method SetStateLocked(to: Lifecycle, fault: Fault)
      requires Valid()
      modifies this`state, this`faultReason, this`motionInhibited, this`model
      ensures Valid() && model == SetState(old(model), to, fault)
      ensures state == to && faultReason == fault
      ensures motionInhibited <==> old(motionInhibited) || (armGate && (fault == EStop || fault == InError))
    {
      state, faultReason := to, fault;
      if armGate && RequiresArm(fault) { motionInhibited := true; }
      model := SetState(model, to, fault);
    }

    method ArmMotion()
      requires Valid()
      modifies this`motionInhibited, this`model
      ensures Valid() && model == Step(old(model), Arm) && !motionInhibited
    {
      motionInhibited := false;
      model := Step(model, Arm);
    }

    /** command_reject_reason: whether a motion would be refused now. */
    method CommandRejected() returns (rejected: bool)
      requires Valid()
      ensures rejected <==> !Accepting(model)
    {
      return motionInhibited || state != Streaming;
    }

    method WatchTickOnce(mode: Mode, fault: Fault)
      requires Valid()
      modifies this
      ensures Valid() && model == WatchStep(old(model), mode, fault)
    {
      WatchHeldOff(model, mode, fault);
      if !recovering && state != ShuttingDown { WatchRecords(model, mode, fault); }
      hide Classify, RequiresArm, WatchStep, Step, SetState;
      var observed := Classify(mode, fault, false);
      if state != ShuttingDown && !recovering {
        if observed == FaultedState || observed == Degraded {
          SetStateLocked(observed, fault);
        } else if observed == Streaming {
          SetStateLocked(Streaming, NoFault);
        }
      }
    }

    /** The ladder takes the flag and records RECOVERING with the fault it has read. */
    method BeginLadder(ghost n: nat)
      requires Valid() && !recovering && n == |model.ladders|
      modifies this
      ensures Valid() && recovering && state == Recovering && faultReason == old(faultReason)
      ensures model.ladders == old(model).ladders + [InBody]
      ensures motionInhibited <==> old(motionInhibited) || (armGate && RequiresArm(faultReason))
    {
      recovering := true;
      model := Step(model, Enter);
      model := Step(model, ReadFault(n));
      assert model.ladders == old(model).ladders + [FaultRead(old(model).fault)];
      state := Recovering;
      if armGate && RequiresArm(faultReason) { motionInhibited := true; }
      model := Step(model, SetRecovering(n));
    }

    /** _recovery_body, reduced to how it ends. */
    method RunBody(body: Body, ghost n: nat)
      requires Valid() && n + 1 == |model.ladders| && model.ladders[n].InBody?
      modifies this`state, this`faultReason, this`motionInhibited, this`operatorRequired, this`model
      ensures Valid()
      ensures model.ladders == old(model).ladders[n := Finished(body.Succeeds?)]
      ensures body.Succeeds? ==> state == Streaming && faultReason == NoFault && !operatorRequired
      ensures body.GivesUp? ==> state == old(state) && faultReason == old(faultReason)
      ensures body.NeedsOperator? ==> state == FaultedState && faultReason == old(faultReason) && operatorRequired
      ensures motionInhibited <==>
                old(motionInhibited) || (armGate && body.NeedsOperator?)
    {
      match body {
        case Succeeds =>
          operatorRequired, state, faultReason := false, Streaming, NoFault;
          model := Step(model, Commit(n));
        case GivesUp =>
          model := Step(model, Fail(n));
        case NeedsOperator =>
          operatorRequired, state := true, FaultedState;
          if armGate { motionInhibited := true; }
          model := Step(model, RequireOperator(n));
      }
    }

    /** _reclassify_now: record the observed state, unless shutting down. */
    method ReclassifyNow(mode: Mode, fault: Fault, ghost n: nat)
      requires Valid() && Is(model, n, Released)
      modifies this`state, this`faultReason, this`motionInhibited, this`model
      ensures Valid() && model.ladders == old(model).ladders[n := Gone]
      ensures old(state) == ShuttingDown ==>
                state == old(state) && faultReason == old(faultReason) && motionInhibited == old(motionInhibited)
      ensures old(state) != ShuttingDown ==>
                && state == Classify(mode, fault, false) && state != Recovering
                && faultReason == (if state == Streaming then NoFault else fault)
                && (motionInhibited <==> old(motionInhibited) || (armGate && RequiresArm(faultReason)))
    {
      var observed := Classify(mode, fault, false);
      StreamingIff(mode, fault, false);
      hide Classify;
      if state != ShuttingDown {
        state, faultReason := observed, if observed == Streaming then NoFault else fault;
        if armGate && RequiresArm(faultReason) { motionInhibited := true; }
      }
      model := LadderStep(model, Reclassify(n, mode, fault));
    }

    /** The exit: the flag is cleared first, and a failed ladder then records what it observes. */
    method EndLadder(ok: bool, mode: Mode, fault: Fault, ghost n: nat)
      requires Valid() && n + 1 == |model.ladders| && model.ladders[n] == Finished(ok)
      modifies this
      ensures Valid() && !recovering && model.ladders == old(model).ladders[n := Gone]
      ensures ok || old(state) == ShuttingDown ==>
                state == old(state) && faultReason == old(faultReason) && motionInhibited == old(motionInhibited)
      ensures !ok && old(state) != ShuttingDown ==>
                && state == Classify(mode, fault, false) && state != Recovering
                && faultReason == (if state == Streaming then NoFault else fault)
                && (motionInhibited <==> old(motionInhibited) || (armGate && RequiresArm(faultReason)))
    {
      hide Classify, SetState;
      recovering := false;
      model := LadderStep(model, Release(n));
      if !ok { ReclassifyNow(mode, fault, n); }
    }

    /** _run_recovery_ladder, alone: refused when one is running, else the body and its exit. */
    method RunRecoveryLadder(body: Body, mode: Mode, fault: Fault) returns (ok: bool)
      requires Valid()
      modifies this
      ensures Valid() && (ok <==> !old(recovering) && body.Succeeds?)
      ensures old(recovering) ==> model == old(model)
      ensures !old(recovering) ==> !recovering && model.ladders == old(model).ladders + [Gone]
      ensures ok ==> state == Streaming && faultReason == NoFault
      ensures !old(recovering) && !ok ==> state == Classify(mode, fault, false) && state != Recovering
      ensures motionInhibited <==>
                || old(motionInhibited)
                || (armGate && !old(recovering)
                    && (RequiresArm(old(faultReason)) || body.NeedsOperator? || (!ok && RequiresArm(faultReason))))
    {
      if recovering { return false; }
      hide Classify;
      ghost var n := |model.ladders|;
      BeginLadder(n);
      RunBody(body, n);
      ok := body.Succeeds?;
      EndLadder(ok, mode, fault, n);
    }
  }
}

/** Faults and the lifecycle states made of them (src/airo_fanuc/lifecycle.py). */
module Lifecycle {
  import opened Motion

  datatype Fault =
    | NoFault | EStop | InError | MotionNotPossible | TeachMode | ContactStop | SafetyClamp | RxSilent | RxDegraded
    | WatchdogExpired | ForceGuard | RejectedStartMismatch | SupervisorLost | Internal

  datatype Lifecycle =
    | Disconnected | Preflight | RmiConnecting | TpLaunch | SmHandshake
    | Streaming | Degraded | FaultedState | Recovering | Lost | ShuttingDown

  predicate IsDegradedFault(f: Fault) { f.TeachMode? || f.ContactStop? || f.SafetyClamp? }

  predicate RequiresArm(f: Fault) { f.EStop? || f.InError? }

  predicate IsStreamingMode(m: Mode) {
    m.HoldMode? || m.Preroll? || m.CaptureMode? || m.TrajectoryMode? || m.ServoMode? || m.BrakeMode?
  }

  function Classify(mode: Mode, fault: Fault, rmiDown: bool): Lifecycle {
    if mode.RxSilentMode? || fault.RxSilent? then if rmiDown then Lost else FaultedState
    else if mode.StreamDown? then if rmiDown then Lost else Disconnected
    else if mode.SafeFollow? || !fault.NoFault? then if IsDegradedFault(fault) then Degraded else FaultedState
    else if IsStreamingMode(mode) then Streaming
    else Disconnected
  }

  /** An e-stop and a controller alarm, the two faults that somebody stands beside, are the ones to arm after. */
  lemma RequiresArmIff(f: Fault)
    ensures RequiresArm(f) <==> f == EStop || f == InError
  {
  }

  /**
   What is observed, from the mode and the fault: silence and a stream that is down go first,
   and are lost when the command session is down too; then the conditions that the
   controller manages degrade, any other fault or following faults, and the rest streams.
   */
  lemma ObservedState(mode: Mode, fault: Fault, rmiDown: bool)
    ensures var o := Classify(mode, fault, rmiDown);
            var silent := mode == RxSilentMode || fault == RxSilent;
            var down := !silent && mode == StreamDown;
            var managed := fault == TeachMode || fault == ContactStop || fault == SafetyClamp;
            && (o == Lost <==> rmiDown && (silent || down))
            && (o == Disconnected <==> !rmiDown && down)
            && (o == Degraded <==> !silent && !down && managed)
            && (o == FaultedState <==> (silent && !rmiDown) || (!silent && !down && !managed && (fault != NoFault || mode == SafeFollow)))
            && (o == Streaming <==> fault == NoFault && mode != RxSilentMode && mode != StreamDown && mode != SafeFollow)
  {
  }

  /** Streaming is observed exactly in a moving or holding mode with no fault; recovering never is. */
  lemma StreamingIff(mode: Mode, fault: Fault, rmiDown: bool)
    ensures Classify(mode, fault, rmiDown).Streaming? <==> IsStreamingMode(mode) && fault.NoFault?
    ensures !Classify(mode, fault, rmiDown).Recovering? && !Classify(mode, fault, rmiDown).ShuttingDown?
  {
  }
}

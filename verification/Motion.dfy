/**
 The vocabulary of the real-time core (src/cpp/rt_core/rt_core_config.hpp): modes, the
 statuses of motion handles, and the record of a resolution.
 */
module Motion {
  datatype Mode =
    | StreamDown | Preroll | HoldMode | CaptureMode | TrajectoryMode | ServoMode | BrakeMode | SafeFollow | RxSilentMode

  datatype MotionStatus = Pending | Running | Done | SettleTimeout | Stopped | Preempted | Faulted | Rejected

  datatype Record = Record(id: nat, status: MotionStatus)
}

# Verified model of the airo_fanuc driver

A driver that streams joint targets to a FANUC CRX at 125 Hz and runs its programs over a
JSON line protocol (RMI). The model states, in Dafny, what the parts of the driver that are
hard to get right do, and proves what they are for: no torn read and no lost item in the
lock-free rings, one owner for every trajectory buffer and one outcome for every motion in
the real-time loop, a tick that locks to the controller's clock without ever doubling a send
window, playback that never leaves the two knots it lies between, a line protocol that does
not depend on how the network cuts it up, and a supervisor that neither stacks dispatchers nor
accepts motion behind an operator's back.

## How it is built

One module for each component. Where threads meet, a module has a state machine: `Step` runs
one atomic load, store or critical section of one thread, an action that is not due does
nothing, and a theorem quantifies over every schedule, that is, over every list of actions.
Beside it stands a class with the fields and loops of the source; each of its methods is
proved equal to the state machine run alone, or against a specification function.
`dafny verify dfyconfig.toml` checks the whole project.

| file | component |
|---|---|
| `Bits.dfy`, `SpscRing.dfy`, `JointsAtRing.dfy` | the rings of `rings.hpp` |
| `Motion.dfy`, `Options.dfy` | shared vocabulary |
| `ResolutionTable.dfy` | the (id, status) table that `motion_status` scans |
| `TickCore.dfy`, `RealtimeCore.dfy`, `RealtimeLoop.dfy` | consume, submission, mailbox drain, retirement |
| `BufferOwnership.dfy`, `SubmissionFates.dfy`, `Resolutions.dfy`, `EpochStamps.dfy`, `StopPrecedence.dfy` | the theorems about them |
| `Pll.dfy` | the phase servo of the tick |
| `Hermite.dfy`, `KnotVelocities.dfy`, `SampledPath.dfy` | derived knot velocities, validation, playback |
| `LeastSquares.dfy`, `ReceiveInterface.dfy` | the velocity gate and calibration capture |
| `RmiFraming.dfy`, `RmiWire.dfy`, `RmiReader.dfy` | lines out of chunks, the printer, and reading back what it prints |
| `RmiDispatch.dfy`, `SequenceId.dfy`, `SequenceNumbers.dfy` | reply correlation, SequenceID agreement |
| `BringUp.dfy`, `Lifecycle.dfy`, `Recovery.dfy` | anti-stacking, recovery ladders, the ARM gate |

## What does not hold

Where the code falls short of what its comments or its name promise, the code is modelled as
it is; a lemma gives the failing case, and another says exactly when it works.

- A motion refused at consume time while another is running takes over the active slot, and the
  running motion's handle never resolves, although the comment at `tick_core.cpp:464` says that a
  refused target preempts nothing. `SubmissionFates.RefusalDisplacesPlayback` is a run that does
  it; `UnresolvedIffDisplaced` says, for every run and every id, that nothing else does.
- The resolution table has 1024 slots and keeps 1023 resolutions: the status of the oldest slot
  is overwritten before its id. `ResolutionTable.OldestSlotMisleads`, `RecentResolutionIsExact`.
- The id and the status of the active motion are stored one after the other, so a query that falls
  between the stores can give a motion that has just become active the status of the one before
  it, and call it done: `ResolutionTable.NewMotionCanLookDone`. `UnrecordedAnswer` says what a
  query answers for any motion without a record, and `RecentResolutionIsExact` that a recorded
  motion is not touched by it.
- The sampler truncates the query time toward zero before it looks up the segment, so at a speed
  other than 1 and with an interior knot at a negative time it can be a segment ahead, for less
  than a nanosecond. `KnotVelocities.SamplerBracketsIff`, `HalfSpeedMisses`, `MissedByANanosecond`.
  The driver pins the speed to 1 (`driver.py:468`), where query times are whole nanoseconds and the
  truncation is exact: `PlaybackStaysBetweenKnots` holds for every submitted path. Another speed
  needs a direct submission to the core, which `docs/invariants.md:64` forbids.
- The inbox of a waiter holds one message and the receiving thread puts with no timeout: two
  matching packets that arrive as the request times out block that thread for good.
  `RmiDispatch.ReceiverCanBlockForever`, `BlockedReceiverFreedIff`.
- A string with a high surrogate right before a low one, as two code points, comes back as one
  code point: `json.dumps` prints both escapes and `json.loads` joins them.
  `RmiReader.LoadsDumpsIff` says that nothing else fails to come back.
- The public SequenceID reseed assigns after it has let go of the request lock, and a status
  request given up without closing the socket leaves a reply that a later one can take. A call
  numbered from a status is dropped exactly when its number was overtaken since the controller
  read that status: `SequenceId.CallDroppedIff`, for every run. `RacedReseedDrops` and
  `LateReplyDrops` are runs that fail; the second needs more than it shows, since on a socket that
  keeps its order the reply to the Initialize before a locked reseed flushes a late status reply,
  unless it is a late one itself. `NoCallDropped` covers every run in which no call is sent
  between a status request and the assignment of what it brought.
- A launcher call whose first send reaches the controller and still raises forks twice, although
  the comment at `supervisor.py:321` bounds the damage of an error by the latch.
  `BringUp.HistoryStacksIff` says when two dispatchers can be held at all,
  `FirstBringUpStacksIff` when this is the cause, and `DeliveredAndRaisedStacks` is a run.
- The fork latch is documented to mean that a dispatcher is present (`supervisor.py:115-120`), but
  `program_call` returns once the bytes are sent and the controller may drop the call as stale:
  `BringUp.LatchLiesIff`.
- The watch thread records nothing while a ladder runs, although the comment at `supervisor.py:976`
  says that every fault observation is recorded: an e-stop that comes and goes inside a ladder does
  not latch the ARM gate. `Recovery.AlarmLatchesIff`, and `AlarmInLadderGoesUnarmed` is a run.
- A recovery ladder clears its flag before it reclassifies, so a failed ladder can set STREAMING
  while the next one is in its body. `Recovery.LateReclassifyAcceptsMotion`,
  `RefusedUntilBodyEndsIff`.
- `fake_crx_rmi.py:299` lets FRC_Abort end a forked dispatcher; the supervisor and the client say
  that no RMI verb does. The model follows the latter.

## Model

| member | source | states |
|---|---|---|
| Bits.MaskIsMod | src/cpp/rt_core/rings.hpp:43 | masking with a power of two less one is the remainder, which is what lets indices wrap by `& (Cap - 1)` |
| Bits.PowerOfTwoTest | src/cpp/rt_core/rings.hpp:38 | `(Cap & (Cap - 1)) == 0` holds of a positive capacity exactly when it is a power of two |
| SpscRing.Linearizable | src/cpp/rt_core/rings.hpp:41-60 | under every interleaving of the loads and stores of one producer and one consumer, successful pops are a prefix of the successful pushes in order, at most Cap - 1 items are held, the buffer holds the unpopped ones, and the slot being written is never the slot being read |
| SpscRing.StepKeepsInv | src/cpp/rt_core/rings.hpp:41-60 | every atomic step of either side keeps the ring invariant that ties indices, buffer and histories together |
| SpscRing.RefusalsAreExact | src/cpp/rt_core/rings.hpp:44-46 | a push refused as full was refused with Cap - 1 items in the ring at the load, and a pop refused as empty with none |
| SpscRing.PushCompletes | src/cpp/rt_core/rings.hpp:41-50 | four steps of its own complete a push wherever the consumer stands: it appends, or refuses exactly when the queue is full |
| SpscRing.PopCompletes | src/cpp/rt_core/rings.hpp:52-60 | four steps of its own complete a pop wherever the producer stands: it takes the oldest, or refuses exactly when the queue is empty |
| SpscRing.RunKeepsCapacity | src/cpp/rt_core/rings.hpp:36-74 | no schedule changes the capacity |
| SpscRing.ItemsAreUnpopped | src/cpp/rt_core/rings.hpp:71-73 | the items between the two indices are the pushed ones that were not popped |
| SpscRing.MaskedDifference | src/cpp/rt_core/rings.hpp:64-68 | the masked difference of the indices is the number of items, also after the tail has wrapped |
| SpscRing.Ring.Push | src/cpp/rt_core/rings.hpp:41-50 | alone: appends, or refuses exactly when Cap - 1 items are held and changes nothing |
| SpscRing.Ring.Pop | src/cpp/rt_core/rings.hpp:52-60 | alone: takes the oldest item, or refuses exactly when empty and changes nothing |
| SpscRing.Ring.Size | src/cpp/rt_core/rings.hpp:64-68 | the number of items held |
| JointsAtRing.NoTornRead | src/cpp/rt_core/rings.hpp:89-100 | for every schedule of one writer and any readers, with the stamp and each joint stored separately, a pair that `read_slot` returns on a published slot was written whole by one push to that slot |
| JointsAtRing.RecheckedCopyIsLatest | src/cpp/rt_core/rings.hpp:138-149 | when the second load of the sequence number agrees with the first, the copy is the latest push to that slot |
| JointsAtRing.StepKeepsInv | src/cpp/rt_core/rings.hpp:89-149 | every atomic step of the writer or a reader keeps the per-slot seqlock invariant |
| JointsAtRing.SlotsAreKept | src/cpp/rt_core/rings.hpp:90-99 | slots and the last min(n, 256) pushes correspond one to one, for any number of pushes |
| JointsAtRing.PushedSlots | src/cpp/rt_core/rings.hpp:90-98 | one push replaces exactly the oldest kept entry |
| JointsAtRing.PushCompletes | src/cpp/rt_core/rings.hpp:89-100 | the writer's own steps complete a push wherever the readers stand |
| JointsAtRing.ReadCompletes | src/cpp/rt_core/rings.hpp:138-149 | with no push in between, a reader's own steps return the entry of a published slot |
| JointsAtRing.Ring.Push | src/cpp/rt_core/rings.hpp:89-100 | in place: the history grows by the entry and the slots hold the last 256; equal to one push of the state machine |
| JointsAtRing.Ring.ReadSlot | src/cpp/rt_core/rings.hpp:138-149 | with no push in progress, returns the entry of the slot; equal to one read of the state machine |
| JointsAtRing.Ring.Nearest | src/cpp/rt_core/rings.hpp:104-129 | with no push in progress, returns the joints of a kept entry whose stamp is nearest the query, or false exactly when no entry is nearer than INT64_MAX |
| ResolutionTable.RecentResolutionIsExact | src/cpp/rt_core/realtime_core.cpp:715-945 | for every interleaving of the status-then-id stores with a scan, the answer for a motion among the last 1023 recorded when the scan ends is the status it was recorded with |
| ResolutionTable.OldestSlotMisleads | src/cpp/rt_core/realtime_core.cpp:715-720 | with the 1024th record in progress the oldest id still answers, with the new status: 1023 is exact |
| ResolutionTable.StepKeepsInv | src/cpp/rt_core/realtime_core.cpp:715-945 | every load and store keeps the table invariant |
| ResolutionTable.RecordAllRuns | src/cpp/rt_core/realtime_core.cpp:715-720 | recording n motions one after the other leaves exactly those n records in order |
| ResolutionTable.Table.RecordResolution | src/cpp/rt_core/realtime_core.cpp:715-720 | in place: appends the record to the history, evicting the oldest slot; equal to the two stores of the state machine |
| ResolutionTable.Table.Status | src/cpp/rt_core/realtime_core.cpp:930-945 | alone: the recorded status of a kept motion, else the active one's, else PENDING; equal to one undisturbed run of a reader of the state machine |
| ResolutionTable.Table.PublishActive | src/cpp/rt_core/realtime_core.cpp:710-712 | in place: stores the id of the active motion and then its status |
| ResolutionTable.UnrecordedAnswer | src/cpp/rt_core/realtime_core.cpp:930-945 | for every schedule, a query of a motion without a record answers pending if the active id it compared was another motion's, and else the status of the publication that was the newest completed one when it loaded the status |
| ResolutionTable.NewMotionCanLookDone | src/cpp/rt_core/realtime_core.cpp:710-712 | a run in which a motion that has just become active is answered as done, between the store of its id and that of its status |
| TickCore.PlaybackIsHonest | src/cpp/rt_core/tick_core.cpp:354-595 | a tick points into a trajectory buffer only while it captures or plays it, and only into the buffer of the trajectory it accepted last |
| TickCore.StaleNeverStarts | src/cpp/rt_core/tick_core.cpp:354-465 | a target of an old epoch is never accepted, a superseded one only if it is a hold or a brake, and nothing but a hold while faulted, following or silent |
| TickCore.RefusedIff | src/cpp/rt_core/tick_core.cpp:362-531 | a target is refused exactly by the guards stale epoch, superseded trajectory or servo, blocked core, or trajectory that does not fit, and is then the active motion, rejected, whatever was running |
| TickCore.AcceptedTakesOver | src/cpp/rt_core/tick_core.cpp:400-595 | an accepted target takes the active slot: a hold is done at once and brakes what moves, any other runs in the mode of its kind |
| TickCore.EffectsStartNothing | src/cpp/rt_core/tick_core.cpp:134-140 | the rest of a tick never starts a motion: playback goes on as it was or from capture to trajectory, and only a running motion resolves |
| RealtimeCore.RunKeepsKinds | src/cpp/rt_core/realtime_core.cpp:798-865 | over every schedule a target carries a buffer exactly when it is a trajectory |
| RealtimeLoop.Loop.Submit | src/cpp/rt_core/realtime_core.cpp:765-865 | alone: reaps, numbers, stamps and queues; returns 0 exactly when the mailbox is full, and then reclaims its own buffer; equal to one schedule of the state machine |
| RealtimeLoop.Loop.Stamp | src/cpp/rt_core/realtime_core.cpp:765-778 | the target carries the id drawn, the published epoch and the stop generation, loaded in that order |
| RealtimeLoop.Loop.DrawId | src/cpp/rt_core/realtime_core.cpp:767 | motion ids are drawn in order |
| RealtimeLoop.Loop.Allocate | src/cpp/rt_core/realtime_core.cpp:805-810 | a trajectory gets a buffer of its own, live from the start |
| RealtimeLoop.Loop.Prepare | src/cpp/rt_core/realtime_core.cpp:798-813 | the retired buffers are reclaimed before the new one is made, and the new one is live |
| RealtimeLoop.Loop.ReapRetiredLocked | src/cpp/rt_core/realtime_core.cpp:744-755 | empties the retire ring and erases exactly those buffers from the live ones |
| RealtimeLoop.Loop.Kick | src/cpp/rt_core/realtime_core.cpp:876-879 | sets the kick request and reclaims the retired buffers off the real-time thread |
| RealtimeLoop.Loop.StopMotion | src/cpp/rt_core/realtime_core.cpp:867-873 | moves the stop generation on by one and then sets the stop request |
| RealtimeLoop.Loop.RequestHold | src/cpp/rt_core/realtime_core.cpp:874 | sets the hold request alone |
| RealtimeLoop.Loop.RequestRecover | src/cpp/rt_core/realtime_core.cpp:875 | sets the recover request alone |
| RealtimeLoop.Loop.Heartbeat | src/cpp/rt_core/realtime_core.cpp:880 | sets the heartbeat request alone |
| RealtimeLoop.Loop.TakeRequests | src/cpp/rt_core/realtime_core.cpp:514-519 | takes and clears the five requests before the drain |
| RealtimeLoop.Loop.TakeNext | src/cpp/rt_core/realtime_core.cpp:530-551 | one turn of the drain: the popped target takes the place of the one held, which is retired and coalesced |
| RealtimeLoop.Loop.Drain | src/cpp/rt_core/realtime_core.cpp:521-551 | the drain loop leaves the newest queued target in hand and coalesces every other, in order |
| RealtimeLoop.Loop.JudgeAndTick | src/cpp/rt_core/realtime_core.cpp:556-567 | the stop generation is compared and the one tick of the window taken |
| RealtimeLoop.Loop.RetireConsumed | src/cpp/rt_core/realtime_core.cpp:569-585 | the buffer that was replaced, or the refused one, goes to the retire ring |
| RealtimeLoop.Loop.Tick | src/cpp/rt_core/realtime_core.cpp:514-585 | one timer tick takes the requests, drains the mailbox, coalesces all but the newest, ticks that one, frees no buffer, and equals one schedule of the state machine |
| BufferOwnership.OneOwner | src/cpp/rt_core/realtime_core.cpp:526-585 | for every schedule each live buffer is in exactly one of the submitter's hand, mailbox, drain, active slot and retire ring; a freed one is nowhere and freed once; every buffer made is live or freed |
| BufferOwnership.RunConserves | src/cpp/rt_core/realtime_core.cpp:744-825 | the count behind it: places, drops and frees of a buffer add up to one once it is made and to zero before |
| BufferOwnership.NoReadAfterFree | src/cpp/rt_core/realtime_core.cpp:564-585 | a buffer that the tick plays, that the drain holds or that is queued is live: neither freed nor retired |
| BufferOwnership.RetireRingNeverOverflows | src/cpp/rt_core/realtime_core.cpp:744-865 | for every schedule the retire ring holds at most 19 of its 63 buffers, because every submission empties it before it makes its one, so no retirement is ever dropped and nothing leaks |
| SubmissionFates.ExactlyOneFate | src/cpp/rt_core/realtime_core.cpp:521-564 | over any run a submission that returned its id is waiting or has met one fate, coalesced or ticked, never two; fates come in submission order; one that returned 0 never appears |
| SubmissionFates.EveryIdAnswered | src/cpp/rt_core/realtime_core.cpp:765-795 | for every run every id drawn is exactly one of still in the submitter's hand, accepted and refused |
| SubmissionFates.DrainHandsOnTheNewest | src/cpp/rt_core/realtime_core.cpp:530-555 | what a drain hands on is the newest submission accepted when it saw the mailbox empty, and every other has its fate |
| SubmissionFates.EachMotionRecordedOnce | src/cpp/rt_core/realtime_core.cpp:536-543 | no id is recorded twice, and every accepted submission is exactly one of waiting, recorded, running and displaced |
| SubmissionFates.ConsumeAccounts | src/cpp/rt_core/tick_core.cpp:354-595 | a consume records, runs or refuses the target once, and loses a running motion only by refusing another |
| SubmissionFates.UnresolvedIffDisplaced | src/cpp/rt_core/tick_core.cpp:354-531 | for every run and id: an accepted submission is neither waiting nor recorded nor running if and only if some tick met it running and refused another target by the guard of a refusing branch |
| SubmissionFates.DisplacedStaysUnresolved | src/cpp/rt_core/tick_core.cpp:134-140 | a motion left without a resolution gets none in any continuation |
| SubmissionFates.RefusalDisplacesPlayback | src/cpp/rt_core/tick_core.cpp:510-531 | a run in which the capture gate refuses a trajectory while another plays, and the playing one never resolves |
| Resolutions.RecordedIff | src/cpp/rt_core/tick_core.cpp:354-595 | for every run, a motion is recorded with a status if and only if some step gives the reason for exactly that status: superseded in the queue or preempted by an accepted target, refused, a hold accepted, or ended by an effect of the tick while it ran |
| Resolutions.HandlesTellTheTruth | src/cpp/rt_core/tick_core.cpp:134-531 | for every run, what each step resolves keeps that one status to the end: a coalesced target and a motion met running by an accepted one are preempted, a refused target is rejected, an accepted hold is done |
| Resolutions.CoalescedIsPreempted | src/cpp/rt_core/realtime_core.cpp:530-548 | for every run, a submission with the fate of being coalesced has the record preempted and no other |
| EpochStamps.PublishedIsCurrent | src/cpp/rt_core/realtime_core.cpp:567 | for every run the epoch that callers load is the core's, after ticks with and without a target |
| EpochStamps.StaleIffBumped | src/cpp/rt_core/realtime_core.cpp:765-865 | for every run, a submission is ticked with another epoch than its own if and only if some tick bumped the epoch after it loaded it |
| StopPrecedence.SupersededIffStopped | src/cpp/rt_core/realtime_core.cpp:556-560 | for every interleaving the target is judged superseded if and only if some stop_j increment fell between its stamp and the consume-time load |
| StopPrecedence.StopWins | src/cpp/rt_core/realtime_core.cpp:556-564 | no trajectory or servo target is accepted once a stop fell between its stamp and that load |
| StopPrecedence.StopsCounted | src/cpp/rt_core/realtime_core.cpp:867-871 | two loads of the stop generation differ exactly when a stop was issued between them |
| Pll.Servo.NextTick | src/cpp/rt_core/pll.cpp:18-54 | in place: the next deadline, the correction and the skipped windows |
| Pll.DeadlineIsAhead | src/cpp/rt_core/pll.cpp:34-53 | each deadline is after the previous one and after the clock, whatever the inputs |
| Pll.OneTickSpacing | src/cpp/rt_core/pll.cpp:18-54 | with cap below tick, one deadline is at least tick - cap after the last, and at most tick + cap unless it was re-based |
| Pll.RunSpacing | src/cpp/rt_core/pll.cpp:18-54 | over any inputs, n further deadlines span at least n (tick - cap) |
| Pll.WindowHoldsFewDeadlines | src/cpp/rt_core/pll.hpp:39-48 | a window of length L holds at most L / (tick - cap) + 1 deadlines |
| Pll.RebaseDropsWholeWindows | src/cpp/rt_core/pll.cpp:48-52 | only a deadline the clock has reached is moved, then exactly one period past the clock, and the skipped count is the number of windows it was late by |
| Pll.DeadlinesOfRun | src/cpp/rt_core/pll.cpp:18-54 | over any run, the deadline after a late one is exactly one period after the clock reading that found it late, and any other is a period less the correction after the one before |
| Pll.FreeRunning | src/cpp/rt_core/pll.cpp:30-33 | served on time and without statuses, deadline k is exactly k periods on, with no correction |
| Pll.CorrectionReported | src/cpp/rt_core/pll.cpp:21-32 | the correction is the truncated pull toward the status, clamped, and zero without one |
| Pll.ErrorRecurrence | src/cpp/rt_core/pll.cpp:21-29 | an on-time tick with statuses one period apart replaces the phase error by itself less the clamped truncated pull |
| Pll.ErrorShrinks | src/cpp/rt_core/pll.cpp:26-29 | the error keeps its sign, drops by exactly cap while the clamp binds and by the truncated pull otherwise, and strictly until kp abs(err) < 1 |
| Pll.LocksWithin | src/cpp/rt_core/pll.cpp:18-54 | from any error the phase is locked within abs(err) / cap ticks and j halvings of ceil(1/kp) ticks each, with 2^j the first power of two that reaches the cap |
| Pll.HalvingPhase | src/cpp/rt_core/pll.cpp:27 | below the clamp every ceil(1/kp) ticks halve the error down to the dead zone |
| Pll.LockedIffBelowThreshold | src/cpp/rt_core/pll.cpp:27 | the servo stops pulling exactly below ceil(1/kp) nanoseconds |
| Pll.LockedStays | src/cpp/rt_core/pll.cpp:27-29 | once locked the error stays as it is |
| Pll.OnTimeRun | src/cpp/rt_core/pll.cpp:18-54 | any on-time run of the servo follows the error recurrence |
| Hermite.MonotoneSegment | src/cpp/tick_engine/hermite.cpp:20-41 | a cubic Hermite segment whose tangents lie between zero and three secants moves monotonically from one knot to the other |
| Hermite.EndPoints | src/cpp/tick_engine/hermite.cpp:20-41 | the segment starts and ends on its knots |
| Hermite.OffsetGrows | src/cpp/tick_engine/hermite.cpp:20-41 | the four corner cubics of the tangent region carry the general case |
| Hermite.JustBefore | src/cpp/tick_engine/hermite.cpp:20-41 | run on backwards from its first knot by a fraction b, a segment leaves the knot by at most 23 b times its rise |
| KnotVelocities.TangentFollows | src/airo_fanuc/driver.py:168-178 | each derived tangent is zero or has the sign of both adjacent secants, and is at most three times the smaller |
| KnotVelocities.VelocitiesFollow | src/airo_fanuc/driver.py:160-179 | for strictly increasing times and any positions every derived velocity follows both of its intervals, and the ends are at rest |
| KnotVelocities.ShorterIntervalCountsMore | src/airo_fanuc/driver.py:171-177 | the tangent lies strictly on the side of the slope of the shorter interval, whichever it is, and on the harmonic mean exactly where intervals or slopes are equal |
| KnotVelocities.WeightedHarmonicMean | src/airo_fanuc/driver.py:171-178 | the tangent is the harmonic mean of the two slopes in the ratio 2 hr + hl to hr + 2 hl, rising or falling |
| KnotVelocities.SamplerBracketsIff | src/cpp/tick_engine/hermite.cpp:127-142 | the sampler's segment brackets every query time between the first knot and the last if and only if every interior knot time is positive |
| KnotVelocities.QueryTimesAreReached | src/cpp/tick_engine/hermite.cpp:111-125 | at speeds other than the pinned one, every query time inside the span is reached at every wire time after the start |
| KnotVelocities.HalfSpeedMisses | src/cpp/tick_engine/hermite.cpp:127-142 | at half speed, one tick and a nanosecond of splice residue into a path, the sampler plays the segment after the one it is in |
| KnotVelocities.MissedByANanosecond | src/cpp/tick_engine/hermite.cpp:127-144 | where the sampler does not bracket the query time it is less than a nanosecond early, and the sample is off the knot by at most 23 times the segment's rise over its length in nanoseconds |
| KnotVelocities.PinnedSpeedBrackets | src/airo_fanuc/driver.py:464-468 | at the pinned speed the truncation is exact and the sampler brackets every query time |
| KnotVelocities.SegmentPlayback | src/airo_fanuc/driver.py:130-179 | for any strictly increasing times and any positions, the cubic Hermite path of the derived velocities is monotone on each interval and stays between its two knots |
| KnotVelocities.UpperBound | src/cpp/tick_engine/hermite.cpp:130 | the first knot after a time |
| KnotVelocities.PlaybackStaysBetweenKnots | src/cpp/tick_engine/hermite.cpp:98-154 | at the pinned speed, for any increasing times, any positions and any wire times, every sample is an end knot or between the two knots around it, and samples of one interval come in order |
| KnotVelocities.BracketedPlayback | src/cpp/tick_engine/hermite.cpp:98-154 | at any speed, wherever the sampler brackets the query time |
| SampledPath.SampleMeetsKnots | src/cpp/tick_engine/hermite.cpp:98-154 | the sample at every knot time is that knot, whatever the velocities |
| SampledPath.SampleReachesEveryKnot | src/cpp/tick_engine/hermite.cpp:98-154 | and so is its limit from the left, so playback meets both ends of every interval |
| SampledPath.SampleNearsKnot | src/cpp/tick_engine/hermite.cpp:98-154 | the rate of that limit, in nanoseconds left, also where the sampler is a segment ahead |
| SampledPath.SampleLeavesKnot | src/cpp/tick_engine/hermite.cpp:20-41 | playback leaves a knot with that knot's velocity, up to the square of the fraction played |
| SampledPath.SampleReachesKnot | src/cpp/tick_engine/hermite.cpp:20-41 | and it reaches the next knot with that one's velocity |
| SampledPath.StraightSample | src/cpp/tick_engine/hermite.cpp:98-154 | where both tangents of an interval are its secant, every sample is on the straight line at the seconds elapsed |
| SampledPath.StraightPathIsPlayedStraight | src/airo_fanuc/driver.py:130-179 | so a submitted path with the same slope on three intervals plays the middle one straight |
| KnotVelocities.DerivedPathAcceptedIff | src/airo_fanuc/driver.py:1269-1340 | a path without velocities is accepted exactly when it has two knots or more, as many times, in range and increasing, and derived velocities within the limits; the first-knot check never refuses it |
| LeastSquares.SlopeMinimises | src/airo_fanuc/receive_interface.py:374-382 | slope and intercept minimise the squared residual over all lines |
| LeastSquares.ExactOnLines | src/airo_fanuc/receive_interface.py:374-382 | on samples of a line the slope is the line's |
| LeastSquares.VarianceIffSpan | src/airo_fanuc/receive_interface.py:376-379 | the time base is degenerate exactly when all stamps are equal |
| ReceiveInterface.VelocityAvailableIff | src/airo_fanuc/receive_interface.py:362-379 | a velocity is returned exactly when the window holds enough samples and spans enough time and is not degenerate |
| ReceiveInterface.VelocityIsBestFit | src/airo_fanuc/receive_interface.py:353-382 | whenever a velocity is returned no line fits any joint's samples better |
| ReceiveInterface.VelocityExactOnAffineMotion | src/airo_fanuc/receive_interface.py:353-382 | it is exact on affine motion |
| ReceiveInterface.SortSorts | src/airo_fanuc/receive_interface.py:369 | the window is ordered by stamp and is the same multiset of samples |
| ReceiveInterface.WindowIsRecent | src/airo_fanuc/receive_interface.py:366 | the window holds every recent sample of the ring, as often as it is there, and nothing else |
| ReceiveInterface.MaxAbsIsMax | src/airo_fanuc/receive_interface.py:413 | the largest magnitude over the joints |
| ReceiveInterface.SettledIff | src/airo_fanuc/receive_interface.py:400-420 | settled exactly when there is a sample, every joint's velocity is within the threshold and, if asked, some joint moved enough |
| ReceiveInterface.SettleReports | src/airo_fanuc/receive_interface.py:400-420 | the reason reported is the first check that fails, with the number of recent samples |
| ReceiveInterface.LargestReported | src/airo_fanuc/receive_interface.py:412-413 | the velocity reported is the largest of the joints', and none when there is none |
| ReceiveInterface.ChangedIff | src/airo_fanuc/receive_interface.py:414-418 | the largest change reaches the bound exactly when some joint's does |
| ReceiveInterface.DatasetIsClean | src/airo_fanuc/receive_interface.py:426-531 | over any run of captures and resets the dataset has one source, never `rmi_unconverted`, with consecutive poses at least `min_change_deg` apart |
| ReceiveInterface.CaptureKeepsClean | src/airo_fanuc/receive_interface.py:443-486 | one capture keeps the dataset clean and the memory of it right |
| ReceiveInterface.PolicyRestoresStreamFrame | src/airo_fanuc/receive_interface.py:497-531 | a pose whose J3 was reported less J2 is given back as it was when the conversion is confirmed, and a sample of another source is left alone |
| ReceiveInterface.PolicyRefusesIff | src/airo_fanuc/receive_interface.py:497-515 | the policy refuses exactly unconverted samples while the conversion is unconfirmed |
| ReceiveInterface.CaptureDecides | src/airo_fanuc/receive_interface.py:443-486 | when a capture is accepted, which error it raises otherwise, the pose accepted and what is remembered |
| ReceiveInterface.Interface.IngestSample | src/airo_fanuc/receive_interface.py:328-335 | appends to the bounded ring |
| ReceiveInterface.Interface.Decide | src/airo_fanuc/receive_interface.py:443-486 | in place: the capture decision, error by error, in the order of the source |
| ReceiveInterface.Interface.CaptureWith | src/airo_fanuc/receive_interface.py:443-486 | an accepted capture is appended to the dataset, which stays clean; a refused one changes nothing in it |
| ReceiveInterface.Interface.CaptureCalibrationSample | src/airo_fanuc/receive_interface.py:426-486 | the capture as called, with the settle result of the same window; what it accepts is the newest sample, in the frame of the stream |
| ReceiveInterface.Interface.ResetCalibrationDataset | src/airo_fanuc/receive_interface.py:488-491 | forgets the accepted samples |
| RmiFraming.CutAnywhere | src/airo_fanuc/rmi_client.py:1177-1201 | the lines of a stream cut anywhere are the lines of the first part and then those of its tail with the second part |
| RmiFraming.Session.TakeLine | src/airo_fanuc/rmi_client.py:1185-1191 | takes one line out of the buffer before it is decoded, so a malformed one is skipped without losing the place |
| RmiFraming.Session.Receive | src/airo_fanuc/rmi_client.py:1198-1201 | bytes are appended, a timeout keeps the partial line |
| RmiFraming.Session.ReadOneJson | src/airo_fanuc/rmi_client.py:1177-1201 | returns the next line decoded, or says it is malformed, timed out or dead, and has consumed exactly that |
| RmiFraming.Session.RxLoop | src/airo_fanuc/rmi_client.py:1087-1126 | dispatches exactly the decodable newline-split lines of what was delivered, with one trailing CR removed, and keeps the tail, for every chunking and any timeouts |
| RmiFraming.BoundedSurvives | src/airo_fanuc/rmi_client.py:1193-1197 | while every unfinished line fits 64 KiB no chunking kills the session |
| RmiFraming.SafeInEveryChunkingIff | src/airo_fanuc/rmi_client.py:1193-1197 | a stream is safe in every chunking if and only if every unfinished line of it fits |
| RmiFraming.BoundedIff | src/airo_fanuc/rmi_client.py:1193-1197 | that is, if and only if every line and the tail fit |
| RmiWire.OneLineEach | src/airo_fanuc/testing/wire.py:629-646 | whatever its strings hold, a printed request has no raw newline or CR in it |
| RmiWire.WireLines | src/airo_fanuc/testing/wire.py:629-646 | the lines of a concatenation of printed requests are their texts, each with its CR, and nothing is left over |
| RmiWire.FramingRoundTrip | src/airo_fanuc/testing/wire.py:629-646 | any concatenation of printed requests, cut into chunks anywhere, is read back as those texts in order |
| RmiReader.LoadsDumpsIff | src/airo_fanuc/testing/wire.py:629-646 | a printed request is read back as itself if and only if none of its strings has a surrogate pair split into two code points |
| RmiReader.ReadDumped | src/airo_fanuc/testing/wire.py:629-641 | whatever follows it, a printed value is what is read, with such pairs joined |
| RmiReader.IntText | src/airo_fanuc/testing/wire.py:629-641 | only a negative number is printed with a sign |
| RmiReader.RequestsArrive | src/airo_fanuc/rmi_client.py:1177-1201 | requests sent one after the other arrive as those requests, in order, however the bytes are cut up |
| RmiWire.BothEndsAgreeIff | src/airo_fanuc/testing/fake_crx_rmi.py:582-602 | client and controller read a line alike exactly when it does not end in two CRs |
| RmiDispatch.OneWaiter | src/airo_fanuc/rmi_client.py:820-926 | in every interleaving at most one request waits, and the installed waiter is that request's |
| RmiDispatch.RepliesEcho | src/airo_fanuc/rmi_client.py:1128-1148 | every reply returned echoes the identifier of its request, is no push packet and, unless an FRC_Call was asked for, no FRC_Call ack; no request gets two |
| RmiDispatch.RoutedIff | src/airo_fanuc/rmi_client.py:1128-1148 | a packet goes to the waiter if and only if it announces nothing and echoes the identifier in one of three fields; an announcement goes to the ring, anything else is an orphan |
| RmiDispatch.EchoIsReturned | src/airo_fanuc/rmi_client.py:1216-1229 | a reply that echoes the identifier of the request that waits is what the request returns |
| RmiDispatch.SessionGates | src/airo_fanuc/rmi_client.py:820-878 | only an open session takes a request, one at a time, and it installs that request's waiter |
| RmiDispatch.UnansweredEnds | src/airo_fanuc/rmi_client.py:879-926 | a request that cannot be sent or is not answered in time ends with nothing and leaves no waiter |
| RmiDispatch.SocketErrorFails | src/airo_fanuc/rmi_client.py:1150-1158 | a dead socket fails the request that waits, and closes the session only if the socket is still its own |
| RmiDispatch.EachPacketOnce | src/airo_fanuc/rmi_client.py:1128-1148 | each packet read goes to exactly one of a waiter's inbox and the ring, once |
| RmiDispatch.RingIsLatest | src/airo_fanuc/rmi_client.py:502-515 | the ring is the last at most 64 packets stashed since the last poll, in order, across reopens |
| RmiDispatch.BlockedReceiverFreedIff | src/airo_fanuc/rmi_client.py:879-906 | the receiving thread, blocked on a full inbox, ever goes on if and only if that request still waits |
| RmiDispatch.ReceiverCanBlockForever | src/airo_fanuc/rmi_client.py:900-906 | two matching packets that arrive as a request times out block it for good |
| RmiDispatch.Client.Dispatch | src/airo_fanuc/rmi_client.py:1128-1148 | in place: push packet or orphan to the ring, matching reply to the waiter |
| RmiDispatch.Client.StashAsyncPacket | src/airo_fanuc/rmi_client.py:1160-1175 | appends to the ring, evicting the oldest of 64 |
| RmiDispatch.Client.PollAsyncPackets | src/airo_fanuc/rmi_client.py:502-515 | returns and clears what was stashed since the last poll |
| SequenceId.CallDroppedIff | src/airo_fanuc/testing/fake_crx_rmi.py:449-479 | for every run, a call whose number comes from a status is dropped if and only if, between the controller's reading of that status and the delivery, a call with that number or a higher one was accepted and not followed by a disconnect |
| SequenceId.UnaskedCallDroppedIff | src/airo_fanuc/testing/fake_crx_rmi.py:449-479 | for every run, a call of a client that never asked is dropped if and only if its number was overtaken or the controller was past it from the start, with no disconnect since |
| SequenceId.NoCallDropped | src/airo_fanuc/rmi_client.py:725-803 | over any calls, losses, swallowed timeouts, late and stashed replies, reopens, disconnects and restarts in which no call is sent between a status request and the assignment of what it brought, the client's next id is never below the controller's and no call numbered from a status is dropped or overtaken |
| SequenceId.RacedReseedDropsIff | src/airo_fanuc/rmi_client.py:725-739 | from every reachable state with nothing on the wire: the first call after a public reseed assigns is dropped if and only if its number was overtaken since the controller read it |
| SequenceId.RacedReseedDrops | src/airo_fanuc/rmi_client.py:725-739 | a run, from any expected number, in which a call slips in before the assignment and the next call is dropped |
| SequenceId.LateReplyDrops | src/airo_fanuc/rmi_client.py:1053-1064 | a status request given up without closing the socket lets even the locked reseed go backwards |
| SequenceNumbers.NumbersInOrder | src/airo_fanuc/rmi_client.py:777-792 | calls are numbered one by one, those that never reach the wire included |
| SequenceNumbers.BurstIsAccepted | src/airo_fanuc/rmi_client.py:777-792 | while the controller is not past the client, any calls with any losses are accepted under their own numbers, in order |
| SequenceNumbers.RestartedCallDroppedIff | src/airo_fanuc/rmi_client.py:355 | the first call of a new process that does not ask is dropped exactly by a controller that expects more than 1 |
| SequenceNumbers.ReseedHeals | src/airo_fanuc/rmi_client.py:1027-1044 | with the locked reseed it is accepted, whatever the controller expects |
| SequenceNumbers.AssignedNumber | src/airo_fanuc/rmi_client.py:725-739 | a public reseed takes the number as it is, a locked one at least 1 |
| SequenceNumbers.DisconnectResets | src/airo_fanuc/testing/fake_crx_rmi.py:474-479 | a disconnect that arrives puts the controller back to 1 and leaves the client's number alone |
| SequenceNumbers.LockIsExclusive | src/airo_fanuc/rmi_client.py:777 | while a request is under way nobody else sends |
| SequenceNumbers.NoReplyAcrossBreak | src/airo_fanuc/rmi_client.py:1087-1110 | no reply to what was asked before a break of the connection arrives after it |
| SequenceNumbers.NoReplyAcrossRestart | src/airo_fanuc/rmi_client.py:355 | nor does a new process get one, and it starts at 1 with nothing read |
| SequenceNumbers.ReplyGoesOnce | src/airo_fanuc/rmi_client.py:1128-1148 | a reply serves one request at most |
| SequenceNumbers.Client.ProgramCall | src/airo_fanuc/rmi_client.py:777-803 | in place: each attempt takes a number of its own, and the second is made only when the first raises |
| SequenceNumbers.Client.ReseedLocked | src/airo_fanuc/rmi_client.py:1035-1044 | in place: the number of the status, at least 1 |
| SequenceNumbers.Client.Reseed | src/airo_fanuc/rmi_client.py:736-739 | in place: the number of the status, whatever has been sent since |
| SequenceId.Controller.HandleCall | src/airo_fanuc/testing/fake_crx_rmi.py:449-472 | acknowledges and launches exactly the calls not below the expected number |
| SequenceId.Controller.HandleDisconnect | src/airo_fanuc/testing/fake_crx_rmi.py:474-479 | resets the expected number to 1 |
| SequenceId.Controller.HandleGetStatus | src/airo_fanuc/testing/fake_crx_rmi.py:376-396 | reports the expected number, whether or not anyone is left to receive it |
| BringUp.HistoryStacksIff | src/airo_fanuc/supervisor.py:151-346 | for any history of processes, bring-ups, retries, failures, silently dropped calls and operator stops, the controller at some point holds two forked dispatchers if and only if some bring-up stacks |
| BringUp.BringUpStacksIff | src/airo_fanuc/supervisor.py:151-304 | for any failures, a bring-up ends with more than it found, not counting a first one, if and only if an attempt that was made launched beside a live dispatcher its probe did not see, or launched with both sends of one call |
| BringUp.AtMostOneDispatcher | src/airo_fanuc/supervisor.py:151-346 | at every point of any history the controller holds one forked dispatcher at most, if every probe made beside a live one is answered and no launcher send both launches and raises |
| BringUp.AbortAllClears | src/airo_fanuc/supervisor.py:306-346 | an ABORT ALL leaves no dispatcher, and each bring-up goes on from what the history before it left |
| BringUp.OneLaunchPerBringUp | src/airo_fanuc/supervisor.py:245-280 | each bring-up makes at most one launcher call that returns, whatever fails |
| BringUp.FailedProbesBoundStacking | src/airo_fanuc/supervisor.py:306-346 | when no send both launches and raises, k probes made beside a live dispatcher and left unanswered add at most k |
| BringUp.ForksAreLaunches | src/airo_fanuc/supervisor.py:195-304 | when no send both launches and raises, a bring-up adds at most the calls that returned, and exactly those if the controller dropped none |
| BringUp.LiveDispatcherIsKept | src/airo_fanuc/supervisor.py:259-280 | a bring-up that finds a live dispatcher adds none if and only if no call of it that follows an unanswered probe launches |
| BringUp.OnceStacksIff | src/airo_fanuc/supervisor.py:195-304 | the same of one run of the ladder |
| BringUp.LatchLiesIff | src/airo_fanuc/supervisor.py:239-276 | a bring-up ends with the latch set and no dispatcher running if and only if it found none and one of its calls returned although the controller had dropped it |
| BringUp.LatchedLaunchesNothing | src/airo_fanuc/supervisor.py:245 | with the latch set nothing more is launched, so a bring-up whose latch lies ends without a dispatcher |
| BringUp.FirstBringUpStacksIff | src/airo_fanuc/rmi_client.py:777-803 | with probes that are answered once there is a dispatcher, a bring-up that starts with none ends with two if and only if its first call to launch did so with its first send, which raised, and again with its second |
| BringUp.DeliveredAndRaisedStacks | src/airo_fanuc/supervisor.py:274-276 | so a first bring-up with a perfect probe can end with two dispatchers |
| BringUp.VerdictIff | src/airo_fanuc/supervisor.py:151-193 | a bring-up is up if and only if some attempt it made got through, and blocked if and only if the preflight of some attempt it made blocked |
| BringUp.RetriedIff | src/airo_fanuc/supervisor.py:151-193 | another attempt is made if and only if the one before was made, was not blocked and did not get through |
| BringUp.AliveIff | src/airo_fanuc/supervisor.py:306-346 | a probe is answered exactly when its writes go through and a dispatcher runs before any read breaks |
| BringUp.CallOutcome | src/airo_fanuc/rmi_client.py:777-803 | the second send is made only when the first raises, and each launches or not by itself |
| BringUp.LatchedIff | src/airo_fanuc/supervisor.py:239-280 | the latch ends set if and only if some attempt found a dispatcher or had its launcher call return |
| BringUp.Supervisor.GripdispAlive | src/airo_fanuc/supervisor.py:306-346 | alive exactly when the writes go through and the dispatcher clears the trigger before a read breaks or the polls end |
| BringUp.Supervisor.ProgramCall | src/airo_fanuc/rmi_client.py:777-803 | two attempts; how often it launched, and whether it returned, which says nothing about launching |
| BringUp.Supervisor.BringupOnce | src/airo_fanuc/supervisor.py:195-304 | one run of the ladder, with the latch set as soon as the launch returns |
| BringUp.Supervisor.Bringup | src/airo_fanuc/supervisor.py:151-193 | the retries, with the latch armed once for all of them |
| Lifecycle.StreamingIff | src/airo_fanuc/lifecycle.py:136-158 | streaming is observed exactly in a holding or moving mode with no fault, and recovering never is |
| Lifecycle.ObservedState | src/airo_fanuc/lifecycle.py:136-158 | when each state is observed: lost, disconnected, degraded, faulted and streaming, from the mode, the fault and the command session |
| Lifecycle.RequiresArmIff | src/airo_fanuc/lifecycle.py:112-128 | the e-stop and the controller alarm are the arm-class faults |
| Recovery.AcceptingIsArmed | src/airo_fanuc/supervisor.py:827-990 | over every interleaving a driver that accepts motion is streaming with no fault and, with the gate on, was armed since the last e-stop, controller alarm or operator-required stop recorded; the gate refuses in exactly the other case |
| Recovery.InhibitedIff | src/airo_fanuc/supervisor.py:827-990 | with the gate on, motion is inhibited if and only if an e-stop, an alarm or an operator-required stop was recorded and nobody has armed since |
| Recovery.NeverInhibitedUngated | src/airo_fanuc/supervisor.py:978 | with the gate off nothing inhibits motion |
| Recovery.AlarmRefusesUntilArmed | src/airo_fanuc/supervisor.py:432-459 | an e-stop or alarm seen by the watch thread on an open stream refuses motion until somebody arms, whatever else happens |
| Recovery.AlarmLatchesIff | src/airo_fanuc/supervisor.py:446-459 | an observed e-stop or alarm latches the gate if and only if no ladder runs, no shutdown is under way and the stream is not down |
| Recovery.AlarmInLadderGoesUnarmed | src/airo_fanuc/supervisor.py:448 | a run in which an e-stop is observed inside a ladder and motion is accepted afterwards with nobody arming |
| Recovery.OperatorFlagIsLogged | src/airo_fanuc/supervisor.py:799-819 | only an operator-required stop raises the operator flag, and its end takes it back |
| Recovery.ArmRestoresMotion | src/airo_fanuc/supervisor.py:827-909 | a bring-up ends accepting motion, and so does any idle state once somebody arms and a clean stream is observed; a ladder that commits accepts unless the gate is latched |
| Recovery.WatchAcceptsIff | src/airo_fanuc/supervisor.py:446-459 | what one observation does: a fault refuses motion, a clean streaming mode accepts it unless the gate is latched, a stream that is down changes nothing |
| Recovery.ShutdownRefuses | src/airo_fanuc/supervisor.py:915-919 | a shutdown refuses motion and keeps the fault |
| Recovery.NoLadderLeavesRecovering | src/airo_fanuc/supervisor.py:512-534 | at most one ladder runs, and once all are gone the driver is not recovering |
| Recovery.RefusedUntilBodyEndsIff | src/airo_fanuc/supervisor.py:512-618 | from a ladder's RECOVERING step until its body ends no motion is accepted whatever else happens, arming included, if and only if no earlier ladder was still about to reclassify |
| Recovery.LateReclassifyAcceptsMotion | src/airo_fanuc/supervisor.py:528-542 | a run in which an earlier ladder's reclassification accepts motion in the body of the next |
| Recovery.StepGates | src/airo_fanuc/supervisor.py:947-990 | every step keeps the gate latched exactly when an arm-class event is not followed by an arm |
| Recovery.Supervisor.RunRecoveryLadder | src/airo_fanuc/supervisor.py:512-542 | alone: refused while one runs; else its outcome, the state it leaves, and the gate latched for the fault it recovers from, an operator stop or the fault observed at its end |
| Recovery.Supervisor.BeginLadder | src/airo_fanuc/supervisor.py:512-524 | takes the flag, records RECOVERING with the fault read, and latches the gate if that fault is arm-class |
| Recovery.Supervisor.RunBody | src/airo_fanuc/supervisor.py:544-618 | the ways a ladder body ends, and what each leaves in state, fault, operator flag and gate |
| Recovery.Supervisor.EndLadder | src/airo_fanuc/supervisor.py:527-534 | clears the flag first, and after a failure reclassifies |
| Recovery.Supervisor.ReclassifyNow | src/airo_fanuc/supervisor.py:536-542 | records the observed state, which is not RECOVERING, unless shutting down, and latches the gate on an arm-class fault |
| Recovery.Supervisor.ArmMotion | src/airo_fanuc/supervisor.py:827-836 | lifts the gate and nothing else |
| Recovery.Supervisor.WatchTickOnce | src/airo_fanuc/supervisor.py:432-459 | records the observed state unless shutting down or recovering |
| Recovery.Supervisor.SetStateLocked | src/airo_fanuc/supervisor.py:950-974 | records state and fault and latches the gate on an e-stop or an alarm |
| Recovery.Supervisor.CommandRejected | src/airo_fanuc/supervisor.py:900-909 | refuses exactly when inhibited or not streaming |

## Left out

- Memory ordering weaker than sequential consistency, and the wrap-around of 64-bit counters (sequence numbers, motion ids, stop generations, ring indices before masking).
- Rounding: positions, velocities and seconds are reals; the gain of the phase servo is a rational and its product is truncated exactly.
- Pll.RebaseDropsWholeWindows: does not model the narrowing of the skipped-window count to `int`, which only a stall of months could show.
- Pll.LocksWithin: deadlines only; send times also carry the wake latency of the thread.
- BufferOwnership.OneOwner: one start-to-stop session; `stop()` clears the live buffers without draining the mailbox, so nothing is claimed across a restart. A buffer's number is never reused, where the allocator may reuse an address.
- StopPrecedence.StopWins: speaks of the target that is consumed; a stop request is read before the mailbox is drained, so a stop may also brake a newer motion one tick late.
- SubmissionFates.EachMotionRecordedOnce: assumes that the event ring of the tick core, drained on every tick, does not overflow within one.
- RealtimeLoop.Loop.Tick: what the control requests do once taken is part of the arbitrary effect before the consume.
- RealtimeCore.RunKeepsKinds: the two rings of the real-time core are queues there; their interleaved loads and stores are the subject of `SpscRing`.
- The tick core beyond consume and resolve: faults, gates, braking and dispatch are an arbitrary effect before and after the consume; Ruckig, capture and slew shaping are not part of this model.
- JointsAtRing.Ring.Nearest: a stamp and a query more than 2^63 nanoseconds apart, whose difference overflows in the source, are compared exactly here.
- KnotVelocities.PlaybackStaysBetweenKnots: positions only; the wire velocity and acceleration, the blend at the end of a path and paths of fewer than two knots are not modelled.
- KnotVelocities.DerivedPathAcceptedIff: array shapes beyond the lengths, and non-finite values, which reals do not have.
- ReceiveInterface.SettledIff: without the age of the newest sample, which is only reported.
- ReceiveInterface.Interface.CaptureCalibrationSample: one caller at a time; the polling threads only append to the ring.
- RmiFraming.Session.RxLoop: what `json.loads` makes of a line is a parameter; one socket's life, since the buffer is reset with the socket.
- RmiWire.FramingRoundTrip: the text of a float is a printable parameter; lists do not occur in requests.
- RmiReader.LoadsDumpsIff: a decoder of the printer's own spacing, not of all JSON; objects are lists of fields; a float comes back as its text.
- RmiDispatch.RepliesEcho: no reply-to-request bijection, because a late reply can serve a later request of the same name; a packet is an object whose routing fields are strings or absent.
- SequenceId.CallDroppedIff: requests arrive in order across a reopen, and one client at a time talks to the controller.
- BringUp.AtMostOneDispatcher: what the operator does is a full ABORT ALL, between bring-ups; a dispatcher that dies by itself is not modelled.
- Recovery.AcceptingIsArmed: starts from the end of a bring-up; the bring-up after a shutdown, the cooldown and the conditions that start a ladder are left to the schedule.
- The completion latch of the gripper worker, the packet codecs of Stream Motion, the republisher, the ownership lock, preflight, profiles and examples: thin, finite or input and output.
- Sockets, timers, threads and logging: their effects are actions or parameters.

# Klipper's motion and communication pipeline in Dafny

Klipper splits the control of a 3D printer between a host and a micro-controller. The host plans
speeds, turns motion into step times, compresses the step times into commands and sends them over
a serial link. The micro-controller takes the commands in, keeps them in queues and plays them
from a timer list. This project models that pipeline and proves what holds in every run of it.

* **Look-ahead planner** (`Lookahead*.dfy`, `MoveQueue.dfy`, `Trapq.dfy`, `Trajectory.dfy`). A
  backward pass picks junction and cruise speeds for a growing queue and may release a prefix
  early. Speeds are squared and exact. `LookaheadPlan` states what the plan of a queue is, without
  the pass; the pass in `MoveQueue` is proved to compute it, and `LookaheadBest` that its speeds
  are the greatest the limits allow. The central fact is finality: what is released early never
  changes, whatever moves come later.
* **Step compression** (`StepLine`, `CompressSearch`, `StepCheck`, `StepReplay`, `StepHistory`,
  `StepSound`, `StepQueue`). One command stands for up to 65535 steps. `StepReplay` says what steps
  a list of commands stands for in the 32-bit clock of the micro-controller, and the host object
  keeps the invariant that replaying what it sent meets what was requested, step by step.
* **Steppers** (`StepperMcu`, `StepperPosition`, `StepperPlayback`, `Stepper`, `Trsync`). The
  interrupt side plays the commands in any interleaving with their arrival. `StepLink` joins it to
  the host side.
* **Move slots** (`SlotHeap`, `StepperSync`, `SlotLink`). The commands of several steppers are
  merged, and a binary heap of release clocks rations the slots of the micro-controller.
  `SlotLink` follows the commands through the sender.
* **Serial link** (`SerialHost`, `SerialLog`, `SerialLink`, `SerialProof`, `SerialTheorems`,
  `SerialQueue`, `SendQueue`, `SenderLink`). Go-back-N with four-bit numbers over two links that
  keep order but lose blocks. Host and micro-controller are step relations; fields called history
  are not looked at by any decision. `SerialLog` holds what the host keeps whatever messages
  arrive. `SenderLink` follows the commands of one queue from the sender over the link.
* **Framing** (`CheckSum`, `Framing`, `Input`, `Vlq`, `CommandLink`). Finding blocks in a byte
  stream, on both sides, and the integers inside them.
* **Timers** (`TimerOrder`, `TimerList`, `Sched`). A linked list sorted on a clock that wraps.
* **Pins and move nodes** (`PinSafety`, `DigitalOut`, `PwmOut`, `PinObjects`, `PinTimer`,
  `MovePool`). The safety timeout of outputs, with the checks of the scheduler in it, and the pool
  of nodes shared by all queues. `PinTimer` has the timer of a pin in the list of the scheduler.
* `Word32` holds the 32-bit words of clocks that all parts use.

Where the original updates objects in place there is a class. Its `Valid` ties the fields to a
ghost record of what happened: steps issued and commands taken, output settings made, blocks
built and acknowledged, messages sent. Each method says what it keeps of that and what it adds.
Results about runs are lemmas about the value model.

Five things do not hold without a condition.

* The 32-bit closed form of the last step clock is exact only for the counts that
  `ClosedFormExactIff` gives, which all accepted commands have (`TicksExact`).
* A completion notice may carry the sent time of a block that was written twice
  (`NoticeTimeUnchecked`). `NoticeTimeExact` says for every notice whose time it carries and
  exactly when that block was written once.
* The heap of release clocks does not bound the slots in use by itself (`OutOfOrderOverruns`) but
  does so when commands are sent in their turn (`SlotsSuffice`), as they are through the one
  command queue (`SlotsOnTheWire`).
* The safety timeout of a pin can be missed, because clocks are compared by their 32-bit words.
  It is never missed by an update that comes when none is queued: whatever its word, it is in time
  or the pin or the scheduler shuts down (`UpdateKeepsPromise`, `UpdateInTime`, and `PinTimer.Move`
  on the list of the scheduler). But an update that waits behind another is compared only when
  that one is loaded. If it is then more than half a turn after the limit it is let pass. Its timer
  is taken for one that is past, unless the timer behind it is less than half a turn before it
  (`LateIff`, `PinTimer.CallAgain`); then the output stays too long. `LateUpdateSlips` is such a
  run, with the timers for which it is one. `LoadKeepsPromiseIff`, `PulseSlipsIff`,
  `ToggleSlipsIff` and `EventKeepsPromiseIff` say exactly when a timer event breaks the promise,
  and `RunSafeIff` in which runs it is kept. It is kept for all words of updates if some other
  timer is always due within the maximum and cycles are short (`RunSafe`); the periodic timer of
  the scheduler is such a timer for a maximum of at least its period of 100 ms.
* Timers that a callback adds in front of its own timer are lost unless that timer is called again
  before the one behind it. `Scheduler.Dispatch` has the exact condition.

## Model

| member | source | states |
|---|---|---|
| LookaheadRun.CalcJunctionJoins | Klipper/klippy/toolhead.py:62-92 | whatever the cap from the corner angle, the start limits of a move never exceed what the previous move can reach by accelerating from its own, nor the cruise limits of either |
| LookaheadPlan.Continuity | Klipper/klippy/toolhead.py:127-178 | in the plan of any queue the squared end speed of a move is the squared start speed of the next |
| LookaheadPlan.PlanFeasible | Klipper/klippy/toolhead.py:93-107 | every planned move has start and end <= cruise <= max cruise, start <= max start, a positive cruise speed, and room for its ramps in the length of the move |
| LookaheadBest.StartIsGreatest | Klipper/klippy/toolhead.py:132-140 | the planned junction speeds allow the queue to come to a stop, and any others that do are nowhere higher |
| LookaheadBest.SmoothedIsGreatest | Klipper/klippy/toolhead.py:141-142 | the same for the smoothed speeds under the gentler acceleration |
| LookaheadBest.PeakIsGreatest | Klipper/klippy/toolhead.py:143-153 | for every speed: it is at most the peak of an accelerating move if and only if it is within the cruise limit and leaves room to come from and go to the smoothed junction speeds; a move that is all acceleration takes the peak of the next |
| LookaheadBest.CapIsLowest | Klipper/klippy/toolhead.py:154-162 | the cruise speed of moves that slow down is the lowest of the peak before them and the junction speeds since, and is one of these |
| LookaheadBest.CruiseIsGreatest | Klipper/klippy/toolhead.py:163-167 | any cruise speed higher than the planned one is above the cruise limit or the peak, or leaves no room to speed up and brake in the length of the move |
| LookaheadBest.PlanMeetsJunctions | Klipper/klippy/toolhead.py:158-167 | a move starts and ends at the greatest junction speeds, or at its cruise speed where that is lower |
| LookaheadFinality.LazyPrefixIsFinal | Klipper/klippy/toolhead.py:127-178 | the moves a lazy flush releases have the same plan in every extension of the queue |
| LookaheadFinality.LazyCountIsLast | Klipper/klippy/toolhead.py:143-153 | a lazy flush goes as far as the last peak behind which another one is known |
| LookaheadFinality.SuffixPlansAlone | Klipper/klippy/toolhead.py:127-178 | the plan of the moves that stay does not depend on the moves in front of them |
| LookaheadRun.ReleasedSpeedsMeet | Klipper/klippy/toolhead.py:127-187 | over every run of additions with lazy and full flushes the released speeds meet, also across flushes, the first starts at rest, and after a full flush the last ends at rest |
| LookaheadRun.EarlyReleaseIsInvisible | Klipper/klippy/toolhead.py:135-178 | over every run what was released since the queue was last empty is the plan of the whole batch with any moves that may still follow |
| LookaheadRun.NoMoveLost | Klipper/klippy/toolhead.py:135-187 | over every run the moves released and queued are the moves submitted, in order, each once |
| LookaheadRun.FlushedIff | Klipper/klippy/toolhead.py:127-187 | after any run, adding a move to a queue that is not empty brings on a lazy flush if and only if the move times joined since the look-ahead time was last set use it up; without a flush nothing is released, and a full flush releases everything |
| MoveQueue.Move.LimitSpeed | Klipper/klippy/toolhead.py:50-57 | lowers the cruise and acceleration limits to the smaller of old and new, the move time is that of the new speed exactly when it is lower, and the limits stay consistent |
| MoveQueue.Move.CalcJunction | Klipper/klippy/toolhead.py:62-92 | the start speed becomes the largest that the corner, both cruise limits and the reach of the previous move allow, which joins the two moves; moves that cannot be joined keep their start from rest |
| MoveQueue.PlanBackward | Klipper/klippy/toolhead.py:127-178 | the backward pass with its delayed moves releases exactly the final prefix, sets each released move once to its plan, whose speeds are the greatest allowed (LookaheadBest), and touches no other |
| MoveQueue.MoveQueue.Flush | Klipper/klippy/toolhead.py:127-178 | releases a prefix of the queue with the speeds of the plan, which are the greatest allowed (LookaheadBest), and keeps the rest |
| MoveQueue.MoveQueue.AddMove | Klipper/klippy/toolhead.py:179-187 | appends a move, joins it to the last one, and flushes lazily when the look-ahead time is used up; what that releases is the front of the queue, each move with its plan, set once |
| Trapq.PartsNonNegative | Klipper/klippy/toolhead.py:93-107 | the acceleration, cruise and deceleration distances of a feasible plan are not negative |
| Trapq.MoveDriven | Klipper/klippy/chelper/trapq.c:119-164 | the segments of a feasible plan are contiguous in time, position and speed, cover the length of the move and end at its end with the end speed |
| Trajectory.TrapQueue.AddMove | Klipper/klippy/chelper/trapq.c:97-116 | a trajectory that can go on where the segment starts, at once or after standing still, is extended without a gap to the end of the segment |
| Trajectory.FirstStandstill | Klipper/klippy/chelper/trapq.c:97-116 | an empty queue starts with a standstill of up to a second before the first segment, from time zero on |
| Trajectory.TrapQueue.Append | Klipper/klippy/chelper/trapq.c:119-164 | the non-empty parts of a move are added in order |
| Trajectory.ProcessMoves | Klipper/klippy/toolhead.py:316-328 | a list of released moves becomes their segments, one after the other, and the time after the last |
| Trajectory.RunIsDriven | Klipper/klippy/toolhead.py:296-328 | over every run of the planner, however the released moves are handed over and wherever the print time moves on while the queue is empty, their segments form one unbroken path in time, position and speed, at rest when the queue is empty |
| StepLine.IdivUp | Klipper/klippy/chelper/stepcompress.c:71-75 | the quotient rounded up, also for negative numbers |
| StepLine.IdivDown | Klipper/klippy/chelper/stepcompress.c:77-81 | the quotient rounded down, also for negative numbers |
| StepLine.WindowMeans | Klipper/klippy/chelper/stepcompress.c:87-98 | the window of a step is: not late, at most the error early, and at most half the way back to the step before |
| StepLine.BoundsComplete | Klipper/klippy/chelper/stepcompress.c:131-139 | narrowing the range of intervals never drops one that fits the window |
| CompressSearch.LongestSequence | Klipper/klippy/chelper/stepcompress.c:119-141 | the line found for one value of add fits all points before the next one, with the greatest interval in the range that does, and no interval in the range fits more |
| CompressSearch.NarrowAdd | Klipper/klippy/chelper/stepcompress.c:161-188 | the range of add never widens, and drops nothing but what deviates too far from the line found or cannot reach the next window |
| CompressSearch.Choose | Klipper/klippy/chelper/stepcompress.c:194-197 | the constant interval is chosen exactly when it covers all the steps of the best line but a sixteenth of its own count |
| CompressSearch.CompressBisectAdd | Klipper/klippy/chelper/stepcompress.c:107-199 | for every increasing queue the search ends with a line of 1 to 65535 steps and a 16-bit add that meets every window; it is at least as long as any line with a constant interval, covers two steps if any quadratic line does, and of all the lines tried none covers more, except by a sixteenth when a constant interval is preferred, and none reaches further, unless all is covered |
| StepCheck.CheckLine | Klipper/klippy/chelper/stepcompress.c:207-239 | the check accepts a command exactly when every step of its line lies in its window |
| StepCheck.ClosedFormExactIff | Klipper/klippy/chelper/stepcompress.c:345-350 | the 32-bit closed form of the last clock is the exact one modulo the word exactly when the count is at most 46341 or add is even |
| StepCheck.TicksExact | Klipper/klippy/chelper/stepcompress.c:341-350 | for every accepted command within the clock limit the quadratic term stays below the limit and the closed form is exact |
| StepCheck.SearchStaysInt32 | Klipper/klippy/chelper/stepcompress.c:119-163 | while the line found so far fits and the points are within the clock limit, the products for the next step, their differences to its window and the reach stay in 32 bits, and so does the triangle number unless add is zero |
| StepCheck.NarrowStaysInt32 | Klipper/klippy/chelper/stepcompress.c:162-188 | with an error of at most 0x30000 ticks, the products that narrow the range of add stay in 32 bits |
| CompressSearch.ReachGrows | Klipper/klippy/chelper/stepcompress.c:145-159 | of two lines that meet the same queue, the one that covers more steps reaches further |
| StepReplay.TravelIsLine | Klipper/src/stepper.c:103-116 | adding the growing gap step by step gives the quadratic line of the search |
| StepSound.SendingSound | Klipper/klippy/chelper/stepcompress.c:344-372 | sending a command keeps the invariant: replay of everything sent makes one step per request met, in order, never late and at most the error early, and the rest is still queued |
| StepSound.FarSound | Klipper/klippy/chelper/stepcompress.c:399-406 | sending a single step that is far away keeps it |
| StepSound.TurnSound | Klipper/klippy/chelper/stepcompress.c:409-425 | sending a direction keeps it |
| StepSound.RequestSound | Klipper/klippy/chelper/stepcompress.c:481-496 | queueing a step keeps it |
| StepQueue.EndClock | Klipper/klippy/chelper/stepcompress.c:345-350 | the 32-bit computation gives the clock of the last replayed step |
| StepQueue.StepCompress.constructor | Klipper/klippy/chelper/stepcompress.c:248-270 | an object without requests satisfies the invariant |
| StepQueue.StepCompress.AddMove | Klipper/klippy/chelper/stepcompress.c:344-372 | the queued command, its clocks, the last step clock and the position |
| StepQueue.StepCompress.QueueFlush | Klipper/klippy/chelper/stepcompress.c:375-396 | sends until the given clock is reached or the queue is empty, and nothing once it is reached; the check never fails, no request is lost and the invariant holds |
| StepQueue.StepCompress.SendFar | Klipper/klippy/chelper/stepcompress.c:399-406 | a step that is far away is requested and sent with one command of its own; the invariant holds |
| StepQueue.StepCompress.SetNextStepDir | Klipper/klippy/chelper/stepcompress.c:409-425 | a changed direction is sent after everything queued; an unchanged one sends nothing |
| StepQueue.StepCompress.AppendFar | Klipper/klippy/chelper/stepcompress.c:428-440 | a step out of reach is requested after what has to be sent first, and no more is sent than brings it within reach |
| StepQueue.StepCompress.AppendExtend | Klipper/klippy/chelper/stepcompress.c:443-478 | a queue that is used up is shortened to what one command can hold before the step is requested, without sending newer steps than that needs; any other is only extended |
| StepQueue.StepCompress.QueueAppend | Klipper/klippy/chelper/stepcompress.c:481-496 | the pending step becomes the next request, with its direction; in reach and without a turn nothing is sent, unless the queue is used up |
| StepQueue.StepCompress.Append | Klipper/klippy/chelper/stepcompress.c:501-528 | a step back within the filter time of the pending step, or before it, cancels it; otherwise that one is committed and the new one pends; the net number of steps is kept |
| StepQueue.StepCompress.Commit | Klipper/klippy/chelper/stepcompress.c:531-537 | the pending step, if any, is requested |
| StepQueue.StepCompress.Flush | Klipper/klippy/chelper/stepcompress.c:540-549 | everything up to the clock is committed and sent; while the pending step is later, nothing is sent once the clock is reached |
| StepperPosition.RunCounts | Klipper/src/stepper.c:282-308 | in every run, in both scheduling modes, while the position stays in range, the position told to the host is the signed number of steps issued |
| StepperPosition.StopFreezes | Klipper/src/stepper.c:311-328 | after a stop no step is issued and the position told stays, whatever is queued, until the step clock is reset |
| StepperPlayback.RunPlays | Klipper/src/stepper.c:64-171 | in every interleaving of commands and timer events, in both modes, the steps issued and those ahead are the steps the commands stand for, in order |
| StepperPlayback.RunOnTime | Klipper/src/stepper.c:141-171 | in the mode with two events per step, over every run, a step is made at the clock planned for it or, exactly when that is before the end of the pulse before it, at that end |
| StepperObject.Stepper.constructor | Klipper/src/stepper.c:184-207 | a configured stepper has made no step and satisfies the invariant |
| StepperPosition.LoadCounts | Klipper/src/stepper.c:64-100 | loading a move folds the position over so that it still holds the net number of steps |
| StepperPlayback.LoadAhead | Klipper/src/stepper.c:64-100 | after a load the steps ahead are those of the queued moves, in order and direction |
| StepperObject.Stepper.EventEdge | Klipper/src/stepper.c:103-116 | issues one step at the wake time in the direction of the pin; position and steps ahead stay true to what was issued and commanded, and the timer stops exactly when no step is left |
| StepperObject.Stepper.EventFull | Klipper/src/stepper.c:141-171 | every other event issues a step, made at its planned clock or, exactly when that is before the end of the pulse before, at that end; the pulse ends as early as allowed; position and steps ahead stay true, and the timer stops exactly when no step is left |
| StepperObject.Stepper.QueueStep | Klipper/src/stepper.c:220-250 | the steps of the command come after all others and none is issued or lost; a stopped stepper drops it, and only a count of zero is refused |
| StepperObject.Stepper.SetNextStepDir | Klipper/src/stepper.c:255-263 | the direction holds for the commands that follow, and the steps already ahead stay as they are |
| StepperObject.Stepper.ResetStepClock | Klipper/src/stepper.c:267-278 | refused exactly while a move is active; otherwise a new record of commands and steps starts at the given clock and the net number of steps is kept |
| StepperObject.Stepper.GetPosition | Klipper/src/stepper.c:282-295 | also in the middle of a move the position is the net number of steps issued, while that is in range |
| StepperObject.Stepper.Stop | Klipper/src/stepper.c:311-328 | no step is left and none is issued; in range, the net number of steps and the invariant are kept |
| StepLink.StepsMeetRequests | Klipper/klippy/chelper/stepcompress.c:344-440 | a stepper given the commands of the host, in any interleaving, makes one step per request in order and direction, within the error window and never late, with no error building up; once idle all are made; clocks are those of the 32-bit counter, so a step a whole turn or more after the one before meets its request up to whole turns |
| Trsync.TriggerSync.AddSignal | Klipper/src/trsync.c:84-95 | a signal goes on one list only |
| Trsync.TriggerSync.DoTrigger | Klipper/src/trsync.c:27-45 | a trigger stops every stepper on its list exactly once, with its net number of steps kept, and does nothing until armed again |
| Trsync.TriggerSync.ClearSignals | Klipper/src/trsync.c:98-112 | takes all signals off and disarms |
| Trsync.TriggerSync.StartSync | Klipper/src/trsync.c:114-127 | arms with an empty list |
| SlotHeap.RootIsLowest | Klipper/klippy/chelper/stepcompress.c:777 | the root of a heap is its lowest clock |
| SlotHeap.HeapReplace | Klipper/klippy/chelper/stepcompress.c:719-742 | swaps exactly the root for the new clock and keeps the heap order |
| Slots.SlotsSuffice | Klipper/klippy/chelper/stepcompress.c:655-661 | if commands are written in their turn and not before their clock, at no clock more slots are held than there are |
| Slots.OutOfOrderOverruns | Klipper/klippy/chelper/stepcompress.c:774-784 | the order is needed: two commands written out of order, which the one command queue does not do, can hold two slots where there is one |
| StepperSync.FindLowest | Klipper/klippy/chelper/stepcompress.c:760-773 | the queue whose first message has the lowest required clock, or that there is none |
| StepperSync.QueuesKeepOrder | Klipper/klippy/chelper/stepcompress.c:756-789 | a merged batch takes from each queue a prefix, in order, nothing lost or doubled |
| StepperSync.Sync.constructor | Klipper/klippy/chelper/stepcompress.c:674-693 | all slots are free at clock zero |
| StepperSync.Sync.AddCommands | Klipper/klippy/chelper/stepcompress.c:344-372 | commands that come in between flushes wait behind the others of their stepper; the invariant of all flushes is kept |
| StepperSync.Sync.Stamp | Klipper/klippy/chelper/stepcompress.c:777-784 | a message gets the lowest clock of the heap, and the release clock of a slot takes its place |
| StepperSync.Sync.Flush | Klipper/klippy/chelper/stepcompress.c:745-795 | messages are taken lowest first until a slot user is beyond the clock, and no slot user beyond it is taken; each gets the root of the heap as it is then |
| StepperSync.NeverTooMany | Klipper/klippy/chelper/stepcompress.c:655-661 | after any flushes, with commands added in between, at most the configured number of slots is held, if commands are sent in their turn |
| SlotLink.SlotsOnTheWire | Klipper/klippy/chelper/stepcompress.c:745-795 | after any flushes and any sending through the one command queue, at no clock do the commands sent hold more slots than the micro-controller has |
| SerialTheorems.DispatchesInOrder | Klipper/src/command.c:271-277 | over every run with any losses the blocks dispatched are a prefix of the blocks built, and host and micro-controller stay within the window of twelve |
| SerialTheorems.BlockTakenIff | Klipper/src/command.c:271-277 | over every run the micro-controller takes a block from the link if and only if it is the one awaited, and answers any other with the number awaited |
| SenderLink.Connection.DispatchedInOrder | Klipper/klippy/chelper/serialqueue.c:436-500 | however commands are handed in, blocks built from them, acks taken, blocks repeated and lost: the commands of one command queue that the micro-controller has dispatched are the first of those handed in to it, in order and each once |
| SenderLink.Connection.Build | Klipper/klippy/chelper/serialqueue.c:436-517 | a block is built exactly when one may be sent; it goes on the link with the commands that the sender took, and sender, host and run of the link stay in step |
| SenderLink.Connection.Deliver | Klipper/klippy/chelper/serialqueue.c:218-296 | a message that arrives takes the host where the run of the link takes it |
| SenderLink.Connection.RetransmitPending | Klipper/klippy/chelper/serialqueue.c:387-433 | so does writing the pending blocks again |
| SerialTheorems.WindowRespected | Klipper/klippy/chelper/serialqueue.c:502-517 | over every run, while more than one block is pending, the bytes not acknowledged, with those of the last block acknowledged while its own ack is outstanding, fit the receive window |
| SerialTheorems.SendableIff | Klipper/klippy/chelper/serialqueue.c:502-517 | over every run a block may be sent if and only if fewer than twelve are not acknowledged and, with a receive window and any of them pending, a full block fits beside their bytes and those of the last block acknowledged while its own ack is outstanding |
| SerialTheorems.MessagesUnderstood | Klipper/klippy/chelper/serialqueue.c:218-237 | the number rebuilt from four bits is the one the micro-controller meant; no message is refused and the connection is never taken for a new one |
| SerialTheorems.NoticesMeanFinished | Klipper/klippy/chelper/serialqueue.c:240-257 | notices are given once each and in order; each is given when its block is finished and after all responses of its block |
| SerialTheorems.NoticesNotLate | Klipper/klippy/chelper/serialqueue.c:240-257 | over every run, after a message those notices still wait whose blocks it does not say are finished |
| SerialTheorems.ResponsesInOrder | Klipper/klippy/chelper/serialqueue.c:265-274 | responses are handed over in the order sent, none twice and none invented |
| SerialTheorems.ResponseOfHandler | Klipper/src/command.c:306-324 | a response sent while a block is dispatched carries the number of that block |
| SerialTheorems.ResponseTimeExact | Klipper/klippy/chelper/serialqueue.c:265-270 | over every run each response carries the sent time of the block before the number acknowledged when it was handed over, if that number was beyond the last retransmission then, and else zero |
| SerialTheorems.AnswerRecorded | Klipper/klippy/chelper/serialqueue.c:265-270 | each response handed over is on record with its number and whether that was beyond the last retransmission |
| SerialTheorems.SamplesFromBlocksSentOnce | Klipper/klippy/chelper/serialqueue.c:186-206 | round-trip samples and sent times of responses come only from blocks written exactly once (section 3 of RFC 6298), and the timeout stays within its limits; ResponseTimeExact, RoundTripIff and TimeoutExact say which times and which samples |
| SerialTheorems.RoundTripIff | Klipper/klippy/chelper/serialqueue.c:184-188 | over every run an ack that moves the receive number gives a round trip if and only if it acknowledges the first block built since the last round trip or retransmission and the last block acknowledged has a sent time, from which it is measured |
| SerialTheorems.TimeoutExact | Klipper/klippy/chelper/serialqueue.c:186-206 | over every run the timeout is what the round trips give, doubled with every timeout since the last of them, up to five seconds |
| SerialTheorems.TimeoutOfTrips | Klipper/klippy/chelper/serialqueue.c:189-204 | round trips give the mean and four deviations, at least a millisecond, between 25 milliseconds and five seconds |
| SerialTheorems.SteadyTrips | Klipper/klippy/chelper/serialqueue.c:189-196 | for round trips that are all alike the closed form of mean and deviation: they come down by an eighth and a quarter of the rest |
| SerialTheorems.EstimateOverRuns | Klipper/klippy/chelper/serialqueue.c:186-206 | over every run, with round trips between lo and hi: the estimate is at least lo, exceeds hi by at most nine times hi shrinking by an eighth with each round trip, the deviation is bounded, and the timeout covers the estimate unless it is at its limit |
| SerialTheorems.NoticeTimeUnchecked | Klipper/klippy/chelper/serialqueue.c:252 | a notice can carry a sent time of a block that was written twice |
| SerialTheorems.NoticeTimeExact | Klipper/klippy/chelper/serialqueue.c:240-257 | over every run each notice carries the sent time of the block before the number acknowledged when it was given, and that block was written once if and only if the ack that brought the receive number there was beyond the last retransmission at that moment |
| SerialTheorems.AdvanceRecorded | Klipper/klippy/chelper/serialqueue.c:231-237 | each move of the receive number is on record with whether it was beyond the last retransmission |
| SerialTheorems.UnackedAccounted | Klipper/klippy/chelper/serialqueue.c:436-500 | the sent queue and its byte count are the blocks not acknowledged, and the retransmit timer is set while there are any |
| SerialTheorems.TimerIff | Klipper/klippy/chelper/serialqueue.c:207-214 | over every run the retransmit timer is set exactly while blocks are pending |
| SerialTheorems.NakIff | Klipper/klippy/chelper/serialqueue.c:258-264 | over every run a message has the pending blocks written again at once if and only if that was due and the receive number stays, or it is a second ack with the same number, beyond those for which the retransmissions so far say that naks are ignored, while blocks are pending |
| SerialTheorems.NaksDoNotFlood | Klipper/klippy/chelper/serialqueue.c:409-427 | a nak counts only as a second ack with the same number, and of three retransmissions caused by naks the third is beyond all that the first rewrote |
| SerialTheorems.OneGoodRoundRecovers | Klipper/klippy/chelper/serialqueue.c:387-433 | after any run, one retransmission and one round without loss dispatch and acknowledge every block built |
| SerialLog.RebuildExact | Klipper/klippy/chelper/serialqueue.c:223-229 | four bits determine a number less than sixteen ahead |
| SerialLog.NakTakenIff | Klipper/klippy/chelper/serialqueue.c:258-264 | whatever message arrives, exactly when the pending blocks are to be written again at once |
| SerialLog.MeasuredIff | Klipper/klippy/chelper/serialqueue.c:184-188 | whatever ack arrives, exactly when a round trip is measured, and which |
| SerialLog.HandleHost | Klipper/klippy/chelper/serialqueue.c:218-296 | whatever message arrives, the host's invariant holds after it: sent queue, bytes, times only from blocks written once, limits on naks, notices in order |
| SerialLog.BuildHost | Klipper/klippy/chelper/serialqueue.c:436-500 | the same when a block is built |
| SerialLog.RetransmitHost | Klipper/klippy/chelper/serialqueue.c:387-433 | the same when all pending blocks are written again |
| SerialProof.LooksLikeIs | Klipper/src/command.c:271-277 | a block on the link with the four bits awaited is the block awaited |
| SerialProof.RunKeeps | Klipper/klippy/chelper/serialqueue.c:157-500 | the invariant of the link holds over every run |
| SerialQueue.Queue.TakeAcked | Klipper/klippy/chelper/serialqueue.c:160-183 | acknowledged blocks leave the sent queue with their bytes; running out of blocks restarts the numbering |
| SerialQueue.Queue.UpdateReceiveSeq | Klipper/klippy/chelper/serialqueue.c:157-215 | exactly the blocks before the number leave the sent queue, it is on record whether the number was beyond the last retransmission, and the invariant holds |
| SerialQueue.Queue.ReleaseNotices | Klipper/klippy/chelper/serialqueue.c:240-257 | exactly the notices at the front that are due are handed over |
| SerialQueue.Queue.HandleMessage | Klipper/klippy/chelper/serialqueue.c:218-296 | any message keeps the invariant; it is thrown away without effect exactly when its number is beyond the last block sent, otherwise exactly the blocks before it are acknowledged and nothing handed over is taken back; a response is handed over with the sent time of the last block acknowledged exactly when its number is beyond the last retransmission |
| SerialQueue.Queue.RetransmitEvent | Klipper/klippy/chelper/serialqueue.c:387-433 | writes exactly the frames of the blocks not acknowledged, in order, and keeps the invariant that limits naks |
| SerialQueue.Queue.BuildBlock | Klipper/klippy/chelper/serialqueue.c:436-517 | builds exactly when fewer than twelve blocks are pending and a full block fits the receive window beside them; the frame is that of the next block, which waits for its ack behind the others with its notices asked for, and the invariant holds |
| SendLists.AdjustedClose | Klipper/klippy/chelper/serialqueue.c:777-780 | no message may be sent more than half a clock turn before it is required, except background ones |
| SendQueue.AdjustBatch | Klipper/klippy/chelper/serialqueue.c:774-782 | the earliest clocks of a batch and its bytes |
| SendQueue.Sender.SendBatch | Klipper/klippy/chelper/serialqueue.c:770-803 | any batch joins its queue behind everything there; counters, pending list and order are kept |
| SendQueue.Sender.MakeReady | Klipper/klippy/chelper/serialqueue.c:524-539 | in every queue exactly the messages up to the first that has to wait become ready, in order |
| SendQueue.Sender.FindLowest | Klipper/klippy/chelper/serialqueue.c:442-456 | the ready message that is required first, or that none is required before the end of time |
| SendQueue.Sender.TakeFirst | Klipper/klippy/chelper/serialqueue.c:460-465 | one message leaves its queue, the queue leaves the pending list when empty, and the bytes are counted |
| SendQueue.Sender.BuildBlock | Klipper/klippy/chelper/serialqueue.c:436-482 | a block takes ready messages, each time the one required first, at most 64 bytes; what each queue has sent, block by block, grows by exactly what the block took from it; only when all that is ready is required at the end of time is none found, and messages that fit are all found, at least one per block |
| CheckSum.Crc16 | Klipper/klippy/chelper/msgblock.c:18-31 | the loop computes the check sum of the bytes |
| CheckSum.CrcStepDivides | Klipper/klippy/chelper/msgblock.c:23-29 | the update for a byte is the division of its eight bits by the CCITT polynomial |
| CheckSum.CrcOverBytes | Klipper/klippy/chelper/msgblock.c:18-31 | the check sum of no bytes has all bits set, and each byte is divided into that of the bytes before it |
| Framing.CheckAppend | Klipper/klippy/chelper/msgblock.c:34-69 | a verdict on the bytes at hand does not change when more arrive |
| Framing.CutsDoNotMatter | Klipper/klippy/chelper/serialqueue.c:327-346 | the blocks found do not depend on how reads cut the stream, and what is left amounts to the same |
| Framing.LittleIsLeft | Klipper/klippy/chelper/serialqueue.c:327-346 | fewer than 64 bytes are left after every read and they hold no complete block |
| Framing.FrameIsGood | Klipper/klippy/chelper/serialqueue.c:475-482 | what the sender builds is accepted by the checks of the receiver and carries the payload |
| Framing.FrameLayout | Klipper/klippy/chelper/serialqueue.c:475-482 | a frame is its length, its number under the direction bit, the payload, the check sum of these with the high byte first, and the sync byte |
| Framing.FramesFoundInChunks | Klipper/klippy/chelper/msgblock.c:34-69 | however it is cut, a stream of frames gives exactly these frames |
| Framing.Resynchronises | Klipper/klippy/chelper/msgblock.c:60-68 | after noise one sync byte is enough to find all frames that follow |
| Framing.CheckMeans | Klipper/klippy/chelper/msgblock.c:34-69 | a block is found exactly when the buffer begins with a frame; what is skipped is noise up to the next sync byte, where no frame can begin however the bytes go on |
| Input.InputBuffer.MsgblockCheck | Klipper/klippy/chelper/msgblock.c:34-69 | the length of the frame the buffer begins with, if it does; minus the noise to skip; zero only while a frame may be incomplete |
| Input.InputBuffer.InputEvent | Klipper/klippy/chelper/serialqueue.c:299-346 | one read gives all complete blocks; the loop ends |
| Vlq.VlqRoundTrip | Klipper/klippy/chelper/msgblock.c:71-102 | every 32-bit word is parsed back from its encoding, with the bytes behind it untouched |
| Vlq.EncodedDigits | Klipper/klippy/chelper/msgblock.c:71-86 | the encoding of a word is its groups of seven bits, highest first, each but the last with the top bit set |
| Vlq.ArgumentsRoundTrip | Klipper/klippy/chelper/msgblock.c:104-120 | a list of arguments is decoded as it was encoded |
| Vlq.ReadInt | Klipper/klippy/chelper/msgblock.c:88-102 | the loop parses one integer |
| CommandFind.FrameHandled | Klipper/src/command.c:245-277 | the micro-controller dispatches a frame exactly when it has the number awaited and answers any other with a nak |
| CommandFind.NoiseAnsweredOnce | Klipper/src/command.c:279-303 | between two naks for noise there is a valid block |
| CommandFind.FoundMeans | Klipper/src/command.c:245-303 | a block to dispatch is exactly a frame with the number awaited; a frame with another number is dropped whole and answered; other bytes dropped are noise where no frame can begin, answered exactly when no noise was since the last frame; and exactly when a sync byte or a frame is looked for next |
| CommandLink.Receiver.FindBlock | Klipper/src/command.c:245-303 | dispatches exactly a frame with the number awaited, which then moves on; answers a frame with another number; drops noise up to the next sync byte, answers it exactly the first time, and looks for a sync byte next exactly when there was none |
| TimerOrder.WordsOrderLikeClocks | Klipper/src/sched.c:67-82 | within half a turn the words compare like the clocks |
| TimerOrder.BeforeOneOfTwo | Klipper/src/sched.c:45-54 | every word is before exactly one of the periodic timer and the sentinel |
| TimerOrder.SearchStops | Klipper/src/sched.c:67-82 | for every word and whatever the order of the list, a search from before the periodic timer, or from it with a word not before it, stops by the sentinel |
| TimerOrder.CachedStops | Klipper/src/sched.c:168-178 | for every word, a search of an ordered list from the cached timer, which is not later, stops by the sentinel |
| TimerOrder.SearchFindsPlace | Klipper/src/sched.c:67-82 | for a wake time within half a turn of the others, a search from any timer not later finds the place after all equals |
| TimerOrder.CachedPositionIrrelevant | Klipper/src/sched.c:171-175 | a search from the cached timer gives the place a search from the head gives |
| TimerList.InsertTimer | Klipper/src/sched.c:67-82 | the timer is linked in at the place found and all other links are kept |
| TimerList.Unlink | Klipper/src/sched.c:129-137 | a timer is taken out of the links if it is there |
| Sched.Scheduler.constructor | Klipper/src/sched.c:17-64 | the list of the periodic timer and the sentinel, linked and in order |
| Sched.Scheduler.AddTimer | Klipper/src/sched.c:85-107 | a timer with any wake time is linked in before the sentinel, in front under a stand-in or among the others, and nothing else changes; it is refused exactly when its word is before both the current time and the head; near the others it goes to its place and the list stays sorted |
| Sched.Scheduler.DeleteTimer | Klipper/src/sched.c:121-143 | exactly the given timer leaves the list, if it was there; the order and the clock of the head are kept, so that the head is not after the timer taken out |
| Sched.Scheduler.DispatchDone | Klipper/src/sched.c:163-167 | exactly the head leaves the list; the order is kept |
| Sched.Scheduler.DispatchAgain | Klipper/src/sched.c:168-178 | in any list, sorted or not, whose search meets a later timer, and with any new wake time, the head stays exactly when its word is before that of the timer behind it, and else is linked in before the sentinel; near the others it goes to its place and a sorted list stays sorted |
| Sched.Scheduler.OrderedSearchEnds | Klipper/src/sched.c:168-178 | in every sorted list, for every new wake time and whatever timers are in front of it, the timer called stays before the next one or its search meets a later timer |
| Sched.Scheduler.Dispatch | Klipper/src/sched.c:146-179 | after a callback with any new wake time, which may have added timers in front of its own, the links are in order; the timers in front are kept if and only if there are none or the called timer is to be called again before the one behind it, and otherwise exactly they are lost; without them the wake time returned is that of the new head, and near wake times and the periodic timer, which takes the sentinel along, keep the list sorted |
| Sched.Scheduler.Reset | Klipper/src/sched.c:182-190 | only the periodic timer and the sentinel are left |
| DigitalOut.RunSafeIff | Klipper/src/gpiocmds.c:35-194 | over every run of updates and timer events, with the checks of the scheduler and whatever the words and durations: all along every setting that is pulsing or not the default was followed within the maximum and the timer rings by the deadline of the last one, or there is a shutdown, if and only if no timer event asks for a clock after the deadline that is not taken for one that is past |
| DigitalOut.RunSafe | Klipper/src/gpiocmds.c:35-194 | over every run in which some other timer is due within the maximum when that of the pin rings, and cycles are at most the maximum and less than half a turn, the promise is kept for all words of updates |
| DigitalOut.UpdatesOnTime | Klipper/src/gpiocmds.c:35-194 | over every run without a shutdown the updates queued are those made, in order, and those that wait, and each was made at a clock that has its word |
| DigitalOut.StepSafeIff | Klipper/src/gpiocmds.c:35-194 | one step from any state that keeps the promise keeps it, or shuts down, under exactly that condition; commands always do |
| DigitalOut.LateUpdateSlips | Klipper/src/gpiocmds.c:86-94 | a run in which an output with a maximum of 100 ticks stays on for more than half a turn, without a shutdown, exactly if no other timer is due in the first 101 ticks |
| DigitalOut.QueueRefusedIff | Klipper/src/gpiocmds.c:144-174 | for all words, an update is a shutdown exactly when none is queued and it is after the end of the setting by up to half a turn, or by that and whole turns, or its timer is found too close |
| DigitalOut.UpdateKeepsPromise | Klipper/src/gpiocmds.c:144-174 | every update keeps the promise, whatever its word: it comes in time or there is a shutdown by the pin or the scheduler |
| PinSafety.UpdateInTime | Klipper/src/sched.c:85-107 | a word that is not found to be after the end and is not refused by the scheduler, whose head is not after the end, stands for a clock between now and the end |
| PinSafety.ToggledUpdateInTime | Klipper/src/gpiocmds.c:160-165 | a word left to the next toggle, and not found to be after the end, stands for a clock after the toggle and by the end |
| PinSafety.LateIff | Klipper/src/sched.c:163-178 | a word not found to be after a limit rings after it if and only if it is more than half a turn after the limit and the timer behind is less than half a turn before it |
| PinTimer.Move | Klipper/src/sched.c:85-143 | a waiting timer moved to any word: refused exactly when the word is before both the current time and the head; taken, and not found to be after the end by which it was to ring, it waits at a clock between now and that end |
| PinTimer.CallAgain | Klipper/src/sched.c:146-179 | a timer that rings in a sorted list and asks for any word stays at the head if the word is before both its own clock and the timer behind, and else takes its place at the first clock that has the word, with the list sorted |
| PinTimer.NextByPeriodic | Klipper/src/sched.c:28-41 | in a sorted list the timer behind the one that rings is due by the periodic timer |
| DigitalOut.LoadRefusedIff | Klipper/src/gpiocmds.c:71-94 | for all clocks, loading a setting is a shutdown exactly when it has a limit and the next update is after it by up to half a turn, or by that and whole turns |
| DigitalOut.LoadKeepsPromiseIff | Klipper/src/gpiocmds.c:57-114 | loading a plain setting with a limit while another update waits keeps the promise or shuts down, unless that update is more than half a turn after the limit and the timer behind is less than half a turn before the update |
| DigitalOut.PulseSlipsIff | Klipper/src/gpiocmds.c:96-114 | a pulsing setting with no update behind it breaks the promise exactly when its on time is half a turn or more above the maximum and the timer behind is less than half a turn before its first toggle |
| DigitalOut.ToggleSlipsIff | Klipper/src/gpiocmds.c:35-54 | a toggle breaks the promise exactly when the next one is after the deadline, half a turn or more after the end of the setting, and the timer behind is less than half a turn before it |
| DigitalOut.ToggleEndsIff | Klipper/src/gpiocmds.c:35-54 | for all clocks, a toggle gives way to the load at the end of the setting exactly when it is at the end or after it by less than half a turn, or by that and whole turns |
| DigitalOut.DutyCycle | Klipper/src/gpiocmds.c:35-114 | n cycles after it was loaded, for every n the setting lasts for, a pulsing output is on and goes off after its on time, and on again at the start of the next cycle |
| DigitalOut.LoadPulsesIff | Klipper/src/gpiocmds.c:96-114 | a load starts to pulse exactly when its on time is neither zero nor the cycle time or more and the first toggle is before the end of the setting |
| DigitalOut.PulsingGoesOn | Klipper/src/gpiocmds.c:160-165 | an update after the next toggle leaves the pulses as they are, up to its own clock |
| PwmOut.RunSafeIff | Klipper/src/pwmcmds.c:22-104 | over every run, with the checks of the scheduler and whatever the words: all along every value that is not the default was followed within the maximum and the timer rings by the deadline of the last one, or there is a shutdown, if and only if no event asks for a clock after the deadline that is not taken for one that is past |
| PwmOut.RunSafe | Klipper/src/pwmcmds.c:22-104 | over every run in which some other timer is due within the maximum when that of the pin rings, the promise is kept for all words of updates |
| PwmOut.UpdatesOnTime | Klipper/src/pwmcmds.c:22-104 | over every run without a shutdown the updates queued are those made, in order, and those that wait, and each was made at a clock that has its word |
| PwmOut.EventRefusedIff | Klipper/src/pwmcmds.c:22-64 | for all clocks, an event is a shutdown exactly at the safety timeout, or when the setting has a limit and the next update is after it by up to half a turn, or by that and whole turns |
| PwmOut.QueueRefusedIff | Klipper/src/pwmcmds.c:82-104 | for all words, an update is a shutdown exactly when none is queued and it is after the safety timeout in the same way, or its timer is found too close |
| PwmOut.EventKeepsPromiseIff | Klipper/src/pwmcmds.c:28-64 | making a setting with a limit while another update waits keeps the promise or shuts down, unless that update is more than half a turn after the limit and the timer behind is less than half a turn before the update |
| PwmOut.UpdateKeepsPromise | Klipper/src/pwmcmds.c:82-104 | every update keeps the promise, whatever its word: it comes in time or there is a shutdown by the pin or the scheduler |
| PwmOut.LateUpdateSlips | Klipper/src/pwmcmds.c:56-63 | a run in which an output with a maximum of 100 ticks keeps its value for more than half a turn, without a shutdown, exactly if no other timer is due in the first 101 ticks |
| PinObjects.DigitalPin.ToggleEvent | Klipper/src/gpiocmds.c:35-54 | the output changes and stays so for its part of the cycle, or until the load at the end if the words say that comes first; a shutdown exactly when what it asks for is past and not tolerated; otherwise the promise is kept exactly when what it asks for is by the deadline or past |
| PinObjects.DigitalPin.EndOf | Klipper/src/gpiocmds.c:71-94 | when a setting ends, or that the next update is too late |
| PinObjects.DigitalPin.LoadEvent | Klipper/src/gpiocmds.c:57-114 | makes the next setting; a shutdown exactly when no update came, the next one is late for the setting by up to half a turn, or by that and whole turns, or what it asks for is past and not tolerated; otherwise the promise is kept exactly when what it asks for is by the deadline or past |
| PinObjects.DigitalPin.QueueOut | Klipper/src/gpiocmds.c:144-174 | queues an update behind the others and keeps the promise, whatever its word; the first is loaded at the first clock that has its word, at once or at the end of the pulses; a shutdown exactly when it is the first and is after the end of the current setting in that way or its timer is found too close |
| PinObjects.DigitalPin.UpdateOut | Klipper/src/gpiocmds.c:176-194 | sets the output at once and keeps the promise; a shutdown exactly when updates are queued or the timer of the safety timeout is found too close |
| PinObjects.PwmPin.PwmEvent | Klipper/src/pwmcmds.c:22-64 | makes the next setting; a shutdown exactly at the safety timeout, when the next update is late for the setting in that way, or when what it asks for is past and not tolerated; otherwise the promise is kept exactly when what it asks for is by the deadline or past |
| PinObjects.PwmPin.QueueOut | Klipper/src/pwmcmds.c:82-104 | queues an update behind the others and keeps the promise, whatever its word; the first takes effect at the first clock that has its word; a shutdown exactly when it is the first and is after the safety timeout in that way or its timer is found too close |
| MovePool.Pool.constructor | Klipper/src/basecmd.c:169-178 | all nodes are free and none is held |
| MovePool.Pool.Alloc | Klipper/src/basecmd.c:84-94 | takes the first free node; every node stays in exactly one place |
| MovePool.Pool.Free | Klipper/src/basecmd.c:75-81 | gives a node back; every node stays in exactly one place |
| MovePool.Pool.Push | Klipper/src/basecmd.c:111-122 | a node goes to the end of a queue |
| MovePool.Pool.Pop | Klipper/src/basecmd.c:125-131 | the first node leaves its queue |
| MovePool.Pool.StopQueue | Klipper/src/stepper.c:323-327 | all nodes of a queue become free and no other node moves; no node is lost |
| MovePool.Pool.QueueStep | Klipper/src/stepper.c:220-250 | active, the node waits on the queue; stopped or idle, it is free again at the end; no node is lost, except that a count of zero shuts down with exactly the node just taken held |
| MovePool.Pool.Load | Klipper/src/stepper.c:64-99 | the first node of a queue becomes free again, in steppers as in pins; no node is lost |
| MovePool.Pool.QueueUpdate | Klipper/src/gpiocmds.c:144-153 | a free node goes to the end of the queue of a pin; no node is lost, and a shutdown comes exactly when none is free |
| MovePool.Pool.Reset | Klipper/src/basecmd.c:152-165 | the free list holds all nodes, from any state |
| MovePool.Pool.Shutdown | Klipper/src/stepper.c:341-351 | from any state and in whatever order the shutdown handlers run, with steppers clearing their queue and then freeing what it links to, every node ends on the free list exactly once |

## Left out

- LookaheadRun.CalcJunctionJoins: the caps from the corner angle and the extruder are arbitrary non-negative numbers; their trigonometry is not modelled.
- Trapq.MoveDriven: speeds are exact reals with square roots given by their defining property; floating-point rounding is not modelled.
- CompressSearch.CompressBisectAdd: that the line is the longest of all quadratic lines is not claimed; the search is a heuristic there. It beats every constant interval, finds two steps whenever they can be covered, and keeps the best of the lines it tries.
- StepQueue.StepCompress.AppendExtend: the storage of the queue is a sequence; growing and moving the buffer is not modelled.
- StepperPosition.RunCounts: while the net position stays strictly between -2^30 and 2^30, as the folded position needs.
- StepperPlayback.RunPlays: in the mode with two events per step the clocks are those the steps are planned for; StepperPlayback.RunOnTime says at which clock the timer makes them.
- StepperObject.Stepper.EventFull: the check for a stepper too far in the past is commented out in the source and not modelled.
- Slots.SlotsSuffice: that commands are sent in their turn is a premise here; SlotLink.SlotsOnTheWire has it from the sender.
- SlotLink.SlotsOnTheWire: the clock at which a message is sent is the highest estimate reached so far; how well the host estimates the clock of the micro-controller is not modelled.
- SerialTheorems.DispatchesInOrder: from a synchronised start with numbers from two on; first contact and the debug file mode are not modelled, and corrupted blocks count as lost.
- SerialTheorems.OneGoodRoundRecovers: when timers fire is left open; events happen in any order that their guards allow.
- Framing.CutsDoNotMatter: the check sum is a function of the bytes; how well it detects errors is not claimed.
- Sched.Scheduler.Dispatch: timers that a callback adds or deletes itself are operations before it; a callback that deletes its own timer is not modelled.
- Sched.Scheduler.DispatchAgain: a search that meets no later timer, which runs off the end of the list in the source, is excluded; Sched.Scheduler.OrderedSearchEnds shows that sorted lists have none.
- DigitalOut.RunSafeIff: timers ring at their clocks; how much later the interrupt comes is not modelled, and whether the board tolerates a timer that is past (generic/timer_irq.c) is left open.
- DigitalOut.RunSafe: a special case that a caller can check; DigitalOut.RunSafeIff is for all runs.
- PwmOut.RunSafe: the same; PwmOut.RunSafeIff is for all runs.
- SenderLink.Connection.DispatchedInOrder: the micro-controller and the links are history, with events in any order that their guards allow.
- MovePool.Pool.QueueStep: whether the stepper is active and needs a reset are parameters; StepperObject.Stepper.QueueStep has the rest of the command.
- The conversion of motion to step times (itersolve.c and the kinematics): step clocks are an increasing input.
- Clock synchronisation, threads, pipes, file and CAN input and output, and the fast readers.
- The AVR variant of the step event, step pins and the history kept for past positions.
- Configuration, G-code, sensors, displays, flashing and the user interfaces.

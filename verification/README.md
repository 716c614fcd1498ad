# A verified model of galdr's motion core

galdr is a grbl-compatible CNC controller. This project models, in Dafny, what stands between a line of G-code and a
step pulse, and proves what holds of every run of it. It also models the checksummed frame its settings are kept and
sent in, and the counters behind its stall escapes.

`dafny verify dfyconfig.toml` checks everything.

| modules | what they model |
|---|---|
| `Lexer`, `Spelling`, `Gcode`, `GcodeLaws`, `GcodeCodes` | the tokenizer, the modal parser and the jog parser; what each code means on a whole line |
| `Base`, `Products`, `Commands`, `Blocks`, `Arcs`, `Kinematics` | commands, blocks, and how one straight move becomes a block |
| `BlockLaws`, `Feeds`, `Corners` | what a block says of its move; what a feed and a corner speed mean; when a block starts from rest |
| `Targets` | where the axis words of a move, jog, probe or recall lead, and the soft-limit travel |
| `Helix`, `ArcGeometry` | where an arc's chords lie and end |
| `LookAhead` | the reverse and forward passes, and the sense in which their result is the best possible |
| `PlannerState`, `PlannerObject` | the planner as a state with step functions, and the class that updates it in place |
| `PlannerRuns`, `Backpressure`, `Examples` | what every run of the planner keeps; full queues; concrete inputs on which naive claims fail |
| `Trapezoid`, `Dda`, `Motion`, `Periods` | the speed profile of a block, its exact integer step distribution, the bursts sent out, and step periods |
| `Timing` | when each tick of a block is due |
| `Execution`, `Chain` | planner and executor together: popped blocks are runnable, and when each can follow the one before |
| `Schedules` | the stored schedule is the quickest there is, in ticks |
| `Conservation`, `InFlight`, `ArcLimits` | no step is lost and soft limits hold, block by block and tick by tick; when an arc keeps to them |
| `Windows`, `Simulator` | planning through a bounded window, and the offline whole-program driver |
| `Probing`, `Homing` | the probe walk and the four-phase homing cycle |
| `Crc32`, `StorageFrame`, `HexCodec`, `PbReceiver` | the checksum, the frame, its hex text, and its reassembly from chunks |
| `Diag` | the history counters |

Shape of the model. Code that updates an object in place is a class whose methods are proved equal to functions on
values (`Planner.View() == Step(old(Planner.View()))`); the theorems about runs are about those functions. Loops are
loops. Speeds, lengths and feeds are exact reals and step counts are integers. The maths library is a parameter: only the
two facts that define a square root are used of it, except in `ArcGeometry`, which asks for the trigonometry of a circle
whose half turn is the source's own constant. A straight junction divides by zero to infinity in the source; over the
reals that case is the branch `sinHalf == 1`, which leaves the previous block's speed as the only cap.

Where the source's comments and its code differ, the code is followed. The comment at `storage_frame.rs:69-76` expects a
payload encoder that writes a wrong number of bytes to surface as a bad checksum; the code reports a bad length, because
the checksum of such a frame is right (`StorageFrame.WrongDeclaredLengthIsBadLength`). The comment at
`motion.rs:303-305` calls the period of a standstill the slowest representable one; the code gives it 30000 ticks, while a
slow crawl can be given 32767 and more (`Periods.StandstillIsSlowestIff`). The comment at `planner.rs:1573-1575` calls the
angle an arc is cut to equivalent to the largest that keeps the tolerance; the code cuts to half that angle, so the
tolerance is kept with about twice the chords it takes (`ArcGeometry.ChordsKeepTheToleranceIff`).

The comments at `planner.rs:852-855`, `889-890` and `898-899` have the active block brought to a stop at its boundary
when a jog is cancelled or a program stopped. The executor has read that block's exit speed when it popped it
(`crates/firmware/src/motion.rs:770-774`) and keeps to it: the machine stops there only if the block behind was to be
entered at rest (`Chain.FlushedChainEndsAtRestIff`, `Examples.CancelledJogRunsOn`).

Expectations one might have of the code that are false, each with its exact condition:

- A jog-cancel or a program stop does not bring the machine to rest at the end of the block in flight, unless the block
  behind it was to be entered at rest (`Chain.FlushedChainEndsAtRestIff`).
- A block queued after the queue was drained need not start at rest (`Corners.DrainedJunction`,
  `Examples.DrainedQueueForgetsTheStop`).
- A jog-cancel on a queue that also holds program moves need not leave a queue that can stop (`PlannerRuns.JogCancel`,
  `Examples.JogCancelLeavesARunaway`).
- A feed override above 100 % can ask for more braking than a block has room for (`Trapezoid.OverrideRealizedIff`), and
  one that changes between two blocks parts their speeds (`Execution.OverrideChangeIsContinuousIff`).
- A sharper corner may be taken faster than a flatter one (`Examples.SharperCanBeFaster`). For two accelerations no
  sharper corner is if and only if the sharper one's is no greater, no deviation is allowed or the block before stood
  still (`Feeds.CornersInOrderIff`); for two given directions `Corners.SharperIsNoFasterIff` says when.
- An arc accepted under soft limits may leave the envelope between its ends: it stays inside if and only if every chord
  that moves ends inside (`ArcLimits.AcceptedArcStaysInIff`, `Examples.AcceptedArcLeavesTheEnvelope`).
- A tolerance too fine for the finest cut of an arc is not kept (`ArcGeometry.ChordsKeepTheToleranceIff`).
- Homing towards negative sets a position outside the soft-limit envelope (`Homing.HomedZeroInEnvelopeIff`).

## Model

| member | source | states |
|---|---|---|
| LookAhead.PlanIsGreatest | crates/cnc-kinematics/src/planner.rs:1189-1247 | the two passes give the pointwise greatest schedule among all that meet every cap, every `2*a*d` bound, a stop at the tail and a committed head; and it is one of them |
| LookAhead.FreePlanIsGreatest | crates/cnc-kinematics/src/planner.rs:1189-1247 | with no committed head a greatest feasible schedule always exists, and the passes compute it |
| LookAhead.ReplanImproves | crates/cnc-kinematics/src/planner.rs:1189-1257 | replanning keeps every block's geometry and a busy head, and is at least as fast as any schedule that could be followed before |
| LookAhead.AppendKeepsPlan | crates/cnc-kinematics/src/planner.rs:946-986 | appending a block and replanning never lowers any queued entry speed, and the queue stays followable |
| LookAhead.OneRecalculateSuffices | crates/cnc-kinematics/src/planner.rs:1384-1441 | one recalculation after many enqueues equals one after each |
| LookAhead.ReverseInPlace | crates/cnc-kinematics/src/planner.rs:1208-1231 | an in-place right-to-left sweep is the reverse-pass function |
| LookAhead.ForwardInPlace | crates/cnc-kinematics/src/planner.rs:1236-1247 | an in-place left-to-right sweep is the forward-pass function |
| Kinematics.AxisLimitIsGreatest | crates/cnc-kinematics/src/planner.rs:1531-1540 | along a unit vector the limit is the greatest value that keeps every participating axis within its own limit |
| Kinematics.JunctionBounds | crates/cnc-kinematics/src/planner.rs:1147-1178 | a corner speed is never negative, never above the previous block's cruise, and zero without a remembered direction |
| Kinematics.BuiltBlockIsGood | crates/cnc-kinematics/src/planner.rs:991-1066 | every built block has a unit direction, the exact step delta, an entry cap below both neighbours' cruise, and cruise and acceleration within the own limit of every axis that takes part |
| BlockLaws.BlockIsItsSteps | crates/cnc-kinematics/src/planner.rs:991-1066 | on every axis a block's length times its direction times the axis's steps per millimetre is the block's steps, and those are the way from where the program was to the target |
| BlockLaws.DroppedIffNull | crates/cnc-kinematics/src/planner.rs:991-1030 | a move becomes no block if and only if it changes no step or is shorter than the length epsilon; a block's squared length is the sum over its axes |
| BlockLaws.RapidRunsAtARate | crates/cnc-kinematics/src/planner.rs:1071-1142 | a rapid cruises with some axis at exactly its own maximum rate a minute |
| BlockLaws.BlockKeepsTheSettings | crates/cnc-kinematics/src/planner.rs:1031-1066 | no axis that takes part exceeds its set rate or acceleration, and some axis that takes part is accelerated at exactly its own |
| BlockLaws.LegsAreTheirAxes | crates/cnc-kinematics/src/planner.rs:1101-1122 | the linear and the rotary leg are the lengths over the axes of each kind |
| BlockLaws.CornerIsOnItsCircle | crates/cnc-kinematics/src/planner.rs:1147-1178 | a corner that does not reverse is taken at the speed of the block before, or slower at the centripetal acceleration on the circle that touches both legs and passes the corner at the junction deviation |
| BlockLaws.StopsForgetTheCorner | crates/cnc-kinematics/src/planner.rs:672-770 | after a dwell, a probe, a recall, a pause, the program's end, a relocation, new settings or a flush the next block starts from rest, and position and queue are as they say; the other commands leave the planner alone |
| Feeds.FeedGovernsTheLinearLeg | crates/cnc-kinematics/src/planner.rs:1071-1122 | in G94 no move, pure rotary ones included, takes less time than its linear leg takes at the feed; one that no axis limit holds back takes exactly that time if and only if it has no rotary leg, both its legs are longer than the length epsilon, or the feed is zero |
| Feeds.InverseTimeIsADuration | crates/cnc-kinematics/src/planner.rs:1071-1090 | in G93 a move takes exactly its commanded duration unless an axis limit holds it back, and never less |
| Feeds.CornersInOrderIff | crates/cnc-kinematics/src/planner.rs:1147-1178 | for two accelerations the sharper of every two corners is taken no faster if and only if the sharper one's acceleration is no greater, no deviation is allowed, or the block before stood still |
| Corners.SharperIsNoFasterIff | crates/cnc-kinematics/src/planner.rs:1147-1178 | of two given directions the sharper is taken no faster if and only if it forces a stop, the flatter is straight or reaches the speed of the block before, or the sharper one's centripetal speed is no higher |
| Feeds.SharperCornersAreSlower | crates/cnc-kinematics/src/planner.rs:1147-1178 | in particular the sharper of two directions is taken no faster if its acceleration is no greater |
| Examples.SharperCanBeFaster | crates/cnc-kinematics/src/planner.rs:1147-1178 | a right angle in the plane taken more than three times as fast as a flatter climb with a weak Z axis |
| Corners.CornerStopsIff | crates/cnc-kinematics/src/planner.rs:1147-1178 | a corner forces a stop if and only if there is no remembered direction, it reverses, the previous block did not move, or no deviation is allowed and it is not straight |
| Corners.BuiltAtRestIff | crates/cnc-kinematics/src/planner.rs:991-1066 | a built block's entry cap is zero if and only if its corner forces a stop or it is a feed move without a positive feed |
| Corners.FirstLegOpens | crates/cnc-kinematics/src/planner.rs:672-986 | which block every operation puts at the front of an empty queue, or that it puts none |
| Corners.FreeHeadRestsIff | crates/cnc-kinematics/src/planner.rs:1189-1247 | a head nothing is committed to is planned at rest if and only if its cap is zero |
| Corners.DrainedJunction | crates/cnc-kinematics/src/planner.rs:642-648 | after a drained queue, whatever operation refills it and whatever is planned behind, the block popped next is entered at rest if and only if the move asked for starts at rest: its corner forces a stop, or it has no feed |
| Helix.HelixEndsOnTarget | crates/cnc-kinematics/src/planner.rs:1384-1400 | the last chord of an arc ends exactly on the commanded target on the normal and the rotary axis |
| ArcGeometry.ArcIsAboutItsCentre | crates/cnc-kinematics/src/planner.rs:1270-1345 | an arc is refused if and only if no offset is given in its plane or its radius is under the length epsilon; else it turns about the point its offsets name, between the directions of its start and its target |
| ArcGeometry.SweepTurns | crates/cnc-kinematics/src/planner.rs:1546-1567 | the sweep goes the commanded way, by at most a full turn, from one radius vector to the direction of the other |
| ArcGeometry.ChordsEndOnTheCircle | crates/cnc-kinematics/src/planner.rs:1384-1400 | every chord ends on the circle |
| ArcGeometry.ArcEndsTowardsItsTarget | crates/cnc-kinematics/src/planner.rs:1270-1400 | an arc begins where the program is, and its last chord ends in the direction of its target |
| ArcGeometry.ArcEndsOnATargetOnItsCircle | crates/cnc-kinematics/src/planner.rs:1270-1400 | an arc whose target is on its circle ends on exactly the commanded steps of all four axes |
| ArcGeometry.ChordsAreFewest | crates/cnc-kinematics/src/planner.rs:1572-1589 | the chords are the fewest that turn by at most the cut angle each, for every sweep of at most a full turn |
| ArcGeometry.ChordsKeepTheToleranceIff | crates/cnc-kinematics/src/planner.rs:1569-1589 | no chord of any sweep strays from its arc by more than the tolerance if and only if the tolerance is at least the diameter, or allows half the finest cut |
| ArcGeometry.ChordsShareTheDuration | crates/cnc-kinematics/src/planner.rs:1308-1316 | in G94 the chords carry the arc's feed; in G93 each is given its share of the arc's duration, together the whole of it |
| PlannerObject.Planner.ReversePass | crates/cnc-kinematics/src/planner.rs:1208-1231 | the in-place loop leaves exactly the reverse-pass speeds, all else unchanged |
| PlannerObject.Planner.ForwardPass | crates/cnc-kinematics/src/planner.rs:1236-1247 | the in-place loop leaves exactly the forward-pass speeds, all else unchanged |
| PlannerObject.Planner.Recalculate | crates/cnc-kinematics/src/planner.rs:1189-1200 | both passes together leave the optimal schedule of `LookAhead.PlanIsGreatest` |
| PlannerObject.Planner.PopBlock | crates/cnc-kinematics/src/planner.rs:642-648 | hands out the head and commits its successor; on an empty queue nothing changes |
| PlannerObject.Planner.EnqueueMove | crates/cnc-kinematics/src/planner.rs:968-986 | a null move is dropped, a full queue refuses without a change, else one block is appended and the trail moved |
| PlannerObject.Planner.PlanJog | crates/cnc-kinematics/src/planner.rs:856-871 | the whole new state and answer of a jog, limit check first |
| PlannerObject.Planner.PlanGoToPredefined | crates/cnc-kinematics/src/planner.rs:785-843 | the whole new state and answer of a recall: limits, then capacity, then both legs |
| PlannerObject.Planner.EnqueueArcChunk | crates/cnc-kinematics/src/planner.rs:1384-1441 | the loop feeds exactly the chords that fit and stores what remains |
| PlannerObject.Planner.ResumeArc | crates/cnc-kinematics/src/planner.rs:1350-1357 | continues the stored arc, or does nothing when none is pending |
| PlannerObject.Planner.PlanCommand | crates/cnc-kinematics/src/planner.rs:672-770 | the whole new state and answer for every command kind |
| Targets.MoveGoesWhereItsWordsSay | crates/cnc-kinematics/src/planner.rs:917-944 | an accepted move ends at the steps nearest to its words: work coordinates plus the offset, machine coordinates under G53, or the words away from where it was, inches counting 25.4 on linear axes only, an axis without a word staying; refused if and only if that is outside the travel, or then the queue is full |
| Targets.JogGoesWhereItsWordsSay | crates/cnc-kinematics/src/planner.rs:856-871 | the same of a jog |
| Targets.WholeStepsAreExact | crates/cnc-kinematics/src/planner.rs:917-944 | on whole steps the position less the offset, the position, or the change of position is exactly the word |
| Targets.ProbeGoesWhereItsWordsSay | crates/cnc-kinematics/src/planner.rs:672-770 | a probe is sent to the same target, and nothing is queued or moved |
| Targets.RecallGoesWhereItsWordsSay | crates/cnc-kinematics/src/planner.rs:785-843 | a recall goes over the point its words name, if any, to the steps nearest to the stored position; its two refusals, each if and only if |
| Targets.ArcGoesWhereItsWordsSay | crates/cnc-kinematics/src/planner.rs:1270-1345 | an arc is refused for the envelope if and only if its target is outside it, then for its geometry if and only if it has none, never for the queue; its last chord ends on the target on the normal and the rotary axis |
| Targets.TravelIsTheEnvelope | crates/cnc-kinematics/src/planner.rs:1499-1522 | a target violates the limits if and only if some linear axis is outside its travel by more than one step |
| PlannerObject.Planner.FlushJogBlocks | crates/cnc-kinematics/src/planner.rs:880-892 | drops exactly the trailing jog blocks and the junction state, without replanning |
| PlannerObject.Planner.FlushQueue | crates/cnc-kinematics/src/planner.rs:902-911 | drops every block and the junction state, and counts them |
| PlannerRuns.StepKeeps | crates/cnc-kinematics/src/planner.rs:642-986 | every operation keeps the queue followable and as fast as possible; one that removes nothing slows no queued block and leaves a busy head alone |
| PlannerRuns.EveryRunIsFollowable | crates/cnc-kinematics/src/planner.rs:508-1441 | from power-on, after any run of operations, the queue runs to a stop within every cap and no followable schedule is faster at any block |
| PlannerRuns.TailIsFastest | crates/cnc-kinematics/src/planner.rs:642-648 | popping the head leaves an optimal schedule for the rest without a recalculation |
| PlannerRuns.PoppedPairIsReachable | crates/cnc-kinematics/src/planner.rs:642-648 | the popped entry and the exit read for it are within cruise and reachable from each other over the block |
| PlannerRuns.CommittedHeadWaits | crates/cnc-kinematics/src/planner.rs:1208-1231 | until the next removal a committed head stays first, unchanged and committed, over any run |
| PlannerRuns.SpeedsMeetAtJunctions | crates/cnc-kinematics/src/planner.rs:642-648 | the exit used for a block is the entry of the block popped next, whatever was planned in between, if it was queued at the pop |
| PlannerRuns.JogCancel | crates/cnc-kinematics/src/planner.rs:880-892 | a jog-cancel keeps the invariant if and only if nothing is left or the newest remaining block can stop within its own length |
| Chain.ActJoinsIff | crates/firmware/src/motion.rs:770-774 | for every state and every operation, decided before it: whether what comes next is still entered at the speed the block in flight will be left at |
| Chain.PlanningJoinsIff | crates/cnc-kinematics/src/planner.rs:642-986 | between two removals the chain goes on if and only if every single operation let it: a break is never mended |
| Chain.PowerOnRunsNeverJump | crates/cnc-kinematics/src/planner.rs:642-911 | from power-on, a run whose every operation passes that test has no jump of speed at any pop |
| Chain.FlushedChainEndsAtRestIff | crates/cnc-kinematics/src/planner.rs:873-911 | after a flush that empties the queue the executed chain ends at rest, or goes on from rest, if and only if the queue was empty or its front was to be entered at rest, whatever is planned in between |
| Chain.JogCancelOfPureJogs | crates/cnc-kinematics/src/planner.rs:873-892 | cancelling a queue of jogs alone empties it and keeps it well planned; the machine rests at the end of the jog in flight if and only if the next one was to be entered at rest |
| Examples.CancelledJogRunsOn | crates/cnc-kinematics/src/planner.rs:873-911 | two jogs in a line, the first in flight: cancelled, or stopped, the machine leaves it at ten millimetres a second with nothing behind |
| Examples.DrainedQueueForgetsTheStop | crates/cnc-kinematics/src/planner.rs:642-648 | two straight moves with a drained queue between: the second is planned to start at full speed from a standstill |
| Examples.JogCancelLeavesARunaway | crates/cnc-kinematics/src/planner.rs:880-892 | three straight moves, the last a jog: cancelling it leaves a tail too fast to stop |
| Schedules.StoredScheduleIsQuickest | crates/cnc-kinematics/src/planner.rs:1189-1257 | in every state a run can reach, no schedule that could be followed and keeps a committed head costs fewer ticks, summed over the queue as the estimator and the generator count them, than the stored one |
| Backpressure.RefusedCommandChangesNothing | crates/cnc-kinematics/src/planner.rs:672-770 | a command answered with an error leaves the planner exactly as it was |
| Backpressure.RefusedJogChangesNothing | crates/cnc-kinematics/src/planner.rs:856-871 | so does a refused jog |
| Backpressure.RecallIsAllOrNothing | crates/cnc-kinematics/src/planner.rs:785-843 | a recall either changes nothing or enqueues all its legs; once room is reserved it cannot fail |
| Backpressure.RecallRetry | crates/cnc-kinematics/src/planner.rs:785-843 | a refused recall retried after pops applies its legs once, from the original position |
| Backpressure.ChunkIsExact | crates/cnc-kinematics/src/planner.rs:1384-1441 | a chunk is never refused, what it adds followed by what remains is the arc, and a free slot always consumes a chord |
| Backpressure.NothingLostOrRepeated | crates/cnc-kinematics/src/planner.rs:1350-1441 | under every schedule of pops, what was fed followed by what remains is the whole arc |
| Backpressure.DrivenArcCompletes | crates/cnc-kinematics/src/planner.rs:1350-1441 | popping at least once before each resume finishes the arc in at most one resume per chord |
| Backpressure.ChunkedArcIsOneArc | crates/cnc-kinematics/src/planner.rs:1270-1441 | the chunks of an arc add up to the very blocks of the arc planned at once on an unbounded queue |
| Trapezoid.ProfileIsEnvelope | crates/cnc-kinematics/src/motion.rs:671-750 | the three-piece profile is the least of the entry ramp, the cruise and the exit ramp at every distance |
| Timing.TickIsTimedAtItsMidpoint | crates/cnc-kinematics/src/motion.rs:715-730 | whatever the profile, tick t of n is timed at the speed (2t+1)/2n of the way along the block |
| Timing.TickFollowsTheEnvelope | crates/cnc-kinematics/src/motion.rs:140-243 | under every override and ceiling that leave a block possible each emitted tick is timed by the least of its entry ramp, its cruise and its exit ramp there |
| Timing.PoppedTickFollowsTheEnvelope | crates/cnc-kinematics/src/motion.rs:185-243 | so is, at 100 %, every tick of every block a planner in any reachable state hands out, between its own entry and the exit read for it |
| Timing.PeriodsFallThenRise | crates/cnc-kinematics/src/motion.rs:185-243 | up to a tick on the entry ramp the periods never grow, and from a tick on the exit ramp on they never shrink |
| Timing.TickStepsEachAxis | crates/cnc-kinematics/src/motion.rs:204-237 | an emitted tick steps an axis if and only if the axis's share of the ticks passes a whole number on it |
| Timing.PeriodsFitTheHardware | crates/cnc-kinematics/src/motion.rs:340-358 | every period leaves room for the pulse and its low time and fits the 15-bit field, and every period in that range is made by some speed |
| Trapezoid.RampEnds | crates/cnc-kinematics/src/motion.rs:671-720 | the ramp ends are ordered and within the block |
| Trapezoid.RealizedIffReachable | crates/cnc-kinematics/src/motion.rs:671-750 | a profile meets both end speeds and is `2*a`-Lipschitz in squared speed if and only if the ends differ by at most `2*a*L` |
| Trapezoid.NeverFasterThanAsked | crates/cnc-kinematics/src/motion.rs:736-750 | no sample exceeds the nominal speed |
| Trapezoid.CeilingHoldsAtEveryScale | crates/cnc-kinematics/src/motion.rs:630-720 | under every override scale no sample exceeds the ceiling |
| Trapezoid.OverrideDownStaysRealized | crates/cnc-kinematics/src/motion.rs:140-180 | at an override of at most 100 % a feasible block is still realized with its unscaled acceleration |
| Trapezoid.OverrideRealizedIff | crates/cnc-kinematics/src/motion.rs:140-180 | at every override and under every ceiling a block is realized if and only if its two scaled and clamped end speeds differ by at most `2*a*L` |
| Trapezoid.OverrideRealizedBelowTheCeiling | crates/cnc-kinematics/src/motion.rs:166-178 | where no end reaches the ceiling that holds if and only if the squared scale does not stretch the ends past `2*a*L` |
| Trapezoid.OverrideUpBreaksABrakingBlock | crates/cnc-kinematics/src/motion.rs:166-178 | a block braking over its whole length survives an override above 100 % if and only if a ceiling holds it at or below its entry speed |
| Dda.BresenhamStep | crates/cnc-kinematics/src/motion.rs:204-237 | one accumulator update steps an axis exactly when `floor(t*n/dom)` grows, and keeps the remainder |
| Dda.DominantStepsEveryTick | crates/cnc-kinematics/src/motion.rs:602-613 | the dominant axis steps on every tick |
| Dda.LiveIsExact | crates/cnc-kinematics/src/motion.rs:484-517 | after t ticks the live counter is `floor(t*n/dom)` signed steps from where it began |
| Dda.BlockMovesLive | crates/cnc-kinematics/src/motion.rs:502-517 | a whole block moves the live counter by exactly the block's steps |
| Dda.LiveStaysBetween | crates/cnc-kinematics/src/motion.rs:204-237 | at every tick every axis is between its start and its end |
| Periods.FasterIsNeverLonger | crates/cnc-kinematics/src/motion.rs:340-358 | of two positive speeds the faster never gets the longer step period |
| Periods.PeriodIsExact | crates/cnc-kinematics/src/motion.rs:340-358 | every representable period is exactly the period of the speed it stands for |
| Periods.StandstillIsSlowestIff | crates/cnc-kinematics/src/motion.rs:303-358 | the period of a standstill is the slowest of all if and only if the pulse timing leaves a single period |
| Motion.DistributeTick | crates/cnc-kinematics/src/motion.rs:204-237 | the accumulator loop yields the tick's mask and keeps the remainders |
| Motion.EmitProfile | crates/cnc-kinematics/src/motion.rs:185-243 | the loop sends the direction and exactly the bursts of the block's tick sequence, or stops at the sink's first failure |
| Motion.RunBlockScaled | crates/cnc-kinematics/src/motion.rs:140-180 | a block under an override and a ceiling is emitted with exactly that scaled profile; an invalid configuration sends nothing |
| Motion.BurstsAreExact | crates/cnc-kinematics/src/motion.rs:185-243 | the bursts concatenate to the tick sequence and all but the last are exactly 46 long |
| Motion.EstimateBlockTime | crates/cnc-kinematics/src/motion.rs:258-285 | the estimate loop adds up the periods of the unscaled profile |
| Motion.EstimateMatchesMotion | crates/cnc-kinematics/src/motion.rs:121-126 | the ticks estimated for a block are the sum of the periods the generator emits for it at 100 % |
| Motion.StepCounter.FollowBlock | crates/cnc-kinematics/src/motion.rs:484-517 | feeding a block's events to the counter lands on the block's steps |
| Execution.PoppedBlockIsRealized | crates/cnc-kinematics/src/motion.rs:140-180 | every block a planner in any reachable state hands out is realized at any override of at most 100 % |
| Execution.PoppedBlockKeepsEveryAxis | crates/cnc-kinematics/src/planner.rs:1132-1142 | no participating axis exceeds its own rate or acceleration anywhere along a popped block |
| Execution.PoppedBlockKeepsCeiling | crates/cnc-kinematics/src/motion.rs:630-720 | no sample of a popped block exceeds the ceiling at any scale |
| Execution.JunctionIsContinuousIff | crates/cnc-kinematics/src/motion.rs:140-180 | one block's last speed is the next one's first if and only if their overrides and ceilings make the same of the speed planned between them |
| Execution.ChainIsContinuous | crates/cnc-kinematics/src/motion.rs:140-180 | under one override of at most 100 % and one ceiling the profiles of successive blocks join, whatever was planned in between |
| Execution.OverrideChangeIsContinuousIff | crates/cnc-kinematics/src/motion.rs:166-178 | a changed override keeps them joined if and only if the junction is a stop or the ceiling holds both speeds back |
| Execution.RapidMeetsFeedIff | crates/cnc-kinematics/src/motion.rs:166-178 | exactly when a rapid without a ceiling and a feed move under one agree on the speed between them |
| Conservation.EventKeeps | crates/cnc-kinematics/src/planner.rs:968-986 | planning, executing, stopping and relocating each keep the queued path joined from the live position to the commanded one |
| Conservation.PositionIsConserved | crates/cnc-kinematics/src/planner.rs:968-986 | over every history the live position plus all queued steps is the commanded position |
| Conservation.NeverLeavesTheEnvelope | crates/cnc-kinematics/src/planner.rs:1499-1521 | over every history of accepted moves, jogs and recalls under soft limits, and of arcs whose chords end inside, every tick of every block is inside the envelope |
| Conservation.RunHeadTracks | crates/cnc-kinematics/src/motion.rs:502-517 | executing the head moves the live position along the path without changing where it ends |
| Conservation.PowerOn | crates/cnc-kinematics/src/planner.rs:548-560 | a fresh machine is where its planner thinks it is and inside every envelope |
| InFlight.MomentKeeps | crates/cnc-kinematics/src/motion.rs:484-543 | ticks, planning during a block, pops, stops at any tick and the park that follows, aborts at any tick, and relocations each keep flight, queue and commanded position in agreement |
| InFlight.EveryTickIsConserved | crates/cnc-kinematics/src/planner.rs:968-986 | at every tick of every history the live position, the untravelled rest of the block in flight and the queued steps make up the commanded position; between a stop and the park nothing is queued |
| InFlight.EveryTickIsWithinTheEnvelope | crates/cnc-kinematics/src/planner.rs:1499-1521 | at every tick of every soft-limited history, stops, aborts and arcs whose chords end inside included, the machine is inside its envelope |
| ArcLimits.AcceptedArcStaysInIff | crates/cnc-kinematics/src/planner.rs:672-770 | an arc accepted for its end point keeps every tick of its blocks inside the envelope if and only if every chord that moves ends inside |
| ArcLimits.ArcStaysInIff | crates/cnc-kinematics/src/planner.rs:1384-1441 | the same of any arc from any of its chords on |
| Examples.AcceptedArcLeavesTheEnvelope | crates/cnc-kinematics/src/planner.rs:672-770 | a full circle that begins and ends inside the envelope is accepted and leads twenty millimetres out of it |
| Simulator.Simulate | crates/cnc-kinematics/src/sim.rs:76-152 | one step per command; the blocks timed are the program's in order; each exit speed is the next block's entry when popped; the run goes from rest to rest with every pair reachable; every entry speed is that of the 32-block window sliding over the program, whose blocks leave only when it is full |
| Simulator.ShortProgramsAreTimedAtTheirBest | crates/cnc-kinematics/src/sim.rs:76-152 | a program of at most 32 blocks is timed with the greatest feasible schedule of all its blocks |
| Windows.WindowEntryStays | crates/cnc-kinematics/src/sim.rs:89-140 | an entry planned with a full window is not changed by what arrives later |
| Simulator.MotionTakesItsSchedule | crates/cnc-kinematics/src/sim.rs:159-177 | the motion of a timeline takes exactly the ticks of its schedule, each block from its own entry to the next one's |
| Simulator.StepsSayTheirCommands | crates/cnc-kinematics/src/sim.rs:96-177 | each step of the timeline says what its command is: a dwell its seconds, a motion whether it is a rapid |
| Simulator.FeedCommand | crates/cnc-kinematics/src/sim.rs:89-140 | one command, making room as needed, adds exactly its own blocks and its slot |
| Simulator.DriveArc | crates/cnc-kinematics/src/sim.rs:104-125 | pop-and-resume terminates and adds exactly the arc's blocks |
| Simulator.Resolve | crates/cnc-kinematics/src/sim.rs:159-177 | each slot is timed as the sum over its own range of blocks |
| Simulator.SlotsTileTheBlocks | crates/cnc-kinematics/src/sim.rs:76-152 | the ranges of the motion commands tile the blocks without gap or overlap |
| Simulator.ProgramFromRest | crates/cnc-kinematics/src/sim.rs:76-152 | the first block of any program can only be entered from rest |
| Probing.RunProbe | crates/cnc-kinematics/src/motion.rs:410-471 | the walk stops at the first true reading, samples once past the last step, and sends exactly the ticks it took, one a burst |
| Probing.ProbeTicksLastTheirPeriod | crates/cnc-kinematics/src/motion.rs:410-471 | every tick of a probe lasts the period asked for, or the nearest that the pulse timing can make |
| Homing.SeekIntoSwitch | crates/firmware-core/src/homing.rs:370-397 | a seek ends at the first tripped position within its bound, or reports no contact |
| Homing.PullOff | crates/firmware-core/src/homing.rs:402-420 | a pull-off moves its whole distance without reading the switch; a null one does nothing |
| Homing.RunHomeAxis | crates/firmware-core/src/homing.rs:331-363 | the four phases on a live rig give the cycle's result and end position, and send the first seek at the seek rate and all else at the feed rate |
| Homing.SeekAgainstThreshold | crates/firmware-core/src/homing.rs:370-397 | against a threshold switch a seek makes contact if and only if the trip is within the bound, ending on it or after exactly the bound |
| Homing.HomingAgainstThreshold | crates/firmware-core/src/homing.rs:331-363 | homing succeeds if and only if the trip and the second approach are within the bound; only that axis moves; it ends one pull-off clear if and only if it began at most one pull-off past the trip |
| Homing.HomedZeroInEnvelopeIff | crates/firmware-core/src/homing.rs:181-212 | the homed position is inside the soft-limit envelope if and only if the origin is forced, or the axis homes towards positive with a pull-off that fits its travel, or travel and pull-off together are at most one step |
| Homing.SwitchIsWhereItBelongs | crates/firmware-core/src/homing.rs:181-212 | once homed, the switch is at machine zero on an axis that homes towards positive and at the length of the travel on one that homes towards negative |
| Homing.PeriodIsItsRate | crates/firmware-core/src/homing.rs:118-132 | a step takes the whole number of ticks nearest to what its rate asks for |
| Homing.DistanceIsNearest | crates/firmware-core/src/homing.rs:154-165 | a homing distance is the nearest whole number of steps, none below zero |
| Crc32.FeedByte | crates/firmware-core/src/storage_frame.rs:55-67 | eight masked shifts take in one byte |
| Crc32.ComputeCrc | crates/firmware-core/src/storage_frame.rs:55-67 | the nested loops compute the checksum |
| Crc32.FourBytesAreAWord | crates/firmware-core/src/storage_frame.rs:55-67 | four byte updates act as one 32-bit word |
| Crc32.FeedAllInjective | crates/firmware-core/src/storage_frame.rs:55-67 | different registers stay different under the same bytes |
| Crc32.Turn32Injective | crates/firmware-core/src/storage_frame.rs:55-67 | thirty-two turns of the register lose nothing |
| Crc32.CheckValue | crates/firmware-core/src/storage_frame.rs:55-67 | the checksum of the nine digits is 0xCBF43926, the check value of this CRC |
| Crc32.LeadingZeroShows | crates/firmware-core/src/storage_frame.rs:55-67 | nothing has the checksum 0, and a zero byte put before any bytes changes it |
| StorageFrame.WriteFrame | crates/firmware-core/src/storage_frame.rs:69-95 | header, payload and checksum in order, or the error for a long payload or a full buffer |
| StorageFrame.LengthIsLittleEndian | crates/firmware-core/src/storage_frame.rs:69-95 | a length is written with its lower byte first |
| StorageFrame.AcceptedIffFramed | crates/firmware-core/src/storage_frame.rs:101-125 | a frame is accepted as a payload if and only if it is that payload's frame |
| StorageFrame.SealedIffResidue | crates/firmware-core/src/storage_frame.rs:55-67 | bytes end in their own checksum if and only if the register over all of them is one fixed constant |
| StorageFrame.BurstsAreRejected | crates/firmware-core/src/storage_frame.rs:55-127 | any same-length corruption within four consecutive bytes, anywhere in a valid frame, is rejected |
| StorageFrame.WrongDeclaredLengthIsBadLength | crates/firmware-core/src/storage_frame.rs:69-76 | a payload of another length than declared is a bad length, and its checksum is right |
| HexCodec.WriteHex | crates/firmware-core/src/settings.rs:1398-1410 | succeeds exactly when the text fits, and writes the hex text or its longest front that fits |
| HexCodec.GreaterDigitFirst | crates/firmware-core/src/settings.rs:1398-1410 | a byte is written as its two digits, the greater first, in upper case |
| HexCodec.DecodeHex | crates/firmware-core/src/settings.rs:1413-1427 | succeeds exactly when the text spells bytes that fit, and appends them |
| HexCodec.HexRoundTrips | crates/firmware-core/src/settings.rs:1398-1440 | decoding what was encoded gives it back |
| HexCodec.SpellsIffHex | crates/firmware-core/src/settings.rs:1413-1440 | a text spells given bytes if and only if it is their hex text in any mixture of cases |
| PbReceiver.Receiver.AcceptHex | crates/firmware-core/src/settings.rs:1474-1501 | one chunk's answer and new buffer, and the buffer stays a partial frame |
| PbReceiver.EveryPartialIsReached | crates/firmware-core/src/settings.rs:1474-1501 | the buffers a receiver can keep are exactly the header prefixes and the strict fronts of frames with a good header |
| PbReceiver.CompletesIffFramed | crates/firmware-core/src/settings.rs:1474-1501 | a chunk completes a record if and only if it brings the buffer to a fitting frame whose payload parses to it |
| PbReceiver.CuttingDoesNotMatter | crates/firmware-core/src/settings.rs:1442-1501 | however a run is cut between bytes, all chunks but the last need more and the last gives the verdict on the whole |
| PbReceiver.AnyCutDelivers | crates/firmware-core/src/settings.rs:1442-1501 | a valid frame's hex text, cut anyhow, delivers its payload and leaves nothing behind |
| PbReceiver.DamagedIsRefused | crates/firmware-core/src/settings.rs:1442-1501 | a frame damaged within four bytes after its header is refused at its last chunk, however cut |
| PbReceiver.DamagedIsNeverDelivered | crates/firmware-core/src/settings.rs:1442-1501 | a frame damaged within any four bytes, header included, is not delivered by its last chunk, if the receiver waited that long |
| Diag.UsbTxStallCounter.Record | crates/firmware-core/src/diag.rs:43-50 | fires exactly when the last three writes all timed out, saturation included |
| Diag.WindowedStallCounter.Record | crates/firmware-core/src/diag.rs:588-599 | the count is the number of timeouts among the last sixteen samples |
| Diag.ShiftSlidesTheWindow | crates/firmware-core/src/diag.rs:588-591 | one shift drops the oldest sample and takes in the newest |
| Diag.AlternatingIsSeenByTheWindowOnly | crates/firmware-core/src/diag.rs:557-569 | alternating timeouts never reach the escape while the window reads exactly half |
| Diag.RunCountsTheEnd | crates/firmware-core/src/diag.rs:43-50 | a run count is at least n if and only if the last n samples hold |
| Diag.ExecutorFreezeTracker.Observe | crates/firmware-core/src/diag.rs:533-546 | crosses exactly when the last stall-many samples were frozen, for every sample and sentinel |
| Diag.FrozenRunIsOneBeat | crates/firmware-core/src/diag.rs:510-546 | below the sentinel, n frozen samples are one nonzero beat seen n + 1 times, or n times from the start |
| Lexer.ParseF32 | crates/cnc-kinematics/src/gcode.rs:199-230 | the digit loops read exactly the decimal the token spells, or report a bad number |
| Lexer.NumberIffSpelled | crates/cnc-kinematics/src/gcode.rs:195-230 | a token reads as a value if and only if it is a sign, digits and an optional fraction of that value |
| Lexer.Lexer.Next | crates/cnc-kinematics/src/gcode.rs:131-193 | the cursor loops yield the next word and stand just past it |
| Lexer.OnlyTheSignificantMatters | crates/cnc-kinematics/src/gcode.rs:131-193 | after a front with no open comment only the significant part of the rest decides the words |
| Lexer.GapsChangeNothing | crates/cnc-kinematics/src/gcode.rs:108-150 | white space and closed comments before a word or at the end change no word |
| Lexer.CaseChangesNothing | crates/cnc-kinematics/src/gcode.rs:155-180 | the case of a line changes no word |
| Spelling.WordIsRead | crates/cnc-kinematics/src/gcode.rs:155-193 | a letter, blanks and a numeral are one word of its capital and its value, whatever follows |
| Spelling.NoWordIsRead | crates/cnc-kinematics/src/gcode.rs:155-183 | what is neither a letter nor skipped, or a letter without a number, ends the reading with an error |
| Spelling.GapsAre | crates/cnc-kinematics/src/gcode.rs:131-150 | blanks, line ends and closed comments, and any row of them, are skipped |
| Spelling.NumeralsAre | crates/cnc-kinematics/src/gcode.rs:195-230 | a numeral has a sign or none, digits, and after a point more of them, at least one in all |
| Spelling.ValueGrows | crates/cnc-kinematics/src/gcode.rs:195-230 | a digit more multiplies by ten and adds, a digit after the point adds its place, a minus negates |
| Gcode.Parser.ParseLine | crates/cnc-kinematics/src/gcode.rs:833-856 | a line's answer and state; an error leaves the modal state untouched |
| Gcode.Parser.ParseJog | crates/cnc-kinematics/src/gcode.rs:869-909 | a jog's answer, with the modal state untouched |
| GcodeLaws.WordsAcceptedIff | crates/cnc-kinematics/src/gcode.rs:697-720 | words all take effect if and only if all were read, none is unsupported, and no modal group is claimed twice |
| GcodeLaws.AcceptedLineClaimsEachGroupOnce | crates/cnc-kinematics/src/gcode.rs:833-856 | no accepted line has two words of one modal group |
| GcodeLaws.GapsChangeNoLine | crates/cnc-kinematics/src/gcode.rs:833-856 | white space and closed comments before a word change neither answer nor state, of a line or a jog |
| GcodeLaws.CaseAndTrailingCommentChangeNoLine | crates/cnc-kinematics/src/gcode.rs:98-150 | nor do the case and a comment that runs to the end |
| GcodeLaws.UnclaimedGroupKeepsItsSetting | crates/cnc-kinematics/src/gcode.rs:989-1256 | a group no word of an accepted line claims keeps its modal setting |
| GcodeLaws.ToolChangeTakesTheToolBefore | crates/cnc-kinematics/src/gcode.rs:1173-1210 | a tool change takes the last tool named before it, on its line or earlier, and one named after it stays pending |
| GcodeLaws.NoToolChangeOnlyStages | crates/cnc-kinematics/src/gcode.rs:1173-1210 | without a tool change a line only stages the last tool it names |
| GcodeLaws.ParametersAreLastValues | crates/cnc-kinematics/src/gcode.rs:913-985 | each parameter of a line is the last value given for its letter |
| GcodeLaws.EmittedCommandsAreDefined | crates/cnc-kinematics/src/gcode.rs:1274-1415 | an emitted motion names an axis, carries the settings its line leaves, and has a feed, from the line itself in inverse time |
| GcodeLaws.G10IgnoresASelectionOnItsLine | crates/cnc-kinematics/src/gcode.rs:1415-1462 | a G10 line writes the system its P word names, else the one active before the line, whatever G54-G59 the line holds |
| GcodeLaws.JogIsAFeedMove | crates/cnc-kinematics/src/gcode.rs:869-909 | a jog's words on a G1/G94 line are that very move, unless a group is repeated or the feed is not positive |
| GcodeCodes.WordsAreListed | crates/cnc-kinematics/src/gcode.rs:913-1256 | the words a line may hold, with the error for any other, and the group of every code |
| GcodeCodes.GroupIsSetByItsWord | crates/cnc-kinematics/src/gcode.rs:989-1256 | each modal setting after accepted words is the one its group's code names, or the one before |
| GcodeCodes.LineMeansItsCodes | crates/cnc-kinematics/src/gcode.rs:833-1410 | for every line whose words are in order, the whole modal state it leaves and the command or the error it answers, by the codes on it: every setting, the tools, and every kind of command with its precedence |
| GcodeCodes.FirstOffenceIsReported | crates/cnc-kinematics/src/gcode.rs:833-985 | every other line changes nothing and reports its first offence: a word no line may hold, a group claimed before, or what could not be read |
| GcodeCodes.JogMeansItsCodes | crates/cnc-kinematics/src/gcode.rs:869-909 | for every jog line, the jog it asks for or the error, by its codes |
| GcodeCodes.PowerOn | crates/cnc-kinematics/src/gcode.rs:411-432 | the settings a first line is met with |

## Left out

- Rounding, infinities and NaN of `f32`: reals are used throughout, so nothing here bounds rounding error.
- Overflow of `i32` in `target - position` and in the live counter: steps are unbounded integers; only the saturating conversion from millimetres is modelled.
- ArcGeometry.ArcEndsOnATargetOnItsCircle: asks, like all of ArcGeometry, for a library whose trigonometry is that of a circle.
- Trigonometry outside ArcGeometry: sine, cosine and the arc functions are arbitrary there.
- Conservation.NeverLeavesTheEnvelope: asks of an arc that all its chords end inside, because the source checks its end point only and the claim is false otherwise (ArcLimits.AcceptedArcStaysInIff); leaves out changes of configuration, which would change the envelope itself.
- InFlight.EveryTickIsWithinTheEnvelope: asks and leaves out the same.
- Conservation.EventKeeps: the coarse view, in which a pop and the running of its block are one event; InFlight has the ticks.
- Chain.ActJoinsIff: a feed hold parks the executor at a block boundary outside the planner and is not modelled.
- PlannerRuns.EveryRunIsFollowable: a jog-cancel is a step of a run only when its remaining queue can stop, because otherwise the claim is false (PlannerRuns.JogCancel).
- PlannerRuns.SpeedsMeetAtJunctions: asks for a successor queued at the pop and not flushed; Corners.DrainedJunction and Chain.FlushedChainEndsAtRestIff say what happens otherwise.
- PbReceiver.DamagedIsRefused: only damage after the header, because a damaged header can announce another length; PbReceiver.DamagedIsNeverDelivered has the rest.
- StorageFrame.WriteFrame: takes the bytes the payload encoder appends, so an encoder that itself fails is not modelled.
- Gcode.Parser.ParseLine: the line's group flags and accumulator are local to the call and are modelled as values, the flags as a set of groups.
- The error branch of an arc chunk: unreachable in the source, where it only keeps a fault from looping.
- Fixed loops over four axes in the planner are written as four-component functions.
- The protobuf payload codec, which is not part of this model: the receiver takes it as a parameter.
- Settings text and descriptor table, coordinate systems, coolant masks, hard-limit masks, spindle spin-up, watchdog verdicts and status reports: single-branch facts and tables.
- Drivers, USB, flash, tasks and timing: I/O.

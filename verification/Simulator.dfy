/** Driving the planner over a whole program with its bounded window, and timing what comes out (sim.rs). */
module Simulator {
  import opened Base
  import opened Blocks
  import opened Commands
  import opened Kinematics
  import opened LookAhead
  import opened Arcs
  import opened PlannerState
  import opened PlannerRuns
  import opened Backpressure
  import opened PlannerObject
  import opened Motion
  import opened Windows
  import opened Products
  import opened Schedules

  datatype SimStep =
    | SimMove(seconds: real, rapid: bool)
    | SimDwell(seconds: real)
    | SimSpindle(state: SpindleState)
    | SimPause(optional: bool, toolChange: bool)
    | SimProgramEnd
    | Untimed

  datatype Slot = MoveSlot(start: nat, end: nat) | Done(step: SimStep)

  // ---- What the program amounts to, with no queue in sight ----------------------------------------------------

  /** A planner at `t` with nothing queued. */
  function At(cfg: PlannerConfig, t: Trail): State {
    State(cfg, [], t.position, ZERO_VEC, t.prevUnitVec, t.prevNominalSq, false, None)
  }

  function Start(): Trail { Kinematics.Trail(ORIGIN, ZERO_VEC, 0.0) }

  /** The blocks one command adds to a program that has got to `t`, and where it leaves it. */
  function CommandBlocks(cfg: PlannerConfig, t: Trail, cmd: PlannerCommand): (seq<Block>, Trail)
    requires cfg.Valid()
  {
    match cmd
    case Move(_, _, _, _, _, _, _) => Leg(cfg, t, CommandTarget(At(cfg, t), cmd), MoveRequest(cmd))
    case Arc(_, _, _, _, _, _, _, _, _, _, _) =>
      var arc := PrepareArc(At(cfg, t), cmd);
      if arc.None? then ([], t) else (ArcShapes(cfg, t, arc.value), ArcEnd(cfg, t, arc.value))
    case Spindle(_, _) => ([], t)
    case Coordinate(_) => ([], t)
    case Coolant(_) => ([], t)
    case _ => ([], Kinematics.Trail(t.position, ZERO_VEC, 0.0))
  }

  /** The timeline entry of a command that is not motion, or of an arc that is refused. */
  function StepOf(cmd: PlannerCommand): SimStep {
    match cmd
    case Dwell(seconds) => SimDwell(seconds)
    case Spindle(state, _) => SimSpindle(state)
    case ProgramPause(optional, toolChange) => SimPause(optional, toolChange)
    case ProgramEnd => SimProgramEnd
    case _ => Untimed
  }

  function SlotFor(cfg: PlannerConfig, t: Trail, cmd: PlannerCommand, start: nat): Slot
    requires cfg.Valid()
  {
    if cmd.Move? || (cmd.Arc? && PrepareArc(At(cfg, t), cmd).Some?)
    then MoveSlot(start, start + |CommandBlocks(cfg, t, cmd).0|)
    else Done(StepOf(cmd))
  }

  /** The whole program: one slot per command, every block in order, and where it ends. */
  function Program(cfg: PlannerConfig, cmds: seq<PlannerCommand>): (r: (seq<Slot>, seq<Block>, Trail))
    requires cfg.Valid()
    ensures |r.0| == |cmds|
  {
    if cmds == [] then ([], [], Start())
    else
      var (slots, blocks, t) := Program(cfg, cmds[..|cmds| - 1]);
      var cmd := cmds[|cmds| - 1];
      (slots + [SlotFor(cfg, t, cmd, |blocks|)], blocks + CommandBlocks(cfg, t, cmd).0, CommandBlocks(cfg, t, cmd).1)
  }

  /** Motion slots follow one another without gap or overlap and end at `n`. */
  predicate Contiguous(slots: seq<Slot>, n: nat) {
    if slots == [] then n == 0
    else
      match slots[|slots| - 1]
      case MoveSlot(start, end) => start <= end == n && Contiguous(slots[..|slots| - 1], start)
      case Done(_) => Contiguous(slots[..|slots| - 1], n)
  }

  /** Every block of the program belongs to exactly one command: the ranges tile the blocks in order. */
  lemma {:induction false} SlotsTileTheBlocks(cfg: PlannerConfig, cmds: seq<PlannerCommand>)
    requires cfg.Valid()
    ensures Contiguous(Program(cfg, cmds).0, |Program(cfg, cmds).1|)
  {
    if cmds != [] {
      var cmd := cmds[|cmds| - 1];
      SlotsTileTheBlocks(cfg, cmds[..|cmds| - 1]);
      var (slots, blocks, t) := Program(cfg, cmds[..|cmds| - 1]);
      var last := SlotFor(cfg, t, cmd, |blocks|);
      var added := CommandBlocks(cfg, t, cmd).0;
      assert Program(cfg, cmds).0 == slots + [last] && Program(cfg, cmds).1 == blocks + added;
      RefusedAddsNothing(cfg, t, cmd, |blocks|);
      hide CommandBlocks, SlotFor, Program;
      assert (slots + [last])[..|slots|] == slots;
    }
  }

  lemma RefusedAddsNothing(cfg: PlannerConfig, t: Trail, cmd: PlannerCommand, start: nat)
    requires cfg.Valid()
    ensures match SlotFor(cfg, t, cmd, start)
            case MoveSlot(from, to) => from == start && to == start + |CommandBlocks(cfg, t, cmd).0|
            case Done(_) => CommandBlocks(cfg, t, cmd).0 == []
  {
    hide Leg, ArcShapes, ArcEnd, PrepareArc, CommandTarget;
  }

  /** A run that begins with a stop. */
  predicate FromRest(blocks: seq<Block>) {
    blocks != [] ==> blocks[0].maxEntrySq == 0.0
  }

  /** The first block after a forgotten corner starts at rest. */
  lemma LegFromRest(cfg: PlannerConfig, t: Trail, target: Steps, rq: Request)
    requires cfg.Valid() && IsZeroVec(t.prevUnitVec) && t.prevNominalSq >= 0.0
    ensures FromRest(Leg(cfg, t, target, rq).0)
    ensures Leg(cfg, t, target, rq).0 == [] ==> Leg(cfg, t, target, rq).1 == t
  {
    if BuildBlock(cfg, t, target, rq).Some? {
      BuiltBlockIsGood(cfg, t, target, rq);
    }
    hide BuildBlock;
  }

  lemma {:induction false} ArcFromRest(cfg: PlannerConfig, t: Trail, arc: ArcInProgress)
    requires cfg.Valid() && arc.segments > 0 && IsZeroVec(t.prevUnitVec) && t.prevNominalSq >= 0.0
    ensures FromRest(ArcShapes(cfg, t, arc))
    ensures ArcShapes(cfg, t, arc) == [] ==> ArcEnd(cfg, t, arc) == t
    decreases arc.segments + 1 - arc.nextSeg
  {
    if arc.nextSeg <= arc.segments {
      var target := ChordEnd(cfg, arc, arc.nextSeg);
      LegFromRest(cfg, t, target, arc.Request());
      ArcStep(cfg, t, arc);
      hide Leg, ChordEnd, ArcShapes, ArcEnd;
      var (leg, t') := Leg(cfg, t, target, arc.Request());
      if leg == [] {
        ArcFromRest(cfg, t, arc.(nextSeg := arc.nextSeg + 1));
      }
    }
  }

  lemma {:induction false} ProgramFromRest(cfg: PlannerConfig, cmds: seq<PlannerCommand>)
    requires cfg.Valid()
    ensures FromRest(Program(cfg, cmds).1)
    ensures Program(cfg, cmds).1 == [] ==>
              IsZeroVec(Program(cfg, cmds).2.prevUnitVec) && Program(cfg, cmds).2.prevNominalSq >= 0.0
  {
    if cmds != [] {
      var cmd := cmds[|cmds| - 1];
      ProgramFromRest(cfg, cmds[..|cmds| - 1]);
      var (slots, blocks, t) := Program(cfg, cmds[..|cmds| - 1]);
      if blocks == [] {
        CommandFromRest(cfg, t, cmd);
        assert Program(cfg, cmds).1 == CommandBlocks(cfg, t, cmd).0;
      }
      hide CommandBlocks;
    }
  }

  lemma CommandFromRest(cfg: PlannerConfig, t: Trail, cmd: PlannerCommand)
    requires cfg.Valid() && IsZeroVec(t.prevUnitVec) && t.prevNominalSq >= 0.0
    ensures FromRest(CommandBlocks(cfg, t, cmd).0)
    ensures CommandBlocks(cfg, t, cmd).0 == [] ==>
              IsZeroVec(CommandBlocks(cfg, t, cmd).1.prevUnitVec) && CommandBlocks(cfg, t, cmd).1.prevNominalSq >= 0.0
  {
    hide Leg, ArcShapes, ArcEnd, PrepareArc, CommandTarget;
    if cmd.Move? {
      LegFromRest(cfg, t, CommandTarget(At(cfg, t), cmd), MoveRequest(cmd));
    } else if cmd.Arc? {
      var arc := PrepareArc(At(cfg, t), cmd);
      if arc.Some? {
        ArcFromRest(cfg, t, arc.value);
      }
    }
  }

  // ---- The bounded window -------------------------------------------------------------------------------------

  /** The block can be run from its entry to `exit`, within its own limits. */
  ghost predicate Runs(cfg: PlannerConfig, b: Block, exit: real)
    requires cfg.Valid()
  {
    && GoodBlock(cfg, b)
    && 0.0 <= b.entrySq <= b.maxEntrySq && 0.0 <= exit <= b.nominalSq
    && b.entrySq <= exit + b.Reach() && exit <= b.entrySq + b.Reach()
  }

  /** The entry of the block that follows block `i` of `popped`: the next one popped, else the queue's head, else a stop. */
  function EntryAfter(popped: seq<Block>, queue: seq<Block>, i: nat): real
    requires i < |popped|
  {
    if i + 1 < |popped| then popped[i + 1].entrySq else if queue != [] then queue[0].entrySq else 0.0
  }

  /** Every block popped so far was run to the entry of its successor, as seen when it was popped. */
  ghost predicate Joined(cfg: PlannerConfig, popped: seq<Block>, exits: seq<real>, queue: seq<Block>)
    requires cfg.Valid()
  {
    && |exits| == |popped|
    && forall i :: 0 <= i < |popped| ==> exits[i] == EntryAfter(popped, queue, i) && Runs(cfg, popped[i], exits[i])
  }

  /** The simulator mid-way: what was popped, what is queued, and the program blocks they add up to. */
  ghost predicate Window(cfg: PlannerConfig, st: State, popped: seq<Block>, exits: seq<real>, fed: seq<Block>) {
    && Inv(st) && st.cfg == cfg && st.workOffsetMm == ZERO_VEC
    && Joined(cfg, popped, exits, st.queue)
    && Shapes(popped) + Shapes(st.queue) == fed
    && (popped != [] && st.queue != [] ==> st.headBusy) && (popped == [] ==> !st.headBusy)
    && Slides(popped, st.queue)
  }

  lemma JoinedPops(cfg: PlannerConfig, popped: seq<Block>, exits: seq<real>, queue: seq<Block>)
    requires cfg.Valid() && Joined(cfg, popped, exits, queue) && queue != []
    requires Runs(cfg, queue[0], if |queue| == 1 then 0.0 else queue[1].entrySq)
    ensures Joined(cfg, popped + [queue[0]], exits + [if |queue| == 1 then 0.0 else queue[1].entrySq], queue[1..])
  {
    var popped', rest := popped + [queue[0]], queue[1..];
    hide Runs;
    forall i | 0 <= i < |popped|
      ensures EntryAfter(popped', rest, i) == EntryAfter(popped, queue, i) && popped'[i] == popped[i]
    {
    }
  }

  lemma ShapesPop(popped: seq<Block>, queue: seq<Block>)
    requires queue != []
    ensures Shapes(popped + [queue[0]]) + Shapes(queue[1..]) == Shapes(popped) + Shapes(queue)
  {
    hide Shape;
    assert popped + [queue[0]] + queue[1..] == popped + queue;
    ShapesAppend(popped + [queue[0]], queue[1..]);
    ShapesAppend(popped, queue);
  }

  lemma WindowPops(cfg: PlannerConfig, st: State, popped: seq<Block>, exits: seq<real>, fed: seq<Block>)
    requires cfg.Valid() && Window(cfg, st, popped, exits, fed) && st.queue != []
    ensures var st' := PopBlock(st).0;
            var exit := ExitFor(st');
            Window(cfg, st', popped + [st.queue[0]], exits + [exit], fed)
  {
    PopKeeps(st);
    PoppedPairIsReachable(st);
    ShapesPop(popped, st.queue);
    var st' := PopBlock(st).0;
    assert st'.queue == st.queue[1..] && (|st.queue| > 1 ==> st'.queue[0] == st.queue[1]);
    assert Runs(cfg, st.queue[0], if |st.queue| == 1 then 0.0 else st.queue[1].entrySq);
    SlidesPops(st, popped);
    hide Inv, GoodBlock, Runs, Shapes, Slides;
    JoinedPops(cfg, popped, exits, st.queue);
    hide Joined;
  }

  lemma WindowGrows(cfg: PlannerConfig, st: State, st': State, popped: seq<Block>, exits: seq<real>, fed: seq<Block>,
                    more: seq<Block>)
    requires cfg.Valid() && Window(cfg, st, popped, exits, fed) && Full(popped, st.queue)
    requires Inv(st') && Extends(st, st') && st'.cfg == cfg && st'.workOffsetMm == ZERO_VEC
    requires Shapes(st'.queue) == Shapes(st.queue) + more
    ensures Window(cfg, st', popped, exits, fed + more) && Full(popped, st'.queue)
  {
    hide Inv, Runs, Slides;
    SlidesGrows(popped, st.queue, st'.queue, more);
    Associate(Shapes(popped), Shapes(st.queue), more);
    forall i | 0 <= i < |popped|
      ensures EntryAfter(popped, st'.queue, i) == EntryAfter(popped, st.queue, i)
    {
    }
  }

  // ---- The methods --------------------------------------------------------------------------------------------

  /** The commands see the same program point whatever is queued. */
  lemma SameAxis(st: State, st': State, a: nat, axes: AxisWords, units: Units, distance: DistanceMode, machineCoords: bool)
    requires st.cfg.Valid() && st'.cfg == st.cfg && st'.position == st.position && st'.workOffsetMm == st.workOffsetMm
    requires a < AXES
    ensures ResolveAxis(st, a, axes, units, distance, machineCoords) == ResolveAxis(st', a, axes, units, distance, machineCoords)
    ensures PositionMm(st, a) == PositionMm(st', a)
    ensures forall v :: AxisMm(st, a, v, units, distance, machineCoords) == AxisMm(st', a, v, units, distance, machineCoords)
  {
    hide MmToSteps;
  }

  lemma SameTargets(st: State, cmd: PlannerCommand)
    requires st.cfg.Valid() && st.workOffsetMm == ZERO_VEC && (cmd.Move? || cmd.Arc?)
    ensures CommandTarget(st, cmd) == CommandTarget(At(st.cfg, st.Trail()), cmd)
    ensures cmd.Arc? ==> PrepareArc(st, cmd) == PrepareArc(At(st.cfg, st.Trail()), cmd)
  {
    var st' := At(st.cfg, st.Trail());
    forall a: nat | a < AXES
      ensures ResolveAxis(st, a, cmd.axes, cmd.units, cmd.distance, cmd.machineCoords) ==
              ResolveAxis(st', a, cmd.axes, cmd.units, cmd.distance, cmd.machineCoords)
      ensures PositionMm(st, a) == PositionMm(st', a)
      ensures cmd.Arc? ==> ArcEndMm(st, cmd, a) == ArcEndMm(st', cmd, a)
    {
      SameAxis(st, st', a, cmd.axes, cmd.units, cmd.distance, cmd.machineCoords);
      hide AxisMm, PositionMm, ResolveAxis;
    }
    hide ResolveAxis, ArcEndMm, PositionMm, SweepAngle, SegmentCount;
  }

  lemma PlanKeepsConfig(st: State, cmd: PlannerCommand)
    requires st.cfg.Valid() && |st.queue| <= BLOCK_QUEUE_LEN
    ensures PlanCommand(st, cmd, None).0.cfg == st.cfg
    ensures PlanCommand(st, cmd, None).0.workOffsetMm == st.workOffsetMm
  {
    hide FeedChords, Replanned, BuildBlock, PrepareArc, ResolveTarget;
    if cmd.Arc? && PrepareArc(st, cmd).Some? {
      ChunkIsExact(st, PrepareArc(st, cmd).value);
    }
  }

  lemma FullWindow(cfg: PlannerConfig, st: State, popped: seq<Block>, exits: seq<real>, fed: seq<Block>)
    requires cfg.Valid() && Window(cfg, st, popped, exits, fed)
    ensures |st.queue| <= BLOCK_QUEUE_LEN
  {
  }

  /** `plan_command`, popping the oldest block whenever the queue has no room. */
  method PlanMakingRoom(planner: Planner, cmd: PlannerCommand, popped: seq<Block>, ghost exits: seq<real>,
                        ghost fed: seq<Block>)
    returns (r: Result<Outcome, PlannerError>, popped': seq<Block>, ghost exits': seq<real>, ghost before: State)
    requires planner.Valid()
    requires Window(planner.config, planner.View(), popped, exits, fed)
    requires Full(popped, planner.queue)
    modifies planner
    ensures planner.Valid() && planner.config == old(planner.config)
    ensures before.cfg.Valid() && (planner.View(), r) == PlanCommand(before, cmd, None)
    ensures before.Trail() == old(planner.View().Trail()) && before.arc == old(planner.arcInProgress)
    ensures Window(planner.config, before, popped', exits', fed) && Full(popped', before.queue)
    ensures r != Err(QueueFull)
  {
    popped', exits' := popped, exits;
    before := planner.View();
    ghost var cfg := planner.config;
    r := planner.PlanCommand(cmd, None);
    assert planner.config == cfg by { PlanKeepsConfig(before, cmd); }
    hide PlanCommand, Joined, Inv, Shapes;
    while r == Err(QueueFull)
      invariant planner.Valid() && planner.config == old(planner.config) && before.cfg.Valid()
      invariant (planner.View(), r) == PlanCommand(before, cmd, None)
      invariant before.Trail() == old(planner.View().Trail()) && before.arc == old(planner.arcInProgress)
      invariant Window(planner.config, before, popped', exits', fed) && Full(popped', before.queue)
      decreases |before.queue|
    {
      RefusedCommandChangesNothing(before, cmd, None);
      assert planner.View() == before;
      FullWindow(cfg, before, popped', exits', fed);
      WindowPops(cfg, before, popped', exits', fed);
      var block := planner.PopBlock();
      popped' := popped' + [block.value];
      exits' := exits' + [planner.queue[0].entrySq];
      before := planner.View();
      r := planner.PlanCommand(cmd, None);
      assert planner.config == cfg by { PlanKeepsConfig(before, cmd); }
    }
  }

  /** What planning one command without a full queue does to the window. */
  lemma CommandGrowsWindow(cfg: PlannerConfig, st: State, cmd: PlannerCommand, popped: seq<Block>, exits: seq<real>,
                           fed: seq<Block>, start: nat)
    requires cfg.Valid() && Window(cfg, st, popped, exits, fed) && Full(popped, st.queue)
    requires st.cfg == cfg && |st.queue| <= BLOCK_QUEUE_LEN && st.arc.None?
    requires PlanCommand(st, cmd, None).1 != Err(QueueFull)
    ensures var (st', r) := PlanCommand(st, cmd, None);
            var (blocks, t') := CommandBlocks(cfg, st.Trail(), cmd);
            && |st'.queue| >= |st.queue| && Feeding(st')
            && Window(cfg, st', popped, exits, fed + Added(st, st')) && Full(popped, st'.queue)
            && Added(st, st') + Remaining(st') == blocks && Destination(st') == t'
            && (st'.arc.Some? ==> |st'.queue| == BLOCK_QUEUE_LEN)
            && Reports(r, SlotFor(cfg, st.Trail(), cmd, start), st'.arc.Some?, |Added(st, st')|)
  {
    var (st', r) := PlanCommand(st, cmd, None);
    PlanCommandKeeps(st, cmd, None);
    PlanKeepsConfig(st, cmd);
    assert Window(cfg, st', popped, exits, fed + Added(st, st')) && Full(popped, st'.queue) && |st'.queue| >= |st.queue| by {
      ExtendsShapes(st, st');
      hide PlanCommand, Joined, Inv, Shapes, Extends;
      WindowGrows(cfg, st, st', popped, exits, fed, Added(st, st'));
    }
    assert st.workOffsetMm == ZERO_VEC;
    hide Window, WellPlanned, Fastest, PlanMove, PlanArc, CommandBlocks, Inv, Shapes;
    if cmd.Move? {
      MoveAddsBlocks(cfg, st, cmd);
    } else if cmd.Arc? {
      ArcAddsBlocks(cfg, st, cmd, start);
    } else {
      OtherAddsNothing(cfg, st, cmd, start);
    }
  }

  lemma OtherAddsNothing(cfg: PlannerConfig, st: State, cmd: PlannerCommand, start: nat)
    requires cfg.Valid() && st.cfg == cfg && !cmd.Move? && !cmd.Arc? && st.arc.None? && |st.queue| <= BLOCK_QUEUE_LEN
    ensures var (st', r) := PlanCommand(st, cmd, None);
            && st'.queue == st.queue && st'.arc.None? && Added(st, st') == [] && st'.cfg == cfg
            && CommandBlocks(cfg, st.Trail(), cmd) == ([], st'.Trail())
            && Reports(r, SlotFor(cfg, st.Trail(), cmd, start), false, 0)
  {
    hide ResolveTarget;
  }

  predicate IsMotion(r: Result<Outcome, PlannerError>) { r.Ok? && (r.value.Queued? || r.value.ArcPending?) }

  /** The timeline entry the simulator makes of an outcome that is not motion. */
  function OutcomeStep(r: Result<Outcome, PlannerError>): SimStep {
    match r
    case Ok(DwellFor(seconds)) => SimDwell(seconds)
    case Ok(SpindleTo(state, _)) => SimSpindle(state)
    case Ok(PauseProgram(optional, toolChange)) => SimPause(optional, toolChange)
    case Ok(EndProgram) => SimProgramEnd
    case _ => Untimed
  }

  /** The planner's report agrees with what the command amounts to: motion with its block count, or its own entry. */
  predicate Reports(r: Result<Outcome, PlannerError>, slot: Slot, pending: bool, added: nat) {
    if slot.MoveSlot? then r == Ok(if pending then ArcPending(added) else Queued(added))
    else !IsMotion(r) && !pending && added == 0 && OutcomeStep(r) == slot.step
  }

  lemma ExtendsShapes(st: State, st': State)
    requires Extends(st, st')
    ensures |st.queue| <= |st'.queue| && Shapes(st'.queue) == Shapes(st.queue) + Added(st, st')
  {
    forall i | 0 <= i < |st.queue|
      ensures Shapes(st'.queue)[i] == Shapes(st.queue)[i]
    {
    }
  }

  lemma MoveAddsBlocks(cfg: PlannerConfig, st: State, cmd: PlannerCommand)
    requires cfg.Valid() && st.cfg == cfg && st.workOffsetMm == ZERO_VEC && st.arc.None? && cmd.Move?
    requires |st.queue| <= BLOCK_QUEUE_LEN && PlanMove(st, cmd, None).1 != Err(QueueFull)
    ensures var (st', r) := PlanMove(st, cmd, None);
            var (blocks, t') := CommandBlocks(cfg, st.Trail(), cmd);
            && |st.queue| <= |st'.queue| && Added(st, st') == blocks && st'.Trail() == t' && st'.arc.None?
            && r == Ok(Queued(|blocks|)) && |st'.queue| <= BLOCK_QUEUE_LEN && st'.cfg == cfg
  {
    SameTargets(st, cmd);
    var target, rq := CommandTarget(st, cmd), MoveRequest(cmd);
    LineFitsOrIsRefused(st, target, rq);
    LineAddsLeg(st, target, rq);
    ZeroMoveAddsNothing(cfg, st.Trail(), target, rq);
    LineFits(st, target, rq);
    hide PlanLine, Leg, CommandTarget, Shapes;
    var st' := PlanLine(st, target, rq).0;
    assert |Shapes(st'.queue)| == |st'.queue| && |Shapes(st.queue)| == |st.queue|;
  }

  lemma LineFits(st: State, target: Steps, rq: Request)
    requires st.cfg.Valid() && |st.queue| <= BLOCK_QUEUE_LEN
    ensures |PlanLine(st, target, rq).0.queue| <= BLOCK_QUEUE_LEN
  {
  }

  lemma ArcBlocks(cfg: PlannerConfig, t: Trail, cmd: PlannerCommand, start: nat)
    requires cfg.Valid() && cmd.Arc?
    ensures var arc := PrepareArc(At(cfg, t), cmd);
            && CommandBlocks(cfg, t, cmd) ==
                 (if arc.None? then ([], t) else (ArcShapes(cfg, t, arc.value), ArcEnd(cfg, t, arc.value)))
            && SlotFor(cfg, t, cmd, start) ==
                 if arc.None? then Done(Untimed) else MoveSlot(start, start + |CommandBlocks(cfg, t, cmd).0|)
  {
    hide PrepareArc, ArcShapes, ArcEnd;
  }

  lemma ArcAddsBlocks(cfg: PlannerConfig, st: State, cmd: PlannerCommand, start: nat)
    requires cfg.Valid() && st.cfg == cfg && st.workOffsetMm == ZERO_VEC && st.arc.None? && cmd.Arc?
    requires |st.queue| <= BLOCK_QUEUE_LEN
    ensures var (st', r) := PlanArc(st, cmd, None);
            var (blocks, t') := CommandBlocks(cfg, st.Trail(), cmd);
            && |st.queue| <= |st'.queue| && Feeding(st') && Added(st, st') + Remaining(st') == blocks && Destination(st') == t'
            && (st'.arc.Some? ==> |st'.queue| == BLOCK_QUEUE_LEN)
            && Reports(r, SlotFor(cfg, st.Trail(), cmd, start), st'.arc.Some?, |Added(st, st')|)
  {
    SameTargets(st, cmd);
    ArcBlocks(cfg, st.Trail(), cmd, start);
    hide CommandBlocks, SlotFor;
    hide PrepareArc, EnqueueArcChunk, CommandTarget, ArcShapes, ArcEnd, Shapes, Remaining, Destination, ResolveTarget;
    ArcNotPending(st);
    var arc := PrepareArc(st, cmd);
    if arc.Some? {
      ChunkIsExact(st, arc.value);
    }
  }

  lemma ResumeGrowsWindow(cfg: PlannerConfig, st: State, popped: seq<Block>, exits: seq<real>, fed: seq<Block>)
    requires cfg.Valid() && Window(cfg, st, popped, exits, fed) && Full(popped, st.queue)
    requires Feeding(st) && st.arc.Some?
    ensures var (st', r) := ResumeArc(st);
            && |st'.queue| >= |st.queue| && Window(cfg, st', popped, exits, fed + Added(st, st')) && Full(popped, st'.queue)
  {
    hide Window, Joined, Inv, Shapes, Extends, ResumeArc, Step, Added, Remaining, Destination, Feeding;
    WindowIsInv(cfg, st, popped, exits, fed);
    ResumeIsExact(st);
    StepKeeps(st, Resume);
    ResumeIsStep(st);
    WindowGrows(cfg, st, ResumeArc(st).0, popped, exits, fed, Added(st, ResumeArc(st).0));
  }

  lemma ResumeIsStep(st: State)
    requires st.cfg.Valid() && (st.arc.Some? ==> st.arc.value.Valid())
    ensures Step(st, Resume) == ResumeArc(st).0
  {
    hide ResumeArc;
  }

  lemma WindowIsInv(cfg: PlannerConfig, st: State, popped: seq<Block>, exits: seq<real>, fed: seq<Block>)
    requires cfg.Valid() && Window(cfg, st, popped, exits, fed)
    ensures Inv(st) && st.cfg == cfg && st.workOffsetMm == ZERO_VEC && (st.arc.Some? ==> st.arc.value.Valid())
  {
    InvBasics(st);
    hide Inv;
  }

  /** One round of that loop: a block out, chords in, and the arc nearer its end. */
  lemma ArcRound(cfg: PlannerConfig, full: State, popped: seq<Block>, exits: seq<real>, fed: seq<Block>)
    requires cfg.Valid() && Window(cfg, full, popped, exits, fed)
    requires full.arc.Some? && full.arc.value.Valid() && |full.queue| == BLOCK_QUEUE_LEN
    ensures var st := PopBlock(full).0;
            Feeding(st) && st.cfg == cfg && st.queue != [] && |ResumeArc(st).0.queue| >= |st.queue|
            && (ResumeArc(st).0.arc.Some? ==> ResumeArc(st).0.arc.value.Valid())
    ensures PopBlock(full).1 == Some(full.queue[0])
    ensures var st := PopBlock(full).0;
            var (st', r) := ResumeArc(st);
            var more := Added(st, st');
            && st'.cfg == cfg && Full(popped + [full.queue[0]], st'.queue)
            && Window(cfg, st', popped + [full.queue[0]], exits + [st.queue[0].entrySq], fed + more)
            && (fed + more) + Remaining(st') == fed + Remaining(full) && Destination(st') == Destination(full)
            && r == Ok(if st'.arc.None? then Queued(|more|) else ArcPending(|more|))
            && (st'.arc.Some? ==> |st'.queue| == BLOCK_QUEUE_LEN) && ChordsLeft(st') < ChordsLeft(full)
  {
    hide Window, Shapes, ArcShapes, ArcEnd, Remaining, Destination, ResumeArc;
    WindowConfig(cfg, full, popped, exits, fed);
    WindowPops(cfg, full, popped, exits, fed);
    PopKeepsArc(full);
    var st := PopBlock(full).0;
    WindowConfig(cfg, st, popped + [full.queue[0]], exits + [st.queue[0].entrySq], fed);
    ResumeIsExact(st);
    ResumeGrowsWindow(cfg, st, popped + [full.queue[0]], exits + [st.queue[0].entrySq], fed);
    Associate(fed, Added(st, ResumeArc(st).0), Remaining(ResumeArc(st).0));
  }

  /** The simulator's inner loop: drain a block, resume, until the arc is fed. */
  method DriveArc(planner: Planner, popped: seq<Block>, ghost exits: seq<real>, ghost fed: seq<Block>)
    returns (added: nat, popped': seq<Block>, ghost exits': seq<real>)
    requires planner.Valid() && Window(planner.config, planner.View(), popped, exits, fed)
    requires planner.arcInProgress.Some? ==> |planner.queue| == BLOCK_QUEUE_LEN
    modifies planner
    ensures planner.Valid() && planner.config == old(planner.config) && planner.arcInProgress.None?
    ensures added == |Remaining(old(planner.View()))|
    ensures Window(planner.config, planner.View(), popped', exits', fed + Remaining(old(planner.View())))
    ensures planner.View().Trail() == Destination(old(planner.View()))
    ensures old(planner.arcInProgress).Some? ==> Full(popped', planner.queue)
    ensures old(planner.arcInProgress).None? ==> planner.View() == old(planner.View()) && popped' == popped
  {
    popped', exits', added := popped, exits, 0;
    ghost var st0 := planner.View();
    ghost var cfg := planner.config;
    ghost var sofar := fed;
    hide Window, Shapes, ArcShapes, ArcEnd, Remaining, Destination, Added, ChordsLeft, Feeding, PopBlock, ResumeArc;
    WindowConfig(cfg, st0, popped', exits', sofar);
    while planner.arcInProgress.Some?
      invariant planner.Valid() && planner.config == cfg
      invariant Window(cfg, planner.View(), popped', exits', sofar)
      invariant sofar + Remaining(planner.View()) == fed + Remaining(st0)
      invariant |sofar| == |fed| + added
      invariant Destination(planner.View()) == Destination(st0)
      invariant planner.arcInProgress.Some? ==> |planner.queue| == BLOCK_QUEUE_LEN
      invariant st0.arc.Some? ==> Full(popped', planner.queue)
      invariant st0.arc.None? ==> planner.View() == st0 && popped' == popped
      decreases ChordsLeft(planner.View())
    {
      ghost var full := planner.View();
      ArcRound(cfg, full, popped', exits', sofar);
      var block := planner.PopBlock();
      popped' := popped' + [block.value];
      exits' := exits' + [planner.queue[0].entrySq];
      ghost var st := planner.View();
      var r := planner.ResumeArc();
      assert (planner.View(), r) == ResumeArc(st);
      sofar := sofar + Added(st, planner.View());
      match r.value
      case Queued(m) => added := added + m;
      case ArcPending(m) => added := added + m;
    }
    RemainingDone(planner.View());
    assert sofar == fed + Remaining(st0);
  }

  lemma ArcNotPending(st: State)
    requires st.cfg.Valid() && st.arc.None?
    ensures Added(st, st) == [] && Remaining(st) == [] && Destination(st) == st.Trail()
  {
  }

  lemma RemainingDone(st: State)
    requires st.cfg.Valid() && st.arc.None?
    ensures Remaining(st) == [] && Destination(st) == st.Trail()
  {
  }

  lemma PopKeepsArc(st: State)
    requires st.cfg.Valid() && (st.arc.Some? ==> st.arc.value.Valid())
    ensures var st' := PopBlock(st).0;
            && st'.cfg == st.cfg && st'.arc == st.arc && Remaining(st') == Remaining(st)
            && Destination(st') == Destination(st) && ChordsLeft(st') == ChordsLeft(st)
  {
  }

  /** One command, up to its first chunk if it is an arc. */
  method PlanOne(planner: Planner, cmd: PlannerCommand, popped: seq<Block>, ghost exits: seq<real>,
                 ghost fed: seq<Block>, ghost start: nat)
    returns (r: Result<Outcome, PlannerError>, popped': seq<Block>, ghost exits': seq<real>, ghost first: seq<Block>)
    requires planner.Valid() && planner.arcInProgress.None?
    requires Window(planner.config, planner.View(), popped, exits, fed) && Full(popped, planner.queue)
    modifies planner
    ensures planner.Valid() && planner.config == old(planner.config)
    ensures Window(planner.config, planner.View(), popped', exits', fed + first)
    ensures var (blocks, t') := CommandBlocks(planner.config, old(planner.View().Trail()), cmd);
            first + Remaining(planner.View()) == blocks && Destination(planner.View()) == t'
    ensures Reports(r, SlotFor(planner.config, old(planner.View().Trail()), cmd, start), planner.arcInProgress.Some?, |first|)
    ensures planner.arcInProgress.Some? ==> |planner.queue| == BLOCK_QUEUE_LEN
    ensures Full(popped', planner.queue)
  {
    ghost var before: State;
    ghost var cfg := planner.config;
    r, popped', exits', before := PlanMakingRoom(planner, cmd, popped, exits, fed);
    WindowConfig(cfg, before, popped', exits', fed);
    hide Window, CommandBlocks, Remaining, Destination, SlotFor, Reports, Shapes;
    CommandGrowsWindow(cfg, before, cmd, popped', exits', fed, start);
    first := Added(before, planner.View());
  }

  lemma WindowConfig(cfg: PlannerConfig, st: State, popped: seq<Block>, exits: seq<real>, fed: seq<Block>)
    requires cfg.Valid() && Window(cfg, st, popped, exits, fed)
    ensures st.cfg == cfg && |st.queue| <= BLOCK_QUEUE_LEN
  {
  }

  /** The body of the simulator's outer loop: one command in, one slot out. */
  method FeedCommand(planner: Planner, cmd: PlannerCommand, popped: seq<Block>, ghost exits: seq<real>,
                     ghost fed: seq<Block>, start: nat)
    returns (slot: Slot, added: nat, popped': seq<Block>, ghost exits': seq<real>)
    requires planner.Valid() && planner.arcInProgress.None?
    requires Window(planner.config, planner.View(), popped, exits, fed) && Full(popped, planner.queue)
    modifies planner
    ensures planner.Valid() && planner.config == old(planner.config) && planner.arcInProgress.None?
    ensures var (blocks, t') := CommandBlocks(planner.config, old(planner.View().Trail()), cmd);
            && Window(planner.config, planner.View(), popped', exits', fed + blocks)
            && planner.View().Trail() == t' && added == |blocks|
    ensures slot == SlotFor(planner.config, old(planner.View().Trail()), cmd, start)
    ensures Full(popped', planner.queue)
  {
    hide Window, CommandBlocks, Remaining, Destination, SlotFor, Reports, SlotMade, EnqueuedBy, Planner.View;
    ghost var cfg := planner.config;
    ghost var t := planner.View().Trail();
    SlotCounts(cfg, t, cmd, start);
    var r: Result<Outcome, PlannerError>;
    ghost var first: seq<Block>;
    r, popped', exits', first := PlanOne(planner, cmd, popped, exits, fed, start);
    ghost var rest := Remaining(planner.View());
    ghost var pending := planner.arcInProgress.Some?;
    if !pending {
      RemainingDone(planner.View());
    }
    var more: nat;
    more, popped', exits' := DriveArc(planner, popped', exits', fed + first);
    Associate(fed, first, rest);
    added := EnqueuedBy(r) + more;
    slot := SlotMade(r, start, added);
    ReportedSlot(r, SlotFor(cfg, t, cmd, start), pending, first, rest, start);
  }

  /** Blocks an outcome says it enqueued. */
  function EnqueuedBy(r: Result<Outcome, PlannerError>): nat {
    match r
    case Ok(Queued(n)) => n
    case Ok(ArcPending(n)) => n
    case _ => 0
  }

  /** The slot the simulator pushes. */
  function SlotMade(r: Result<Outcome, PlannerError>, start: nat, added: nat): Slot {
    if IsMotion(r) then MoveSlot(start, start + added) else Done(OutcomeStep(r))
  }

  lemma ReportedSlot(r: Result<Outcome, PlannerError>, slot: Slot, pending: bool, first: seq<Block>, rest: seq<Block>,
                     start: nat)
    requires Reports(r, slot, pending, |first|)
    requires match slot
             case MoveSlot(a, b) => a == start && b == start + |first + rest|
             case Done(_) => first + rest == []
    ensures EnqueuedBy(r) == |first| && SlotMade(r, start, |first| + |rest|) == slot
  {
  }

  lemma SlotCounts(cfg: PlannerConfig, t: Trail, cmd: PlannerCommand, start: nat)
    requires cfg.Valid()
    ensures var slot := SlotFor(cfg, t, cmd, start);
            var n := |CommandBlocks(cfg, t, cmd).0|;
            match slot
            case MoveSlot(a, b) => a == start && b == start + n
            case Done(_) => n == 0
  {
    hide CommandBlocks, SlotFor;
    RefusedAddsNothing(cfg, t, cmd, start);
  }

  // ---- The timeline -------------------------------------------------------------------------------------------

  /** The time of blocks `from..to`, each left at the entry speed of the block after it. */
  function RangeSeconds(cfg: MotionConfig, blocks: seq<Block>, from: nat, to: nat): real
    requires from <= to <= |blocks|
  {
    if from == to then 0.0
    else RangeSeconds(cfg, blocks, from, to - 1) + BlockSeconds(cfg, blocks[to - 1], EntryAfter(blocks, [], to - 1))
  }

  function BlockSeconds(cfg: MotionConfig, b: Block, exit: real): real {
    if cfg.Usable() then BlockTicks(cfg, b, exit) as real / cfg.tickHz else 0.0
  }

  function Resolved(slot: Slot, blocks: seq<Block>, cfg: MotionConfig): SimStep
    requires slot.MoveSlot? ==> slot.start <= slot.end <= |blocks|
  {
    match slot
    case Done(step) => step
    case MoveSlot(start, end) =>
      SimMove(RangeSeconds(cfg, blocks, start, end), if start < end then blocks[start].rapid else false)
  }

  predicate SlotsWithin(slots: seq<Slot>, n: nat) {
    forall i :: 0 <= i < |slots| && slots[i].MoveSlot? ==> slots[i].start <= slots[i].end <= n
  }

  lemma {:induction false} ContiguousIsWithin(slots: seq<Slot>, n: nat)
    requires Contiguous(slots, n)
    ensures SlotsWithin(slots, n)
  {
    if slots != [] {
      var init, last := slots[..|slots| - 1], slots[|slots| - 1];
      ContiguousIsWithin(init, if last.MoveSlot? then last.start else n);
      assert slots == init + [last];
    }
  }

  /** The second pass. */
  method Resolve(slots: seq<Slot>, blocks: seq<Block>, cfg: MotionConfig) returns (steps: seq<SimStep>)
    requires SlotsWithin(slots, |blocks|)
    requires forall b :: b in blocks ==> b.stepEventCount == DominantCount(b.steps)
    ensures |steps| == |slots| && forall i :: 0 <= i < |slots| ==> steps[i] == Resolved(slots[i], blocks, cfg)
  {
    steps := [];
    hide BlockTicks, DominantCount;
    for k := 0 to |slots|
      invariant |steps| == k && forall i :: 0 <= i < k ==> steps[i] == Resolved(slots[i], blocks, cfg)
    {
      match slots[k]
      case Done(step) =>
        steps := steps + [step];
      case MoveSlot(start, end) =>
        var seconds := 0.0;
        for i := start to end
          invariant seconds == RangeSeconds(cfg, blocks, start, i)
        {
          var exit := if i + 1 < |blocks| then blocks[i + 1].entrySq else 0.0;
          var t := EstimateBlockTime(blocks[i], exit, cfg);
          seconds := seconds + t;
        }
        steps := steps + [SimMove(seconds, if start < end then blocks[start].rapid else false)];
    }
  }

  /** The motion of a whole run: it starts and ends at rest, every block is left at the speed the next is entered,
      and every block can be run from its entry to its exit within its own limits. */
  ghost predicate RestToRest(cfg: PlannerConfig, blocks: seq<Block>)
    requires cfg.Valid()
  {
    && (blocks != [] ==> blocks[0].entrySq == 0.0)
    && forall i :: 0 <= i < |blocks| ==> Runs(cfg, blocks[i], if i + 1 < |blocks| then blocks[i + 1].entrySq else 0.0)
  }

  /** `simulate`: one step per command; the blocks timed are exactly the program's, whatever the window forced out
      early; the exit speed seen when each was popped is the entry of the next; and the run goes from rest to rest. */
  method Simulate(commands: seq<PlannerCommand>, plannerConfig: PlannerConfig, motionConfig: MotionConfig)
    returns (steps: seq<SimStep>, ghost blocks: seq<Block>, ghost exits: seq<real>)
    requires plannerConfig.Valid()
    ensures Shapes(blocks) == Program(plannerConfig, commands).1
    ensures SlotsWithin(Program(plannerConfig, commands).0, |blocks|)
    ensures |steps| == |commands|
    ensures forall i :: 0 <= i < |steps| ==> steps[i] == Resolved(Program(plannerConfig, commands).0[i], blocks, motionConfig)
    ensures |exits| == |blocks| && forall i :: 0 <= i < |blocks| ==> exits[i] == EntryAfter(blocks, [], i)
    ensures RestToRest(plannerConfig, blocks)
    ensures forall i: nat :: i < |blocks| ==> blocks[i].entrySq == WindowEntry(Spans(blocks), i)
  {
    hide Window, Program, SlotFor, CommandBlocks, Resolved, EntryAfter, RestToRest, SlotsWithin, Shapes, WindowEntry;
    var planner := new Planner(plannerConfig);
    StartWindow(plannerConfig);
    var popped: seq<Block> := [];
    exits := [];
    var slots: seq<Slot> := [];
    var enqueuedTotal: nat := 0;
    var k: nat := 0;
    assert commands[..0] == [];
    while k < |commands|
      invariant k <= |commands| && fresh(planner) && planner.Valid()
      invariant planner.config == plannerConfig && planner.arcInProgress.None?
      invariant Window(plannerConfig, planner.View(), popped, exits, Program(plannerConfig, commands[..k]).1)
      invariant Full(popped, planner.queue)
      invariant slots == Program(plannerConfig, commands[..k]).0
      invariant planner.View().Trail() == Program(plannerConfig, commands[..k]).2
      invariant enqueuedTotal == |Program(plannerConfig, commands[..k]).1|
    {
      ghost var sofar := Program(plannerConfig, commands[..k]);
      var slot: Slot;
      var added: nat;
      slot, added, popped, exits := FeedCommand(planner, commands[k], popped, exits, sofar.1, enqueuedTotal);
      ProgramStep(plannerConfig, commands, k);
      slots := slots + [slot];
      enqueuedTotal := enqueuedTotal + added;
      k := k + 1;
    }
    assert commands[..k] == commands;
    ghost var fed := Program(plannerConfig, commands).1;
    while planner.queue != []
      invariant fresh(planner) && planner.Valid() && planner.config == plannerConfig
      invariant Window(plannerConfig, planner.View(), popped, exits, fed)
      decreases |planner.queue|
    {
      WindowPops(plannerConfig, planner.View(), popped, exits, fed);
      var block := planner.PopBlock();
      popped := popped + [block.value];
      exits := exits + [ExitFor(planner.View())];
    }
    blocks := popped;
    DrainedWindow(plannerConfig, planner.View(), blocks, exits, commands);
    steps := Resolve(slots, popped, motionConfig);
  }

  /** The schedule a program of at most the window's length is timed with is the greatest there is. */
  lemma ShortProgramsAreTimedAtTheirBest(cfg: PlannerConfig, blocks: seq<Block>, p: seq<real>)
    requires cfg.Valid() && RestToRest(cfg, blocks) && |blocks| <= 32
    requires forall i: nat :: i < |blocks| ==> blocks[i].entrySq == WindowEntry(Spans(blocks), i)
    requires Feasible(Spans(blocks), p)
    ensures Feasible(Spans(blocks), Entries(blocks)) && AtMost(p, Entries(blocks))
  {
    var s := Spans(blocks);
    forall i | 0 <= i < |s| ensures s[i].cap >= 0.0 && s[i].reach >= 0.0 {
      assert Runs(cfg, blocks[i], if i + 1 < |blocks| then blocks[i + 1].entrySq else 0.0);
      ReachPositive(blocks[i]);
    }
    hide Feasible, Plan, Runs, RestToRest, WindowEntry;
    FreePlanIsGreatest(s);
    forall i: nat | i < |blocks| ensures Entries(blocks)[i] == Plan(s, None)[i] {
      ShortWindow(s, i);
    }
    assert Entries(blocks) == Plan(s, None);
    FeasibleLength(s, p);
  }

  lemma FeasibleLength(s: seq<Span>, p: seq<real>)
    requires Feasible(s, p)
    ensures |p| == |s|
  {
  }

  lemma StartWindow(cfg: PlannerConfig)
    requires cfg.Valid()
    ensures Window(cfg, Fresh(cfg), [], [], []) && Program(cfg, []) == ([], [], Fresh(cfg).Trail())
  {
    FreshIsConsistent(cfg);
    SlidesStart([]);
    assert Shapes([]) == [];
    hide Inv;
  }

  lemma ProgramStep(cfg: PlannerConfig, cmds: seq<PlannerCommand>, k: nat)
    requires cfg.Valid() && k < |cmds|
    ensures var (slots, blocks, t) := Program(cfg, cmds[..k]);
            var cmd := cmds[k];
            Program(cfg, cmds[..k + 1]) ==
              (slots + [SlotFor(cfg, t, cmd, |blocks|)], blocks + CommandBlocks(cfg, t, cmd).0, CommandBlocks(cfg, t, cmd).1)
  {
    hide SlotFor, CommandBlocks;
    assert cmds[..k + 1][..k] == cmds[..k];
  }

  /** Once everything is drained the window is the whole run. */
  lemma DrainedWindow(cfg: PlannerConfig, st: State, blocks: seq<Block>, exits: seq<real>, cmds: seq<PlannerCommand>)
    requires cfg.Valid() && st.queue == [] && Window(cfg, st, blocks, exits, Program(cfg, cmds).1)
    ensures Shapes(blocks) == Program(cfg, cmds).1 && RestToRest(cfg, blocks)
    ensures SlotsWithin(Program(cfg, cmds).0, |blocks|)
    ensures |exits| == |blocks| && forall i :: 0 <= i < |blocks| ==> exits[i] == EntryAfter(blocks, [], i)
    ensures forall b :: b in blocks ==> b.stepEventCount == DominantCount(b.steps)
    ensures forall i: nat :: i < |blocks| ==> blocks[i].entrySq == WindowEntry(Spans(blocks), i)
  {
    hide Program, Inv, GoodBlock, WindowEntry, Slides, Shapes, RestToRest, Spans;
    DrainedShapes(blocks, st.queue);
    ProgramFromRest(cfg, cmds);
    SlotsTileTheBlocks(cfg, cmds);
    ContiguousIsWithin(Program(cfg, cmds).0, |blocks|);
    DrainedJoins(cfg, blocks, exits);
  }

  lemma DrainedShapes(blocks: seq<Block>, queue: seq<Block>)
    requires queue == [] && Slides(blocks, queue)
    ensures Shapes(blocks) + Shapes(queue) == Shapes(blocks) && |Shapes(blocks)| == |blocks|
    ensures forall i: nat :: i < |blocks| ==> blocks[i].entrySq == WindowEntry(Spans(blocks), i)
  {
    hide WindowEntry;
    assert blocks + queue == blocks;
  }

  lemma DrainedJoins(cfg: PlannerConfig, blocks: seq<Block>, exits: seq<real>)
    requires cfg.Valid() && Joined(cfg, blocks, exits, []) && FromRest(Shapes(blocks))
    ensures RestToRest(cfg, blocks) && forall b :: b in blocks ==> b.stepEventCount == DominantCount(b.steps)
  {
    forall i | 0 <= i < |blocks|
      ensures Runs(cfg, blocks[i], if i + 1 < |blocks| then blocks[i + 1].entrySq else 0.0)
    {
      assert exits[i] == EntryAfter(blocks, [], i);
    }
    if blocks != [] {
      assert Shapes(blocks)[0] == Shape(blocks[0]);
      assert Runs(cfg, blocks[0], exits[0]);
    }
    forall b | b in blocks
      ensures b.stepEventCount == DominantCount(b.steps)
    {
      var i :| 0 <= i < |blocks| && blocks[i] == b;
      assert Runs(cfg, blocks[i], exits[i]);
    }
    hide DominantCount;
  }

  lemma {:induction false} ProgramPrefix(cfg: PlannerConfig, cmds: seq<PlannerCommand>, k: nat)
    requires cfg.Valid() && k <= |cmds|
    ensures Program(cfg, cmds[..k]).0 <= Program(cfg, cmds).0 && Program(cfg, cmds[..k]).1 <= Program(cfg, cmds).1
    decreases |cmds| - k
  {
    hide Program;
    if k < |cmds| {
      ProgramStep(cfg, cmds, k);
      ProgramPrefix(cfg, cmds, k + 1);
    } else {
      assert cmds[..k] == cmds;
    }
  }

  /** An arc is never rapid. */
  lemma {:induction false} ArcsAreFeedMoves(cfg: PlannerConfig, t: Trail, arc: ArcInProgress)
    requires cfg.Valid() && arc.segments > 0
    ensures forall b :: b in ArcShapes(cfg, t, arc) ==> !b.rapid
    decreases arc.segments + 1 - arc.nextSeg
  {
    hide BuildBlock, ChordEnd;
    if arc.nextSeg <= arc.segments {
      var target := ChordEnd(cfg, arc, arc.nextSeg);
      LegIsAsRequested(cfg, t, target, arc.Request());
      ArcsAreFeedMoves(cfg, Leg(cfg, t, target, arc.Request()).1, arc.(nextSeg := arc.nextSeg + 1));
    }
  }

  lemma LegIsAsRequested(cfg: PlannerConfig, t: Trail, target: Steps, rq: Request)
    requires cfg.Valid()
    ensures forall b :: b in Leg(cfg, t, target, rq).0 ==> b.rapid == rq.rapid
  {
    hide TravelMm, Direction, Acceleration, CruiseSpeedSq, JunctionSpeedSq;
  }

  lemma CommandIsAsRequested(cfg: PlannerConfig, t: Trail, cmd: PlannerCommand)
    requires cfg.Valid()
    ensures forall b :: b in CommandBlocks(cfg, t, cmd).0 ==> b.rapid == (cmd.Move? && cmd.rapid)
  {
    hide Leg, ArcShapes, ArcEnd, PrepareArc, CommandTarget;
    if cmd.Move? {
      LegIsAsRequested(cfg, t, CommandTarget(At(cfg, t), cmd), MoveRequest(cmd));
    } else if cmd.Arc? && PrepareArc(At(cfg, t), cmd).Some? {
      ArcsAreFeedMoves(cfg, t, PrepareArc(At(cfg, t), cmd).value);
    }
  }

  /** What a step of the timeline says of its command: a dwell its seconds, a spindle command its direction, a pause its
      kind; a motion whether it is a rapid, unless it comes to nothing. A motion is timed as the sum of its own blocks. */
  predicate Says(step: SimStep, cmd: PlannerCommand) {
    && (cmd.Dwell? ==> step == SimDwell(cmd.seconds))
    && (cmd.Spindle? ==> step == SimSpindle(cmd.state))
    && (cmd.ProgramPause? ==> step == SimPause(cmd.optional, cmd.toolChange))
    && (cmd.ProgramEnd? ==> step == SimProgramEnd)
    && (cmd.Probe? || cmd.GoToPredefined? || cmd.Coordinate? || cmd.Coolant? ==> step == Untimed)
    && (cmd.Move? ==> step.SimMove? && (step.rapid == cmd.rapid || step == SimMove(0.0, false)))
    && (cmd.Arc? ==> step == Untimed || (step.SimMove? && !step.rapid))
  }

  lemma StepsSayTheirCommands(cfg: PlannerConfig, cmds: seq<PlannerCommand>, blocks: seq<Block>, motion: MotionConfig,
                              i: nat)
    requires cfg.Valid() && i < |cmds|
    requires Shapes(blocks) == Program(cfg, cmds).1 && SlotsWithin(Program(cfg, cmds).0, |blocks|)
    ensures Says(Resolved(Program(cfg, cmds).0[i], blocks, motion), cmds[i])
  {
    hide Program, CommandBlocks, RangeSeconds, BlockSeconds, PrepareArc;
    var (slots, before, t) := Program(cfg, cmds[..i]);
    var (cmd, slot) := (cmds[i], Program(cfg, cmds).0[i]);
    ProgramStep(cfg, cmds, i);
    ProgramPrefix(cfg, cmds, i + 1);
    CommandIsAsRequested(cfg, t, cmd);
    assert slot == SlotFor(cfg, t, cmd, |before|);
    if slot.MoveSlot? && slot.start < slot.end {
      var b := Shapes(blocks)[slot.start];
      assert b == CommandBlocks(cfg, t, cmd).0[0];
      assert b.rapid == blocks[slot.start].rapid;
    }
    if slot.MoveSlot? && slot.start == slot.end {
      NoBlocksNoTime(motion, blocks, slot.start);
    }
  }

  lemma NoBlocksNoTime(motion: MotionConfig, blocks: seq<Block>, at: nat)
    requires at <= |blocks|
    ensures RangeSeconds(motion, blocks, at, at) == 0.0
  {
  }

  /** The motion of a timeline takes exactly the ticks of its schedule: each block from its own entry to the next one's. */
  lemma {:induction false} MotionTakesItsSchedule(motion: MotionConfig, blocks: seq<Block>, from: nat)
    requires motion.Usable() && from <= |blocks|
    ensures Mul(RangeSeconds(motion, blocks, from, |blocks|), motion.tickHz)
            == ScheduleTicks(motion, blocks[from..], Entries(blocks[from..])) as real
    decreases |blocks| - from
  {
    hide BlockTicks, Mul;
    if from < |blocks| {
      var (b, exit, hz) := (blocks[from], EntryAfter(blocks, [], from), motion.tickHz);
      var rest := RangeSeconds(motion, blocks, from + 1, |blocks|);
      MotionTakesItsSchedule(motion, blocks, from + 1);
      RangeFromTheFront(motion, blocks, from, |blocks|);
      FirstOfSchedule(motion, blocks, from);
      MulCommutes(rest, hz);
      MulCommutes(BlockSeconds(motion, b, exit), hz);
      MulCommutes(BlockSeconds(motion, b, exit) + rest, hz);
      MulSplits(hz, BlockSeconds(motion, b, exit), rest);
      SecondsAreTicks(motion, b, exit);
      hide BlockSeconds, RangeSeconds, EntryAfter, ScheduleTicks;
    } else {
      MulByZero(motion.tickHz);
    }
  }

  lemma FirstOfSchedule(motion: MotionConfig, blocks: seq<Block>, from: nat)
    requires from < |blocks|
    ensures ScheduleTicks(motion, blocks[from..], Entries(blocks[from..]))
            == BlockTicks(motion, blocks[from], EntryAfter(blocks, [], from))
               + ScheduleTicks(motion, blocks[from + 1..], Entries(blocks[from + 1..]))
  {
    hide BlockTicks;
    var (q, e) := (blocks[from..], Entries(blocks[from..]));
    assert q[1..] == blocks[from + 1..] && e[1..] == Entries(blocks[from + 1..]);
    assert q[0].(entrySq := e[0]) == blocks[from];
    assert (if |q| > 1 then e[1] else 0.0) == EntryAfter(blocks, [], from);
  }

  lemma SecondsAreTicks(motion: MotionConfig, b: Block, exit: real)
    requires motion.Usable()
    ensures Mul(motion.tickHz, BlockSeconds(motion, b, exit)) == BlockTicks(motion, b, exit) as real
  {
    hide BlockTicks;
  }

  lemma {:induction false} RangeFromTheFront(motion: MotionConfig, blocks: seq<Block>, from: nat, to: nat)
    requires from < to <= |blocks|
    ensures RangeSeconds(motion, blocks, from, to)
            == BlockSeconds(motion, blocks[from], EntryAfter(blocks, [], from)) + RangeSeconds(motion, blocks, from + 1, to)
  {
    hide BlockSeconds;
    if from + 1 < to {
      RangeFromTheFront(motion, blocks, from, to - 1);
    }
  }
}

/** The planner's state and what each of its operations makes of it (planner.rs:517-1441). The class in
    PlannerObject.dfy is proved to follow these functions; the theorems are about them. */
module PlannerState {
  import opened Base
  import opened Products
  import opened Blocks
  import opened Commands
  import opened Kinematics
  import opened LookAhead
  import opened Arcs

  const BLOCK_QUEUE_LEN := 32

  datatype PlannerError = QueueFull | InvalidArc | JogExceedsTravel | MoveExceedsTravel

  datatype Outcome =
    | Queued(blocks: nat)
    | ArcPending(enqueued: nat)
    | DwellFor(seconds: real)
    | SpindleTo(state: SpindleState, speed: real)
    | RecallPredefined(isG28: bool)
    | EndProgram
    | PauseProgram(optional: bool, toolChange: bool)
    | CoolantTo(coolant: CoolantState)
    | CoordinateChange(op: CoordinateOp)
    | ProbeTo(kind: ProbeKind, target: Steps, feed: real, units: Units)

  datatype State = State(
    cfg: PlannerConfig,
    queue: seq<Block>,
    position: Steps,
    workOffsetMm: Vec,
    prevUnitVec: Vec,
    prevNominalSq: real,
    headBusy: bool,
    arc: Option<ArcInProgress>)
  {
    function Trail(): Trail { Kinematics.Trail(position, prevUnitVec, prevNominalSq) }
  }

  function Fresh(cfg: PlannerConfig): State {
    State(cfg, [], ORIGIN, ZERO_VEC, ZERO_VEC, 0.0, false, None)
  }

  /** Forget the direction and speed of the last block: the next move corners from rest. */
  function FlushLookahead(st: State): State {
    st.(prevUnitVec := ZERO_VEC, prevNominalSq := 0.0)
  }

  function SyncPosition(st: State, steps: Steps): State {
    FlushLookahead(st.(position := steps))
  }

  function SetConfig(st: State, cfg: PlannerConfig): State {
    FlushLookahead(st.(cfg := cfg))
  }

  function PopBlock(st: State): (State, Option<Block>) {
    if st.queue == [] then (st, None)
    else (st.(queue := st.queue[1..], headBusy := |st.queue| > 1), Some(st.queue[0]))
  }

  /** The exit speed the executor reads for a block it has popped: the entry of the block now at the front, or a stop. */
  function ExitFor(st: State): real {
    if st.queue == [] then 0.0 else st.queue[0].entrySq
  }

  function Recalculate(st: State): State {
    st.(queue := Replanned(st.queue, st.headBusy))
  }

  function EnqueueMove(st: State, target: Steps, rq: Request): (r: (State, Result<nat, PlannerError>))
    requires st.cfg.Valid()
    ensures |st.queue| < BLOCK_QUEUE_LEN ==> r.1.Ok?
    ensures r.1 != Ok(1) ==> r.0 == st
  {
    var block := BuildBlock(st.cfg, st.Trail(), target, rq);
    if block.None? then (st, Ok(0))
    else if |st.queue| >= BLOCK_QUEUE_LEN then (st, Err(QueueFull))
    else (st.(queue := st.queue + [block.value], position := target, prevUnitVec := block.value.unitVec,
              prevNominalSq := block.value.nominalSq), Ok(1))
  }

  /** `plan_line`, and the tail of `plan_jog`: one move followed by the look-ahead passes. */
  function PlanLine(st: State, target: Steps, rq: Request): (State, Result<nat, PlannerError>)
    requires st.cfg.Valid()
  {
    var (st', r) := EnqueueMove(st, target, rq);
    (if r == Ok(1) then Recalculate(st') else st', r)
  }

  /** One axis of a work, machine (G53) or incremental target, in machine mm. */
  function AxisMm(st: State, axis: nat, value: real, units: Units, distance: DistanceMode, machineCoords: bool): real
    requires st.cfg.Valid() && axis < AXES
  {
    var mm := value * (if st.cfg.rotary[axis] then 1.0 else UnitsScale(units));
    match distance
    case Absolute => if machineCoords then mm else mm + st.workOffsetMm[axis]
    case Incremental => st.position[axis] as real / st.cfg.stepsPerMm[axis] + mm
  }

  function ResolveAxis(st: State, axis: nat, axes: AxisWords, units: Units, distance: DistanceMode,
                       machineCoords: bool): int
    requires st.cfg.Valid() && axis < AXES
  {
    match axes.Word(axis)
    case None => st.position[axis]
    case Some(v) => MmToSteps(AxisMm(st, axis, v, units, distance, machineCoords), st.cfg.stepsPerMm[axis])
  }

  function ResolveTarget(st: State, axes: AxisWords, units: Units, distance: DistanceMode, machineCoords: bool): Steps
    requires st.cfg.Valid()
  {
    [ResolveAxis(st, 0, axes, units, distance, machineCoords), ResolveAxis(st, 1, axes, units, distance, machineCoords),
     ResolveAxis(st, 2, axes, units, distance, machineCoords), ResolveAxis(st, 3, axes, units, distance, machineCoords)]
  }

  /** Lower end of a bounded axis's envelope in steps, with the one-step rounding tolerance. */
  function LowerLimit(cfg: PlannerConfig, maxTravelMm: Vec, axis: nat): int
    requires axis < AXES
  {
    MmToSteps(-maxTravelMm[axis], cfg.stepsPerMm[axis]) - 1
  }

  predicate WithinEnvelope(cfg: PlannerConfig, maxTravelMm: Vec, p: Steps)
    requires |cfg.rotary| == AXES
  {
    forall a: nat :: a < AXES && !cfg.rotary[a] ==> LowerLimit(cfg, maxTravelMm, a) <= p[a] <= 1
  }

  predicate SoftLimitViolation(cfg: PlannerConfig, limits: Option<Vec>, target: Steps)
    requires |cfg.rotary| == AXES
  {
    limits.Some? && !WithinEnvelope(cfg, limits.value, target)
  }

  function RapidRequest(units: Units): Request { Request(0.0, units, UnitsPerMin, true, false) }

  function JogRequest(jog: JogCommand): Request { Request(jog.feed, jog.units, UnitsPerMin, false, true) }

  function PlanJog(st: State, jog: JogCommand, limits: Option<Vec>): (State, Result<Outcome, PlannerError>)
    requires st.cfg.Valid()
  {
    var target := ResolveTarget(st, jog.axes, jog.units, jog.distance, jog.machineCoords);
    if SoftLimitViolation(st.cfg, limits, target) then (st, Err(JogExceedsTravel))
    else
      var (st', r) := PlanLine(st, target, JogRequest(jog));
      (st', if r.Ok? then Ok(Queued(r.value)) else Err(r.error))
  }

  function PredefinedTarget(st: State, predefined: Vec): Steps {
    var spm := st.cfg.stepsPerMm;
    [MmToSteps(predefined[0], spm[0]), MmToSteps(predefined[1], spm[1]),
     MmToSteps(predefined[2], spm[2]), MmToSteps(predefined[3], spm[3])]
  }

  /** Blocks a recall may need: one per leg that changes the step position. */
  function LegsNeeded(from: Steps, intermediate: Option<Steps>, recall: Steps): (n: nat)
    ensures n <= 2
  {
    var first := if intermediate.Some? && intermediate.value != from then 1 else 0;
    var here := if intermediate.Some? then intermediate.value else from;
    first + (if recall != here then 1 else 0)
  }

  function Intermediate(st: State, axes: AxisWords, units: Units, distance: DistanceMode): Option<Steps>
    requires st.cfg.Valid()
  {
    if axes.Any() then Some(ResolveTarget(st, axes, units, distance, false)) else None
  }

  /** The rapid through the intermediate point, if any, and the rapid to the stored position. */
  function RecallLegs(st: State, inter: Option<Steps>, recall: Steps, units: Units): (State, Result<nat, PlannerError>)
    requires st.cfg.Valid()
  {
    var (st1, r1) := if inter.Some? then PlanLine(st, inter.value, RapidRequest(units)) else (st, Ok(0));
    if r1.Err? then (st1, r1)
    else
      var (st2, r2) := PlanLine(st1, recall, RapidRequest(units));
      (st2, if r2.Ok? then Ok(r1.value + r2.value) else r2)
  }

  /** `plan_go_to_predefined`. */
  function PlanGoToPredefined(st: State, axes: AxisWords, units: Units, distance: DistanceMode, predefined: Vec,
                          limits: Option<Vec>): (State, Result<nat, PlannerError>)
    requires st.cfg.Valid()
  {
    var inter := Intermediate(st, axes, units, distance);
    var recall := PredefinedTarget(st, predefined);
    if inter.Some? && SoftLimitViolation(st.cfg, limits, inter.value) then (st, Err(MoveExceedsTravel))
    else if SoftLimitViolation(st.cfg, limits, recall) then (st, Err(MoveExceedsTravel))
    else if |st.queue| + LegsNeeded(st.position, inter, recall) > BLOCK_QUEUE_LEN then (st, Err(QueueFull))
    else RecallLegs(st, inter, recall, units)
  }

  /** The loop of `enqueue_arc_chunk`: chords go in until the arc or the free queue space runs out. */
  function FeedChords(st: State, arc: ArcInProgress, fed: nat): (State, ArcInProgress, nat)
    requires st.cfg.Valid() && arc.segments > 0
    decreases arc.segments + 1 - arc.nextSeg
  {
    if arc.nextSeg <= arc.segments && |st.queue| < BLOCK_QUEUE_LEN then
      var (st', r) := EnqueueMove(st, ChordEnd(st.cfg, arc, arc.nextSeg), arc.Request());
      FeedChords(st', arc.(nextSeg := arc.nextSeg + 1), fed + r.value)
    else (st, arc, fed)
  }

  function EnqueueArcChunk(st: State, arc: ArcInProgress): (State, Result<Outcome, PlannerError>)
    requires st.cfg.Valid() && arc.segments > 0
  {
    var (fedState, arc', fed) := FeedChords(st, arc, 0);
    var st' := Recalculate(fedState);
    if arc'.nextSeg > arc'.segments then (st'.(arc := None), Ok(Queued(fed)))
    else (st'.(arc := Some(arc')), Ok(ArcPending(fed)))
  }

  function ResumeArc(st: State): (State, Result<Outcome, PlannerError>)
    requires st.cfg.Valid() && (st.arc.Some? ==> st.arc.value.Valid())
  {
    if st.arc.None? then (st, Ok(Queued(0))) else EnqueueArcChunk(st, st.arc.value)
  }

  function PositionMm(st: State, axis: nat): real
    requires st.cfg.Valid() && axis < AXES
  {
    st.position[axis] as real / st.cfg.stepsPerMm[axis]
  }

  /** An arc's end point on one axis, in machine mm. */
  function ArcEndMm(st: State, cmd: PlannerCommand, axis: nat): real
    requires st.cfg.Valid() && axis < AXES && cmd.Arc?
  {
    match cmd.axes.Word(axis)
    case None => PositionMm(st, axis)
    case Some(v) => AxisMm(st, axis, v, cmd.units, cmd.distance, cmd.machineCoords)
  }

  /** The geometry `plan_arc` derives, or `None` for an arc without a centre offset or a radius. */
  function PrepareArc(st: State, cmd: PlannerCommand): (arc: Option<ArcInProgress>)
    requires st.cfg.Valid() && cmd.Arc?
    ensures arc.Some? ==> arc.value.Valid() && arc.value.nextSeg == 1
  {
    var p := AxesFor(cmd.plane);
    var o0 := OffsetForAxis(p.p0, cmd.i, cmd.j, cmd.k);
    var o1 := OffsetForAxis(p.p1, cmd.i, cmd.j, cmd.k);
    if o0.None? && o1.None? then None
    else
      var scale := UnitsScale(cmd.units);
      var c0 := PositionMm(st, p.p0) + Mul(GetOr(o0, 0.0), scale);
      var c1 := PositionMm(st, p.p1) + Mul(GetOr(o1, 0.0), scale);
      var x0 := PositionMm(st, p.p0) - c0;
      var y0 := PositionMm(st, p.p1) - c1;
      var radius := Hypot(st.cfg.math, x0, y0);
      if radius < LENGTH_EPSILON_MM then None
      else
        var sweep := SweepAngle(st.cfg.math, x0, y0, ArcEndMm(st, cmd, p.p0) - c0, ArcEndMm(st, cmd, p.p1) - c1, cmd.cw);
        var n := SegmentCount(st.cfg.math, radius, sweep, st.cfg.arcToleranceMm);
        Some(ArcInProgress(
          cmd.plane, c0, c1, radius, st.cfg.math.atan2(y0, x0), sweep / n as real, n, 1,
          PositionMm(st, p.normal), ArcEndMm(st, cmd, p.normal) - PositionMm(st, p.normal),
          PositionMm(st, A_AXIS), ArcEndMm(st, cmd, A_AXIS) - PositionMm(st, A_AXIS),
          if cmd.feedMode == UnitsPerMin then cmd.feed else Mul(cmd.feed, n as real), cmd.units, cmd.feedMode))
  }

  function CommandTarget(st: State, cmd: PlannerCommand): Steps
    requires st.cfg.Valid() && (cmd.Move? || cmd.Arc?)
  {
    ResolveTarget(st, cmd.axes, cmd.units, cmd.distance, cmd.machineCoords)
  }

  function MoveRequest(cmd: PlannerCommand): Request
    requires cmd.Move?
  {
    Request(cmd.feed, cmd.units, cmd.feedMode, cmd.rapid, false)
  }

  function PlanMove(st: State, cmd: PlannerCommand, limits: Option<Vec>): (State, Result<Outcome, PlannerError>)
    requires st.cfg.Valid() && cmd.Move?
  {
    if SoftLimitViolation(st.cfg, limits, CommandTarget(st, cmd)) then (st, Err(MoveExceedsTravel))
    else
      var (st', r) := PlanLine(st, CommandTarget(st, cmd), MoveRequest(cmd));
      (st', if r.Ok? then Ok(Queued(r.value)) else Err(r.error))
  }

  /** An arc is checked against the envelope at its end point only. */
  function PlanArc(st: State, cmd: PlannerCommand, limits: Option<Vec>): (State, Result<Outcome, PlannerError>)
    requires st.cfg.Valid() && cmd.Arc?
  {
    if SoftLimitViolation(st.cfg, limits, CommandTarget(st, cmd)) then (st, Err(MoveExceedsTravel))
    else if PrepareArc(st, cmd).None? then (st, Err(InvalidArc))
    else EnqueueArcChunk(st, PrepareArc(st, cmd).value)
  }

  /** `plan_command_with_limits`; no limits is `plan_command`. */
  function PlanCommand(st: State, cmd: PlannerCommand, limits: Option<Vec>): (State, Result<Outcome, PlannerError>)
    requires st.cfg.Valid()
  {
    match cmd
    case Move(_, _, _, _, _, _, _) => PlanMove(st, cmd, limits)
    case Arc(_, _, _, _, _, _, _, _, _, _, _) => PlanArc(st, cmd, limits)
    case Probe(kind, axes, units, distance, feed) =>
      (FlushLookahead(st), Ok(ProbeTo(kind, ResolveTarget(st, axes, units, distance, false), feed, units)))
    case Dwell(seconds) => (FlushLookahead(st), Ok(DwellFor(seconds)))
    case Spindle(state, speed) => (st, Ok(SpindleTo(state, speed)))
    case GoToPredefined(isG28, _, _, _) => (FlushLookahead(st), Ok(RecallPredefined(isG28)))
    case Coordinate(op) => (st, Ok(CoordinateChange(op)))
    case ProgramEnd => (FlushLookahead(st), Ok(EndProgram))
    case ProgramPause(optional, toolChange) => (FlushLookahead(st), Ok(PauseProgram(optional, toolChange)))
    case Coolant(coolant) => (st, Ok(CoolantTo(coolant)))
  }

  function FlushQueue(st: State): State {
    FlushLookahead(st.(queue := []))
  }

  /** The queue without its trailing jog blocks. */
  function WithoutTrailingJogs(q: seq<Block>): (r: seq<Block>)
    ensures r <= q
    ensures r != [] ==> !r[|r| - 1].jog
    ensures forall i :: |r| <= i < |q| ==> q[i].jog
  {
    if q != [] && q[|q| - 1].jog then WithoutTrailingJogs(q[..|q| - 1]) else q
  }

  function FlushJogBlocks(st: State): State {
    FlushLookahead(st.(queue := WithoutTrailingJogs(st.queue)))
  }
}

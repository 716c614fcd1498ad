/** The planner and the live position together: nothing the machine is told to do is lost, and with soft limits on it
    never leaves its envelope, not even between the ends of a block (planner.rs:672-687, 785-911, 968-986, 1499-1521;
    motion.rs:185-243, 502-543). */
module Conservation {
  import opened Base
  import opened Blocks
  import opened Commands
  import opened Kinematics
  import opened LookAhead
  import opened Arcs
  import opened PlannerState
  import opened PlannerRuns
  import opened Backpressure
  import opened Dda

  /** Where the machine may be: anywhere `i32` can say, or the travel envelope of its bounded axes. */
  datatype Region = Anywhere | Travel(cfg: PlannerConfig, maxTravelMm: Vec)

  ghost predicate In(r: Region, p: Steps) {
    InI32(p) && (r.Travel? ==> r.cfg.Valid() && WithinEnvelope(r.cfg, r.maxTravelMm, p))
  }

  /** Running `q` from `from` ends at `to`, and every block ends inside the region. */
  ghost predicate Path(r: Region, from: Steps, q: seq<Block>, to: Steps)
    decreases |q|
  {
    In(r, from) && if q == [] then from == to else Path(r, AddSteps(from, q[0].steps), q[1..], to)
  }

  function TotalSteps(q: seq<Block>): Steps {
    if q == [] then ORIGIN else AddSteps(q[0].steps, TotalSteps(q[1..]))
  }

  lemma {:induction false} PathEnds(r: Region, from: Steps, q: seq<Block>, to: Steps)
    requires Path(r, from, q, to)
    ensures In(r, to) && AddSteps(from, TotalSteps(q)) == to
    decreases |q|
  {
    if q != [] {
      PathEnds(r, AddSteps(from, q[0].steps), q[1..], to);
    }
  }

  lemma {:induction false} PathExtends(r: Region, from: Steps, q: seq<Block>, b: Block, to: Steps)
    requires Path(r, from, q, to) && In(r, AddSteps(to, b.steps))
    ensures Path(r, from, q + [b], AddSteps(to, b.steps))
    decreases |q|
  {
    var q' := q + [b];
    if q == [] {
      assert q' == [b] && q'[1..] == [];
    } else {
      assert q'[1..] == q[1..] + [b] && q'[0] == q[0];
      PathExtends(r, AddSteps(from, q[0].steps), q[1..], b, to);
    }
  }

  lemma {:induction false} PathIgnoresSpeeds(r: Region, from: Steps, q: seq<Block>, q': seq<Block>, to: Steps)
    requires Path(r, from, q, to) && Shapes(q) == Shapes(q')
    ensures Path(r, from, q', to)
    decreases |q|
  {
    if q != [] {
      assert Shapes(q)[0] == Shapes(q')[0];
      assert q[0].steps == Shape(q[0]).steps && q'[0].steps == Shape(q'[0]).steps;
      assert Shapes(q[1..]) == Shapes(q)[1..] && Shapes(q'[1..]) == Shapes(q')[1..];
      PathIgnoresSpeeds(r, AddSteps(from, q[0].steps), q[1..], q'[1..], to);
    }
  }

  /** A planner, and the live position of the machine it drives. */
  datatype Machine = Machine(planner: State, live: Steps)

  ghost predicate Tracks(r: Region, m: Machine) {
    Path(r, m.live, m.planner.queue, m.planner.position)
  }

  lemma DeltaAdds(from: Steps, to: Steps)
    ensures AddSteps(from, StepDelta(from, to)) == to
  {
  }

  /** Enqueueing a move to a point of the region keeps the path inside it. */
  lemma LegTracks(r: Region, live: Steps, st: State, target: Steps, rq: Request, st': State)
    requires st.cfg.Valid() && Tracks(r, Machine(st, live)) && In(r, target)
    requires var (leg, t') := Leg(st.cfg, st.Trail(), target, rq);
             Shapes(st'.queue) == Shapes(st.queue) + leg && st'.Trail() == t'
    ensures Tracks(r, Machine(st', live))
  {
    var built := BuildBlock(st.cfg, st.Trail(), target, rq);
    if built.Some? {
      var b := built.value;
      assert b.steps == StepDelta(st.position, target);
      hide BuildBlock, Path, In;
      DeltaAdds(st.position, target);
      PathExtends(r, live, st.queue, b, st.position);
      ShapesAppend(st.queue, [b]);
      assert Shapes([b]) == [Shape(b)];
      PathIgnoresSpeeds(r, live, st.queue + [b], st'.queue, target);
    } else {
      assert Shapes(st'.queue) == Shapes(st.queue);
      PathIgnoresSpeeds(r, live, st.queue, st'.queue, st.position);
    }
  }

  lemma LineTracks(r: Region, live: Steps, st: State, target: Steps, rq: Request)
    requires st.cfg.Valid() && Tracks(r, Machine(st, live)) && In(r, target)
    ensures Tracks(r, Machine(PlanLine(st, target, rq).0, live))
  {
    LineFitsOrIsRefused(st, target, rq);
    if PlanLine(st, target, rq).1.Ok? {
      LineAddsLeg(st, target, rq);
      hide PlanLine, Leg, Tracks, In;
      LegTracks(r, live, st, target, rq, PlanLine(st, target, rq).0);
    }
  }

  lemma ResolvedInI32(st: State, axes: AxisWords, units: Units, distance: DistanceMode, machineCoords: bool)
    requires st.cfg.Valid() && InI32(st.position)
    ensures InI32(ResolveTarget(st, axes, units, distance, machineCoords))
  {
    forall a: nat | a < AXES
      ensures I32_MIN <= ResolveAxis(st, a, axes, units, distance, machineCoords) <= I32_MAX
    {
      hide AxisMm;
    }
    hide ResolveAxis;
    var t := ResolveTarget(st, axes, units, distance, machineCoords);
    assert t[0] == ResolveAxis(st, 0, axes, units, distance, machineCoords);
    assert t[1] == ResolveAxis(st, 1, axes, units, distance, machineCoords);
    assert t[2] == ResolveAxis(st, 2, axes, units, distance, machineCoords);
    assert t[3] == ResolveAxis(st, 3, axes, units, distance, machineCoords);
  }

  lemma ChordInI32(cfg: PlannerConfig, arc: ArcInProgress, seg: nat)
    requires cfg.Valid() && arc.segments > 0
    ensures InI32(ChordEnd(cfg, arc, seg))
  {
    hide MmToSteps;
  }

  lemma MoveInTracks(r: Region, live: Steps, st: State, target: Steps, rq: Request)
    requires st.cfg.Valid() && Tracks(r, Machine(st, live)) && In(r, target) && EnqueueMove(st, target, rq).1.Ok?
    ensures Tracks(r, Machine(EnqueueMove(st, target, rq).0, live))
    ensures EnqueueMove(st, target, rq).0.cfg == st.cfg
  {
    EnqueueAddsLeg(st, target, rq);
    hide EnqueueMove, Leg, Tracks, In;
    LegTracks(r, live, st, target, rq, EnqueueMove(st, target, rq).0);
  }

  /** Every chord of the arc still to come ends inside the region. */
  ghost predicate ChordsIn(r: Region, cfg: PlannerConfig, arc: ArcInProgress)
    requires cfg.Valid() && arc.segments > 0
  {
    forall seg: nat :: arc.nextSeg <= seg <= arc.segments ==> In(r, ChordEnd(cfg, arc, seg))
  }

  lemma ChordsAreAnywhere(cfg: PlannerConfig, arc: ArcInProgress)
    requires cfg.Valid() && arc.segments > 0
    ensures ChordsIn(Anywhere, cfg, arc)
  {
    forall seg: nat | arc.nextSeg <= seg <= arc.segments ensures In(Anywhere, ChordEnd(cfg, arc, seg)) {
      ChordInI32(cfg, arc, seg);
    }
  }

  lemma ChordEndIgnoresProgress(cfg: PlannerConfig, arc: ArcInProgress, next: nat, seg: nat)
    requires cfg.Valid() && arc.segments > 0
    ensures ChordEnd(cfg, arc.(nextSeg := next), seg) == ChordEnd(cfg, arc, seg)
  {
    hide ChordOf;
    assert Whole(arc.(nextSeg := next)) == Whole(arc);
  }

  lemma LaterChordsIn(r: Region, cfg: PlannerConfig, arc: ArcInProgress, next: nat)
    requires cfg.Valid() && arc.segments > 0 && ChordsIn(r, cfg, arc) && arc.nextSeg <= next
    ensures ChordsIn(r, cfg, arc.(nextSeg := next))
  {
    hide In, ChordEnd;
    forall seg: nat | next <= seg <= arc.segments ensures In(r, ChordEnd(cfg, arc.(nextSeg := next), seg)) {
      ChordEndIgnoresProgress(cfg, arc, next, seg);
    }
  }

  lemma {:induction false} ChordsTrack(r: Region, live: Steps, st: State, arc: ArcInProgress, n: nat)
    requires st.cfg.Valid() && arc.segments > 0 && Tracks(r, Machine(st, live)) && ChordsIn(r, st.cfg, arc)
    ensures Tracks(r, Machine(FeedChords(st, arc, n).0, live))
    decreases arc.segments + 1 - arc.nextSeg
  {
    hide ChordEnd, EnqueueMove, Tracks, In;
    if arc.nextSeg <= arc.segments && |st.queue| < BLOCK_QUEUE_LEN {
      var target := ChordEnd(st.cfg, arc, arc.nextSeg);
      LaterChordsIn(r, st.cfg, arc, arc.nextSeg + 1);
      MoveInTracks(r, live, st, target, arc.Request());
      var (st1, fed) := EnqueueMove(st, target, arc.Request());
      ChordsTrack(r, live, st1, arc.(nextSeg := arc.nextSeg + 1), n + fed.value);
    }
  }

  lemma ArcTracks(r: Region, live: Steps, st: State, arc: ArcInProgress)
    requires st.cfg.Valid() && arc.segments > 0 && Tracks(r, Machine(st, live)) && ChordsIn(r, st.cfg, arc)
    ensures Tracks(r, Machine(EnqueueArcChunk(st, arc).0, live))
  {
    ChordsTrack(r, live, st, arc, 0);
    var mid := FeedChords(st, arc, 0).0;
    ReplanKeepsShapes(mid.queue, mid.headBusy);
    hide FeedChords, Replanned, Path, ChordsIn;
    PathIgnoresSpeeds(r, live, mid.queue, Replanned(mid.queue, mid.headBusy), mid.position);
  }

  /** A chunk leaves the configuration alone, and of the arc either nothing or its later chords. */
  lemma ChunkKeepsArc(r: Region, st: State, arc: ArcInProgress)
    requires st.cfg.Valid() && arc.Valid() && |st.queue| <= BLOCK_QUEUE_LEN && ChordsIn(r, st.cfg, arc)
    ensures var st' := EnqueueArcChunk(st, arc).0;
            && st'.cfg == st.cfg
            && (st'.arc.Some? ==> st'.arc.value.segments > 0 && ChordsIn(r, st.cfg, st'.arc.value))
  {
    hide FeedChords, Replanned, ChordsIn, ArcShapes, ArcEnd, Shapes;
    var fed := ChunkFeedsPrefix(st, arc, 0);
    var (mid, arc', n) := FeedChords(st, arc, 0);
    LaterChordsIn(r, st.cfg, arc, arc'.nextSeg);
  }

  /** Everything that happens to the machine. */
  datatype Event =
    /** The planner is driven; popping, flushing and syncing happen through the events below. */
    | Driven(op: Op)
    /** The executor pops a block and runs all of it. */
    | Executed
    /** A graceful stop at a block boundary: flush, then adopt the live position (planner.rs:894-911). */
    | Stopped
    /** A probe or homing ended at `p` with nothing queued; both sides adopt it (planner.rs:570-579). */
    | Relocated(p: Steps)

  /** Pop the head and let the live position follow its ticks. */
  function RunHead(m: Machine): Machine {
    if m.planner.queue == [] then m
    else
      var s := m.planner.queue[0].steps;
      var d := DominantCount(s);
      Machine(PopBlock(m.planner).0, if d == 0 then m.live else LiveAfter(m.live, s, d))
  }

  /** A soft-limited machine takes its motion from moves, jogs and recalls checked against its own limits, and from arcs
      whose chords all end within them: the source checks only where an arc ends. */
  ghost predicate Checked(r: Region, st: State, op: Op)
    requires st.cfg.Valid()
  {
    r.Travel? ==>
      match op
      case Command(cmd, limits) =>
        limits == Some(r.maxTravelMm) &&
        (cmd.Arc? && PrepareArc(st, cmd).Some? ==> ChordsIn(r, st.cfg, PrepareArc(st, cmd).value))
      case Jog(_, limits) => limits == Some(r.maxTravelMm)
      case Recall(_, _, _, _, limits) => limits == Some(r.maxTravelMm)
      case Configure(_) => false
      case _ => true
  }

  ghost predicate Possible(r: Region, m: Machine, e: Event)
    requires m.planner.cfg.Valid()
  {
    match e
    case Driven(op) => Allowed(m.planner, op) && !Removes(op) && !op.Sync? && Checked(r, m.planner, op)
    case Executed => true
    case Stopped => true
    case Relocated(p) => m.planner.queue == [] && In(r, p)
  }

  ghost predicate MachineInv(r: Region, m: Machine) {
    && Inv(m.planner) && Tracks(r, m) && (r.Travel? ==> m.planner.cfg == r.cfg)
    && (r.Travel? && m.planner.arc.Some? ==> ChordsIn(r, m.planner.cfg, m.planner.arc.value))
  }

  ghost function Happens(r: Region, m: Machine, e: Event): Machine
    requires MachineInv(r, m)
  {
    match e
    case Driven(op) => m.(planner := Step(m.planner, op))
    case Executed => RunHead(m)
    case Stopped => m.(planner := SyncPosition(FlushQueue(m.planner), m.live))
    case Relocated(p) => Machine(SyncPosition(m.planner, p), p)
  }

  /** A command's target, once it has been accepted, is inside the region. */
  lemma AcceptedTargetIsIn(r: Region, st: State, limits: Option<Vec>, target: Steps)
    requires st.cfg.Valid() && InI32(target) && !SoftLimitViolation(st.cfg, limits, target)
    requires r.Travel? ==> st.cfg == r.cfg && limits == Some(r.maxTravelMm)
    ensures In(r, target)
  {
  }

  lemma RecallTracks(r: Region, live: Steps, st: State, axes: AxisWords, units: Units, distance: DistanceMode,
                     predefined: Vec, limits: Option<Vec>)
    requires st.cfg.Valid() && Tracks(r, Machine(st, live)) && InI32(st.position)
    requires r.Travel? ==> st.cfg == r.cfg && limits == Some(r.maxTravelMm)
    ensures Tracks(r, Machine(PlanGoToPredefined(st, axes, units, distance, predefined, limits).0, live))
  {
    var inter, recall := Intermediate(st, axes, units, distance), PredefinedTarget(st, predefined);
    if RecallWithinLimits(st, inter, recall, limits) {
      if inter.Some? {
        ResolvedInI32(st, axes, units, distance, false);
        AcceptedTargetIsIn(r, st, limits, inter.value);
      }
      PredefinedInI32(st, predefined);
      AcceptedTargetIsIn(r, st, limits, recall);
      RecallLegsTrack(r, live, st, inter, recall, units);
    }
    hide Intermediate, PredefinedTarget, SoftLimitViolation, RecallLegs, Tracks, In;
  }

  lemma RecallLegsTrack(r: Region, live: Steps, st: State, inter: Option<Steps>, recall: Steps, units: Units)
    requires st.cfg.Valid() && Tracks(r, Machine(st, live))
    requires (inter.Some? ==> In(r, inter.value)) && In(r, recall)
    ensures Tracks(r, Machine(RecallLegs(st, inter, recall, units).0, live))
  {
    hide PlanLine, Tracks, In;
    var rq := RapidRequest(units);
    if inter.Some? {
      LineTracks(r, live, st, inter.value, rq);
      LineKeepsConfig(st, inter.value, rq);
      LineTracks(r, live, PlanLine(st, inter.value, rq).0, recall, rq);
    } else {
      LineTracks(r, live, st, recall, rq);
    }
  }

  lemma LineKeepsConfig(st: State, target: Steps, rq: Request)
    requires st.cfg.Valid()
    ensures PlanLine(st, target, rq).0.cfg == st.cfg
  {
  }

  lemma PredefinedInI32(st: State, predefined: Vec)
    ensures InI32(PredefinedTarget(st, predefined))
  {
    hide MmToSteps;
  }

  lemma JogTracks(r: Region, live: Steps, st: State, jog: JogCommand, limits: Option<Vec>)
    requires st.cfg.Valid() && Tracks(r, Machine(st, live)) && InI32(st.position)
    requires r.Travel? ==> st.cfg == r.cfg && limits == Some(r.maxTravelMm)
    ensures Tracks(r, Machine(PlanJog(st, jog, limits).0, live))
  {
    var target := ResolveTarget(st, jog.axes, jog.units, jog.distance, jog.machineCoords);
    if !SoftLimitViolation(st.cfg, limits, target) {
      ResolvedInI32(st, jog.axes, jog.units, jog.distance, jog.machineCoords);
      AcceptedTargetIsIn(r, st, limits, target);
      LineTracks(r, live, st, target, JogRequest(jog));
    }
    hide Tracks, PlanLine, ResolveTarget, SoftLimitViolation;
  }

  lemma MoveTracks(r: Region, live: Steps, st: State, cmd: PlannerCommand, limits: Option<Vec>)
    requires st.cfg.Valid() && Tracks(r, Machine(st, live)) && InI32(st.position) && cmd.Move?
    requires r.Travel? ==> st.cfg == r.cfg && limits == Some(r.maxTravelMm)
    ensures Tracks(r, Machine(PlanMove(st, cmd, limits).0, live))
  {
    var target := CommandTarget(st, cmd);
    if !SoftLimitViolation(st.cfg, limits, target) {
      ResolvedInI32(st, cmd.axes, cmd.units, cmd.distance, cmd.machineCoords);
      AcceptedTargetIsIn(r, st, limits, target);
      LineTracks(r, live, st, target, MoveRequest(cmd));
    }
    hide Tracks, PlanLine, CommandTarget, SoftLimitViolation;
  }

  /** Nothing but motion touches the queue or the commanded position. */
  lemma DrivenTracks(r: Region, m: Machine, op: Op)
    requires MachineInv(r, m) && Allowed(m.planner, op) && !Removes(op) && !op.Sync? && Checked(r, m.planner, op)
    requires m.planner.cfg.Valid() && (m.planner.arc.Some? ==> m.planner.arc.value.Valid())
    ensures Tracks(r, Machine(Step(m.planner, op), m.live))
  {
    var st, live := m.planner, m.live;
    PathEnds(r, live, st.queue, st.position);
    assert InI32(st.position) && Tracks(r, Machine(st, live));
    hide Path, In, Inv, PlanJog, PlanGoToPredefined, PlanMove, PlanArc, EnqueueArcChunk, ResolveTarget, PrepareArc;
    match op
    case Command(cmd, limits) =>
      if cmd.Move? {
        MoveTracks(r, live, st, cmd, limits);
      } else if cmd.Arc? {
        CommandArcTracks(r, live, st, cmd, limits);
      }
    case Jog(jog, limits) => JogTracks(r, live, st, jog, limits);
    case Recall(axes, units, distance, predefined, limits) =>
      RecallTracks(r, live, st, axes, units, distance, predefined, limits);
    case Resume =>
      if st.arc.Some? {
        if r.Anywhere? {
          ChordsAreAnywhere(st.cfg, st.arc.value);
        }
        ArcTracks(r, live, st, st.arc.value);
      }
    case _ =>
  }

  lemma CommandArcTracks(r: Region, live: Steps, st: State, cmd: PlannerCommand, limits: Option<Vec>)
    requires st.cfg.Valid() && cmd.Arc? && Tracks(r, Machine(st, live)) && Checked(r, st, Command(cmd, limits))
    ensures Tracks(r, Machine(PlanArc(st, cmd, limits).0, live))
  {
    hide Tracks, PrepareArc, EnqueueArcChunk, CommandTarget, SoftLimitViolation, ChordsIn;
    if PrepareArc(st, cmd).Some? {
      if r.Anywhere? {
        ChordsAreAnywhere(st.cfg, PrepareArc(st, cmd).value);
      }
      ArcTracks(r, live, st, PrepareArc(st, cmd).value);
    }
  }

  /** A popped block takes the live position from one node of the path to the next. */
  lemma RunHeadTracks(r: Region, m: Machine)
    requires MachineInv(r, m)
    ensures MachineInv(r, RunHead(m))
    ensures m.planner.queue != [] ==> RunHead(m).live == AddSteps(m.live, m.planner.queue[0].steps)
  {
    var q := m.planner.queue;
    PopKeeps(m.planner);
    if q != [] {
      assert GoodBlock(m.planner.cfg, q[0]);
      assert In(r, m.live) && Path(r, AddSteps(m.live, q[0].steps), q[1..], m.planner.position);
      PathStarts(r, AddSteps(m.live, q[0].steps), q[1..], m.planner.position);
      BlockMovesLive(m.live, q[0].steps);
      hide Inv, In, LiveAfter, DominantCount, GoodBlock;
    }
  }

  lemma PathStarts(r: Region, from: Steps, q: seq<Block>, to: Steps)
    requires Path(r, from, q, to)
    ensures In(r, from)
  {
  }

  lemma OtherOpsKeepArc(st: State, op: Op)
    requires st.cfg.Valid() && (st.arc.Some? ==> st.arc.value.Valid()) && !op.Configure? && !op.Resume?
    requires op.Command? ==> !op.cmd.Arc?
    ensures Step(st, op).cfg == st.cfg && (Step(st, op).arc == st.arc || Step(st, op).arc.None?)
  {
    hide Replanned, BuildBlock, ResolveTarget, SoftLimitViolation, Intermediate, PredefinedTarget;
  }

  /** A checked operation keeps the configuration, and the pending arc inside the region. */
  lemma DrivenKeepsArc(r: Region, st: State, op: Op)
    requires Inv(st) && r.Travel? && st.cfg.Valid() && Checked(r, st, op)
    requires st.arc.Some? ==> ChordsIn(r, st.cfg, st.arc.value)
    requires InvBasicsHold(st)
    ensures Step(st, op).cfg == st.cfg
    ensures Step(st, op).arc.Some? ==>
              Step(st, op).arc.value.segments > 0 && ChordsIn(r, st.cfg, Step(st, op).arc.value)
  {
    hide Inv, EnqueueArcChunk, PrepareArc, ChordsIn, SoftLimitViolation, CommandTarget;
    if op.Command? && op.cmd.Arc? {
      if PrepareArc(st, op.cmd).Some? {
        ChunkKeepsArc(r, st, PrepareArc(st, op.cmd).value);
      }
    } else if op.Resume? {
      if st.arc.Some? {
        ChunkKeepsArc(r, st, st.arc.value);
      }
    } else {
      hide Step;
      OtherOpsKeepArc(st, op);
    }
  }

  /** What the steps of a planner ask of its state. */
  predicate InvBasicsHold(st: State) {
    (st.arc.Some? ==> st.arc.value.Valid()) && |st.queue| <= BLOCK_QUEUE_LEN
  }

  /** Every event keeps the two positions and the queue in agreement, inside the region. */
  lemma EventKeeps(r: Region, m: Machine, e: Event)
    requires MachineInv(r, m) && Possible(r, m, e)
    ensures MachineInv(r, Happens(r, m, e))
  {
    InvBasics(m.planner);
    match e
    case Driven(op) =>
      StepKeeps(m.planner, op);
      DrivenTracks(r, m, op);
      if r.Travel? {
        DrivenKeepsArc(r, m.planner, op);
      }
      hide Inv, Tracks, Step, ChordsIn;
    case Executed => RunHeadTracks(r, m);
    case Stopped =>
      EmptyQueueKeeps(m.planner, m.planner.cfg);
      SyncKeeps(FlushQueue(m.planner), m.live);
      PathStarts(r, m.live, m.planner.queue, m.planner.position);
      hide Inv, In;
    case Relocated(p) =>
      SyncKeeps(m.planner, p);
      hide Inv, In;
  }

  ghost predicate AllPossible(r: Region, m: Machine, events: seq<Event>)
    requires MachineInv(r, m)
    decreases |events|
  {
    events == [] ||
    (Possible(r, m, events[0]) && (EventKeeps(r, m, events[0]); AllPossible(r, Happens(r, m, events[0]), events[1..])))
  }

  ghost function History(r: Region, m: Machine, events: seq<Event>): (m': Machine)
    requires MachineInv(r, m) && AllPossible(r, m, events)
    ensures MachineInv(r, m')
    decreases |events|
  {
    if events == [] then m else
      EventKeeps(r, m, events[0]);
      History(r, Happens(r, m, events[0]), events[1..])
  }

  /** Over every history, the live position plus all that is queued is the commanded position. */
  lemma PositionIsConserved(m: Machine, events: seq<Event>)
    requires MachineInv(Anywhere, m) && AllPossible(Anywhere, m, events)
    ensures var m' := History(Anywhere, m, events);
            AddSteps(m'.live, TotalSteps(m'.planner.queue)) == m'.planner.position
  {
    var m' := History(Anywhere, m, events);
    PathEnds(Anywhere, m'.live, m'.planner.queue, m'.planner.position);
  }

  /** Over every history of accepted moves, jogs and recalls under soft limits, started inside the envelope, the
      machine is inside it at every tick of every block it runs. */
  lemma NeverLeavesTheEnvelope(cfg: PlannerConfig, maxTravelMm: Vec, m: Machine, events: seq<Event>, tick: nat)
    requires cfg.Valid()
    requires MachineInv(Travel(cfg, maxTravelMm), m) && AllPossible(Travel(cfg, maxTravelMm), m, events)
    ensures var m' := History(Travel(cfg, maxTravelMm), m, events);
            && WithinEnvelope(cfg, maxTravelMm, m'.live)
            && (m'.planner.queue != [] && 0 < DominantCount(m'.planner.queue[0].steps)
                && tick <= DominantCount(m'.planner.queue[0].steps) ==>
                  WithinEnvelope(cfg, maxTravelMm, LiveAfter(m'.live, m'.planner.queue[0].steps, tick)))
  {
    var r := Travel(cfg, maxTravelMm);
    var m' := History(r, m, events);
    var q := m'.planner.queue;
    PathStarts(r, m'.live, q, m'.planner.position);
    if q != [] && 0 < DominantCount(q[0].steps) && tick <= DominantCount(q[0].steps) {
      PathStarts(r, AddSteps(m'.live, q[0].steps), q[1..], m'.planner.position);
      BetweenIsWithin(cfg, maxTravelMm, m'.live, q[0].steps, tick);
    }
  }

  lemma BetweenIsWithin(cfg: PlannerConfig, maxTravelMm: Vec, from: Steps, s: Steps, tick: nat)
    requires cfg.Valid() && 0 < DominantCount(s) && tick <= DominantCount(s)
    requires InI32(from) && InI32(AddSteps(from, s))
    requires WithinEnvelope(cfg, maxTravelMm, from) && WithinEnvelope(cfg, maxTravelMm, AddSteps(from, s))
    ensures WithinEnvelope(cfg, maxTravelMm, LiveAfter(from, s, tick))
  {
    forall a: nat | a < AXES && !cfg.rotary[a]
      ensures LowerLimit(cfg, maxTravelMm, a) <= LiveAfter(from, s, tick)[a] <= 1
    {
      LiveStaysBetween(from, s, tick, a);
      hide LiveAfter, LowerLimit;
    }
  }

  /** A machine just switched on is where the planner thinks it is, and inside any envelope. */
  lemma PowerOn(cfg: PlannerConfig, maxTravelMm: Vec)
    requires cfg.Valid() && forall a: nat :: a < AXES ==> maxTravelMm[a] >= 0.0
    ensures MachineInv(Anywhere, Machine(Fresh(cfg), ORIGIN))
    ensures MachineInv(Travel(cfg, maxTravelMm), Machine(Fresh(cfg), ORIGIN))
  {
    FreshIsConsistent(cfg);
    hide Inv;
    forall a: nat | a < AXES
      ensures LowerLimit(cfg, maxTravelMm, a) <= 0
    {
      var t, s := maxTravelMm[a], cfg.stepsPerMm[a];
      assert t * s >= 0.0 && -t * s == -(t * s);
    }
  }
}

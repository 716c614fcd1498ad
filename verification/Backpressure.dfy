/** What a full queue does to a command: nothing. Moves and recalls are refused whole and may be retried; an arc is
    fed in chunks that add up to the arc (planner.rs:756-843, 968-986, 1358-1441). */
module Backpressure {
  import opened Base
  import opened Blocks
  import opened Commands
  import opened Kinematics
  import opened LookAhead
  import opened Arcs
  import opened PlannerState

  /** The block, if any, a straight move adds, and where it leaves the program: no queue in sight. */
  function Leg(cfg: PlannerConfig, t: Trail, target: Steps, rq: Request): (seq<Block>, Trail)
    requires cfg.Valid()
  {
    match BuildBlock(cfg, t, target, rq)
    case None => ([], t)
    case Some(b) => ([Shape(b)], Trail(target, b.unitVec, b.nominalSq))
  }

  lemma ShapesAppend(q: seq<Block>, r: seq<Block>)
    ensures Shapes(q + r) == Shapes(q) + Shapes(r)
  {
  }

  lemma EnqueueAddsLeg(st: State, target: Steps, rq: Request)
    requires st.cfg.Valid() && EnqueueMove(st, target, rq).1.Ok?
    ensures var (st', r) := EnqueueMove(st, target, rq);
            var (leg, t') := Leg(st.cfg, st.Trail(), target, rq);
            && Shapes(st'.queue) == Shapes(st.queue) + leg && st'.Trail() == t' && r == Ok(|leg|)
            && st'.cfg == st.cfg && st'.headBusy == st.headBusy && st'.arc == st.arc
            && st'.workOffsetMm == st.workOffsetMm
  {
    var built := BuildBlock(st.cfg, st.Trail(), target, rq);
    if built.Some? {
      ShapesAppend(st.queue, [built.value]);
      assert Shapes([built.value]) == [Shape(built.value)];
    }
  }

  lemma LineAddsLeg(st: State, target: Steps, rq: Request)
    requires st.cfg.Valid() && PlanLine(st, target, rq).1.Ok?
    ensures var (st', r) := PlanLine(st, target, rq);
            var (leg, t') := Leg(st.cfg, st.Trail(), target, rq);
            && Shapes(st'.queue) == Shapes(st.queue) + leg && st'.Trail() == t' && r == Ok(|leg|)
            && st'.cfg == st.cfg && st'.arc == st.arc && st'.workOffsetMm == st.workOffsetMm
  {
    hide Leg, EnqueueMove;
    EnqueueAddsLeg(st, target, rq);
    ReplanKeepsShapes(EnqueueMove(st, target, rq).0.queue, st.headBusy);
  }

  lemma ZeroMoveAddsNothing(cfg: PlannerConfig, t: Trail, target: Steps, rq: Request)
    requires cfg.Valid()
    ensures |Leg(cfg, t, target, rq).0| <= if target == t.position then 0 else 1
    ensures Leg(cfg, t, target, rq).0 == [] ==> Leg(cfg, t, target, rq).1 == t
    ensures Leg(cfg, t, target, rq).0 != [] ==> Leg(cfg, t, target, rq).1.position == target
  {
    hide Direction, CruiseSpeedSq, JunctionSpeedSq, Acceleration;
    if target == t.position {
      assert DominantCount(StepDelta(t.position, target)) == 0;
    }
  }

  lemma LineFitsOrIsRefused(st: State, target: Steps, rq: Request)
    requires st.cfg.Valid()
    ensures PlanLine(st, target, rq).1.Err? ==>
              |st.queue| >= BLOCK_QUEUE_LEN && target != st.position
              && PlanLine(st, target, rq) == (st, Err(QueueFull))
  {
    ZeroMoveAddsNothing(st.cfg, st.Trail(), target, rq);
  }

  /** A refused command, of any kind, leaves the planner exactly as it was. */
  lemma RefusedCommandChangesNothing(st: State, cmd: PlannerCommand, limits: Option<Vec>)
    requires st.cfg.Valid() && PlanCommand(st, cmd, limits).1.Err?
    ensures PlanCommand(st, cmd, limits).0 == st
    ensures PlanCommand(st, cmd, limits).1.error == QueueFull ==> cmd.Move? && |st.queue| >= BLOCK_QUEUE_LEN
  {
    if cmd.Move? {
      LineFitsOrIsRefused(st, CommandTarget(st, cmd), MoveRequest(cmd));
    }
    hide PlanLine, EnqueueArcChunk, PrepareArc, CommandTarget, ResolveTarget;
    if cmd.Arc? && PrepareArc(st, cmd).Some? {
      ChunkIsNeverRefused(st, PrepareArc(st, cmd).value);
    }
  }

  lemma ChunkIsNeverRefused(st: State, arc: ArcInProgress)
    requires st.cfg.Valid() && arc.segments > 0
    ensures EnqueueArcChunk(st, arc).1.Ok?
  {
    hide FeedChords, Recalculate;
  }

  lemma RefusedJogChangesNothing(st: State, jog: JogCommand, limits: Option<Vec>)
    requires st.cfg.Valid() && PlanJog(st, jog, limits).1.Err?
    ensures PlanJog(st, jog, limits).0 == st
  {
    LineFitsOrIsRefused(st, ResolveTarget(st, jog.axes, jog.units, jog.distance, jog.machineCoords), JogRequest(jog));
  }

  /** The blocks a recall adds, one leg after the other. */
  function RecallShapes(cfg: PlannerConfig, t: Trail, inter: Option<Steps>, recall: Steps, units: Units): (seq<Block>, Trail)
    requires cfg.Valid()
  {
    var (leg1, t1) := if inter.Some? then Leg(cfg, t, inter.value, RapidRequest(units)) else ([], t);
    var (leg2, t2) := Leg(cfg, t1, recall, RapidRequest(units));
    (leg1 + leg2, t2)
  }

  /** With room for the legs counted beforehand, neither leg is refused. */
  lemma ReservedLegsFit(st: State, inter: Option<Steps>, recall: Steps, units: Units)
    requires st.cfg.Valid() && |st.queue| + LegsNeeded(st.position, inter, recall) <= BLOCK_QUEUE_LEN
    ensures var (st', r) := RecallLegs(st, inter, recall, units);
            var (legs, t') := RecallShapes(st.cfg, st.Trail(), inter, recall, units);
            && r == Ok(|legs|) && |legs| <= LegsNeeded(st.position, inter, recall)
            && Shapes(st'.queue) == Shapes(st.queue) + legs && st'.Trail() == t'
  {
    var rq := RapidRequest(units);
    hide PlanLine, Leg, Shapes;
    if inter.Some? {
      ZeroMoveAddsNothing(st.cfg, st.Trail(), inter.value, rq);
      LineFitsOrIsRefused(st, inter.value, rq);
      LineAddsLeg(st, inter.value, rq);
      var st1 := PlanLine(st, inter.value, rq).0;
      SecondLegFits(st1, recall, rq);
      assert Shapes(st.queue) + (Leg(st.cfg, st.Trail(), inter.value, rq).0 + Leg(st1.cfg, st1.Trail(), recall, rq).0)
          == Shapes(st.queue) + Leg(st.cfg, st.Trail(), inter.value, rq).0 + Leg(st1.cfg, st1.Trail(), recall, rq).0;
    } else {
      SecondLegFits(st, recall, rq);
    }
  }

  lemma SecondLegFits(st: State, recall: Steps, rq: Request)
    requires st.cfg.Valid() && (|st.queue| < BLOCK_QUEUE_LEN || recall == st.position)
    ensures var (st', r) := PlanLine(st, recall, rq);
            var (leg, t') := Leg(st.cfg, st.Trail(), recall, rq);
            && r == Ok(|leg|) && |leg| <= (if recall == st.position then 0 else 1)
            && Shapes(st'.queue) == Shapes(st.queue) + leg && st'.Trail() == t'
  {
    hide PlanLine, Leg, Shapes;
    ZeroMoveAddsNothing(st.cfg, st.Trail(), recall, rq);
    LineFitsOrIsRefused(st, recall, rq);
    LineAddsLeg(st, recall, rq);
  }

  predicate RecallWithinLimits(st: State, inter: Option<Steps>, recall: Steps, limits: Option<Vec>)
    requires |st.cfg.rotary| == AXES
  {
    (inter.Some? ==> !SoftLimitViolation(st.cfg, limits, inter.value)) && !SoftLimitViolation(st.cfg, limits, recall)
  }

  /** A recall is refused whole, exactly when its legs do not fit, and otherwise adds both legs. */
  lemma RecallIsAllOrNothing(st: State, axes: AxisWords, units: Units, distance: DistanceMode, predefined: Vec,
                             limits: Option<Vec>)
    requires st.cfg.Valid()
    requires RecallWithinLimits(st, Intermediate(st, axes, units, distance), PredefinedTarget(st, predefined), limits)
    ensures var (st', r) := PlanGoToPredefined(st, axes, units, distance, predefined, limits);
            var (inter, recall) := (Intermediate(st, axes, units, distance), PredefinedTarget(st, predefined));
            var (legs, t') := RecallShapes(st.cfg, st.Trail(), inter, recall, units);
            if |st.queue| + LegsNeeded(st.position, inter, recall) > BLOCK_QUEUE_LEN then (st', r) == (st, Err(QueueFull))
            else r == Ok(|legs|) && Shapes(st'.queue) == Shapes(st.queue) + legs && st'.Trail() == t'
  {
    var inter, recall := Intermediate(st, axes, units, distance), PredefinedTarget(st, predefined);
    hide SoftLimitViolation, RecallLegs, RecallShapes, Intermediate, PredefinedTarget, Shapes;
    if |st.queue| + LegsNeeded(st.position, inter, recall) <= BLOCK_QUEUE_LEN {
      ReservedLegsFit(st, inter, recall, units);
    }
  }

  function PopN(st: State, n: nat): (st': State)
    ensures st'.cfg == st.cfg && st'.Trail() == st.Trail() && st'.workOffsetMm == st.workOffsetMm && st'.arc == st.arc
    ensures |st'.queue| == if n <= |st.queue| then |st.queue| - n else 0
    decreases n
  {
    if n == 0 then st else PopN(PopBlock(st).0, n - 1)
  }

  lemma SameAxisMm(a: State, b: State, axis: nat, axes: AxisWords, units: Units, distance: DistanceMode)
    requires a.cfg == b.cfg && a.position == b.position && a.workOffsetMm == b.workOffsetMm
    requires a.cfg.Valid() && axis < AXES
    ensures forall v :: AxisMm(a, axis, v, units, distance, false) == AxisMm(b, axis, v, units, distance, false)
  {
  }

  lemma PopsMoveNoTarget(st: State, pops: nat, axes: AxisWords, units: Units, distance: DistanceMode, predefined: Vec)
    requires st.cfg.Valid()
    ensures Intermediate(PopN(st, pops), axes, units, distance) == Intermediate(st, axes, units, distance)
    ensures PredefinedTarget(PopN(st, pops), predefined) == PredefinedTarget(st, predefined)
  {
    var retry := PopN(st, pops);
    hide PopN, MmToSteps, AxisMm;
    forall a: nat | a < AXES
      ensures ResolveAxis(retry, a, axes, units, distance, false) == ResolveAxis(st, a, axes, units, distance, false)
    {
      SameAxisMm(retry, st, a, axes, units, distance);
    }
    hide ResolveAxis;
    assert ResolveTarget(retry, axes, units, distance, false) == ResolveTarget(st, axes, units, distance, false);
  }

  /** Popping and retrying a refused recall applies it once, from where the program was: the retry asks for the
      same two targets, fits as soon as two slots are free, and adds exactly the legs the first try would have. */
  lemma RecallRetry(st: State, pops: nat, axes: AxisWords, units: Units, distance: DistanceMode, predefined: Vec,
                    limits: Option<Vec>)
    requires st.cfg.Valid() && |st.queue| <= BLOCK_QUEUE_LEN
    requires RecallWithinLimits(st, Intermediate(st, axes, units, distance), PredefinedTarget(st, predefined), limits)
    ensures var inter := Intermediate(st, axes, units, distance);
            var recall := PredefinedTarget(st, predefined);
            var (legs, t') := RecallShapes(st.cfg, st.Trail(), inter, recall, units);
            var retry := PopN(st, pops);
            var (st', r) := PlanGoToPredefined(retry, axes, units, distance, predefined, limits);
            && (pops >= 2 ==> r.Ok?)
            && (r.Ok? ==> Shapes(st'.queue) == Shapes(retry.queue) + legs && st'.Trail() == t')
            && (r.Err? ==> st' == retry)
  {
    var retry := PopN(st, pops);
    PopsMoveNoTarget(st, pops, axes, units, distance, predefined);
    hide PopN, Intermediate, PredefinedTarget, PlanGoToPredefined, SoftLimitViolation, RecallShapes, LegsNeeded, Shapes;
    RecallIsAllOrNothing(retry, axes, units, distance, predefined, limits);
  }

  /** The blocks of an arc from its next chord on, each built where the one before it ends: what a single call
      would enqueue if the queue had no end. */
  function ArcShapes(cfg: PlannerConfig, t: Trail, arc: ArcInProgress): seq<Block>
    requires cfg.Valid() && arc.segments > 0
    decreases arc.segments + 1 - arc.nextSeg
  {
    if arc.nextSeg > arc.segments then []
    else
      var (leg, t') := Leg(cfg, t, ChordEnd(cfg, arc, arc.nextSeg), arc.Request());
      leg + ArcShapes(cfg, t', arc.(nextSeg := arc.nextSeg + 1))
  }

  /** Where the arc leaves the program. */
  function ArcEnd(cfg: PlannerConfig, t: Trail, arc: ArcInProgress): Trail
    requires cfg.Valid() && arc.segments > 0
    decreases arc.segments + 1 - arc.nextSeg
  {
    if arc.nextSeg > arc.segments then t
    else ArcEnd(cfg, Leg(cfg, t, ChordEnd(cfg, arc, arc.nextSeg), arc.Request()).1, arc.(nextSeg := arc.nextSeg + 1))
  }

  /** What was added to the back of the queue. */
  function Added(st: State, st': State): seq<Block>
    requires |st.queue| <= |st'.queue|
  {
    Shapes(st'.queue)[|st.queue|..]
  }

  /** Feeding took the queue from `st` to `st'` and the arc from `arc` to `arc'`, adding `fed`: chords from the front
      of the arc, in order. */
  ghost predicate FedInOrder(st: State, arc: ArcInProgress, st': State, arc': ArcInProgress, fed: seq<Block>)
    requires st.cfg.Valid() && arc.segments > 0
  {
    && |st'.queue| <= BLOCK_QUEUE_LEN && st'.cfg == st.cfg && st'.headBusy == st.headBusy
    && st'.workOffsetMm == st.workOffsetMm
    && Shapes(st'.queue) == Shapes(st.queue) + fed
    && arc' == arc.(nextSeg := arc'.nextSeg) && arc.nextSeg <= arc'.nextSeg
    && (arc.nextSeg <= arc.segments + 1 ==> arc'.nextSeg <= arc.segments + 1)
    && ArcShapes(st.cfg, st.Trail(), arc) == fed + ArcShapes(st.cfg, st'.Trail(), arc')
    && ArcEnd(st.cfg, st.Trail(), arc) == ArcEnd(st.cfg, st'.Trail(), arc')
  }

  lemma Associate<T>(a: seq<T>, b: seq<T>, c: seq<T>)
    ensures (a + b) + c == a + (b + c)
  {
  }

  lemma ArcStep(cfg: PlannerConfig, t: Trail, arc: ArcInProgress)
    requires cfg.Valid() && arc.segments > 0 && arc.nextSeg <= arc.segments
    ensures var (leg, t') := Leg(cfg, t, ChordEnd(cfg, arc, arc.nextSeg), arc.Request());
            && ArcShapes(cfg, t, arc) == leg + ArcShapes(cfg, t', arc.(nextSeg := arc.nextSeg + 1))
            && ArcEnd(cfg, t, arc) == ArcEnd(cfg, t', arc.(nextSeg := arc.nextSeg + 1))
  {
    hide Leg, ChordEnd;
  }

  lemma ArcDone(cfg: PlannerConfig, t: Trail, arc: ArcInProgress)
    requires cfg.Valid() && arc.segments > 0
    ensures arc.nextSeg > arc.segments ==> ArcShapes(cfg, t, arc) == [] && ArcEnd(cfg, t, arc) == t
  {
  }

  lemma OneMoreChord(st: State, arc: ArcInProgress, st1: State, leg: seq<Block>, st': State, arc': ArcInProgress,
                     fed: seq<Block>)
    requires st.cfg.Valid() && arc.segments > 0 && arc.nextSeg <= arc.segments
    requires Leg(st.cfg, st.Trail(), ChordEnd(st.cfg, arc, arc.nextSeg), arc.Request()) == (leg, st1.Trail())
    requires st1.cfg == st.cfg && st1.headBusy == st.headBusy && st1.workOffsetMm == st.workOffsetMm
    requires Shapes(st1.queue) == Shapes(st.queue) + leg
    requires FedInOrder(st1, arc.(nextSeg := arc.nextSeg + 1), st', arc', fed)
    ensures FedInOrder(st, arc, st', arc', leg + fed)
  {
    hide ArcShapes, ArcEnd, Shapes, Leg, ChordEnd;
    ArcStep(st.cfg, st.Trail(), arc);
    Associate(Shapes(st.queue), leg, fed);
    Associate(leg, fed, ArcShapes(st.cfg, st'.Trail(), arc'));
  }

  /** A chunk takes chords from the front of the arc and stops only when the arc or the space runs out. */
  lemma {:induction false} ChunkFeedsPrefix(st: State, arc: ArcInProgress, n: nat) returns (fed: seq<Block>)
    requires st.cfg.Valid() && arc.segments > 0 && |st.queue| <= BLOCK_QUEUE_LEN
    ensures var (st', arc', n') := FeedChords(st, arc, n);
            && n' == n + |fed| && FedInOrder(st, arc, st', arc', fed)
            && (arc'.nextSeg <= arc'.segments ==> |st'.queue| == BLOCK_QUEUE_LEN)
            && (arc.nextSeg <= arc.segments && |st.queue| < BLOCK_QUEUE_LEN ==> arc'.nextSeg > arc.nextSeg)
    decreases arc.segments + 1 - arc.nextSeg
  {
    hide ArcShapes, ArcEnd, ChordEnd, EnqueueMove, Leg, Shapes;
    if arc.nextSeg <= arc.segments && |st.queue| < BLOCK_QUEUE_LEN {
      var target := ChordEnd(st.cfg, arc, arc.nextSeg);
      EnqueueAddsLeg(st, target, arc.Request());
      ZeroMoveAddsNothing(st.cfg, st.Trail(), target, arc.Request());
      var (st1, r) := EnqueueMove(st, target, arc.Request());
      var arc1 := arc.(nextSeg := arc.nextSeg + 1);
      var leg := Leg(st.cfg, st.Trail(), target, arc.Request()).0;
      assert |Shapes(st1.queue)| == |st1.queue|;
      var rest := ChunkFeedsPrefix(st1, arc1, n + r.value);
      var (st', arc', n') := FeedChords(st1, arc1, n + r.value);
      OneMoreChord(st, arc, st1, leg, st', arc', rest);
      hide FedInOrder;
      fed := leg + rest;
      assert FeedChords(st, arc, n) == (st', arc', n');
    } else {
      fed := [];
      assert Shapes(st.queue) + fed == Shapes(st.queue);
      assert fed + ArcShapes(st.cfg, st.Trail(), arc) == ArcShapes(st.cfg, st.Trail(), arc);
    }
  }

  /** What is still to come of the arc in progress. */
  function Remaining(st: State): seq<Block>
    requires st.cfg.Valid() && (st.arc.Some? ==> st.arc.value.Valid())
  {
    if st.arc.None? then [] else ArcShapes(st.cfg, st.Trail(), st.arc.value)
  }

  /** Where the program will be once the arc in progress is done. */
  function Destination(st: State): Trail
    requires st.cfg.Valid() && (st.arc.Some? ==> st.arc.value.Valid())
  {
    if st.arc.None? then st.Trail() else ArcEnd(st.cfg, st.Trail(), st.arc.value)
  }

  function ChordsLeft(st: State): nat
    requires st.arc.Some? ==> st.arc.value.Valid()
  {
    if st.arc.None? then 0 else st.arc.value.segments + 1 - st.arc.value.nextSeg
  }

  ghost predicate Feeding(st: State) {
    st.cfg.Valid() && (st.arc.Some? ==> st.arc.value.Valid()) && |st.queue| <= BLOCK_QUEUE_LEN
  }

  /** One chunk: never refused; what it adds plus what remains is the arc; a free slot always makes progress. */
  lemma ChunkIsExact(st: State, arc: ArcInProgress)
    requires st.cfg.Valid() && arc.Valid() && |st.queue| <= BLOCK_QUEUE_LEN
    ensures var (st', r) := EnqueueArcChunk(st, arc);
            && Feeding(st') && r.Ok? && |st.queue| <= |st'.queue|
            && st'.cfg == st.cfg && st'.workOffsetMm == st.workOffsetMm
            && Shapes(st'.queue) == Shapes(st.queue) + Added(st, st')
            && r.value == (if st'.arc.None? then Queued(|Added(st, st')|) else ArcPending(|Added(st, st')|))
            && Added(st, st') + Remaining(st') == ArcShapes(st.cfg, st.Trail(), arc)
            && Destination(st') == ArcEnd(st.cfg, st.Trail(), arc)
            && (st'.arc.Some? ==> |st'.queue| == BLOCK_QUEUE_LEN)
            && ChordsLeft(st') <= arc.segments + 1 - arc.nextSeg
            && (|st.queue| < BLOCK_QUEUE_LEN ==> ChordsLeft(st') < arc.segments + 1 - arc.nextSeg)
  {
    hide FeedChords, Replanned, Shapes, ArcShapes, ArcEnd;
    var fed := ChunkFeedsPrefix(st, arc, 0);
    var (mid, arc', n) := FeedChords(st, arc, 0);
    ReplanKeepsShapes(mid.queue, mid.headBusy);
    var st' := EnqueueArcChunk(st, arc).0;
    ArcDone(st.cfg, mid.Trail(), arc');
    assert st'.Trail() == mid.Trail();
    assert |Shapes(st'.queue)| == |st'.queue|;
    assert Added(st, st') == fed;
    assert fed + [] == fed;
  }

  /** Drive a pending arc: before each resume the executor pops as many blocks as the schedule says. */
  function Drive(st: State, schedule: seq<nat>): (State, seq<Block>)
    requires st.cfg.Valid() && (st.arc.Some? ==> st.arc.value.Valid()) && |st.queue| <= BLOCK_QUEUE_LEN
    decreases |schedule|
  {
    if schedule == [] then (st, [])
    else
      var popped := PopN(st, schedule[0]);
      ResumeIsExact(popped);
      var resumed := ResumeArc(popped).0;
      var (st', fed) := Drive(resumed, schedule[1..]);
      (st', Added(popped, resumed) + fed)
  }

  lemma ResumeIsExact(st: State)
    requires Feeding(st)
    ensures var (st', r) := ResumeArc(st);
            && Feeding(st') && r.Ok? && |st.queue| <= |st'.queue|
            && Shapes(st'.queue) == Shapes(st.queue) + Added(st, st')
            && Added(st, st') + Remaining(st') == Remaining(st) && Destination(st') == Destination(st)
            && st'.cfg == st.cfg && st'.workOffsetMm == st.workOffsetMm
            && r.value == (if st'.arc.None? then Queued(|Added(st, st')|) else ArcPending(|Added(st, st')|))
            && (st'.arc.Some? ==> |st'.queue| == BLOCK_QUEUE_LEN)
            && ChordsLeft(st') <= ChordsLeft(st)
            && (|st.queue| < BLOCK_QUEUE_LEN && st.arc.Some? ==> ChordsLeft(st') < ChordsLeft(st))
  {
    if st.arc.Some? {
      ChunkIsExact(st, st.arc.value);
      hide EnqueueArcChunk, Shapes, ArcShapes, ArcEnd;
      assert Remaining(st) == ArcShapes(st.cfg, st.Trail(), st.arc.value);
    } else {
      assert Added(st, st) == [];
    }
  }

  /** For every schedule of pops, what has been fed followed by what remains is the whole arc: no chord is lost,
      repeated or reordered. */
  lemma {:induction false} NothingLostOrRepeated(st: State, schedule: seq<nat>)
    requires Feeding(st)
    ensures Feeding(Drive(st, schedule).0)
    ensures Drive(st, schedule).1 + Remaining(Drive(st, schedule).0) == Remaining(st)
    decreases |schedule|
  {
    if schedule != [] {
      var popped := PopN(st, schedule[0]);
      assert Remaining(popped) == Remaining(st);
      hide Remaining, Added, ResumeArc;
      ResumeIsExact(popped);
      NothingLostOrRepeated(ResumeArc(popped).0, schedule[1..]);
    }
  }

  /** If the executor pops at least one block before each resume, an arc is done after at most one resume per chord. */
  lemma {:induction false} DrivenArcCompletes(st: State, schedule: seq<nat>)
    requires Feeding(st) && (st.arc.Some? ==> |st.queue| == BLOCK_QUEUE_LEN)
    requires |schedule| >= ChordsLeft(st) && forall i :: 0 <= i < |schedule| ==> schedule[i] >= 1
    ensures Drive(st, schedule).0.arc.None?
    decreases |schedule|
  {
    if schedule == [] {
      assert st.arc.None?;
    } else {
      var popped := PopN(st, schedule[0]);
      ResumeIsExact(popped);
      hide ResumeArc, Shapes, Remaining, Added;
      DrivenArcCompletes(ResumeArc(popped).0, schedule[1..]);
    }
  }

  /** A chunked arc enqueues the very blocks of the arc planned in one go: the first chunk followed by all the
      resumed ones, under any schedule that lets it finish. */
  lemma ChunkedArcIsOneArc(st: State, arc: ArcInProgress, schedule: seq<nat>)
    requires st.cfg.Valid() && arc.Valid() && |st.queue| <= BLOCK_QUEUE_LEN
    requires |schedule| >= arc.segments && forall i :: 0 <= i < |schedule| ==> schedule[i] >= 1
    ensures Feeding(EnqueueArcChunk(st, arc).0) && |st.queue| <= |EnqueueArcChunk(st, arc).0.queue|
    ensures var first := EnqueueArcChunk(st, arc).0;
            var (last, fed) := Drive(first, schedule);
            last.arc.None? && Added(st, first) + fed == ArcShapes(st.cfg, st.Trail(), arc)
  {
    ChunkIsExact(st, arc);
    var first := EnqueueArcChunk(st, arc).0;
    DrivenArcCompletes(first, schedule);
    NothingLostOrRepeated(first, schedule);
    hide EnqueueArcChunk, Drive, ArcShapes, Shapes;
    var (last, fed) := Drive(first, schedule);
    assert Remaining(last) == [];
    assert fed + [] == fed;
  }
}

/** What every operation of the planner keeps, over every run (planner.rs:642-648, 880-911, 968-986, 1189-1257). */
module PlannerRuns {
  import opened Base
  import opened Blocks
  import opened Commands
  import opened Kinematics
  import opened LookAhead
  import opened Arcs
  import opened PlannerState

  /** No block is entered faster than the one before it cruises. */
  predicate Chained(q: seq<Block>) {
    forall i :: 0 <= i < |q| - 1 ==> q[i + 1].maxEntrySq <= q[i].nominalSq
  }

  ghost predicate GoodQueue(cfg: PlannerConfig, q: seq<Block>)
    requires cfg.Valid()
  {
    && |q| <= BLOCK_QUEUE_LEN
    && (forall b :: b in q ==> GoodBlock(cfg, b))
    && Chained(q)
  }

  /** Everything but the planned speeds. The remembered corner is the newest block's, or has been dropped; a
      head still marked busy after the queue was flushed implies it has been dropped. */
  ghost predicate Consistent(st: State) {
    && st.cfg.Valid()
    && GoodQueue(st.cfg, st.queue)
    && GoodTrail(st.Trail())
    && (st.queue != [] && !IsZeroVec(st.prevUnitVec) ==> st.prevNominalSq == st.queue[|st.queue| - 1].nominalSq)
    && (st.queue == [] && st.headBusy ==> IsZeroVec(st.prevUnitVec))
    && (st.arc.Some? ==> st.arc.value.Valid())
  }

  /** A schedule that can be followed and keeps a busy head's speed. */
  predicate CanFollow(q: seq<Block>, busy: bool, p: seq<real>) {
    Feasible(Spans(q), p) && Keeps(Committed(q, busy), p)
  }

  predicate AtMost(p: seq<real>, e: seq<real>) {
    |p| == |e| && forall i :: 0 <= i < |p| ==> p[i] <= e[i]
  }

  /** The stored speeds are as high as any schedule the machine could follow from here. */
  ghost predicate Fastest(q: seq<Block>, busy: bool) {
    forall p :: CanFollow(q, busy, p) ==> AtMost(p, Entries(q))
  }

  ghost predicate Inv(st: State) {
    Consistent(st) && WellPlanned(st.queue) && Fastest(st.queue, st.headBusy)
  }

  lemma ReachPositive(b: Block)
    requires b.millimeters > 0.0 && b.acceleration > 0.0
    ensures b.Reach() > 0.0
  {
  }

  lemma GoodQueueIsRoomy(cfg: PlannerConfig, q: seq<Block>)
    requires cfg.Valid() && forall b :: b in q ==> GoodBlock(cfg, b)
    ensures Roomy(q)
  {
    forall i | 0 <= i < |q|
      ensures q[i].Reach() >= 0.0
    {
      assert GoodBlock(cfg, q[i]);
      ReachPositive(q[i]);
    }
  }

  lemma StopAtTheEnd(q: seq<Block>, b: Block, p: seq<real>)
    requires Feasible(Spans(q), p) && Roomy(q + [b]) && b.maxEntrySq >= 0.0
    ensures Feasible(Spans(q + [b]), p + [0.0])
  {
    var q' := q + [b];
    var s, s', p' := Spans(q), Spans(q'), p + [0.0];
    forall i | 0 <= i < |q'|
      ensures s'[i] == (if i < |q| then s[i] else Span(b.maxEntrySq, b.Reach())) && s'[i].reach >= 0.0
    {
      assert q'[i] == if i < |q| then q[i] else b;
      assert q'[i].Reach() >= 0.0;
    }
    forall i: nat | i + 1 < |q'|
      ensures FeasiblePair(s', p', i)
    {
      assert i + 1 < |q| ==> FeasiblePair(s, p, i);
    }
  }

  lemma AppendKeepsQueue(cfg: PlannerConfig, q: seq<Block>, b: Block)
    requires cfg.Valid() && GoodQueue(cfg, q) && |q| < BLOCK_QUEUE_LEN && GoodBlock(cfg, b)
    requires q != [] ==> b.maxEntrySq <= q[|q| - 1].nominalSq
    ensures GoodQueue(cfg, q + [b])
  {
  }

  lemma TrailBoundsNext(st: State, b: Block)
    requires Consistent(st) && GoodBlock(st.cfg, b)
    requires b.maxEntrySq <= st.prevNominalSq && (IsZeroVec(st.prevUnitVec) ==> b.maxEntrySq == 0.0)
    ensures st.queue != [] ==> b.maxEntrySq <= st.queue[|st.queue| - 1].nominalSq
  {
    if st.queue != [] {
      assert GoodBlock(st.cfg, st.queue[|st.queue| - 1]);
    }
  }

  /** Enqueueing without planning: the old schedule followed by a stop can still be followed. */
  lemma EnqueueMoveKeeps(st: State, target: Steps, rq: Request, p: seq<real>) returns (p': seq<real>)
    requires Consistent(st) && CanFollow(st.queue, st.headBusy, p)
    ensures var st' := EnqueueMove(st, target, rq).0;
            && Consistent(st') && CanFollow(st'.queue, st'.headBusy, p') && p <= p'
            && st.queue <= st'.queue && st'.headBusy == st.headBusy && st'.cfg == st.cfg && st'.arc == st.arc
  {
    var st' := EnqueueMove(st, target, rq).0;
    var built := BuildBlock(st.cfg, st.Trail(), target, rq);
    p' := p;
    if built.Some? && |st.queue| < BLOCK_QUEUE_LEN {
      var b := built.value;
      BuiltBlockIsGood(st.cfg, st.Trail(), target, rq);
      TrailBoundsNext(st, b);
      AppendKeepsQueue(st.cfg, st.queue, b);
      GoodQueueIsRoomy(st.cfg, st'.queue);
      hide BuildBlock, GoodQueue, Feasible, WithinAxisLimits;
      StopAtTheEnd(st.queue, b, p);
      p' := p + [0.0];
    }
  }

  /** The queue of `st'` is that of `st`, no block slower, a busy head exactly as it was, and more behind. */
  predicate Extends(st: State, st': State) {
    && |st.queue| <= |st'.queue|
    && st'.headBusy == st.headBusy
    && (forall i :: 0 <= i < |st.queue| ==>
          Shape(st'.queue[i]) == Shape(st.queue[i]) && st.queue[i].entrySq <= st'.queue[i].entrySq)
    && (st.headBusy && st.queue != [] ==> st'.queue[0] == st.queue[0])
  }

  lemma SameShapesSameGoodness(cfg: PlannerConfig, q: seq<Block>, r: seq<Block>)
    requires cfg.Valid() && GoodQueue(cfg, q) && Shapes(q) == Shapes(r)
    ensures GoodQueue(cfg, r)
    ensures |q| == |r| && forall i :: 0 <= i < |q| ==> r[i].nominalSq == q[i].nominalSq
  {
    forall i | 0 <= i < |q|
      ensures GoodBlock(cfg, r[i]) && r[i].nominalSq == q[i].nominalSq && r[i].maxEntrySq == q[i].maxEntrySq
    {
      assert Shapes(q)[i] == Shapes(r)[i];
      assert GoodBlock(cfg, q[i]);
    }
  }

  lemma ReplanIsFastest(q: seq<Block>, busy: bool, p: seq<real>)
    requires Roomy(q) && CanFollow(q, busy, p)
    ensures Fastest(Replanned(q, busy), busy)
  {
    var r := Replanned(q, busy);
    ReplanImproves(q, busy, p);
    SameShapeSameSpans(q, r);
    forall p' | CanFollow(r, busy, p')
      ensures AtMost(p', Entries(r))
    {
      assert Committed(r, busy) == Committed(q, busy);
      ReplanImproves(q, busy, p');
    }
  }

  lemma RecalculateKeeps(st: State, p: seq<real>)
    requires Consistent(st) && CanFollow(st.queue, st.headBusy, p)
    ensures var st' := Recalculate(st);
            && Inv(st') && Shapes(st'.queue) == Shapes(st.queue)
            && (forall i :: 0 <= i < |p| ==> p[i] <= st'.queue[i].entrySq)
            && (st.headBusy && st.queue != [] ==> st'.queue[0] == st.queue[0])
  {
    hide GoodBlock, WellPlanned, Replanned;
    GoodQueueIsRoomy(st.cfg, st.queue);
    ReplanImproves(st.queue, st.headBusy, p);
    SameShapesSameGoodness(st.cfg, st.queue, Recalculate(st).queue);
    ReplanIsFastest(st.queue, st.headBusy, p);
  }

  lemma ReplannedExtends(st: State, mid: State, p: seq<real>)
    requires Inv(st) && Consistent(mid) && CanFollow(mid.queue, mid.headBusy, p)
    requires st.queue <= mid.queue && mid.headBusy == st.headBusy && Entries(st.queue) <= p
    ensures Inv(Recalculate(mid)) && Extends(st, Recalculate(mid))
  {
    var st' := Recalculate(mid);
    RecalculateKeeps(mid, p);
    forall i | 0 <= i < |st.queue|
      ensures Shape(st'.queue[i]) == Shape(st.queue[i]) && st.queue[i].entrySq <= st'.queue[i].entrySq
    {
      assert Shapes(st'.queue)[i] == Shapes(mid.queue)[i];
      assert p[i] == Entries(st.queue)[i];
    }
  }

  lemma ExtendsItself(st: State)
    ensures Extends(st, st)
  {
  }

  lemma PlanLineKeeps(st: State, target: Steps, rq: Request)
    requires st.cfg.Valid() && Inv(st)
    ensures Inv(PlanLine(st, target, rq).0) && Extends(st, PlanLine(st, target, rq).0)
    ensures PlanLine(st, target, rq).0.cfg == st.cfg && PlanLine(st, target, rq).0.arc == st.arc
  {
    var p := Entries(st.queue);
    assert Consistent(st) && CanFollow(st.queue, st.headBusy, p);
    ExtendsItself(st);
    hide Inv, Consistent, CanFollow, Extends, EnqueueMove, BuildBlock;
    var p' := EnqueueMoveKeeps(st, target, rq, p);
    if EnqueueMove(st, target, rq).1 == Ok(1) {
      ReplannedExtends(st, EnqueueMove(st, target, rq).0, p');
    }
  }

  lemma {:induction false} FeedChordsKeeps(st: State, arc: ArcInProgress, fed: nat, p: seq<real>) returns (p': seq<real>)
    requires st.cfg.Valid() && Consistent(st) && CanFollow(st.queue, st.headBusy, p) && arc.segments > 0
    ensures var st' := FeedChords(st, arc, fed).0;
            && Consistent(st') && CanFollow(st'.queue, st'.headBusy, p') && p <= p'
            && st.queue <= st'.queue && st'.headBusy == st.headBusy && st'.cfg == st.cfg
    ensures FeedChords(st, arc, fed).1.(nextSeg := arc.nextSeg) == arc && FeedChords(st, arc, fed).1.nextSeg >= arc.nextSeg
    decreases arc.segments + 1 - arc.nextSeg
  {
    hide Consistent, CanFollow, EnqueueMove;
    p' := p;
    if arc.nextSeg <= arc.segments && |st.queue| < BLOCK_QUEUE_LEN {
      var (st1, r) := EnqueueMove(st, ChordEnd(st.cfg, arc, arc.nextSeg), arc.Request());
      var p1 := EnqueueMoveKeeps(st, ChordEnd(st.cfg, arc, arc.nextSeg), arc.Request(), p);
      p' := FeedChordsKeeps(st1, arc.(nextSeg := arc.nextSeg + 1), fed + r.value, p1);
    }
  }

  /** The arc in progress and the work offset play no part in what is queued. */
  lemma AsideKeeps(st: State, st': State, arc: Option<ArcInProgress>, wco: Vec)
    requires Inv(st') && Extends(st, st') && (arc.Some? ==> arc.value.Valid())
    ensures Inv(st'.(arc := arc, workOffsetMm := wco)) && Extends(st, st'.(arc := arc, workOffsetMm := wco))
  {
  }

  lemma ArcChunkKeeps(st: State, arc: ArcInProgress)
    requires st.cfg.Valid() && Inv(st) && arc.Valid()
    ensures Inv(EnqueueArcChunk(st, arc).0) && Extends(st, EnqueueArcChunk(st, arc).0)
  {
    var (mid, arc', fed) := FeedChords(st, arc, 0);
    var p := FeedChordsKeeps(st, arc, 0, Entries(st.queue));
    ReplannedExtends(st, mid, p);
    var st' := Recalculate(mid);
    hide Inv, Extends, FeedChords, Recalculate;
    AsideKeeps(st, st', if arc'.nextSeg > arc'.segments then None else Some(arc'), st'.workOffsetMm);
  }

  /** Every way the firmware drives the planner. */
  datatype Op =
    | Command(cmd: PlannerCommand, limits: Option<Vec>)
    | Jog(jog: JogCommand, limits: Option<Vec>)
    | Recall(axes: AxisWords, units: Units, distance: DistanceMode, predefined: Vec, limits: Option<Vec>)
    | Resume
    | Abort
    | Pop
    | Sync(steps: Steps)
    | SetOffset(wco: Vec)
    | Configure(cfg: PlannerConfig)
    | FlushAll
    | CancelJogs

  /** New settings are valid and are only applied while the queue is empty (planner.rs:583-592). Jogs are only
      cancelled when what is left can stop: JogCancel proves that no weaker condition will do. */
  ghost predicate Allowed(st: State, op: Op) {
    && (op.Configure? ==> op.cfg.Valid() && st.queue == [])
    && (op.CancelJogs? ==> CanStop(WithoutTrailingJogs(st.queue)))
  }

  predicate CanStop(q: seq<Block>) { q == [] || q[|q| - 1].entrySq <= q[|q| - 1].Reach() }

  function Step(st: State, op: Op): State
    requires st.cfg.Valid() && (st.arc.Some? ==> st.arc.value.Valid())
  {
    match op
    case Command(cmd, limits) => PlanCommand(st, cmd, limits).0
    case Jog(jog, limits) => PlanJog(st, jog, limits).0
    case Recall(axes, units, distance, predefined, limits) =>
      PlanGoToPredefined(st, axes, units, distance, predefined, limits).0
    case Resume => ResumeArc(st).0
    case Abort => st.(arc := None)
    case Pop => PopBlock(st).0
    case Sync(steps) => SyncPosition(st, steps)
    case SetOffset(wco) => st.(workOffsetMm := wco)
    case Configure(cfg) => SetConfig(st, cfg)
    case FlushAll => FlushQueue(st)
    case CancelJogs => FlushJogBlocks(st)
  }

  predicate Removes(op: Op) { op.Pop? || op.FlushAll? || op.CancelJogs? }

  lemma HeadGoesBack(q: seq<Block>, busy: bool, p: seq<real>)
    requires q != [] && WellPlanned(q) && CanFollow(q[1..], |q| > 1, p)
    ensures CanFollow(q, busy, [q[0].entrySq] + p)
  {
    var s, e := Spans(q), Entries(q);
    assert Spans(q[1..]) == s[1..];
    assert |q| > 1 ==> Committed(q[1..], true) == Some(e[1]);
    FeasiblePrepend(s, e, p);
  }

  /** A popped head keeps its speed as the exit of the block in flight, so the rest is still as fast as it can be. */
  lemma TailIsFastest(q: seq<Block>, busy: bool)
    requires q != [] && WellPlanned(q) && Fastest(q, busy)
    ensures WellPlanned(q[1..]) && Fastest(q[1..], |q| > 1)
  {
    assert Spans(q[1..]) == Spans(q)[1..];
    assert Entries(q[1..]) == Entries(q)[1..];
    FeasibleTail(Spans(q), Entries(q));
    forall p | CanFollow(q[1..], |q| > 1, p)
      ensures AtMost(p, Entries(q)[1..])
    {
      HeadGoesBack(q, busy, p);
      hide CanFollow;
      var p' := [q[0].entrySq] + p;
      assert AtMost(p', Entries(q));
      assert p == p'[1..];
    }
  }

  lemma PopKeeps(st: State)
    requires Inv(st)
    ensures Inv(PopBlock(st).0)
  {
    if st.queue != [] {
      TailIsFastest(st.queue, st.headBusy);
      hide Fastest, WellPlanned, GoodBlock;
    }
  }

  lemma FlushLookaheadKeeps(st: State)
    requires Inv(st)
    ensures Inv(FlushLookahead(st)) && Extends(st, FlushLookahead(st))
  {
  }

  lemma ExtendsTransitive(a: State, b: State, c: State)
    requires Extends(a, b) && Extends(b, c)
    ensures Extends(a, c)
  {
  }

  lemma RecallLegsKeeps(st: State, inter: Option<Steps>, recall: Steps, units: Units)
    requires st.cfg.Valid() && Inv(st)
    ensures Inv(RecallLegs(st, inter, recall, units).0) && Extends(st, RecallLegs(st, inter, recall, units).0)
  {
    var rq := RapidRequest(units);
    hide Inv, Extends, PlanLine;
    if inter.Some? {
      PlanLineKeeps(st, inter.value, rq);
      var (st1, r1) := PlanLine(st, inter.value, rq);
      if r1.Ok? {
        PlanLineKeeps(st1, recall, rq);
        ExtendsTransitive(st, st1, PlanLine(st1, recall, rq).0);
      }
    } else {
      PlanLineKeeps(st, recall, rq);
    }
  }

  lemma PlanMoveKeeps(st: State, cmd: PlannerCommand, limits: Option<Vec>)
    requires st.cfg.Valid() && Inv(st) && cmd.Move?
    ensures Inv(PlanMove(st, cmd, limits).0) && Extends(st, PlanMove(st, cmd, limits).0)
  {
    ExtendsItself(st);
    hide Inv, Extends, PlanLine, CommandTarget, SoftLimitViolation;
    PlanLineKeeps(st, CommandTarget(st, cmd), MoveRequest(cmd));
  }

  lemma PlanArcKeeps(st: State, cmd: PlannerCommand, limits: Option<Vec>)
    requires st.cfg.Valid() && Inv(st) && cmd.Arc?
    ensures Inv(PlanArc(st, cmd, limits).0) && Extends(st, PlanArc(st, cmd, limits).0)
  {
    ExtendsItself(st);
    hide Inv, Extends, EnqueueArcChunk, PrepareArc, CommandTarget, SoftLimitViolation;
    if PrepareArc(st, cmd).Some? {
      ArcChunkKeeps(st, PrepareArc(st, cmd).value);
    }
  }

  lemma PlanCommandKeeps(st: State, cmd: PlannerCommand, limits: Option<Vec>)
    requires st.cfg.Valid() && Inv(st)
    ensures Inv(PlanCommand(st, cmd, limits).0) && Extends(st, PlanCommand(st, cmd, limits).0)
  {
    FlushLookaheadKeeps(st);
    ExtendsItself(st);
    hide Inv, Extends, PlanMove, PlanArc, FlushLookahead, ResolveTarget;
    if cmd.Move? {
      PlanMoveKeeps(st, cmd, limits);
    } else if cmd.Arc? {
      PlanArcKeeps(st, cmd, limits);
    }
  }

  lemma PlanJogKeeps(st: State, jog: JogCommand, limits: Option<Vec>)
    requires st.cfg.Valid() && Inv(st)
    ensures Inv(PlanJog(st, jog, limits).0) && Extends(st, PlanJog(st, jog, limits).0)
  {
    ExtendsItself(st);
    hide Inv, Extends, PlanLine, ResolveTarget, SoftLimitViolation;
    PlanLineKeeps(st, ResolveTarget(st, jog.axes, jog.units, jog.distance, jog.machineCoords), JogRequest(jog));
  }

  lemma RecallKeeps(st: State, axes: AxisWords, units: Units, distance: DistanceMode, predefined: Vec,
                    limits: Option<Vec>)
    requires st.cfg.Valid() && Inv(st)
    ensures Inv(PlanGoToPredefined(st, axes, units, distance, predefined, limits).0)
    ensures Extends(st, PlanGoToPredefined(st, axes, units, distance, predefined, limits).0)
  {
    ExtendsItself(st);
    hide Inv, Extends, RecallLegs, Intermediate, PredefinedTarget, SoftLimitViolation;
    RecallLegsKeeps(st, Intermediate(st, axes, units, distance), PredefinedTarget(st, predefined), units);
  }

  lemma EmptyQueueKeeps(st: State, cfg: PlannerConfig)
    requires Inv(st) && cfg.Valid()
    ensures Inv(FlushQueue(st)) && (st.queue == [] ==> Inv(SetConfig(st, cfg)) && Extends(st, SetConfig(st, cfg)))
  {
  }

  lemma SyncKeeps(st: State, steps: Steps)
    requires Inv(st)
    ensures Inv(SyncPosition(st, steps)) && Extends(st, SyncPosition(st, steps))
  {
  }

  lemma InvBasics(st: State)
    requires Inv(st)
    ensures st.cfg.Valid() && (st.arc.Some? ==> st.arc.value.Valid()) && Extends(st, st)
  {
  }

  /** Every step keeps the whole queue followable to a stop and within every cap and axis limit; a step that
      removes nothing slows no queued block and leaves a busy head alone. */
  lemma StepKeeps(st: State, op: Op)
    requires Inv(st) && Allowed(st, op)
    ensures Inv(Step(st, op))
    ensures !Removes(op) ==> Extends(st, Step(st, op))
  {
    hide Inv, Extends, PlanJog, PlanGoToPredefined, PlanCommand, EnqueueArcChunk;
    hide PopBlock, SyncPosition, SetConfig, FlushQueue, FlushJogBlocks;
    InvBasics(st);
    match op
    case Command(cmd, limits) => PlanCommandKeeps(st, cmd, limits);
    case Jog(jog, limits) => PlanJogKeeps(st, jog, limits);
    case Recall(axes, units, distance, predefined, limits) =>
      RecallKeeps(st, axes, units, distance, predefined, limits);
    case Resume =>
      if st.arc.Some? {
        ArcChunkKeeps(st, st.arc.value);
      }
    case Abort => AsideKeeps(st, st, None, st.workOffsetMm);
    case Pop => PopKeeps(st);
    case Sync(steps) => SyncKeeps(st, steps);
    case SetOffset(wco) => AsideKeeps(st, st, st.arc, wco);
    case Configure(cfg) => EmptyQueueKeeps(st, cfg);
    case FlushAll => EmptyQueueKeeps(st, st.cfg);
    case CancelJogs => JogCancel(st);
  }

  ghost predicate AllAllowed(st: State, ops: seq<Op>)
    requires Inv(st)
    decreases |ops|
  {
    ops == [] ||
    (Allowed(st, ops[0]) && (StepKeeps(st, ops[0]); AllAllowed(Step(st, ops[0]), ops[1..])))
  }

  ghost function Run(st: State, ops: seq<Op>): (st': State)
    requires Inv(st) && AllAllowed(st, ops)
    ensures Inv(st')
    decreases |ops|
  {
    if ops == [] then st else
      StepKeeps(st, ops[0]);
      Run(Step(st, ops[0]), ops[1..])
  }

  lemma FreshIsConsistent(cfg: PlannerConfig)
    requires cfg.Valid()
    ensures Inv(Fresh(cfg))
  {
  }

  /** A queue the machine can run to a stop, corner by corner, within every speed cap. */
  predicate RunsToAStop(q: seq<Block>) {
    && |q| <= BLOCK_QUEUE_LEN
    && (forall i :: 0 <= i < |q| ==> 0.0 <= q[i].entrySq <= q[i].maxEntrySq <= q[i].nominalSq)
    && (forall i :: 0 <= i < |q| - 1 ==>
          && q[i].entrySq - q[i].Reach() <= q[i + 1].entrySq <= q[i].entrySq + q[i].Reach()
          && q[i + 1].entrySq <= q[i].nominalSq)
    && (q != [] ==> q[|q| - 1].entrySq <= q[|q| - 1].Reach())
  }

  lemma PlannedQueueRunsToAStop(st: State)
    requires Inv(st)
    ensures RunsToAStop(st.queue)
  {
    var q, s, p := st.queue, Spans(st.queue), Entries(st.queue);
    forall i | 0 <= i < |q|
      ensures s[i] == Span(q[i].maxEntrySq, q[i].Reach()) && p[i] == q[i].entrySq && q[i].maxEntrySq <= q[i].nominalSq
    {
      assert GoodBlock(st.cfg, q[i]);
    }
    forall i | 0 <= i < |q| - 1
      ensures q[i].entrySq - q[i].Reach() <= q[i + 1].entrySq <= q[i].entrySq + q[i].Reach()
    {
      assert FeasiblePair(s, p, i);
    }
  }

  /** From power-on, whatever the firmware does, every queue it ever holds runs to a stop, and no schedule that
      keeps the committed head is faster at any block. */
  lemma EveryRunIsFollowable(cfg: PlannerConfig, ops: seq<Op>)
    requires cfg.Valid() && (FreshIsConsistent(cfg); AllAllowed(Fresh(cfg), ops))
    ensures (FreshIsConsistent(cfg);
             var st := Run(Fresh(cfg), ops);
             RunsToAStop(st.queue) && Fastest(st.queue, st.headBusy))
  {
    FreshIsConsistent(cfg);
    var st := Run(Fresh(cfg), ops);
    PlannedQueueRunsToAStop(st);
    hide RunsToAStop, Fastest;
  }

  /** The popped block and the exit speed the executor reads for it: both within its cruise speed, and each
      reachable from the other over the block's own travel. */
  lemma PoppedPairIsReachable(st: State)
    requires Inv(st) && st.queue != []
    ensures var b := st.queue[0];
            var st' := PopBlock(st).0;
            var exit := ExitFor(st');
            && PopBlock(st).1 == Some(b) && GoodBlock(st.cfg, b)
            && 0.0 <= b.entrySq <= b.maxEntrySq <= b.nominalSq && 0.0 <= exit <= b.nominalSq
            && b.entrySq <= exit + b.Reach() && exit <= b.entrySq + b.Reach()
  {
    PlannedQueueRunsToAStop(st);
    assert GoodBlock(st.cfg, st.queue[0]);
    ReachPositive(st.queue[0]);
  }

  /** A committed head stays at the front, unchanged, until it is popped or the queue is flushed. */
  lemma {:induction false} CommittedHeadWaits(st: State, ops: seq<Op>)
    requires Inv(st) && AllAllowed(st, ops) && st.headBusy && st.queue != []
    requires forall op :: op in ops ==> !Removes(op)
    ensures Run(st, ops).queue != [] && Run(st, ops).queue[0] == st.queue[0] && Run(st, ops).headBusy
    decreases |ops|
  {
    if ops != [] {
      StepKeeps(st, ops[0]);
      CommittedHeadWaits(Step(st, ops[0]), ops[1..]);
    }
  }

  lemma {:induction false} RunExtends(st: State, ops: seq<Op>)
    requires Inv(st) && AllAllowed(st, ops) && forall op :: op in ops ==> !Removes(op)
    ensures Extends(st, Run(st, ops))
    decreases |ops|
  {
    if ops == [] {
      ExtendsItself(st);
    } else {
      StepKeeps(st, ops[0]);
      RunExtends(Step(st, ops[0]), ops[1..]);
      hide Extends, Step;
      ExtendsTransitive(st, Step(st, ops[0]), Run(st, ops));
    }
  }

  /** The exit speed used for a popped block is the entry speed of the block popped next, whatever was planned
      in between, provided the successor was already queued at the first pop. */
  lemma SpeedsMeetAtJunctions(st: State, ops: seq<Op>)
    requires Inv(st) && |st.queue| >= 2
    requires (PopKeeps(st); AllAllowed(PopBlock(st).0, ops)) && forall op :: op in ops ==> !Removes(op)
    ensures (PopKeeps(st);
             var next := PopBlock(Run(PopBlock(st).0, ops)).1;
             next.Some? && next.value.entrySq == PopBlock(st).0.queue[0].entrySq)
  {
    PopKeeps(st);
    CommittedHeadWaits(PopBlock(st).0, ops);
  }

  lemma PrefixCanBeFollowed(q: seq<Block>, n: nat)
    requires WellPlanned(q) && n <= |q|
    ensures WellPlanned(q[..n]) <==> n == 0 || q[n - 1].entrySq <= q[n - 1].Reach()
  {
    assert Spans(q[..n]) == Spans(q)[..n];
    assert Entries(q[..n]) == Entries(q)[..n];
    FeasiblePrefix(Spans(q), Entries(q), n);
  }

  lemma {:induction false} StopsAtTheEnd(q: seq<Block>, n: nat, p: seq<real>) returns (p': seq<real>)
    requires n <= |q| && Roomy(q) && Feasible(Spans(q[..n]), p)
    requires forall i :: 0 <= i < |q| ==> q[i].maxEntrySq >= 0.0
    ensures Feasible(Spans(q), p') && p <= p'
    decreases |q| - n
  {
    if n == |q| {
      assert q[..n] == q;
      p' := p;
    } else {
      var q' := q[..n] + [q[n]];
      assert q' == q[..n + 1];
      assert Roomy(q') by {
        forall i | 0 <= i < |q'|
          ensures q'[i].Reach() >= 0.0
        {
          assert q'[i] == q[i];
        }
      }
      StopAtTheEnd(q[..n], q[n], p);
      p' := StopsAtTheEnd(q, n + 1, p + [0.0]);
    }
  }

  lemma PrefixIsFastest(q: seq<Block>, busy: bool, n: nat)
    requires n <= |q| && Roomy(q) && Fastest(q, busy)
    requires forall i :: 0 <= i < |q| ==> q[i].maxEntrySq >= 0.0
    ensures n > 0 ==> Fastest(q[..n], busy)
    ensures Fastest([], busy)
  {
    if n > 0 {
      forall p | CanFollow(q[..n], busy, p)
        ensures AtMost(p, Entries(q[..n]))
      {
        var p' := StopsAtTheEnd(q, n, p);
        assert CanFollow(q, busy, p');
        assert AtMost(p', Entries(q));
        assert forall i :: 0 <= i < n ==> p[i] == p'[i] && Entries(q[..n])[i] == Entries(q)[i];
      }
    }
  }

  lemma FlushedJogsConsistent(st: State)
    requires Consistent(st)
    ensures Consistent(FlushJogBlocks(st))
  {
    var n := |WithoutTrailingJogs(st.queue)|;
    assert WithoutTrailingJogs(st.queue) == st.queue[..n];
    hide GoodBlock;
  }

  lemma CapsNonNegative(cfg: PlannerConfig, q: seq<Block>)
    requires cfg.Valid() && GoodQueue(cfg, q)
    ensures forall i :: 0 <= i < |q| ==> q[i].maxEntrySq >= 0.0
  {
    forall i | 0 <= i < |q|
      ensures q[i].maxEntrySq >= 0.0
    {
      assert GoodBlock(cfg, q[i]);
    }
  }

  /** A jog-cancel leaves a queue that can be followed exactly when nothing is left or the newest program block
      can stop on its own: the passes are not run again. */
  lemma JogCancel(st: State)
    requires Inv(st)
    ensures Inv(FlushJogBlocks(st)) <==> CanStop(WithoutTrailingJogs(st.queue))
  {
    var n := |WithoutTrailingJogs(st.queue)|;
    assert WithoutTrailingJogs(st.queue) == st.queue[..n];
    FlushedJogsConsistent(st);
    CapsNonNegative(st.cfg, st.queue);
    PrefixCanBeFollowed(st.queue, n);
    GoodQueueIsRoomy(st.cfg, st.queue);
    PrefixIsFastest(st.queue, st.headBusy, n);
    hide WellPlanned, GoodBlock, Fastest, Consistent;
  }
}

/** When a block starts from rest, in terms of what is asked for (planner.rs:991-1066, 1147-1178), and which block an
    operation on an empty queue puts first. */
module Corners {
  import opened Base
  import opened Blocks
  import opened Commands
  import opened Kinematics
  import opened LookAhead
  import opened Arcs
  import opened PlannerState
  import opened PlannerRuns
  import opened Backpressure
  import opened Feeds

  /** The corner from the remembered direction into `u` is taken at a standstill. */
  predicate CornerStops(cfg: PlannerConfig, t: Trail, u: Vec) {
    || IsZeroVec(t.prevUnitVec)
    || -Dot(t.prevUnitVec, u) >= 1.0 - JUNCTION_REVERSAL_EPSILON
    || t.prevNominalSq == 0.0
    || (cfg.junctionDeviationMm == 0.0 && Dot(t.prevUnitVec, u) != 1.0)
  }

  /** A corner forces a stop if nothing precedes it, it reverses, what precedes it did not move, or no deviation is
      allowed and it is not straight; and only then. */
  lemma CornerStopsIff(cfg: PlannerConfig, t: Trail, u: Vec, accel: real)
    requires cfg.Valid() && GoodTrail(t) && IsUnit(u) && accel > 0.0
    ensures JunctionSpeedSq(cfg, t, u, accel) == 0.0 <==> CornerStops(cfg, t, u)
  {
    JunctionBounds(cfg, t, u, accel);
    if !IsZeroVec(t.prevUnitVec) && -Dot(t.prevUnitVec, u) < 1.0 - JUNCTION_REVERSAL_EPSILON {
      JunctionByHalfSine(cfg, t, u, accel);
      HalfSineIsOneIff(cfg, t, u);
      var s := HalfSine(cfg, t, u);
      if s < 1.0 {
        CentripetalIsZeroIff(cfg.junctionDeviationMm, s, accel);
      }
    }
    hide Dot, HalfSine, JunctionSpeedSq, Centripetal;
  }

  lemma HalfSineIsOneIff(cfg: PlannerConfig, t: Trail, u: Vec)
    requires cfg.math.Valid() && -Dot(t.prevUnitVec, u) < 1.0 - JUNCTION_REVERSAL_EPSILON
    ensures HalfSine(cfg, t, u) > 0.0
    ensures HalfSine(cfg, t, u) == 1.0 <==> Dot(t.prevUnitVec, u) == 1.0
  {
    hide Dot;
    var x := (1.0 + Dot(t.prevUnitVec, u)) * 0.5;
    assert x > 0.0;
    var s := cfg.math.sqrt(x);
    assert s * s == x;
    assert s != 0.0;
    if x == 1.0 {
      SquareMonoBack(s, 1.0);
      SquareMonoBack(1.0, s);
    }
  }

  /** For a given pair, the sharper corner is taken no faster if and only if it forces a stop, the flatter one is straight
      or reaches the speed of the block before, or the sharper one's own centripetal speed is no higher. */
  lemma SharperIsNoFasterIff(cfg: PlannerConfig, t: Trail, sharp: Vec, flat: Vec)
    requires cfg.Valid() && GoodTrail(t) && IsUnit(sharp) && IsUnit(flat)
    requires Dot(t.prevUnitVec, sharp) <= Dot(t.prevUnitVec, flat)
    ensures var (a, b) := (Acceleration(cfg, sharp), Acceleration(cfg, flat));
            var (sa, sb, dev) := (HalfSine(cfg, t, sharp), HalfSine(cfg, t, flat), cfg.junctionDeviationMm);
            JunctionSpeedSq(cfg, t, sharp, a) <= JunctionSpeedSq(cfg, t, flat, b) <==>
              || CornerStops(cfg, t, sharp)
              || sb >= 1.0 || t.prevNominalSq <= Centripetal(dev, sb, b)
              || (sa < 1.0 && Centripetal(dev, sa, a) <= Centripetal(dev, sb, b))
  {
    hide JunctionSpeedSq, HalfSine, Dot, AxisLimit, Centripetal, IsUnit;
    var (a, b) := (Acceleration(cfg, sharp), Acceleration(cfg, flat));
    AccelerationKeepsAxes(cfg, sharp);
    AccelerationKeepsAxes(cfg, flat);
    JunctionBounds(cfg, t, sharp, a);
    JunctionBounds(cfg, t, flat, b);
    CornerStopsIff(cfg, t, sharp, a);
    if !IsZeroVec(t.prevUnitVec) {
      JunctionByHalfSine(cfg, t, sharp, a);
      JunctionByHalfSine(cfg, t, flat, b);
      HalfSineGrows(cfg, t, sharp, flat);
    }
  }

  /** A move that would become a block, or none. */
  function LegOf(cfg: PlannerConfig, t: Trail, target: Steps, rq: Request): Option<(Steps, Request)>
    requires cfg.Valid()
  {
    if TravelMm(cfg, StepDelta(t.position, target)).Some? then Some((target, rq)) else None
  }

  /** A move starts from rest exactly when its corner does, or it is a feed move without a feed. */
  predicate StartsAtRest(cfg: PlannerConfig, t: Trail, target: Steps, rq: Request)
    requires cfg.Valid() && LegOf(cfg, t, target, rq).Some?
  {
    CornerStops(cfg, t, Direction(cfg, StepDelta(t.position, target))) || (!rq.rapid && rq.feed <= 0.0)
  }

  lemma CruiseIsZeroIff(cfg: PlannerConfig, steps: Steps, rq: Request)
    requires cfg.Valid() && TravelMm(cfg, steps).Some?
    ensures CruiseSpeedSq(cfg, steps, rq) >= 0.0
    ensures CruiseSpeedSq(cfg, steps, rq) == 0.0 <==> !rq.rapid && rq.feed <= 0.0
  {
    CruiseSpeedIsZeroIff(cfg, steps, rq);
    SquareIsZeroIff(CruiseSpeed(cfg, steps, rq));
    hide CruiseSpeed, TravelMm, Square;
  }

  lemma SquareIsZeroIff(v: real)
    ensures Square(v) >= 0.0 && (Square(v) == 0.0 <==> v == 0.0)
  {
    SquareNonNegative(v);
    if v > 0.0 {
      SquareStrict(v, 0.0);
    } else if v < 0.0 {
      SquareStrict(-v, 0.0);
      assert -v * -v == v * v;
    }
  }

  lemma CruiseSpeedIsZeroIff(cfg: PlannerConfig, steps: Steps, rq: Request)
    requires cfg.Valid() && TravelMm(cfg, steps).Some?
    ensures CruiseSpeed(cfg, steps, rq) == 0.0 <==> !rq.rapid && rq.feed <= 0.0
  {
    hide AxisRateLimit, Direction, TravelMm, ResolveFeed;
    if !rq.rapid {
      CruiseIsRequested(cfg, steps, rq);
      RequestedSign(cfg, steps, rq);
      hide CruiseSpeed, Requested;
    }
  }

  lemma RequestedSign(cfg: PlannerConfig, steps: Steps, rq: Request)
    requires cfg.Valid() && TravelMm(cfg, steps).Some?
    ensures Requested(cfg, steps, rq) <= 0.0 <==> rq.feed <= 0.0
  {
    hide TravelMm, PartSq, DeltaMm;
    var (mm, linear) := (TravelMm(cfg, steps).value, LegMm(cfg, steps, false));
    if rq.feedMode == UnitsPerMin && linear > LENGTH_EPSILON_MM {
      QuotientSign(rq.feed * UnitsScale(rq.units), linear);
      ProductSign(mm, rq.feed * UnitsScale(rq.units) / linear);
    }
    ProductSign(mm, rq.feed);
  }

  lemma ProductSign(k: real, x: real)
    requires k > 0.0
    ensures k * x <= 0.0 <==> x <= 0.0
  {
    if x > 0.0 {
      assert k * x > 0.0;
    } else {
      MulMono(x, 0.0, k);
    }
  }

  lemma QuotientSign(x: real, k: real)
    requires k > 0.0
    ensures x / k <= 0.0 <==> x <= 0.0
  {
    var q := x / k;
    assert q * k == x;
    ProductSign(k, q);
  }

  lemma BuiltAtRestIff(cfg: PlannerConfig, t: Trail, target: Steps, rq: Request)
    requires cfg.Valid() && GoodTrail(t) && LegOf(cfg, t, target, rq).Some?
    ensures BuildBlock(cfg, t, target, rq).Some?
    ensures BuildBlock(cfg, t, target, rq).value.maxEntrySq == 0.0 <==> StartsAtRest(cfg, t, target, rq)
  {
    var steps := StepDelta(t.position, target);
    var u := Direction(cfg, steps);
    AccelerationKeepsAxes(cfg, u);
    CornerStopsIff(cfg, t, u, Acceleration(cfg, u));
    JunctionBounds(cfg, t, u, Acceleration(cfg, u));
    CruiseIsZeroIff(cfg, steps, rq);
    hide TravelMm, Direction, Acceleration, CruiseSpeedSq, JunctionSpeedSq, CornerStops, IsUnit, GoodTrail;
  }

  /** The first chord from `arc.nextSeg` on that moves. */
  function FirstChord(cfg: PlannerConfig, t: Trail, arc: ArcInProgress): Option<(Steps, Request)>
    requires cfg.Valid() && arc.segments > 0
    decreases arc.segments + 1 - arc.nextSeg
  {
    if arc.nextSeg > arc.segments then None
    else
      var leg := LegOf(cfg, t, ChordEnd(cfg, arc, arc.nextSeg), arc.Request());
      if leg.Some? then leg else FirstChord(cfg, t, arc.(nextSeg := arc.nextSeg + 1))
  }

  /** The first move an operation would put on an empty queue. */
  function FirstLeg(st: State, op: Op): Option<(Steps, Request)>
    requires st.cfg.Valid() && (st.arc.Some? ==> st.arc.value.Valid())
  {
    match op
    case Command(cmd, limits) =>
      if !(cmd.Move? || cmd.Arc?) || SoftLimitViolation(st.cfg, limits, CommandTarget(st, cmd)) then None
      else if cmd.Move? then LegOf(st.cfg, st.Trail(), CommandTarget(st, cmd), MoveRequest(cmd))
      else if PrepareArc(st, cmd).None? then None
      else FirstChord(st.cfg, st.Trail(), PrepareArc(st, cmd).value)
    case Jog(jog, limits) =>
      var target := ResolveTarget(st, jog.axes, jog.units, jog.distance, jog.machineCoords);
      if SoftLimitViolation(st.cfg, limits, target) then None
      else LegOf(st.cfg, st.Trail(), target, JogRequest(jog))
    case Recall(axes, units, distance, predefined, limits) =>
      var inter, recall := Intermediate(st, axes, units, distance), PredefinedTarget(st, predefined);
      if !RecallWithinLimits(st, inter, recall, limits) then None
      else FirstOfRecall(st.cfg, st.Trail(), inter, recall, units)
    case Resume => if st.arc.None? then None else FirstChord(st.cfg, st.Trail(), st.arc.value)
    case _ => None
  }

  /** From an empty queue: no block and no new corner, or the block of `leg` at the front. */
  ghost predicate Opens(st: State, st': State, leg: Option<(Steps, Request)>)
    requires st.cfg.Valid()
  {
    if leg.None? then st'.queue == [] && (st'.prevUnitVec == st.prevUnitVec || IsZeroVec(st'.prevUnitVec))
    else
      && LegOf(st.cfg, st.Trail(), leg.value.0, leg.value.1).Some?
      && st'.queue != []
      && BuildBlock(st.cfg, st.Trail(), leg.value.0, leg.value.1).Some?
      && Shape(st'.queue[0]) == Shape(BuildBlock(st.cfg, st.Trail(), leg.value.0, leg.value.1).value)
  }

  /** `added` begins with the block of `leg`, or nothing is added and the trail stays. */
  ghost predicate Begins(cfg: PlannerConfig, t: Trail, leg: Option<(Steps, Request)>, added: seq<Block>, t': Trail)
    requires cfg.Valid()
  {
    if leg.None? then added == [] && t' == t
    else
      && LegOf(cfg, t, leg.value.0, leg.value.1).Some?
      && BuildBlock(cfg, t, leg.value.0, leg.value.1).Some?
      && added != [] && added[0] == Shape(BuildBlock(cfg, t, leg.value.0, leg.value.1).value)
  }

  lemma BeginsOpens(st: State, st': State, leg: Option<(Steps, Request)>, added: seq<Block>, t': Trail)
    requires st.cfg.Valid() && st.queue == [] && Shapes(st'.queue) == Shapes(st.queue) + added
    requires Begins(st.cfg, st.Trail(), leg, added, t') && (added == [] ==> st'.Trail() == t')
    ensures Opens(st, st', leg)
  {
    hide BuildBlock, LegOf;
    assert Shapes(st'.queue) == added && |st'.queue| == |added|;
    if added != [] {
      assert Shapes(st'.queue)[0] == Shape(st'.queue[0]);
    }
  }

  lemma LegBegins(cfg: PlannerConfig, t: Trail, target: Steps, rq: Request)
    requires cfg.Valid()
    ensures Begins(cfg, t, LegOf(cfg, t, target, rq), Leg(cfg, t, target, rq).0, Leg(cfg, t, target, rq).1)
    ensures BuildBlock(cfg, t, target, rq).Some? <==> LegOf(cfg, t, target, rq).Some?
  {
    hide TravelMm, Direction, Acceleration, CruiseSpeedSq, JunctionSpeedSq;
  }

  lemma LineOpens(st: State, target: Steps, rq: Request)
    requires st.cfg.Valid() && st.queue == []
    ensures Opens(st, PlanLine(st, target, rq).0, LegOf(st.cfg, st.Trail(), target, rq))
  {
    hide PlanLine, Leg, LegOf, Shapes, Opens, Begins;
    LineFitsOrIsRefused(st, target, rq);
    LineAddsLeg(st, target, rq);
    LegBegins(st.cfg, st.Trail(), target, rq);
    BeginsOpens(st, PlanLine(st, target, rq).0, LegOf(st.cfg, st.Trail(), target, rq),
                Leg(st.cfg, st.Trail(), target, rq).0, Leg(st.cfg, st.Trail(), target, rq).1);
  }

  lemma {:induction false} ChordsBegin(cfg: PlannerConfig, t: Trail, arc: ArcInProgress)
    requires cfg.Valid() && arc.segments > 0
    ensures Begins(cfg, t, FirstChord(cfg, t, arc), ArcShapes(cfg, t, arc), ArcEnd(cfg, t, arc))
    decreases arc.segments + 1 - arc.nextSeg
  {
    hide BuildBlock, LegOf, Leg, ChordEnd, ArcShapes, ArcEnd, Begins;
    ArcDone(cfg, t, arc);
    if arc.nextSeg > arc.segments {
      NothingBegins(cfg, t);
    } else {
      var target, next := ChordEnd(cfg, arc, arc.nextSeg), arc.(nextSeg := arc.nextSeg + 1);
      var leg := LegOf(cfg, t, target, arc.Request());
      var (added, t') := Leg(cfg, t, target, arc.Request());
      ArcStep(cfg, t, arc);
      LegBegins(cfg, t, target, arc.Request());
      if leg.Some? {
        MoreBehind(cfg, t, leg, added, t', ArcShapes(cfg, t', next), ArcEnd(cfg, t', next));
      } else {
        NoneBegins(cfg, t, added, t');
        ChordsBegin(cfg, t, next);
        assert [] + ArcShapes(cfg, t, next) == ArcShapes(cfg, t, next);
      }
    }
  }

  lemma NothingBegins(cfg: PlannerConfig, t: Trail)
    requires cfg.Valid()
    ensures Begins(cfg, t, None, [], t)
  {
  }

  lemma NoneBegins(cfg: PlannerConfig, t: Trail, added: seq<Block>, t': Trail)
    requires cfg.Valid() && Begins(cfg, t, None, added, t')
    ensures added == [] && t' == t
  {
  }

  lemma MoreBehind(cfg: PlannerConfig, t: Trail, leg: Option<(Steps, Request)>, added: seq<Block>, t': Trail,
                   more: seq<Block>, t'': Trail)
    requires cfg.Valid() && leg.Some? && Begins(cfg, t, leg, added, t')
    ensures Begins(cfg, t, leg, added + more, t'')
  {
    hide BuildBlock, LegOf;
  }

  lemma ChunkOpens(st: State, arc: ArcInProgress)
    requires st.cfg.Valid() && arc.Valid() && st.queue == []
    ensures Opens(st, EnqueueArcChunk(st, arc).0, FirstChord(st.cfg, st.Trail(), arc))
  {
    hide EnqueueArcChunk, ArcShapes, ArcEnd, FirstChord, Shapes, Opens, BuildBlock, LegOf;
    ChunkIsExact(st, arc);
    ChordsBegin(st.cfg, st.Trail(), arc);
    var st' := EnqueueArcChunk(st, arc).0;
    var added := Added(st, st');
    assert |Shapes(st'.queue)| == |st'.queue|;
    assert st'.arc.None? ==> added + [] == added;
    assert added == [] ==> st'.arc.None? && ArcShapes(st.cfg, st.Trail(), arc) == [];
    BeginsOpens(st, st', FirstChord(st.cfg, st.Trail(), arc), added, ArcEnd(st.cfg, st.Trail(), arc));
  }

  /** The first leg of a recall that moves. */
  function FirstOfRecall(cfg: PlannerConfig, t: Trail, inter: Option<Steps>, recall: Steps, units: Units)
    : Option<(Steps, Request)>
    requires cfg.Valid()
  {
    var rq := RapidRequest(units);
    if inter.Some? && LegOf(cfg, t, inter.value, rq).Some? then LegOf(cfg, t, inter.value, rq)
    else LegOf(cfg, t, recall, rq)
  }

  lemma RecallBegins(cfg: PlannerConfig, t: Trail, inter: Option<Steps>, recall: Steps, units: Units)
    requires cfg.Valid()
    ensures Begins(cfg, t, FirstOfRecall(cfg, t, inter, recall, units), RecallShapes(cfg, t, inter, recall, units).0,
                   RecallShapes(cfg, t, inter, recall, units).1)
  {
    var rq := RapidRequest(units);
    if inter.Some? {
      LegBegins(cfg, t, inter.value, rq);
    }
    LegBegins(cfg, t, recall, rq);
    hide BuildBlock, LegOf, Leg, RapidRequest;
  }

  lemma RecallOpens(st: State, axes: AxisWords, units: Units, distance: DistanceMode, predefined: Vec,
                    limits: Option<Vec>)
    requires st.cfg.Valid() && (st.arc.Some? ==> st.arc.value.Valid()) && st.queue == []
    ensures Opens(st, PlanGoToPredefined(st, axes, units, distance, predefined, limits).0,
                  FirstLeg(st, Recall(axes, units, distance, predefined, limits)))
  {
    hide RecallLegs, SoftLimitViolation, Intermediate, PredefinedTarget, FirstOfRecall, RecallShapes, Opens, Begins, Shapes;
    var inter, recall := Intermediate(st, axes, units, distance), PredefinedTarget(st, predefined);
    if RecallWithinLimits(st, inter, recall, limits) {
      RecallIsAllOrNothing(st, axes, units, distance, predefined, limits);
      RecallBegins(st.cfg, st.Trail(), inter, recall, units);
      var (legs, t') := RecallShapes(st.cfg, st.Trail(), inter, recall, units);
      hide PlanGoToPredefined;
      BeginsOpens(st, PlanGoToPredefined(st, axes, units, distance, predefined, limits).0,
                  FirstOfRecall(st.cfg, st.Trail(), inter, recall, units), legs, t');
    } else {
      NothingOpens(st, st);
    }
  }

  /** Which block an operation puts at the front of an empty queue. */
  lemma FirstLegOpens(st: State, op: Op)
    requires Inv(st) && Allowed(st, op) && st.queue == []
    ensures Opens(st, Step(st, op), FirstLeg(st, op))
  {
    hide PlanLine, EnqueueArcChunk, PlanGoToPredefined, FirstChord, LegOf, Opens, PrepareArc, CommandTarget, ResolveTarget,
      SoftLimitViolation;
    match op
    case Command(cmd, limits) =>
      if cmd.Move? {
        LineOpens(st, CommandTarget(st, cmd), MoveRequest(cmd));
      } else if cmd.Arc? && PrepareArc(st, cmd).Some? {
        ChunkOpens(st, PrepareArc(st, cmd).value);
      }
      NothingOpens(st, st.(prevUnitVec := ZERO_VEC, prevNominalSq := 0.0));
      NothingOpens(st, st);
    case Jog(jog, limits) =>
      LineOpens(st, ResolveTarget(st, jog.axes, jog.units, jog.distance, jog.machineCoords), JogRequest(jog));
      NothingOpens(st, st);
    case Recall(axes, units, distance, predefined, limits) =>
      RecallOpens(st, axes, units, distance, predefined, limits);
    case Resume =>
      if st.arc.Some? {
        ChunkOpens(st, st.arc.value);
      }
      NothingOpens(st, st);
    case _ => NothingOpens(st, Step(st, op));
  }

  lemma NothingOpens(st: State, st': State)
    requires st.cfg.Valid() && st'.queue == [] && (st'.prevUnitVec == st.prevUnitVec || IsZeroVec(st'.prevUnitVec))
    ensures Opens(st, st', None)
  {
  }

  /** A head nothing is committed to stands still exactly when its cap does: any schedule that could raise it would. */
  lemma FreeHeadRestsIff(st: State)
    requires Inv(st) && st.queue != [] && (st.headBusy ==> st.queue[0].maxEntrySq == 0.0)
    ensures st.queue[0].entrySq == 0.0 <==> st.queue[0].maxEntrySq == 0.0
  {
    var q, s, e := st.queue, Spans(st.queue), Entries(st.queue);
    assert GoodBlock(st.cfg, q[0]);
    ReachPositive(q[0]);
    assert s[0] == Span(q[0].maxEntrySq, q[0].Reach()) && e[0] == q[0].entrySq;
    if q[0].maxEntrySq > 0.0 {
      var p := e[0 := MaxR(e[0], MinR(s[0].cap, s[0].reach))];
      forall i: nat | i + 1 < |s| ensures FeasiblePair(s, p, i) {
        assert FeasiblePair(s, e, i);
      }
      assert CanFollow(q, st.headBusy, p);
      assert AtMost(p, e);
    }
  }

  /** The executor stops when a pop drains the queue. Whatever operation then puts a block at the front, and whatever is
      planned behind it, the block popped next is entered at rest if and only if the move it was asked for starts at
      rest. */
  lemma DrainedJunction(st: State, op: Op, ops: seq<Op>)
    requires Inv(st) && st.queue == [] && Allowed(st, op) && FirstLeg(st, op).Some?
    requires (StepKeeps(st, op); AllAllowed(Step(st, op), ops)) && forall o :: o in ops ==> !Removes(o)
    ensures (StepKeeps(st, op);
             var (target, rq) := FirstLeg(st, op).value;
             var next := PopBlock(Run(Step(st, op), ops)).1;
             && LegOf(st.cfg, st.Trail(), target, rq).Some? && next.Some?
             && (next.value.entrySq == 0.0 <==> StartsAtRest(st.cfg, st.Trail(), target, rq)))
  {
    StepKeeps(st, op);
    var st1 := Step(st, op);
    var st' := Run(st1, ops);
    var (target, rq) := FirstLeg(st, op).value;
    FirstLegOpens(st, op);
    FirstLegIsPlanned(st, op);
    RunExtends(st1, ops);
    BuiltAtRestIff(st.cfg, st.Trail(), target, rq);
    BusyEmptyForgets(st, target, rq);
    hide Step, Run, FirstLeg, BuildBlock, StartsAtRest, LegOf, AllAllowed, Inv;
    FreeHeadRestsIff(st');
  }

  lemma FirstLegIsPlanned(st: State, op: Op)
    requires Inv(st) && FirstLeg(st, op).Some?
    ensures !Removes(op) && GoodTrail(st.Trail()) && st.cfg.Valid()
  {
  }

  /** A head still marked busy after a flush has nothing to corner from. */
  lemma BusyEmptyForgets(st: State, target: Steps, rq: Request)
    requires Inv(st) && st.queue == [] && LegOf(st.cfg, st.Trail(), target, rq).Some?
    ensures BuildBlock(st.cfg, st.Trail(), target, rq).Some?
    ensures st.headBusy || IsZeroVec(st.prevUnitVec) ==>
              BuildBlock(st.cfg, st.Trail(), target, rq).value.maxEntrySq == 0.0
  {
    LegBegins(st.cfg, st.Trail(), target, rq);
    BuiltBlockIsGood(st.cfg, st.Trail(), target, rq);
  }
}

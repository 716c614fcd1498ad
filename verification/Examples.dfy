/** Concrete inputs on which a naive reading of the planner fails: the conditions of Corners.DrainedJunction,
    PlannerRuns.JogCancel, Chain.FlushedChainEndsAtRestIff and Feeds.SharperCornersAreSlower are needed. */
module Examples {
  import opened Base
  import opened Products
  import opened Blocks
  import opened Commands
  import opened Kinematics
  import opened LookAhead
  import opened PlannerState
  import opened PlannerRuns
  import opened Feeds
  import opened Chain
  import opened Arcs
  import opened Corners
  import opened Backpressure

  const UNIT_SCALE: Vec := [1.0, 1.0, 1.0, 1.0]
  const RATES: Vec := [600.0, 600.0, 600.0, 600.0]
  const ACCELS: Vec := [10.0, 10.0, 10.0, 10.0]
  const ALONG_X: Vec := [1.0, 0.0, 0.0, 0.0]

  /** One step a millimetre, ten millimetres a second, ten millimetres a second squared. */
  function Bench(math: Libm): PlannerConfig {
    PlannerConfig(math, UNIT_SCALE, RATES, ACCELS, 0.01, 0.002, [false, false, false, false])
  }

  function At(x: int): Steps { [x, 0, 0, 0] }

  /** Ten millimetres a second, as a rapid or as a feed of 600 mm/min. */
  predicate TenPerSecond(rq: Request) {
    rq.feedMode == UnitsPerMin && rq.units == Millimeter && (rq.rapid || rq.feed == 600.0)
  }

  /** The block of a straight move along X. */
  function BlockOf(n: nat, entrySq: real, rq: Request): Block {
    Block(At(n), n, ALONG_X, n as real, 10.0, 100.0, entrySq, entrySq, rq.rapid, rq.jog)
  }

  lemma TravelAlongX(math: Libm, n: nat)
    requires math.Valid() && n > 0
    ensures var cfg := Bench(math);
            TravelMm(cfg, At(n)) == Some(n as real) && Direction(cfg, At(n)) == ALONG_X
  {
    var x := n as real;
    DeltaAlongX(n);
    SqrtOfSquare(math, x);
    UnitAlongX(x);
    assert DominantCount(At(n)) == n && x >= 1.0;
    hide DeltaMm, Dot, Scaled, DominantCount, Square;
    var d := DeltaMm(At(n), Bench(math).stepsPerMm);
    assert math.sqrt(Dot(d, d)) == x;
  }

  lemma DeltaAlongX(n: nat)
    ensures var d := DeltaMm(At(n), UNIT_SCALE);
            d == [n as real, 0.0, 0.0, 0.0] && Dot(d, d) == Square(n as real)
  {
  }

  lemma UnitAlongX(x: real)
    requires x > 0.0
    ensures Scaled([x, 0.0, 0.0, 0.0], 1.0 / x) == ALONG_X
  {
    var k := 1.0 / x;
    var v: Vec := [x, 0.0, 0.0, 0.0];
    assert v[0] * k == 1.0;
    assert v[1] * k == 0.0 && v[2] * k == 0.0 && v[3] * k == 0.0;
    var u := Scaled(v, k);
    assert u[0] == v[0] * k;
    assert u[1] == v[1] * k && u[2] == v[2] * k && u[3] == v[3] * k;
    assert |u| == |ALONG_X| && forall a :: 0 <= a < 4 ==> u[a] == ALONG_X[a];
  }

  lemma LimitsAlongX(limits: Vec)
    ensures AxisLimit(ALONG_X, limits, AXES) == Some(limits[0])
  {
    assert AxisLimit(ALONG_X, limits, 0) == None;
    assert AxisLimit(ALONG_X, limits, 1) == Some(limits[0]);
    assert AxisLimit(ALONG_X, limits, 2) == Some(limits[0]);
    assert AxisLimit(ALONG_X, limits, 3) == Some(limits[0]);
  }

  lemma CruiseAlongX(math: Libm, n: nat, rq: Request)
    requires math.Valid() && n > 0 && TenPerSecond(rq)
    ensures TravelMm(Bench(math), At(n)).Some? && CruiseSpeedSq(Bench(math), At(n), rq) == 100.0
  {
    var cfg := Bench(math);
    TravelAlongX(math, n);
    LimitsAlongX(RatesMmS(cfg));
    SqrtOfSquare(math, 0.0);
    assert PartSq(cfg, DeltaMm(At(n), UNIT_SCALE), true) == Square(0.0);
  }

  lemma BlockAlongX(math: Libm, t: Trail, n: nat, rq: Request)
    requires math.Valid() && n > 0 && TenPerSecond(rq)
    requires t.position == At(t.position[0]) && t.prevNominalSq <= 100.0
    requires t.prevUnitVec == ALONG_X || (t.prevUnitVec == ZERO_VEC && t.prevNominalSq == 0.0)
    ensures BuildBlock(Bench(math), t, At(t.position[0] + n), rq) == Some(BlockOf(n, t.prevNominalSq, rq))
  {
    var cfg := Bench(math);
    assert StepDelta(t.position, At(t.position[0] + n)) == At(n);
    TravelAlongX(math, n);
    CruiseAlongX(math, n, rq);
    LimitsAlongX(ACCELS);
    CornerAlongX(math, t);
    hide TravelMm, CruiseSpeedSq, JunctionSpeedSq, Direction, AxisLimit;
  }

  lemma CornerAlongX(math: Libm, t: Trail)
    requires math.Valid()
    requires t.prevUnitVec == ALONG_X || (t.prevUnitVec == ZERO_VEC && t.prevNominalSq == 0.0)
    ensures JunctionSpeedSq(Bench(math), t, ALONG_X, 10.0) == t.prevNominalSq
  {
    SqrtOfSquare(math, 1.0);
    if t.prevUnitVec == ALONG_X {
      assert !IsZeroVec(ALONG_X) by { assert AbsR(ALONG_X[0]) >= LENGTH_EPSILON_MM; }
      assert Dot(ALONG_X, ALONG_X) == 1.0;
    }
  }

  /** Two straight moves, the first executed to its stop and the queue empty in between: the second is planned to
      start at ten millimetres a second although the machine stands still. */
  lemma DrainedQueueForgetsTheStop(math: Libm)
    requires math.Valid()
    ensures var rq := RapidRequest(Millimeter);
            var first := PlanLine(Fresh(Bench(math)), At(10), rq).0;
            var (drained, popped) := PopBlock(first);
            var second := PlanLine(drained, At(20), rq).0;
            && popped.Some? && drained.queue == []
            && |second.queue| == 1 && second.queue[0].entrySq == 100.0
  {
    hide PlanLine, Replanned, BuildBlock, Bench, TenPerSecond, RapidRequest;
    var rq := RapidRequest(Millimeter);
    Requests();
    StartsAlongX(math);
    PlannedAlongX(math, Fresh(Bench(math)), 10, rq);
    var drained := PopBlock(PlanLine(Fresh(Bench(math)), At(10), rq).0).0;
    assert drained.queue == [] && OnX(math, drained, 10);
    PlannedAlongX(math, drained, 10, rq);
    var b := BlockOf(10, 100.0, rq);
    assert [] + [b] == [b];
    OneBlockPlan(b);
  }

  lemma OneBlockPlan(b: Block)
    requires b.maxEntrySq <= b.Reach()
    ensures Replanned([b], false)[0].entrySq == b.maxEntrySq
  {
    var s := Spans([b]);
    assert s[0] == Span(b.maxEntrySq, b.Reach());
    assert Backward(s, None, 1) == 0.0 && Backward(s, None, 0) == b.maxEntrySq;
  }

  /** A long move, a move of one millimetre, and a jog behind them: cancelling the jog leaves the short move planned
      to be entered at ten millimetres a second, with room to shed a fifth of the squared speed. */
  lemma JogCancelLeavesARunaway(math: Libm)
    requires math.Valid()
    ensures var rq := RapidRequest(Millimeter);
            var jog := Request(600.0, Millimeter, UnitsPerMin, false, true);
            var long := PlanLine(Fresh(Bench(math)), At(100), rq).0;
            var short := PlanLine(long, At(101), rq).0;
            var jogged := PlanLine(short, At(201), jog).0;
            var cancelled := FlushJogBlocks(jogged);
            && |jogged.queue| == 3 && |cancelled.queue| == 2
            && cancelled.queue[1].entrySq == 100.0 && cancelled.queue[1].Reach() == 20.0
            && !WellPlanned(cancelled.queue)
  {
    hide PlanLine, Replanned, BuildBlock, Bench, TenPerSecond, RapidRequest, WithoutTrailingJogs;
    var rq := RapidRequest(Millimeter);
    var jog := Request(600.0, Millimeter, UnitsPerMin, false, true);
    Requests();
    StartsAlongX(math);
    PlannedAlongX(math, Fresh(Bench(math)), 100, rq);
    var long := PlanLine(Fresh(Bench(math)), At(100), rq).0;
    PlannedAlongX(math, long, 1, rq);
    var short := PlanLine(long, At(101), rq).0;
    PlannedAlongX(math, short, 100, jog);
    RunawayIsLeft(long.queue, short.queue, PlanLine(short, At(201), jog).0.queue, rq, jog);
  }

  lemma Requests()
    ensures TenPerSecond(RapidRequest(Millimeter)) && !RapidRequest(Millimeter).jog
    ensures TenPerSecond(Request(600.0, Millimeter, UnitsPerMin, false, true))
  {
  }

  lemma StartsAlongX(math: Libm)
    requires math.Valid()
    ensures Bench(math).Valid() && OnX(math, Fresh(Bench(math)), 0) && Fresh(Bench(math)).queue == []
  {
  }

  lemma RunawayIsLeft(long: seq<Block>, short: seq<Block>, jogged: seq<Block>, rq: Request, jog: Request)
    requires !rq.jog && jog.jog
    requires Shapes(long) == Shapes([] + [BlockOf(100, 0.0, rq)])
    requires Shapes(short) == Shapes(long + [BlockOf(1, 100.0, rq)])
    requires Shapes(jogged) == Shapes(short + [BlockOf(100, 100.0, jog)])
    requires jogged == Replanned(short + [BlockOf(100, 100.0, jog)], false)
    ensures var left := WithoutTrailingJogs(jogged);
            && |jogged| == 3 && |left| == 2 && left[1].entrySq == 100.0 && left[1].Reach() == 20.0
            && !WellPlanned(left)
  {
    hide Replanned, Shapes, WithoutTrailingJogs, WellPlanned;
    var (b0, b1, b2) := (BlockOf(100, 0.0, rq), BlockOf(1, 100.0, rq), BlockOf(100, 100.0, jog));
    assert [] + [b0] == [b0];
    SameShapesAppended(long, [b0], b1);
    SameShapesAppended(short, [b0] + [b1], b2);
    assert [b0] + [b1] + [b2] == [b0, b1, b2];
    ThreeShapes(short + [b2], b0, b1, b2);
    ThreeShapes(jogged, b0, b1, b2);
    ThreeBlockPlan(short + [b2]);
    LeftWithoutTheJog(jogged);
  }

  lemma SameShapesAppended(q: seq<Block>, r: seq<Block>, b: Block)
    requires Shapes(q) == Shapes(r)
    ensures Shapes(q + [b]) == Shapes(r + [b])
  {
    var (x, y) := (q + [b], r + [b]);
    assert |q| == |Shapes(q)| == |Shapes(r)| == |r|;
    forall k | 0 <= k < |x| ensures Shapes(x)[k] == Shapes(y)[k] {
      assert k < |q| ==> Shapes(q)[k] == Shapes(r)[k];
    }
  }

  lemma ThreeShapes(q: seq<Block>, b0: Block, b1: Block, b2: Block)
    requires Shapes(q) == Shapes([b0, b1, b2])
    ensures |q| == 3 && Shape(q[0]) == Shape(b0) && Shape(q[1]) == Shape(b1) && Shape(q[2]) == Shape(b2)
  {
    var r := [b0, b1, b2];
    assert |q| == |Shapes(q)| == 3;
    assert Shapes(q)[0] == Shapes(r)[0] && Shapes(q)[1] == Shapes(r)[1] && Shapes(q)[2] == Shapes(r)[2];
  }

  lemma LeftWithoutTheJog(q: seq<Block>)
    requires |q| == 3 && !q[0].jog && !q[1].jog && q[2].jog
    requires q[1].entrySq == 100.0 && q[1].Reach() == 20.0
    ensures WithoutTrailingJogs(q) == q[..2] && !WellPlanned(q[..2])
  {
    var left := q[..2];
    assert WithoutTrailingJogs(left) == left;
    assert Entries(left)[1] == 100.0 && Spans(left)[1].reach == 20.0;
  }

  /** Standing or coming to `x` on the X axis, with nothing being executed. */
  ghost predicate OnX(math: Libm, st: State, x: int) {
    && st.cfg == Bench(math) && st.position == At(x) && |st.queue| < BLOCK_QUEUE_LEN && !st.headBusy
    && st.workOffsetMm == ZERO_VEC
    && if st.prevUnitVec == ALONG_X then st.prevNominalSq == 100.0
       else st.prevUnitVec == ZERO_VEC && st.prevNominalSq == 0.0
  }

  /** One more straight move on a queue that is not being executed. */
  lemma PlannedAlongX(math: Libm, st: State, n: nat, rq: Request)
    requires math.Valid() && n > 0 && TenPerSecond(rq)
    requires OnX(math, st, st.position[0]) && |st.queue| < BLOCK_QUEUE_LEN - 1
    requires st.cfg.Valid()
    ensures var after := PlanLine(st, At(st.position[0] + n), rq).0;
            var q := st.queue + [BlockOf(n, st.prevNominalSq, rq)];
            && after.queue == Replanned(q, false) && Shapes(after.queue) == Shapes(q)
            && OnX(math, after, st.position[0] + n) && after.prevUnitVec == ALONG_X
            && after.cfg == st.cfg && after.position[0] == st.position[0] + n && |after.queue| == |st.queue| + 1
  {
    BlockAlongX(math, st.Trail(), n, rq);
    ReplanKeepsShapes(st.queue + [BlockOf(n, st.prevNominalSq, rq)], false);
    hide BuildBlock, Replanned;
  }

  lemma ThreeBlockPlan(q: seq<Block>)
    requires |q| == 3 && q[0].Reach() == 2000.0 && q[1].Reach() == 20.0 && q[2].Reach() == 2000.0
    requires q[0].maxEntrySq == 0.0 && q[1].maxEntrySq == 100.0 && q[2].maxEntrySq == 100.0
    ensures Replanned(q, false)[1].entrySq == 100.0
  {
    var s := Spans(q);
    assert s[0] == Span(0.0, 2000.0) && s[1] == Span(100.0, 20.0) && s[2] == Span(100.0, 2000.0);
    assert Backward(s, None, 3) == 0.0;
    assert Backward(s, None, 2) == 100.0;
    assert Backward(s, None, 1) == 100.0;
    assert Backward(s, None, 0) == 0.0;
    var b := BackwardAll(s, None);
    assert b[0] == 0.0 && b[1] == 100.0;
    assert Forward(s, b, 0) == 0.0;
    assert Forward(s, b, 1) == 100.0;
  }

  /** `$J=X<x> F600` */
  function JogTo(x: nat): JogCommand {
    JogCommand(AxisWords(Some(x as real), None, None, None), Absolute, Millimeter, 600.0, false)
  }

  lemma JogsAlongX(math: Libm, st: State, x: nat)
    requires math.Valid() && st.cfg.Valid() && OnX(math, st, st.position[0]) && x <= I32_MAX
    ensures PlanJog(st, JogTo(x), None).0 == PlanLine(st, At(x), JogRequest(JogTo(x))).0
    ensures JogRequest(JogTo(x)) == Request(600.0, Millimeter, UnitsPerMin, false, true)
  {
    var axes := JogTo(x).axes;
    assert ResolveAxis(st, 0, axes, Millimeter, Absolute, false) == x;
    assert ResolveTarget(st, axes, Millimeter, Absolute, false) == At(x);
    hide PlanLine;
  }

  /** Two jogs of 100 mm in one line, the first in flight when the jogs are cancelled, or the program stopped: the
      machine is to leave it at ten millimetres a second, and there is nothing behind it. */
  lemma CancelledJogRunsOn(math: Libm)
    requires math.Valid()
    ensures Bench(math).Valid()
    ensures var one := Plant(PlanJog(Fresh(Bench(math)), JogTo(100), None).0, 0.0);
            var two := Plant(PlanJog(one.planner, JogTo(200), None).0, 0.0);
            var running := Act(two, Pop);
            var cancelled := Act(running, CancelJogs);
            && Joins(running) && running.exitSq == 100.0
            && cancelled == Act(running, FlushAll) == Plant(cancelled.planner, 100.0)
            && cancelled.planner.queue == [] && !Joins(cancelled)
  {
    hide PlanLine, PlanJog, Replanned, BuildBlock, Bench, TenPerSecond, RapidRequest, WithoutTrailingJogs, JogRequest, JogTo;
    Requests();
    StartsAlongX(math);
    var start := Fresh(Bench(math));
    JogsAlongX(math, start, 100);
    var jog := JogRequest(JogTo(100));
    PlannedAlongX(math, start, 100, jog);
    var one := PlanLine(start, At(100), jog).0;
    JogsAlongX(math, one, 200);
    PlannedAlongX(math, one, 100, jog);
    var two := PlanLine(one, At(200), jog).0;
    assert [] + [BlockOf(100, 0.0, jog)] == [BlockOf(100, 0.0, jog)];
    JogsInALine(one.queue, two.queue, jog);
  }

  lemma JogsInALine(one: seq<Block>, two: seq<Block>, jog: Request)
    requires jog.jog && Shapes(one) == Shapes([BlockOf(100, 0.0, jog)])
    requires two == Replanned(one + [BlockOf(100, 100.0, jog)], false)
    requires Shapes(two) == Shapes(one + [BlockOf(100, 100.0, jog)])
    ensures |two| == 2 && two[1].entrySq == 100.0 && WithoutTrailingJogs(two[1..]) == []
  {
    hide Replanned, Shapes;
    var (b0, b1) := (BlockOf(100, 0.0, jog), BlockOf(100, 100.0, jog));
    SameShapesAppended(one, [b0], b1);
    assert [b0] + [b1] == [b0, b1];
    TwoShapes(one + [b1], b0, b1);
    TwoShapes(two, b0, b1);
    TwoBlockPlan(one + [b1]);
    assert two[1..] == [two[1]] && two[1..][..0] == [];
  }

  lemma TwoShapes(q: seq<Block>, b0: Block, b1: Block)
    requires Shapes(q) == Shapes([b0, b1])
    ensures |q| == 2 && Shape(q[0]) == Shape(b0) && Shape(q[1]) == Shape(b1)
  {
    assert |q| == |Shapes(q)| == 2;
    assert Shapes(q)[0] == Shapes([b0, b1])[0] && Shapes(q)[1] == Shapes([b0, b1])[1];
  }

  lemma TwoBlockPlan(q: seq<Block>)
    requires |q| == 2 && q[0].Reach() == q[1].Reach() == 2000.0
    requires q[0].maxEntrySq == 0.0 && q[1].maxEntrySq == 100.0
    ensures Replanned(q, false)[1].entrySq == 100.0
  {
    var s := Spans(q);
    assert s[0] == Span(0.0, 2000.0) && s[1] == Span(100.0, 2000.0);
    assert Backward(s, None, 2) == 0.0;
    assert Backward(s, None, 1) == 100.0;
    assert Backward(s, None, 0) == 0.0;
    var b := BackwardAll(s, None);
    assert b[0] == 0.0 && b[1] == 100.0;
    assert Forward(s, b, 0) == 0.0;
    assert Forward(s, b, 1) == 100.0;
  }

  const WEAK_Z: Vec := [1000.0, 1000.0, 1.0, 1000.0]
  const ALONG_Y: Vec := [0.0, 1.0, 0.0, 0.0]
  const UP_AND_AHEAD: Vec := [0.6, 0.0, 0.8, 0.0]

  lemma LimitAlongY()
    ensures AxisLimit(ALONG_Y, WEAK_Z, AXES) == Some(1000.0)
  {
    assert AxisLimit(ALONG_Y, WEAK_Z, 1) == None;
    assert AxisLimit(ALONG_Y, WEAK_Z, 2) == Some(1000.0);
    assert AxisLimit(ALONG_Y, WEAK_Z, 3) == Some(1000.0);
  }

  lemma LimitUpAndAhead()
    ensures AxisLimit(UP_AND_AHEAD, WEAK_Z, AXES) == Some(1.25)
  {
    assert AxisLimit(UP_AND_AHEAD, WEAK_Z, 1) == Some(1000.0 / 0.6);
    assert AxisLimit(UP_AND_AHEAD, WEAK_Z, 2) == Some(1000.0 / 0.6);
    assert AxisLimit(UP_AND_AHEAD, WEAK_Z, 3) == Some(1.25);
  }

  /** A right-angled corner in the plane against a flatter one that climbs with a weak Z axis: the sharper corner may be
      taken more than three times as fast, so Feeds.SharperCornersAreSlower needs its condition on the accelerations. */
  lemma SharperCanBeFaster(math: Libm)
    requires math.Valid()
    ensures var cfg := Bench(math).(accelMmS2 := WEAK_Z);
            var t := Trail(ORIGIN, ALONG_X, 100.0);
            && cfg.Valid() && GoodTrail(t) && IsUnit(ALONG_Y) && IsUnit(UP_AND_AHEAD)
            && Dot(ALONG_X, ALONG_Y) < Dot(ALONG_X, UP_AND_AHEAD)
            && JunctionSpeedSq(cfg, t, ALONG_Y, Acceleration(cfg, ALONG_Y)) > 10.0
            && JunctionSpeedSq(cfg, t, UP_AND_AHEAD, Acceleration(cfg, UP_AND_AHEAD)) < 1.0
  {
    var cfg := Bench(math).(accelMmS2 := WEAK_Z);
    var t := Trail(ORIGIN, ALONG_X, 100.0);
    CornerVectors();
    LimitAlongY();
    LimitUpAndAhead();
    HalfSines(cfg, t);
    JunctionByHalfSine(cfg, t, ALONG_Y, 1000.0);
    JunctionByHalfSine(cfg, t, UP_AND_AHEAD, 1.25);
    CentripetalBounds(HalfSine(cfg, t, ALONG_Y), HalfSine(cfg, t, UP_AND_AHEAD));
    hide JunctionSpeedSq, HalfSine, Centripetal, AxisLimit, Dot, IsZeroVec, IsUnit;
  }

  lemma CornerVectors()
    ensures IsUnit(ALONG_X) && IsUnit(ALONG_Y) && IsUnit(UP_AND_AHEAD) && !IsZeroVec(ALONG_X)
    ensures Dot(ALONG_X, ALONG_Y) == 0.0 && Dot(ALONG_X, UP_AND_AHEAD) == 0.6
  {
    assert AbsR(ALONG_X[0]) >= LENGTH_EPSILON_MM;
  }

  lemma HalfSines(cfg: PlannerConfig, t: Trail)
    requires cfg.math.Valid() && t.prevUnitVec == ALONG_X
    ensures 0.7 <= HalfSine(cfg, t, ALONG_Y) < 1.0 && 0.0 <= HalfSine(cfg, t, UP_AND_AHEAD) <= 0.9
  {
    CornerVectors();
    hide Dot, IsUnit, IsZeroVec;
    var (s, f) := (cfg.math.sqrt(0.5), cfg.math.sqrt(0.8));
    SquareMonoBack(0.7, s);
    SquareMonoBack(f, 0.9);
    if s >= 1.0 {
      SquareMono(1.0, s);
    }
  }

  lemma CentripetalBounds(s: real, f: real)
    requires 0.7 <= s < 1.0 && 0.0 <= f <= 0.9
    ensures Centripetal(0.01, s, 1000.0) > 10.0 && Centripetal(0.01, f, 1.25) < 1.0
  {
    RadiusGrows(0.01, 0.7, s, 1000.0, 1000.0);
    RadiusGrows(0.01, f, 0.9, 1.25, 1.25);
    assert Centripetal(0.01, 0.7, 1000.0) > 10.0;
    assert Centripetal(0.01, 0.9, 1.25) < 1.0;
    hide Centripetal;
  }

  /** A full circle about a centre ten millimetres ahead, in two chords. */
  const CIRCLE := PlannerCommand.Arc(false, AxisWords(None, None, None, None), Some(10.0), None, None, XY, Millimeter,
                                     Absolute, 600.0, UnitsPerMin, false)

  function Coarse(math: Libm): PlannerConfig { Bench(math).(arcToleranceMm := 20.0) }

  lemma CircleIsTwoChords(math: Libm)
    requires math.Valid()
    requires math.atan2(0.0, 100.0) == 0.0 && math.atan2(0.0, -10.0) == PI && math.cos(2.0 * PI) == 1.0
    ensures Coarse(math).Valid()
    ensures var arc := PrepareArc(Fresh(Coarse(math)), CIRCLE);
            && arc.Some? && arc.value.segments == 2 && arc.value.nextSeg == 1 && arc.value.plane == XY
            && arc.value.center0 == 10.0 && arc.value.radius == 10.0
            && arc.value.thetaStart == PI && arc.value.thetaStep == PI
  {
    hide SweepAngle, SegmentCount, MmToSteps, Mul, Hypot, PositionMm, ArcEndMm;
    AtTheOrigin(Coarse(math));
    RootOfAHundred(math);
    CircleSweeps(math);
    CircleIsCut(math);
    MulByZero(10.0);
    MulByZero(1.0);
    assert 2.0 * PI / 2 as real == PI;
  }

  lemma AtTheOrigin(cfg: PlannerConfig)
    requires cfg.Valid()
    ensures var st := Fresh(cfg);
            forall a: nat :: a < AXES ==> PositionMm(st, a) == 0.0 == ArcEndMm(st, CIRCLE, a)
  {
  }

  lemma CircleSweeps(math: Libm)
    requires math.sqrt(100.0) == 10.0 && math.atan2(0.0, 100.0) == 0.0
    ensures SweepAngle(math, -10.0, 0.0, -10.0, 0.0, false) == 2.0 * PI
    ensures Hypot(math, -10.0, 0.0) == 10.0
  {
    hide Mul, Cross, Inner;
    CircleProducts();
  }

  lemma CircleProducts()
    ensures Mul(-10.0, -10.0) == 100.0 && Mul(0.0, 0.0) == 0.0
    ensures Cross(-10.0, 0.0, -10.0, 0.0) == 0.0 && Inner(-10.0, 0.0, -10.0, 0.0) == 100.0
  {
  }

  lemma RootOfAHundred(math: Libm)
    requires math.Valid()
    ensures math.sqrt(100.0) == 10.0
  {
    SqrtOfSquare(math, 10.0);
    assert Square(10.0) == 100.0;
  }

  lemma CircleIsCut(math: Libm)
    ensures SegmentCount(math, 10.0, 2.0 * PI, 20.0) == 2
  {
    assert 1.0 - 20.0 / 10.0 == -1.0;
    assert AbsR(2.0 * PI) / PI == 2.0;
  }

  /** A circle that ends where it begins, inside the envelope, is accepted, and its first chord leads twenty millimetres
      out of it. */
  lemma AcceptedArcLeavesTheEnvelope(math: Libm, maxTravelMm: Vec)
    requires math.Valid() && forall a: nat :: a < AXES ==> maxTravelMm[a] >= 0.0
    requires math.atan2(0.0, 100.0) == 0.0 && math.atan2(0.0, -10.0) == PI && math.cos(2.0 * PI) == 1.0
    ensures Coarse(math).Valid()
    ensures var (st', r) := PlanCommand(Fresh(Coarse(math)), CIRCLE, Some(maxTravelMm));
            && r.Ok? && st'.queue != [] && st'.queue[0].steps[0] == 20
            && WithinEnvelope(Coarse(math), maxTravelMm, ORIGIN)
            && !WithinEnvelope(Coarse(math), maxTravelMm, AddSteps(ORIGIN, st'.queue[0].steps))
  {
    hide BuildBlock, EnqueueArcChunk, PrepareArc, ChordOf, TravelMm, Replanned, LowerLimit;
    CircleIsTwoChords(math);
    var st := Fresh(Coarse(math));
    var arc := PrepareArc(st, CIRCLE).value;
    OriginIsWithin(Coarse(math), maxTravelMm);
    FirstChordOfCircle(Coarse(math), arc);
    ChunkOpens(st, arc);
    ChunkIsNeverRefused(st, arc);
    FirstChordMoves(math, arc);
    assert CommandTarget(st, CIRCLE) == ORIGIN;
    BuiltSteps(Coarse(math), st.Trail(), ChordEnd(Coarse(math), arc, 1), arc.Request());
  }

  lemma OriginIsWithin(cfg: PlannerConfig, maxTravelMm: Vec)
    requires cfg.Valid() && forall a: nat :: a < AXES ==> maxTravelMm[a] >= 0.0
    ensures WithinEnvelope(cfg, maxTravelMm, ORIGIN)
  {
    forall a: nat | a < AXES
      ensures LowerLimit(cfg, maxTravelMm, a) <= 0
    {
      var t, s := maxTravelMm[a], cfg.stepsPerMm[a];
      assert t * s >= 0.0 && -t * s == -(t * s);
    }
  }

  lemma FirstChordOfCircle(cfg: PlannerConfig, arc: ArcInProgress)
    requires cfg.Valid() && cfg.stepsPerMm == UNIT_SCALE && cfg.math.cos(2.0 * PI) == 1.0
    requires arc.segments == 2 && arc.plane == XY && arc.center0 == 10.0 && arc.radius == 10.0
    requires arc.thetaStart == PI && arc.thetaStep == PI
    ensures ChordEnd(cfg, arc, 1)[0] == 20
  {
    assert arc.thetaStart + arc.thetaStep * 1.0 == 2.0 * PI;
    assert arc.center0 + arc.radius * 1.0 == 20.0;
  }

  /** Twenty steps along X are a move, whatever the other axes do. */
  lemma FirstChordMoves(math: Libm, arc: ArcInProgress)
    requires math.Valid() && Coarse(math).Valid() && arc.segments == 2 && arc.nextSeg == 1
    requires ChordEnd(Coarse(math), arc, 1)[0] == 20
    ensures FirstChord(Coarse(math), Fresh(Coarse(math)).Trail(), arc)
         == Some((ChordEnd(Coarse(math), arc, 1), arc.Request()))
  {
    hide ChordEnd;
    var steps := StepDelta(ORIGIN, ChordEnd(Coarse(math), arc, 1));
    var d := DeltaMm(steps, UNIT_SCALE);
    assert steps[0] == 20 && d[0] == 20.0;
    SquareNonNegative(d[1]);
    SquareNonNegative(d[2]);
    SquareNonNegative(d[3]);
    assert Dot(d, d) >= 400.0;
    SquareMonoBack(20.0, math.sqrt(Dot(d, d)));
  }

  lemma BuiltSteps(cfg: PlannerConfig, t: Trail, target: Steps, rq: Request)
    requires cfg.Valid() && BuildBlock(cfg, t, target, rq).Some?
    ensures BuildBlock(cfg, t, target, rq).value.steps == StepDelta(t.position, target)
  {
  }
}

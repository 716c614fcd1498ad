/** What a built block says about the move it stands for (planner.rs:991-1178, 1531-1540). */
module BlockLaws {
  import opened Base
  import opened Products
  import opened Blocks
  import opened Commands
  import opened Kinematics
  import opened PlannerState
  import opened Feeds
  import opened Corners

  /** Length times direction, in the machine's own scale, is the move's steps on every axis. */
  lemma BlockIsItsSteps(cfg: PlannerConfig, t: Trail, target: Steps, rq: Request, a: nat)
    requires cfg.Valid() && BuildBlock(cfg, t, target, rq).Some? && a < AXES
    ensures var b := BuildBlock(cfg, t, target, rq).value;
            && b.millimeters > 0.0 && IsUnit(b.unitVec)
            && b.steps[a] == target[a] - t.position[a]
            && Mul(Mul(b.millimeters, b.unitVec[a]), cfg.stepsPerMm[a]) == b.steps[a] as real
  {
    hide Mul, TravelMm, Direction, BuildBlock, StepDelta, IsUnit;
    BlockFields(cfg, t, target, rq);
    DirectionOfSteps(cfg, BuildBlock(cfg, t, target, rq).value.steps, a);
    DeltaOf(t.position, target, a);
  }

  lemma BlockFields(cfg: PlannerConfig, t: Trail, target: Steps, rq: Request)
    requires cfg.Valid() && BuildBlock(cfg, t, target, rq).Some?
    ensures var b := BuildBlock(cfg, t, target, rq).value;
            && b.steps == StepDelta(t.position, target)
            && TravelMm(cfg, b.steps).Some? && b.millimeters == TravelMm(cfg, b.steps).value
            && b.millimeters > 0.0
            && b.unitVec == Direction(cfg, b.steps) && IsUnit(b.unitVec)
            && b.acceleration == Acceleration(cfg, b.unitVec)
  {
    hide TravelMm, Direction, Acceleration, CruiseSpeedSq, JunctionSpeedSq, IsUnit;
  }

  lemma DeltaOf(from: Steps, to: Steps, a: nat)
    requires a < AXES
    ensures StepDelta(from, to)[a] == to[a] - from[a]
  {
  }

  lemma DirectionOfSteps(cfg: PlannerConfig, steps: Steps, a: nat)
    requires cfg.Valid() && TravelMm(cfg, steps).Some? && a < AXES
    ensures Mul(Mul(TravelMm(cfg, steps).value, Direction(cfg, steps)[a]), cfg.stepsPerMm[a]) == steps[a] as real
  {
    hide Mul, Quot, TravelMm, Direction, IsUnit;
    var (mm, spm) := (TravelMm(cfg, steps).value, cfg.stepsPerMm[a]);
    ShareOf(cfg, steps, a);
    Distance(mm, steps[a] as real, spm, Direction(cfg, steps)[a]);
  }

  lemma ShareOf(cfg: PlannerConfig, steps: Steps, a: nat)
    requires cfg.Valid() && TravelMm(cfg, steps).Some? && a < AXES
    ensures Direction(cfg, steps)[a]
            == Mul(Quot(steps[a] as real, cfg.stepsPerMm[a]), Quot(1.0, TravelMm(cfg, steps).value))
  {
    hide TravelMm, IsUnit;
  }

  lemma Distance(mm: real, n: real, spm: real, share: real)
    requires mm > 0.0 && spm > 0.0 && share == Mul(Quot(n, spm), Quot(1.0, mm))
    ensures Mul(Mul(mm, share), spm) == n
  {
    LengthTimesShare(mm, n / spm);
    StepsBack(n, spm);
  }

  lemma LengthTimesShare(mm: real, d: real)
    requires mm > 0.0
    ensures mm * (d * (1.0 / mm)) == d
  {
    var k := 1.0 / mm;
    assert mm * k == 1.0;
    assert mm * (d * k) == d * (mm * k);
  }

  lemma StepsBack(n: real, spm: real)
    requires spm > 0.0
    ensures n / spm * spm == n
  {
  }

  /** The squared length of a move, from its steps. */
  function LengthSq(cfg: PlannerConfig, from: Steps, to: Steps): real
    requires cfg.Valid()
  {
    Square((to[0] - from[0]) as real / cfg.stepsPerMm[0]) + Square((to[1] - from[1]) as real / cfg.stepsPerMm[1])
    + Square((to[2] - from[2]) as real / cfg.stepsPerMm[2]) + Square((to[3] - from[3]) as real / cfg.stepsPerMm[3])
  }

  /** A move is dropped exactly when it changes no step or is shorter than the length epsilon; a block is as long as its
      move. */
  lemma DroppedIffNull(cfg: PlannerConfig, t: Trail, target: Steps, rq: Request)
    requires cfg.Valid()
    ensures BuildBlock(cfg, t, target, rq).None? <==>
            target == t.position || LengthSq(cfg, t.position, target) < LENGTH_EPSILON_MM * LENGTH_EPSILON_MM
    ensures BuildBlock(cfg, t, target, rq).Some? ==>
              Square(BuildBlock(cfg, t, target, rq).value.millimeters) == LengthSq(cfg, t.position, target)
  {
    hide Direction, Acceleration, CruiseSpeedSq, JunctionSpeedSq;
    var steps := StepDelta(t.position, target);
    var d := DeltaMm(steps, cfg.stepsPerMm);
    var x := Dot(d, d);
    assert x == LengthSq(cfg, t.position, target);
    DotSelfNonNegative(d);
    RootBelow(cfg.math, x, LENGTH_EPSILON_MM);
    NoStepsIff(t.position, target);
    hide DominantCount, Dot, DeltaMm, LengthSq;
  }

  lemma RootBelow(math: Libm, x: real, eps: real)
    requires math.Valid() && x >= 0.0 && eps > 0.0
    ensures math.sqrt(x) < eps <==> x < eps * eps
    ensures Square(math.sqrt(x)) == x
  {
    var s := math.sqrt(x);
    if s < eps {
      SquareStrict(eps, s);
    } else {
      SquareMono(eps, s);
    }
  }

  lemma NoStepsIff(from: Steps, to: Steps)
    ensures DominantCount(StepDelta(from, to)) == 0 <==> to == from
  {
    if DominantCount(StepDelta(from, to)) == 0 {
      assert to[0] == from[0] && to[1] == from[1] && to[2] == from[2] && to[3] == from[3];
    }
  }

  lemma {:induction false} LimitIsAttained(u: Vec, limits: Vec, n: nat) returns (a: nat)
    requires n <= AXES && AxisLimit(u, limits, n).Some?
    ensures a < n && Participates(u, a) && Mul(AxisLimit(u, limits, n).value, AbsR(u[a])) == limits[a]
  {
    if Participates(u, n - 1) {
      ShareOfLimit(u, limits, n - 1);
      if AxisLimit(u, limits, n) == Some(limits[n - 1] / AbsR(u[n - 1])) {
        return n - 1;
      }
    }
    AxisLimitStep(u, limits, n);
    a := LimitIsAttained(u, limits, n - 1);
    hide AxisLimit;
  }

  lemma AxisLimitStep(u: Vec, limits: Vec, n: nat)
    requires 0 < n <= AXES && AxisLimit(u, limits, n).Some?
    ensures AxisLimit(u, limits, n) == AxisLimit(u, limits, n - 1)
            || (Participates(u, n - 1) && AxisLimit(u, limits, n) == Some(limits[n - 1] / AbsR(u[n - 1])))
  {
  }

  lemma ShareOfLimit(u: Vec, limits: Vec, a: nat)
    requires a < AXES && Participates(u, a)
    ensures limits[a] / AbsR(u[a]) * AbsR(u[a]) == limits[a]
  {
    StepsBack(limits[a], AbsR(u[a]));
  }

  /** A rapid cruises with some axis at its own maximum rate, per minute as it is set. */
  lemma RapidRunsAtARate(cfg: PlannerConfig, steps: Steps, rq: Request) returns (a: nat)
    requires cfg.Valid() && TravelMm(cfg, steps).Some? && rq.rapid
    ensures a < AXES && CruiseSpeed(cfg, steps, rq) * AbsR(Direction(cfg, steps)[a]) * 60.0 == cfg.maxRateMmMin[a]
  {
    hide Direction, TravelMm, AxisLimit;
    var u := Direction(cfg, steps);
    AxisLimitIsGreatest(u, RatesMmS(cfg));
    a := LimitIsAttained(u, RatesMmS(cfg), AXES);
    assert RatesMmS(cfg)[a] * 60.0 == cfg.maxRateMmMin[a];
  }

  /** No block takes an axis that takes part beyond its rate per minute or its acceleration, and some axis that takes part
      is accelerated exactly as it may be. */
  lemma BlockKeepsTheSettings(cfg: PlannerConfig, t: Trail, target: Steps, rq: Request) returns (a: nat)
    requires cfg.Valid() && GoodTrail(t) && BuildBlock(cfg, t, target, rq).Some?
    ensures var b := BuildBlock(cfg, t, target, rq).value;
            && (forall i: nat :: i < AXES && AbsR(b.unitVec[i]) > 0.000001 ==>
                  && Mul(b.nominalSq, Square(b.unitVec[i])) * 3600.0 <= Square(cfg.maxRateMmMin[i])
                  && Mul(b.acceleration, AbsR(b.unitVec[i])) <= cfg.accelMmS2[i])
            && a < AXES && AbsR(b.unitVec[a]) > 0.000001 && Mul(b.acceleration, AbsR(b.unitVec[a])) == cfg.accelMmS2[a]
  {
    hide Mul, BuildBlock, AxisLimit, IsUnit, Direction, TravelMm, Square, GoodBlock, KeepsAxes, RatesMmS,
         KeepsRates, WithinAxisLimits;
    var b := BuildBlock(cfg, t, target, rq).value;
    BuiltBlockIsGood(cfg, t, target, rq);
    BlockFields(cfg, t, target, rq);
    AxisLimitIsGreatest(b.unitVec, cfg.accelMmS2);
    a := LimitIsAttained(b.unitVec, cfg.accelMmS2, AXES);
    forall i: nat | i < AXES && AbsR(b.unitVec[i]) > 0.000001
      ensures Mul(b.nominalSq, Square(b.unitVec[i])) * 3600.0 <= Square(cfg.maxRateMmMin[i])
      ensures Mul(b.acceleration, AbsR(b.unitVec[i])) <= cfg.accelMmS2[i]
    {
      GoodBlockOnAxis(cfg, b, i);
    }
  }

  lemma GoodBlockOnAxis(cfg: PlannerConfig, b: Block, i: nat)
    requires cfg.Valid() && GoodBlock(cfg, b) && i < AXES && Participates(b.unitVec, i)
    ensures Mul(b.nominalSq, Square(b.unitVec[i])) * 3600.0 <= Square(cfg.maxRateMmMin[i])
    ensures Mul(b.acceleration, AbsR(b.unitVec[i])) <= cfg.accelMmS2[i]
  {
    hide RatesMmS, IsUnit, Participates;
    RateOf(cfg, i);
    PerMinute(RatesMmS(cfg)[i], cfg.maxRateMmMin[i], Mul(b.nominalSq, Square(b.unitVec[i])));
  }

  lemma RateOf(cfg: PlannerConfig, i: nat)
    requires cfg.Valid() && i < AXES
    ensures RatesMmS(cfg)[i] == cfg.maxRateMmMin[i] / 60.0
  {
  }

  lemma PerMinute(perSecond: real, perMinute: real, x: real)
    requires perSecond == perMinute / 60.0 && x <= perSecond * perSecond
    ensures x * 3600.0 <= Square(perMinute)
  {
    assert perSecond * 60.0 == perMinute;
    assert Square(perMinute) == perSecond * perSecond * 3600.0;
  }

  /** A block is tagged as it was asked for: a move with its own word, a jog as a jog. */
  lemma BlockCarriesItsRequest(cfg: PlannerConfig, t: Trail, target: Steps, cmd: PlannerCommand, jog: JogCommand)
    requires cfg.Valid() && LegOf(cfg, t, target, JogRequest(jog)).Some?
    ensures var b := BuildBlock(cfg, t, target, JogRequest(jog));
            b.Some? && b.value.jog && !b.value.rapid
    ensures cmd.Move? ==>
              var b := BuildBlock(cfg, t, target, MoveRequest(cmd));
              b.Some? && !b.value.jog && b.value.rapid == cmd.rapid
    ensures cmd.Move? ==>
              var rq := MoveRequest(cmd);
              rq.feed == cmd.feed && rq.units == cmd.units && rq.feedMode == cmd.feedMode
    ensures var rq := JogRequest(jog);
            rq.feed == jog.feed && rq.units == jog.units && rq.feedMode == UnitsPerMin
    ensures RapidRequest(jog.units).rapid && !RapidRequest(jog.units).jog
  {
    hide TravelMm, Direction, Acceleration, CruiseSpeedSq, JunctionSpeedSq;
  }

  /** The linear and the rotary leg of a move are the lengths of its linear and of its rotary axes. */
  lemma LegsAreTheirAxes(cfg: PlannerConfig, steps: Steps, rotary: bool)
    requires cfg.Valid()
    ensures LegMm(cfg, steps, rotary) >= 0.0
    ensures Square(LegMm(cfg, steps, rotary)) == AxesSq(cfg, steps, rotary, AXES)
  {
    var d := DeltaMm(steps, cfg.stepsPerMm);
    AxesSum(cfg, steps, rotary);
    hide PartSq, DeltaMm, AxesSq;
  }

  /** Squared millimetres, or degrees, over those of the first `n` axes that are of one kind. */
  function AxesSq(cfg: PlannerConfig, steps: Steps, rotary: bool, n: nat): real
    requires cfg.Valid() && n <= AXES
  {
    if n == 0 then 0.0
    else
      AxesSq(cfg, steps, rotary, n - 1)
      + if cfg.rotary[n - 1] == rotary then Square(steps[n - 1] as real / cfg.stepsPerMm[n - 1]) else 0.0
  }

  lemma AxesSum(cfg: PlannerConfig, steps: Steps, rotary: bool)
    requires cfg.Valid()
    ensures PartSq(cfg, DeltaMm(steps, cfg.stepsPerMm), rotary) == AxesSq(cfg, steps, rotary, AXES)
  {
    hide DeltaMm, AxesSq, Square;
    OneAxis(cfg, steps, rotary, 1);
    OneAxis(cfg, steps, rotary, 2);
    OneAxis(cfg, steps, rotary, 3);
    OneAxis(cfg, steps, rotary, 4);
    NoAxes(cfg, steps, rotary);
  }

  lemma NoAxes(cfg: PlannerConfig, steps: Steps, rotary: bool)
    requires cfg.Valid()
    ensures AxesSq(cfg, steps, rotary, 0) == 0.0
  {
  }

  lemma OneAxis(cfg: PlannerConfig, steps: Steps, rotary: bool, n: nat)
    requires cfg.Valid() && 0 < n <= AXES
    ensures var d := DeltaMm(steps, cfg.stepsPerMm);
            AxesSq(cfg, steps, rotary, n)
            == AxesSq(cfg, steps, rotary, n - 1) + if cfg.rotary[n - 1] == rotary then d[n - 1] * d[n - 1] else 0.0
  {
    var d := DeltaMm(steps, cfg.stepsPerMm);
    assert steps[n - 1] as real / cfg.stepsPerMm[n - 1] == d[n - 1];
  }

  lemma UnitIsNotZero(u: Vec)
    requires IsUnit(u)
    ensures !IsZeroVec(u)
  {
    UnitVecParticipates(u);
    hide IsUnit;
  }

  /** A corner behind a moving block that does not reverse is taken at that block's speed, or slower: then at the
      centripetal acceleration on a circle that touches both legs and passes the corner at the junction deviation. */
  lemma CornerIsOnItsCircle(cfg: PlannerConfig, t: Trail, u: Vec, accel: real) returns (radius: real, sinHalf: real)
    requires cfg.Valid() && IsUnit(t.prevUnitVec) && t.prevNominalSq >= 0.0 && IsUnit(u) && accel > 0.0
    requires Dot(t.prevUnitVec, u) > -1.0 + 0.000001
    ensures 0.0 < sinHalf <= 1.0 && 2.0 * Square(sinHalf) == 1.0 + Dot(t.prevUnitVec, u)
    ensures sinHalf < 1.0 ==> radius == Mul(sinHalf, radius + cfg.junctionDeviationMm)
    ensures JunctionSpeedSq(cfg, t, u, accel)
            == if sinHalf == 1.0 then t.prevNominalSq else MinR(Mul(accel, radius), t.prevNominalSq)
  {
    hide JunctionSpeedSq, HalfSine, Dot, IsUnit, IsZeroVec, Mul, Centripetal, Square;
    UnitIsNotZero(t.prevUnitVec);
    JunctionByHalfSine(cfg, t, u, accel);
    HalfSineIsOneIff(cfg, t, u);
    HalfSineSquared(cfg, t, u);
    sinHalf := HalfSine(cfg, t, u);
    radius := 0.0;
    if sinHalf < 1.0 {
      radius := RadiusOf(cfg.junctionDeviationMm, sinHalf);
      TouchingCircle(cfg.junctionDeviationMm, sinHalf, accel);
    }
  }

  function RadiusOf(deviation: real, s: real): real
    requires s < 1.0
  {
    deviation * s / (1.0 - s)
  }

  lemma TouchingCircle(deviation: real, s: real, accel: real)
    requires s < 1.0
    ensures RadiusOf(deviation, s) == Mul(s, RadiusOf(deviation, s) + deviation)
    ensures Centripetal(deviation, s, accel) == Mul(accel, RadiusOf(deviation, s))
  {
    var radius := RadiusOf(deviation, s);
    assert radius * (1.0 - s) == deviation * s;
  }

  lemma HalfSineSquared(cfg: PlannerConfig, t: Trail, u: Vec)
    requires cfg.math.Valid() && -Dot(t.prevUnitVec, u) < 1.0 - JUNCTION_REVERSAL_EPSILON
    ensures 2.0 * Square(HalfSine(cfg, t, u)) == 1.0 + Dot(t.prevUnitVec, u)
  {
    hide Dot;
    var x := (1.0 + Dot(t.prevUnitVec, u)) * 0.5;
    assert x > 0.0;
  }

  /** After it the program is where it was, and its next block starts from rest. */
  ghost predicate StopsAt(st': State, position: Steps)
    requires st'.cfg.Valid()
  {
    && st'.position == position
    && forall target: Steps, rq: Request :: BuildBlock(st'.cfg, st'.Trail(), target, rq).Some? ==>
         BuildBlock(st'.cfg, st'.Trail(), target, rq).value.maxEntrySq == 0.0
  }

  /** A dwell, a probe, a recall, a pause or the end of the program makes the next block start from rest; so do a
      relocation, new settings and both flushes. A spindle, coolant or coordinate command does not change the planner. */
  lemma StopsForgetTheCorner(st: State, cmd: PlannerCommand, limits: Option<Vec>, p: Steps, cfg: PlannerConfig)
    requires st.cfg.Valid() && cfg.Valid()
    ensures cmd.Dwell? || cmd.Probe? || cmd.GoToPredefined? || cmd.ProgramPause? || cmd.ProgramEnd? ==>
              var st' := PlanCommand(st, cmd, limits).0;
              st'.cfg == st.cfg && StopsAt(st', st.position) && st'.queue == st.queue
    ensures cmd.Spindle? || cmd.Coolant? || cmd.Coordinate? ==> PlanCommand(st, cmd, limits).0 == st
    ensures StopsAt(SyncPosition(st, p), p) && SyncPosition(st, p).queue == st.queue
    ensures var st' := SetConfig(st, cfg);
            StopsAt(st', st.position) && st'.cfg == cfg && st'.queue == st.queue
    ensures StopsAt(FlushQueue(st), st.position) && StopsAt(FlushJogBlocks(st), st.position)
  {
    hide BuildBlock, ResolveTarget, PlanMove, PlanArc;
    ForgottenIsAtRest(FlushLookahead(st));
    ForgottenIsAtRest(SyncPosition(st, p));
    ForgottenIsAtRest(SetConfig(st, cfg));
    ForgottenIsAtRest(FlushQueue(st));
    ForgottenIsAtRest(FlushJogBlocks(st));
  }

  lemma ForgottenIsAtRest(st: State)
    requires st.cfg.Valid() && st.prevUnitVec == ZERO_VEC && st.prevNominalSq == 0.0
    ensures StopsAt(st, st.position)
  {
    forall target: Steps, rq: Request | BuildBlock(st.cfg, st.Trail(), target, rq).Some?
      ensures BuildBlock(st.cfg, st.Trail(), target, rq).value.maxEntrySq == 0.0
    {
      BuiltBlockIsGood(st.cfg, st.Trail(), target, rq);
    }
    hide BuildBlock, GoodBlock;
  }
}

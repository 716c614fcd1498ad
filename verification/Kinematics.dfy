/** Turning one straight-line target into a block (planner.rs:988-1181, 1531-1540). */
module Kinematics {
  import opened Base
  import opened Blocks
  import opened Commands

  const MM_PER_INCH := 25.4
  const LENGTH_EPSILON_MM := 0.000001
  const JUNCTION_REVERSAL_EPSILON := 0.000001

  /** `math` is the maths library; `rotary[n]` is bit n of `$376`. */
  datatype PlannerConfig = PlannerConfig(
    math: Libm,
    stepsPerMm: Vec,
    maxRateMmMin: Vec,
    accelMmS2: Vec,
    junctionDeviationMm: real,
    arcToleranceMm: real,
    rotary: seq<bool>)
  {
    /** What the settings sanitizer guarantees of every configuration (settings.rs:491-541). */
    ghost predicate Valid() {
      && math.Valid()
      && |rotary| == AXES
      && junctionDeviationMm >= 0.0
      && arcToleranceMm > 0.0
      && forall a :: 0 <= a < AXES ==> stepsPerMm[a] > 0.0 && maxRateMmMin[a] > 0.0 && accelMmS2[a] > 0.0
    }
  }

  /** What the next block is built from: where the program is, and how it got there. */
  datatype Trail = Trail(position: Steps, prevUnitVec: Vec, prevNominalSq: real)

  /** How fast a move is asked to go, and what it is tagged with. */
  datatype Request = Request(feed: real, units: Units, feedMode: FeedMode, rapid: bool, jog: bool)

  function UnitsScale(units: Units): real {
    match units case Millimeter => 1.0 case Inch => MM_PER_INCH
  }

  /** Nearest whole step, saturating like the `as i32` cast. */
  function MmToSteps(mm: real, stepsPerMm: real): (s: int)
    ensures I32_MIN <= s <= I32_MAX
  {
    Clamp(Round(mm * stepsPerMm), I32_MIN, I32_MAX)
  }

  function StepDelta(from: Steps, target: Steps): Steps {
    [target[0] - from[0], target[1] - from[1], target[2] - from[2], target[3] - from[3]]
  }

  function DominantCount(s: Steps): nat {
    MaxI(MaxI(AbsI(s[0]), AbsI(s[1])), MaxI(AbsI(s[2]), AbsI(s[3])))
  }

  function DeltaMm(s: Steps, spm: Vec): Vec
    requires forall a :: 0 <= a < AXES ==> spm[a] > 0.0
  {
    [s[0] as real / spm[0], s[1] as real / spm[1], s[2] as real / spm[2], s[3] as real / spm[3]]
  }

  function Dot(u: Vec, v: Vec): real {
    u[0] * v[0] + u[1] * v[1] + u[2] * v[2] + u[3] * v[3]
  }

  function Scaled(v: Vec, k: real): Vec {
    [v[0] * k, v[1] * k, v[2] * k, v[3] * k]
  }

  predicate IsUnit(u: Vec) { Dot(u, u) == 1.0 }

  predicate IsZeroVec(v: Vec) {
    forall a :: 0 <= a < AXES ==> AbsR(v[a]) < LENGTH_EPSILON_MM
  }

  /** An axis that takes part in a move along `u` (planner.rs:1133, 1535). */
  predicate Participates(u: Vec, a: nat)
    requires a < AXES
  {
    AbsR(u[a]) > LENGTH_EPSILON_MM
  }

  /** The least of `limits[a] / |u[a]|` over the first `n` axes that take part; `None` is the loop's initial infinity. */
  function AxisLimit(u: Vec, limits: Vec, n: nat): Option<real>
    requires n <= AXES
  {
    if n == 0 then None
    else
      var rest := AxisLimit(u, limits, n - 1);
      if !Participates(u, n - 1) then rest
      else
        var here := limits[n - 1] / AbsR(u[n - 1]);
        Some(if rest.None? then here else MinR(rest.value, here))
  }

  lemma DivisionBound(x: real, c: real, l: real)
    requires c > 0.0
    ensures x <= l / c <==> x * c <= l
  {
    var d := l / c;
    assert d * c == l;
    if x <= d {
      MulMono(x, d, c);
    } else {
      assert (x - d) * c > 0.0;
    }
  }

  /** At speed (or acceleration) `x` along `u`, none of the first `n` axes that take part exceeds its own limit. */
  predicate KeepsAxes(u: Vec, limits: Vec, x: real, n: nat)
    requires n <= AXES
  {
    forall a: nat :: a < n && Participates(u, a) ==> x * AbsR(u[a]) <= limits[a]
  }

  lemma {:induction false} AxisLimitBound(u: Vec, limits: Vec, n: nat, x: real)
    requires n <= AXES
    ensures AxisLimit(u, limits, n).None? <==> forall a: nat :: a < n ==> !Participates(u, a)
    ensures AxisLimit(u, limits, n).Some? ==> (x <= AxisLimit(u, limits, n).value <==> KeepsAxes(u, limits, x, n))
  {
    if n > 0 {
      AxisLimitBound(u, limits, n - 1, x);
      if Participates(u, n - 1) {
        DivisionBound(x, AbsR(u[n - 1]), limits[n - 1]);
      }
      assert KeepsAxes(u, limits, x, n) <==>
          KeepsAxes(u, limits, x, n - 1) && (Participates(u, n - 1) ==> x * AbsR(u[n - 1]) <= limits[n - 1]);
    }
  }

  lemma TinyComponents(a: real, b: real, c: real, d: real)
    requires AbsR(a) <= LENGTH_EPSILON_MM && AbsR(b) <= LENGTH_EPSILON_MM
    requires AbsR(c) <= LENGTH_EPSILON_MM && AbsR(d) <= LENGTH_EPSILON_MM
    ensures a * a + b * b + c * c + d * d < 1.0
  {
    SquareMono(AbsR(a), LENGTH_EPSILON_MM);
    SquareMono(AbsR(b), LENGTH_EPSILON_MM);
    SquareMono(AbsR(c), LENGTH_EPSILON_MM);
    SquareMono(AbsR(d), LENGTH_EPSILON_MM);
  }

  lemma IdleVecIsShort(u: Vec)
    requires forall a: nat :: a < AXES ==> !Participates(u, a)
    ensures Dot(u, u) < 1.0
  {
    assert !Participates(u, 0) && !Participates(u, 1) && !Participates(u, 2) && !Participates(u, 3);
    TinyComponents(u[0], u[1], u[2], u[3]);
  }

  lemma UnitVecParticipates(u: Vec)
    requires IsUnit(u)
    ensures exists a: nat :: a < AXES && Participates(u, a)
  {
    if forall a: nat :: a < AXES ==> !Participates(u, a) {
      IdleVecIsShort(u);
    }
  }

  /** Along a unit vector the limit is finite and positive, and it is the greatest value that keeps every
      participating axis within its own limit. */
  lemma AxisLimitIsGreatest(u: Vec, limits: Vec)
    requires IsUnit(u)
    requires forall a :: 0 <= a < AXES ==> limits[a] > 0.0
    ensures AxisLimit(u, limits, AXES).Some? && AxisLimit(u, limits, AXES).value > 0.0
    ensures forall x: real :: x <= AxisLimit(u, limits, AXES).value <==> KeepsAxes(u, limits, x, AXES)
  {
    UnitVecParticipates(u);
    AxisLimitBound(u, limits, AXES, 0.0);
    AxisLimitPositive(u, limits, AXES);
    forall x: real
      ensures x <= AxisLimit(u, limits, AXES).value <==> KeepsAxes(u, limits, x, AXES)
    {
      AxisLimitBound(u, limits, AXES, x);
    }
  }

  lemma {:induction false} AxisLimitPositive(u: Vec, limits: Vec, n: nat)
    requires n <= AXES && forall a :: 0 <= a < AXES ==> limits[a] > 0.0
    ensures AxisLimit(u, limits, n).Some? ==> AxisLimit(u, limits, n).value > 0.0
  {
    if n > 0 {
      AxisLimitPositive(u, limits, n - 1);
    }
  }

  function Acceleration(cfg: PlannerConfig, u: Vec): real
    requires cfg.Valid() && IsUnit(u)
  {
    AxisLimitIsGreatest(u, cfg.accelMmS2);
    AxisLimit(u, cfg.accelMmS2, AXES).value
  }

  function RatesMmS(cfg: PlannerConfig): (v: Vec)
    requires cfg.Valid()
    ensures forall a :: 0 <= a < AXES ==> v[a] > 0.0
  {
    var r := cfg.maxRateMmMin;
    [r[0] / 60.0, r[1] / 60.0, r[2] / 60.0, r[3] / 60.0]
  }

  function AxisRateLimit(cfg: PlannerConfig, u: Vec): (r: real)
    requires cfg.Valid() && IsUnit(u)
    ensures r > 0.0
  {
    AxisLimitIsGreatest(u, RatesMmS(cfg));
    AxisLimit(u, RatesMmS(cfg), AXES).value
  }

  /** Sum of squares over the linear (`rotary == false`) or the rotary axes. */
  function PartSq(cfg: PlannerConfig, d: Vec, rotary: bool): (r: real)
    requires |cfg.rotary| == AXES
    ensures r >= 0.0
  {
    (if cfg.rotary[0] == rotary then d[0] * d[0] else 0.0) + (if cfg.rotary[1] == rotary then d[1] * d[1] else 0.0)
    + (if cfg.rotary[2] == rotary then d[2] * d[2] else 0.0) + (if cfg.rotary[3] == rotary then d[3] * d[3] else 0.0)
  }

  /** A units-per-minute move on both a linear and a rotary axis is run in inverse time so the feed governs the
      linear leg. */
  function ResolveFeed(cfg: PlannerConfig, rq: Request, d: Vec): (real, FeedMode)
    requires cfg.Valid()
  {
    if rq.feedMode != UnitsPerMin then (rq.feed, rq.feedMode)
    else
      var linear := cfg.math.sqrt(PartSq(cfg, d, false));
      var rotary := cfg.math.sqrt(PartSq(cfg, d, true));
      if linear > LENGTH_EPSILON_MM && rotary > LENGTH_EPSILON_MM
      then (rq.feed * UnitsScale(rq.units) / linear, InverseTime)
      else (rq.feed, rq.feedMode)
  }

  function NominalSpeed(cfg: PlannerConfig, feed: real, mode: FeedMode, rq: Request, mm: real, u: Vec): (v: real)
    requires cfg.Valid() && IsUnit(u)
    ensures 0.0 <= v <= AxisRateLimit(cfg, u)
  {
    var limit := AxisRateLimit(cfg, u);
    if rq.rapid then limit
    else
      var requested := if mode == UnitsPerMin then feed * UnitsScale(rq.units) / 60.0 else mm * feed / 60.0;
      MaxR(MinR(requested, limit), 0.0)
  }

  /** The squared speed at which the corner from `prev` into `u` may be taken. */
  function JunctionSpeedSq(cfg: PlannerConfig, t: Trail, u: Vec, accel: real): real
    requires cfg.Valid()
  {
    if IsZeroVec(t.prevUnitVec) then 0.0
    else
      var cosTheta := -Dot(t.prevUnitVec, u);
      if cosTheta >= 1.0 - JUNCTION_REVERSAL_EPSILON then 0.0
      else
        var sinHalf := cfg.math.sqrt(MaxR((1.0 - cosTheta) * 0.5, 0.0));
        // A straight continuation divides by zero in the source and leaves only the previous block's speed.
        if sinHalf == 1.0 then t.prevNominalSq
        else MinR(accel * (cfg.junctionDeviationMm * sinHalf / (1.0 - sinHalf)), t.prevNominalSq)
  }

  /** The move's length, or `None` for one the planner drops. */
  function TravelMm(cfg: PlannerConfig, steps: Steps): (mm: Option<real>)
    requires cfg.Valid()
    ensures mm.Some? ==> mm.value >= LENGTH_EPSILON_MM && DominantCount(steps) >= 1
  {
    var d := DeltaMm(steps, cfg.stepsPerMm);
    var mm := cfg.math.sqrt(Dot(d, d));
    if mm < LENGTH_EPSILON_MM || DominantCount(steps) == 0 then None else Some(mm)
  }

  lemma DotSelfNonNegative(d: Vec)
    ensures Dot(d, d) >= 0.0
  {
  }

  lemma DirectionIsUnit(d: Vec, mm: real)
    requires mm > 0.0 && mm * mm == Dot(d, d)
    ensures IsUnit(Scaled(d, 1.0 / mm))
  {
    var k := 1.0 / mm;
    assert mm * k == 1.0;
    var u := Scaled(d, k);
    assert u[0] * u[0] == d[0] * d[0] * (k * k);
    assert u[1] * u[1] == d[1] * d[1] * (k * k);
    assert u[2] * u[2] == d[2] * d[2] * (k * k);
    assert u[3] * u[3] == d[3] * d[3] * (k * k);
    assert Dot(u, u) == Dot(d, d) * (k * k);
    assert (mm * mm) * (k * k) == (mm * k) * (mm * k);
  }

  function Direction(cfg: PlannerConfig, steps: Steps): (u: Vec)
    requires cfg.Valid() && TravelMm(cfg, steps).Some?
    ensures IsUnit(u)
  {
    var d := DeltaMm(steps, cfg.stepsPerMm);
    DotSelfNonNegative(d);
    DirectionIsUnit(d, TravelMm(cfg, steps).value);
    Scaled(d, 1.0 / TravelMm(cfg, steps).value)
  }

  function CruiseSpeed(cfg: PlannerConfig, steps: Steps, rq: Request): (v: real)
    requires cfg.Valid() && TravelMm(cfg, steps).Some?
    ensures 0.0 <= v <= AxisRateLimit(cfg, Direction(cfg, steps))
  {
    var (feed, mode) := if rq.rapid then (rq.feed, rq.feedMode)
                        else ResolveFeed(cfg, rq, DeltaMm(steps, cfg.stepsPerMm));
    NominalSpeed(cfg, feed, mode, rq, TravelMm(cfg, steps).value, Direction(cfg, steps))
  }

  function CruiseSpeedSq(cfg: PlannerConfig, steps: Steps, rq: Request): real
    requires cfg.Valid() && TravelMm(cfg, steps).Some?
  {
    Square(CruiseSpeed(cfg, steps, rq))
  }

  /** `Planner::build_block`. */
  function BuildBlock(cfg: PlannerConfig, t: Trail, target: Steps, rq: Request): Option<Block>
    requires cfg.Valid()
  {
    var steps := StepDelta(t.position, target);
    if TravelMm(cfg, steps).None? then None
    else
      var mm := TravelMm(cfg, steps).value;
      var u := Direction(cfg, steps);
      var accel := Acceleration(cfg, u);
      var nominalSq := CruiseSpeedSq(cfg, steps, rq);
      var maxEntry := MinR(JunctionSpeedSq(cfg, t, u, accel), nominalSq);
      Some(Block(steps, DominantCount(steps), u, mm, accel, nominalSq, maxEntry, maxEntry, rq.rapid, rq.jog))
  }

  /** At squared speed `speedSq` along `u`, no axis that takes part exceeds its own rate. */
  predicate KeepsRates(u: Vec, rates: Vec, speedSq: real) {
    forall a: nat :: a < AXES && Participates(u, a) ==> speedSq * (u[a] * u[a]) <= rates[a] * rates[a]
  }

  ghost predicate WithinAxisLimits(cfg: PlannerConfig, b: Block)
    requires cfg.Valid()
  {
    KeepsAxes(b.unitVec, cfg.accelMmS2, b.acceleration, AXES) && KeepsRates(b.unitVec, RatesMmS(cfg), b.nominalSq)
  }

  ghost predicate GoodBlock(cfg: PlannerConfig, b: Block)
    requires cfg.Valid()
  {
    && b.stepEventCount == DominantCount(b.steps) >= 1
    && IsUnit(b.unitVec)
    && b.millimeters > 0.0 && b.acceleration > 0.0
    && 0.0 <= b.maxEntrySq <= b.nominalSq
    && WithinAxisLimits(cfg, b)
  }

  /** The trailing direction is absent or a real one; a remembered speed is not negative. */
  predicate GoodTrail(t: Trail) {
    && (IsZeroVec(t.prevUnitVec) || IsUnit(t.prevUnitVec))
    && t.prevNominalSq >= 0.0
  }

  lemma CauchySchwarz(u: Vec, v: Vec)
    requires IsUnit(u) && IsUnit(v)
    ensures Dot(u, v) <= 1.0
  {
    var d: Vec := [u[0] - v[0], u[1] - v[1], u[2] - v[2], u[3] - v[3]];
    DotSelfNonNegative(d);
    assert Dot(d, d) == Dot(u, u) + Dot(v, v) - 2.0 * Dot(u, v);
  }

  /** A corner is never taken faster than the previous block cruises, and never at a negative squared speed. */
  lemma JunctionBounds(cfg: PlannerConfig, t: Trail, u: Vec, accel: real)
    requires cfg.Valid() && GoodTrail(t) && IsUnit(u) && accel > 0.0
    ensures 0.0 <= JunctionSpeedSq(cfg, t, u, accel)
    ensures IsZeroVec(t.prevUnitVec) ==> JunctionSpeedSq(cfg, t, u, accel) == 0.0
    ensures JunctionSpeedSq(cfg, t, u, accel) <= t.prevNominalSq
  {
    if !IsZeroVec(t.prevUnitVec) {
      CauchySchwarz(t.prevUnitVec, u);
      var cosTheta := -Dot(t.prevUnitVec, u);
      var s := cfg.math.sqrt(MaxR((1.0 - cosTheta) * 0.5, 0.0));
      SquareMonoBack(s, 1.0);
      if s < 1.0 {
        CornerRadiusNonNegative(cfg.junctionDeviationMm, s, accel);
      }
    }
  }

  lemma CornerRadiusNonNegative(deviation: real, s: real, accel: real)
    requires deviation >= 0.0 && 0.0 <= s < 1.0 && accel > 0.0
    ensures accel * (deviation * s / (1.0 - s)) >= 0.0
  {
    var n := deviation * s;
    assert n >= 0.0;
    DivisionBound(0.0, 1.0 - s, n);
  }

  lemma RateBound(v: real, u: real, rate: real)
    requires 0.0 <= v && v * AbsR(u) <= rate
    ensures (v * v) * (u * u) <= rate * rate
  {
    var x := v * AbsR(u);
    assert x >= 0.0;
    SquareMono(x, rate);
    assert x * x == (v * v) * (u * u);
  }

  lemma RatesHold(u: Vec, rates: Vec, v: real)
    requires v >= 0.0 && KeepsAxes(u, rates, v, AXES)
    ensures KeepsRates(u, rates, Square(v)) && Square(v) >= 0.0
  {
    forall a: nat | a < AXES && Participates(u, a)
      ensures Square(v) * (u[a] * u[a]) <= rates[a] * rates[a]
    {
      RateBound(v, u[a], rates[a]);
    }
  }

  lemma CruiseKeepsRates(cfg: PlannerConfig, steps: Steps, rq: Request)
    requires cfg.Valid() && TravelMm(cfg, steps).Some?
    ensures CruiseSpeedSq(cfg, steps, rq) >= 0.0
    ensures KeepsRates(Direction(cfg, steps), RatesMmS(cfg), CruiseSpeedSq(cfg, steps, rq))
  {
    var u := Direction(cfg, steps);
    var v := CruiseSpeed(cfg, steps, rq);
    UnitVecParticipates(u);
    AxisLimitBound(u, RatesMmS(cfg), AXES, v);
    RatesHold(u, RatesMmS(cfg), v);
  }

  lemma AccelerationKeepsAxes(cfg: PlannerConfig, u: Vec)
    requires cfg.Valid() && IsUnit(u)
    ensures Acceleration(cfg, u) > 0.0 && KeepsAxes(u, cfg.accelMmS2, Acceleration(cfg, u), AXES)
  {
    AxisLimitPositive(u, cfg.accelMmS2, AXES);
    UnitVecParticipates(u);
    AxisLimitBound(u, cfg.accelMmS2, AXES, Acceleration(cfg, u));
  }

  /** Every block the planner builds respects every axis limit, and corners no faster than either neighbour cruises. */
  lemma BuiltBlockIsGood(cfg: PlannerConfig, t: Trail, target: Steps, rq: Request)
    requires cfg.Valid() && GoodTrail(t)
    requires BuildBlock(cfg, t, target, rq).Some?
    ensures var b := BuildBlock(cfg, t, target, rq).value;
            && GoodBlock(cfg, b)
            && b.steps == StepDelta(t.position, target)
            && b.entrySq == b.maxEntrySq <= t.prevNominalSq
            && (IsZeroVec(t.prevUnitVec) ==> b.maxEntrySq == 0.0)
  {
    var b := BuildBlock(cfg, t, target, rq).value;
    var u := Direction(cfg, b.steps);
    AccelerationKeepsAxes(cfg, u);
    JunctionBounds(cfg, t, u, Acceleration(cfg, u));
    CruiseKeepsRates(cfg, b.steps, rq);
  }
}

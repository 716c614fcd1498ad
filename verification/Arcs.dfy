/** Arc geometry: an arc is a fixed list of chord end points, numbered from 1 (planner.rs:388-509, 1274-1350). */
module Arcs {
  import opened Base
  import opened Products
  import opened Commands
  import opened Kinematics

  const PI := 3.1415927410125732421875
  const F32_EPSILON := 0.00000011920928955078125

  /** The two in-plane axes and the axis slaved as a helix. */
  datatype PlaneAxes = PlaneAxes(p0: nat, p1: nat, normal: nat)

  function AxesFor(plane: Plane): (p: PlaneAxes)
    ensures p.p0 < A_AXIS && p.p1 < A_AXIS && p.normal < A_AXIS
    ensures p.p0 != p.p1 && p.p0 != p.normal && p.p1 != p.normal
  {
    match plane
    case XY => PlaneAxes(X_AXIS, Y_AXIS, Z_AXIS)
    case ZX => PlaneAxes(Z_AXIS, X_AXIS, Y_AXIS)
    case YZ => PlaneAxes(Y_AXIS, Z_AXIS, X_AXIS)
  }

  function OffsetForAxis(axis: nat, i: Option<real>, j: Option<real>, k: Option<real>): Option<real> {
    if axis == X_AXIS then i else if axis == Y_AXIS then j else k
  }

  function GetOr(o: Option<real>, default: real): real {
    if o.Some? then o.value else default
  }

  /** An arc part-way through being fed to the queue. */
  datatype ArcInProgress = ArcInProgress(
    plane: Plane,
    center0: real,
    center1: real,
    radius: real,
    thetaStart: real,
    thetaStep: real,
    segments: nat,
    nextSeg: nat,
    normalStart: real,
    normalDelta: real,
    aStart: real,
    aDelta: real,
    segFeed: real,
    units: Units,
    feedMode: FeedMode)
  {
    predicate Valid() { 1 <= nextSeg <= segments }

    function Request(): Request { Kinematics.Request(segFeed, units, feedMode, false, false) }
  }

  /** The arc itself, whatever has been fed of it. */
  function Whole(arc: ArcInProgress): ArcInProgress { arc.(nextSeg := 1) }

  /** Where the chord numbered `seg` ends, in steps. */
  function ChordEnd(cfg: PlannerConfig, arc: ArcInProgress, seg: nat): Steps
    requires cfg.Valid() && arc.segments > 0
  {
    ChordOf(cfg, Whole(arc), seg)
  }

  function ChordOf(cfg: PlannerConfig, arc: ArcInProgress, seg: nat): Steps
    requires cfg.Valid() && arc.segments > 0
  {
    var theta := arc.thetaStart + Mul(arc.thetaStep, seg as real);
    var frac := seg as real / arc.segments as real;
    var p := AxesFor(arc.plane);
    var mm := ZERO_VEC[p.p0 := arc.center0 + Mul(arc.radius, cfg.math.cos(theta))]
                      [p.p1 := arc.center1 + Mul(arc.radius, cfg.math.sin(theta))]
                      [p.normal := arc.normalStart + Mul(arc.normalDelta, frac)]
                      [A_AXIS := arc.aStart + Mul(arc.aDelta, frac)];
    [MmToSteps(mm[0], cfg.stepsPerMm[0]), MmToSteps(mm[1], cfg.stepsPerMm[1]),
     MmToSteps(mm[2], cfg.stepsPerMm[2]), MmToSteps(mm[3], cfg.stepsPerMm[3])]
  }

  /** The length of a vector in the plane. */
  function Hypot(math: Libm, x: real, y: real): real { math.sqrt(Mul(x, x) + Mul(y, y)) }

  function Inner(x0: real, y0: real, x1: real, y1: real): real { Mul(x0, x1) + Mul(y0, y1) }

  function Cross(x0: real, y0: real, x1: real, y1: real): real { Mul(x0, y1) - Mul(y0, x1) }

  /** Signed angle from one radius vector to the other in the commanded direction; a closed arc is a full turn. */
  function SweepAngle(math: Libm, x0: real, y0: real, x1: real, y1: real, cw: bool): real {
    var angle := math.atan2(Cross(x0, y0, x1, y1), Inner(x0, y0, x1, y1));
    if cw then (if angle >= 0.0 then angle - 2.0 * PI else angle)
    else (if angle <= 0.0 then angle + 2.0 * PI else angle)
  }

  function SegmentCount(math: Libm, radius: real, sweep: real, tolerance: real): (n: nat)
    requires radius > 0.0
    ensures 1 <= n <= U32_MAX
  {
    var ratio := 1.0 - tolerance / radius;
    var maxAngle := if ratio <= -1.0 then PI else if ratio >= 1.0 then F32_EPSILON else math.acos(ratio);
    var count := -((-(AbsR(sweep) / MaxR(maxAngle, F32_EPSILON))).Floor);
    Clamp(count, 1, U32_MAX)
  }
}

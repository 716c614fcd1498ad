/** What an arc's chords trace, given a library whose trigonometry is that of a circle (planner.rs:1270-1440,
    1546-1589). */
module ArcGeometry {
  import opened Base
  import opened Products
  import opened Commands
  import opened Kinematics
  import opened Arcs
  import opened PlannerState
  import opened Helix
  import opened Feeds
  import Targets

  predicate AddsUp(m: Libm, a: real, b: real) {
    && m.cos(a + b) == Mul(m.cos(a), m.cos(b)) - Mul(m.sin(a), m.sin(b))
    && m.sin(a + b) == Mul(m.sin(a), m.cos(b)) + Mul(m.cos(a), m.sin(b))
  }

  predicate OnUnitCircle(m: Libm, a: real) { Mul(m.cos(a), m.cos(a)) + Mul(m.sin(a), m.sin(a)) == 1.0 }

  predicate IsAngleOf(m: Libm, x: real, y: real) {
    && -PI < m.atan2(y, x) <= PI
    && Mul(Hypot(m, x, y), m.cos(m.atan2(y, x))) == x
    && Mul(Hypot(m, x, y), m.sin(m.atan2(y, x))) == y
  }

  predicate Falls(m: Libm, a: real, b: real) { 0.0 <= a < b <= PI ==> m.cos(b) < m.cos(a) }

  predicate Inverts(m: Libm, x: real) { -1.0 <= x <= 1.0 ==> 0.0 <= m.acos(x) <= PI && m.cos(m.acos(x)) == x }

  /** Trigonometry on a circle whose half turn is the source's own pi. */
  ghost predicate Circular(m: Libm) {
    && m.Valid()
    && (forall a: real, b: real :: AddsUp(m, a, b))
    && (forall a: real :: OnUnitCircle(m, a))
    && (forall x: real, y: real :: x != 0.0 || y != 0.0 ==> IsAngleOf(m, x, y))
    && m.cos(2.0 * PI) == 1.0 && m.sin(2.0 * PI) == 0.0
    && (forall a: real, b: real :: Falls(m, a, b))
    && (forall x: real :: Inverts(m, x))
  }

  lemma FullTurn(m: Libm, a: real)
    requires Circular(m)
    ensures m.cos(a + 2.0 * PI) == m.cos(a) && m.sin(a + 2.0 * PI) == m.sin(a)
    ensures m.cos(a - 2.0 * PI) == m.cos(a) && m.sin(a - 2.0 * PI) == m.sin(a)
  {
    hide Mul;
    assert AddsUp(m, a, 2.0 * PI);
    assert AddsUp(m, a - 2.0 * PI, 2.0 * PI);
    assert a - 2.0 * PI + 2.0 * PI == a;
    MulByZero(m.cos(a));
    MulByZero(m.sin(a));
    MulByZero(m.cos(a - 2.0 * PI));
    MulByZero(m.sin(a - 2.0 * PI));
  }

  /** The sweep turns the way it is told, by at most a full turn, from one radius vector to the direction of the other. */
  lemma SweepTurns(m: Libm, x0: real, y0: real, x1: real, y1: real, cw: bool)
    requires Circular(m) && Hypot(m, x0, y0) > 0.0 && Hypot(m, x1, y1) > 0.0
    ensures var sweep := SweepAngle(m, x0, y0, x1, y1, cw);
            && (if cw then -2.0 * PI <= sweep < 0.0 else 0.0 < sweep <= 2.0 * PI)
            && Mul(Mul(Hypot(m, x0, y0), Hypot(m, x1, y1)), m.cos(sweep)) == Inner(x0, y0, x1, y1)
            && Mul(Mul(Hypot(m, x0, y0), Hypot(m, x1, y1)), m.sin(sweep)) == Cross(x0, y0, x1, y1)
  {
    var (cross, dot) := (Cross(x0, y0, x1, y1), Inner(x0, y0, x1, y1));
    RadiiMultiply(m, x0, y0, x1, y1);
    assert IsAngleOf(m, dot, cross);
    FullTurn(m, m.atan2(cross, dot));
    hide Circular, Hypot, Mul, Cross, Inner;
  }

  lemma RadiiMultiply(m: Libm, x0: real, y0: real, x1: real, y1: real)
    requires m.Valid() && Hypot(m, x0, y0) > 0.0 && Hypot(m, x1, y1) > 0.0
    ensures var (cross, dot) := (Cross(x0, y0, x1, y1), Inner(x0, y0, x1, y1));
            && Hypot(m, dot, cross) == Mul(Hypot(m, x0, y0), Hypot(m, x1, y1))
            && (cross != 0.0 || dot != 0.0)
  {
    hide Hypot, Mul, Cross, Inner;
    var (cross, dot) := (Cross(x0, y0, x1, y1), Inner(x0, y0, x1, y1));
    var (r0, r1, r) := (Hypot(m, x0, y0), Hypot(m, x1, y1), Hypot(m, dot, cross));
    HypotSquared(m, x0, y0);
    HypotSquared(m, x1, y1);
    HypotSquared(m, dot, cross);
    Lagrange(x0, y0, x1, y1);
    ProductOfSquares(r0, r1, r);
    if cross == 0.0 && dot == 0.0 {
      MulByZero(0.0);
      PositiveRoot(r, Mul(r, r));
    }
  }

  lemma HypotSquared(m: Libm, x: real, y: real)
    requires m.Valid()
    ensures Mul(Hypot(m, x, y), Hypot(m, x, y)) == Mul(x, x) + Mul(y, y) && Hypot(m, x, y) >= 0.0
  {
    SquareNonNegative(x);
    SquareNonNegative(y);
  }

  lemma PositiveRoot(h: real, sq: real)
    requires h >= 0.0 && Mul(h, h) == sq
    ensures h > 0.0 <==> sq > 0.0
  {
    hide Mul;
    MulByZero(h);
    if h > 0.0 {
      MulOrder(h, h, 0.0);
    }
  }

  lemma Lagrange(x0: real, y0: real, x1: real, y1: real)
    ensures var (cross, dot) := (Cross(x0, y0, x1, y1), Inner(x0, y0, x1, y1));
            Mul(dot, dot) + Mul(cross, cross) == Mul(Mul(x0, x0) + Mul(y0, y0), Mul(x1, x1) + Mul(y1, y1))
  {
    var (dot, cross) := (x0 * x1 + y0 * y1, x0 * y1 - y0 * x1);
    assert dot * dot + cross * cross == (x0 * x0 + y0 * y0) * (x1 * x1 + y1 * y1);
  }

  lemma ProductOfSquares(a: real, b: real, r: real)
    requires a > 0.0 && b > 0.0 && r >= 0.0 && Mul(r, r) == Mul(Mul(a, a), Mul(b, b))
    ensures r == Mul(a, b) && r > 0.0
  {
    var p := a * b;
    assert p > 0.0 && p * p == (a * a) * (b * b);
    SquareMonoBack(r, p);
    SquareMonoBack(p, r);
  }

  /** Turning one vector by the angle to another, and giving it the other's length, makes it the other. */
  lemma TurningGoesThere(x0: real, y0: real, x1: real, y1: real, r: real, q: real, ct: real, st: real, cs: real,
                         ss: real)
    requires r > 0.0 && Mul(r, ct) == x0 && Mul(r, st) == y0 && Mul(r, r) == Mul(x0, x0) + Mul(y0, y0)
    requires Mul(Mul(r, q), cs) == Inner(x0, y0, x1, y1) && Mul(Mul(r, q), ss) == Cross(x0, y0, x1, y1)
    ensures Mul(q, Mul(ct, cs) - Mul(st, ss)) == x1
    ensures Mul(q, Mul(st, cs) + Mul(ct, ss)) == y1
  {
    hide Mul, Inner, Cross;
    Twist(r, q, ct, st, cs, ss);
    Untwisted(x0, y0, x1, y1);
    PositiveRoot(r, Mul(r, r));
    Cancel(Mul(r, r), Mul(q, Mul(ct, cs) - Mul(st, ss)), x1);
    Cancel(Mul(r, r), Mul(q, Mul(st, cs) + Mul(ct, ss)), y1);
  }

  lemma Twist(r: real, q: real, ct: real, st: real, cs: real, ss: real)
    ensures Mul(Mul(r, r), Mul(q, Mul(ct, cs) - Mul(st, ss)))
            == Mul(Mul(r, ct), Mul(Mul(r, q), cs)) - Mul(Mul(r, st), Mul(Mul(r, q), ss))
    ensures Mul(Mul(r, r), Mul(q, Mul(st, cs) + Mul(ct, ss)))
            == Mul(Mul(r, st), Mul(Mul(r, q), cs)) + Mul(Mul(r, ct), Mul(Mul(r, q), ss))
  {
  }

  lemma Untwisted(x0: real, y0: real, x1: real, y1: real)
    ensures var (dot, cross, sq) := (Inner(x0, y0, x1, y1), Cross(x0, y0, x1, y1), Mul(x0, x0) + Mul(y0, y0));
            Mul(x0, dot) - Mul(y0, cross) == Mul(sq, x1) && Mul(y0, dot) + Mul(x0, cross) == Mul(sq, y1)
  {
  }

  lemma Cancel(k: real, a: real, b: real)
    requires k > 0.0 && Mul(k, a) == Mul(k, b)
    ensures a == b
  {
    hide Mul;
    MulOrder(k, a, b);
    MulOrder(k, b, a);
  }

  /** The axes of an arc's plane, first and second, and the one normal to it. */
  function PlaneOf(plane: Plane): (nat, nat, nat) {
    if plane == XY then (0, 1, 2) else if plane == ZX then (2, 0, 1) else (1, 2, 0)
  }

  /** From an arc's centre to where it starts: its offset words turned round. */
  function StartVector(cmd: PlannerCommand): (real, real)
    requires cmd.Arc?
  {
    var (words, (p0, p1, _)) := ([cmd.i, cmd.j, cmd.k], PlaneOf(cmd.plane));
    var unit := if cmd.units == Inch then 25.4 else 1.0;
    (if words[p0].Some? then -Mul(words[p0].value, unit) else 0.0,
     if words[p1].Some? then -Mul(words[p1].value, unit) else 0.0)
  }

  /** From an arc's centre to its commanded target. */
  function EndVector(st: State, cmd: PlannerCommand): (real, real)
    requires st.cfg.Valid() && cmd.Arc?
  {
    var ((p0, p1, _), (x0, y0)) := (PlaneOf(cmd.plane), StartVector(cmd));
    (ArcEndMm(st, cmd, p0) - (PositionMm(st, p0) - x0), ArcEndMm(st, cmd, p1) - (PositionMm(st, p1) - y0))
  }

  function OffsetOf(cmd: PlannerCommand, axis: nat): Option<real>
    requires cmd.Arc? && axis < 3
  {
    [cmd.i, cmd.j, cmd.k][axis]
  }

  /** An arc is refused as one exactly when no offset is given in its plane or its radius is under the length epsilon;
      otherwise it turns about the point its offsets name, from where the program is to its target's direction. */
  lemma ArcIsAboutItsCentre(st: State, cmd: PlannerCommand)
    requires st.cfg.Valid() && cmd.Arc?
    ensures var ((p0, p1, n), (x0, y0), (x1, y1)) := (PlaneOf(cmd.plane), StartVector(cmd), EndVector(st, cmd));
            var r := Hypot(st.cfg.math, x0, y0);
            && (PrepareArc(st, cmd).None? <==>
                (OffsetOf(cmd, p0).None? && OffsetOf(cmd, p1).None?) || r < LENGTH_EPSILON_MM)
            && (PrepareArc(st, cmd).Some? ==>
                  var arc := PrepareArc(st, cmd).value;
                  && arc.center0 == PositionMm(st, p0) - x0 && arc.center1 == PositionMm(st, p1) - y0
                  && arc.radius == r && arc.thetaStart == st.cfg.math.atan2(y0, x0)
                  && arc.thetaStep == SweepAngle(st.cfg.math, x0, y0, x1, y1, cmd.cw) / arc.segments as real
                  && arc.segments == SegmentCount(st.cfg.math, r, SweepAngle(st.cfg.math, x0, y0, x1, y1, cmd.cw),
                                                  st.cfg.arcToleranceMm)
                  && arc.plane == cmd.plane && arc.nextSeg == 1)
  {
    hide SweepAngle, SegmentCount, ArcEndMm, PositionMm, Mul, Hypot;
    MulByZero(UnitsScale(cmd.units));
    assert UnitsScale(cmd.units) == if cmd.units == Inch then 25.4 else 1.0;
  }

  /** Where the chord numbered `k` ends in the arc's plane, from its centre. */
  function Turned(m: Libm, arc: ArcInProgress, k: nat): (real, real) {
    var theta := arc.thetaStart + Mul(arc.thetaStep, k as real);
    (Mul(arc.radius, m.cos(theta)), Mul(arc.radius, m.sin(theta)))
  }

  /** A chord's end is, axis by axis, the whole step nearest to its point of the arc and of the two straight leads. */
  lemma ChordEndIsNearest(cfg: PlannerConfig, arc: ArcInProgress, k: nat)
    requires cfg.Valid() && arc.segments > 0
    ensures var ((p0, p1, n), (x, y), end) := (PlaneOf(arc.plane), Turned(cfg.math, arc, k), ChordEnd(cfg, arc, k));
            && end[p0] == MmToSteps(arc.center0 + x, cfg.stepsPerMm[p0])
            && end[p1] == MmToSteps(arc.center1 + y, cfg.stepsPerMm[p1])
            && end[n] == MmToSteps(arc.normalStart + Mul(arc.normalDelta, k as real / arc.segments as real),
                                   cfg.stepsPerMm[n])
            && end[3] == MmToSteps(arc.aStart + Mul(arc.aDelta, k as real / arc.segments as real), cfg.stepsPerMm[3])
  {
    hide MmToSteps, Mul;
  }

  /** Every chord ends on the circle. */
  lemma ChordsEndOnTheCircle(m: Libm, arc: ArcInProgress, k: nat)
    requires Circular(m)
    ensures var (x, y) := Turned(m, arc, k);
            Mul(x, x) + Mul(y, y) == Mul(arc.radius, arc.radius)
  {
    var theta := arc.thetaStart + Mul(arc.thetaStep, k as real);
    assert OnUnitCircle(m, theta);
    ScaledCircle(arc.radius, m.cos(theta), m.sin(theta));
    hide Circular, Mul;
  }

  lemma ScaledCircle(r: real, c: real, s: real)
    requires Mul(c, c) + Mul(s, s) == 1.0
    ensures Mul(Mul(r, c), Mul(r, c)) + Mul(Mul(r, s), Mul(r, s)) == Mul(r, r)
  {
    assert (r * c) * (r * c) + (r * s) * (r * s) == (r * r) * (c * c + s * s);
  }

  lemma WholeSweep(sweep: real, n: nat)
    requires n > 0
    ensures Mul(sweep / n as real, n as real) == sweep
  {
  }

  /** An arc begins where the program is, and its last chord ends in the direction of its target. */
  lemma ArcEndsTowardsItsTarget(st: State, cmd: PlannerCommand)
    requires st.cfg.Valid() && cmd.Arc? && Circular(st.cfg.math) && PrepareArc(st, cmd).Some?
    requires EndVector(st, cmd) != (0.0, 0.0)
    ensures var (m, arc, (x1, y1)) := (st.cfg.math, PrepareArc(st, cmd).value, EndVector(st, cmd));
            var (x, y) := Turned(m, arc, arc.segments);
            && Turned(m, arc, 0) == StartVector(cmd)
            && Mul(Hypot(m, x1, y1), x) == Mul(arc.radius, x1) && Mul(Hypot(m, x1, y1), y) == Mul(arc.radius, y1)
  {
    hide PrepareArc, EndVector, StartVector, SweepAngle, Mul, Hypot, Inner, Cross, Circular;
    var (m, arc, (x0, y0), (x1, y1)) := (st.cfg.math, PrepareArc(st, cmd).value, StartVector(cmd), EndVector(st, cmd));
    var sweep := SweepAngle(m, x0, y0, x1, y1, cmd.cw);
    ArcIsAboutItsCentre(st, cmd);
    CircularFacts(m, x0, y0, arc.thetaStart, sweep);
    CircularFacts(m, x1, y1, arc.thetaStart, sweep);
    assert arc.radius > 0.0;
    MulByZero(arc.thetaStep);
    WholeSweep(sweep, arc.segments);
    SweepTurns(m, x0, y0, x1, y1, cmd.cw);
    HypotSquared(m, x0, y0);
    TurningGoesThere(x0, y0, x1, y1, arc.radius, Hypot(m, x1, y1), m.cos(arc.thetaStart), m.sin(arc.thetaStart),
                     m.cos(sweep), m.sin(sweep));
    Swap(Hypot(m, x1, y1), arc.radius, m.cos(arc.thetaStart + sweep));
    Swap(Hypot(m, x1, y1), arc.radius, m.sin(arc.thetaStart + sweep));
  }

  lemma Swap(a: real, b: real, c: real)
    ensures Mul(a, Mul(b, c)) == Mul(b, Mul(a, c))
  {
  }

  lemma CircularFacts(m: Libm, x: real, y: real, a: real, b: real)
    requires Circular(m)
    ensures m.Valid() && AddsUp(m, a, b) && (Hypot(m, x, y) > 0.0 <==> x != 0.0 || y != 0.0)
    ensures x != 0.0 || y != 0.0 ==> IsAngleOf(m, x, y)
  {
    HypotPositive(m, x, y);
    hide Mul, Hypot, IsAngleOf;
  }

  lemma HypotPositive(m: Libm, x: real, y: real)
    requires m.Valid()
    ensures Hypot(m, x, y) > 0.0 <==> x != 0.0 || y != 0.0
  {
    hide Mul, Hypot;
    HypotSquared(m, x, y);
    PositiveRoot(Hypot(m, x, y), Mul(x, x) + Mul(y, y));
    SumOfSquares(x, y);
  }

  lemma SumOfSquares(x: real, y: real)
    ensures Mul(x, x) + Mul(y, y) > 0.0 <==> x != 0.0 || y != 0.0
  {
    hide Mul;
    MulByZero(x);
    MulByZero(y);
    SquareIsPositive(x);
    SquareIsPositive(y);
  }

  lemma SquareIsPositive(x: real)
    ensures x != 0.0 ==> Mul(x, x) > 0.0
  {
    if x > 0.0 {
      MulOrder(x, x, 0.0);
    } else if x < 0.0 {
      MulOrder(-x, -x, 0.0);
      assert Mul(-x, -x) == Mul(x, x);
    }
  }

  /** An arc whose target is on its circle, a full circle among them, ends exactly on its commanded target on all four
      axes. */
  lemma ArcEndsOnATargetOnItsCircle(st: State, cmd: PlannerCommand)
    requires st.cfg.Valid() && cmd.Arc? && Circular(st.cfg.math) && PrepareArc(st, cmd).Some? && InI32(st.position)
    requires Hypot(st.cfg.math, EndVector(st, cmd).0, EndVector(st, cmd).1)
             == Hypot(st.cfg.math, StartVector(cmd).0, StartVector(cmd).1)
    ensures var arc := PrepareArc(st, cmd).value;
            ChordEnd(st.cfg, arc, arc.segments) == CommandTarget(st, cmd)
  {
    hide PrepareArc, EndVector, StartVector, SweepAngle, Mul, Hypot, Circular, ChordEnd, CommandTarget, MmToSteps, ArcEndMm;
    var (m, arc) := (st.cfg.math, PrepareArc(st, cmd).value);
    var ((x1, y1), (x, y)) := (EndVector(st, cmd), Turned(m, arc, arc.segments));
    var (p0, p1, n) := PlaneOf(cmd.plane);
    ArcIsAboutItsCentre(st, cmd);
    CircularFacts(m, x1, y1, 0.0, 0.0);
    ArcEndsTowardsItsTarget(st, cmd);
    Cancel(arc.radius, x, x1);
    Cancel(arc.radius, y, y1);
    ChordEndIsNearest(st.cfg, arc, arc.segments);
    EndVectorEnds(st, cmd);
    EndIsTarget(st, cmd, p0);
    EndIsTarget(st, cmd, p1);
    HelixEndsOnTarget(st, cmd);
  }

  lemma EndVectorEnds(st: State, cmd: PlannerCommand)
    requires st.cfg.Valid() && cmd.Arc?
    ensures var ((p0, p1, n), (x0, y0), (x1, y1)) := (PlaneOf(cmd.plane), StartVector(cmd), EndVector(st, cmd));
            && PositionMm(st, p0) - x0 + x1 == ArcEndMm(st, cmd, p0)
            && PositionMm(st, p1) - y0 + y1 == ArcEndMm(st, cmd, p1)
            && n == AxesFor(cmd.plane).normal
  {
    hide ArcEndMm, PositionMm, StartVector;
  }

  /** How far from its centre a chord's middle may be, as a share of the radius. */
  function Ratio(radius: real, tolerance: real): real
    requires radius > 0.0
  {
    1.0 - tolerance / radius
  }

  /** The angle the chords of an arc are cut to. */
  function CutAngle(m: Libm, radius: real, tolerance: real): real
    requires radius > 0.0
  {
    var ratio := Ratio(radius, tolerance);
    MaxR(if ratio <= -1.0 then PI else if ratio >= 1.0 then F32_EPSILON else m.acos(ratio), F32_EPSILON)
  }

  /** The chords are the fewest that turn by no more than the cut angle each: no sweep saturates their count. */
  lemma ChordsAreFewest(m: Libm, radius: real, sweep: real, tolerance: real)
    requires radius > 0.0 && AbsR(sweep) <= 2.0 * PI
    ensures var (n, cut) := (SegmentCount(m, radius, sweep, tolerance), CutAngle(m, radius, tolerance));
            && n < U32_MAX && AbsR(sweep) <= Mul(n as real, cut)
            && (n > 1 ==> Mul((n - 1) as real, cut) < AbsR(sweep))
  {
    var cut := CutAngle(m, radius, tolerance);
    var x := AbsR(sweep) / cut;
    assert SegmentCount(m, radius, sweep, tolerance) == Clamp(-((-x).Floor), 1, U32_MAX);
    var n := SegmentCount(m, radius, sweep, tolerance);
    assert x * cut == AbsR(sweep);
    AtMostSixtyMillion(x, AbsR(sweep), cut);
    CeilingOf(x, AbsR(sweep), cut, n);
    hide SegmentCount, CutAngle, Clamp;
  }

  lemma AtMostSixtyMillion(x: real, sweep: real, cut: real)
    requires cut >= F32_EPSILON && Mul(x, cut) == sweep <= 2.0 * PI
    ensures x <= 60_000_000.0
  {
    hide Mul;
    var most := 60_000_000.0;
    MulGrows(most, F32_EPSILON, cut);
    MulOrder(cut, x, most);
    MulCommutes(cut, x);
    MulCommutes(cut, most);
    FinestTimesMost();
  }

  lemma FinestTimesMost()
    ensures Mul(60_000_000.0, F32_EPSILON) > 2.0 * PI
  {
  }

  lemma CeilingOf(x: real, sweep: real, cut: real, n: nat)
    requires cut > 0.0 && Mul(x, cut) == sweep && x <= 60_000_000.0 && n == Clamp(-((-x).Floor), 1, U32_MAX)
    ensures n < U32_MAX && sweep <= Mul(n as real, cut)
    ensures n > 1 ==> Mul((n - 1) as real, cut) < sweep
  {
    hide Mul;
    var (up, down) := (n as real, (n - 1) as real);
    assert n < U32_MAX && x <= up;
    assert n > 1 ==> down < x;
    MulOrder(cut, x, up);
    MulOrder(cut, x, down);
    MulCommutes(cut, x);
    MulCommutes(cut, up);
    MulCommutes(cut, down);
  }

  /** How far the middle of a chord of a sweep is from its arc. */
  function Deviation(m: Libm, radius: real, sweep: real, tolerance: real): real
    requires radius > 0.0
  {
    radius - Mul(radius, m.cos(AbsR(sweep / SegmentCount(m, radius, sweep, tolerance) as real) / 2.0))
  }

  /** No chord of any sweep strays from its arc by more than the tolerance if and only if the tolerance is at least the
      diameter, or no finer than half the finest cut allows. */
  lemma ChordsKeepTheToleranceIff(m: Libm, radius: real, tolerance: real)
    requires Circular(m) && radius > 0.0 && tolerance > 0.0
    ensures (forall sweep: real :: AbsR(sweep) <= 2.0 * PI ==> Deviation(m, radius, sweep, tolerance) <= tolerance)
            <==> tolerance >= 2.0 * radius || m.acos(Ratio(radius, tolerance)) >= F32_EPSILON / 2.0
  {
    hide Deviation, Circular, Ratio;
    if tolerance >= 2.0 * radius || m.acos(Ratio(radius, tolerance)) >= F32_EPSILON / 2.0 {
      forall sweep: real | AbsR(sweep) <= 2.0 * PI
        ensures Deviation(m, radius, sweep, tolerance) <= tolerance
      {
        StraysLittle(m, radius, sweep, tolerance);
      }
    } else {
      FinestStrays(m, radius, tolerance);
      assert Deviation(m, radius, F32_EPSILON, tolerance) > tolerance;
    }
  }

  lemma StraysLittle(m: Libm, radius: real, sweep: real, tolerance: real)
    requires Circular(m) && radius > 0.0 && tolerance > 0.0 && AbsR(sweep) <= 2.0 * PI
    requires tolerance >= 2.0 * radius || m.acos(Ratio(radius, tolerance)) >= F32_EPSILON / 2.0
    ensures Deviation(m, radius, sweep, tolerance) <= tolerance
  {
    hide SegmentCount, Mul, Circular, AddsUp, OnUnitCircle, IsAngleOf, Ratio, CutAngle;
    ChordsAreFewest(m, radius, sweep, tolerance);
    var (ratio, cut) := (Ratio(radius, tolerance), CutAngle(m, radius, tolerance));
    var n := SegmentCount(m, radius, sweep, tolerance);
    var turn := sweep / n as real;
    var half := AbsR(turn) / 2.0;
    RatioOf(tolerance, radius);
    EachTurns(sweep, n, cut, turn);
    CutIsAnAngle(m, radius, tolerance);
    CosineFacts(m, half, ratio);
    if ratio <= -1.0 {
      MulGrows(radius, -1.0, m.cos(half));
      MulNegates(radius);
    } else {
      MulGrows(radius, ratio, m.cos(half));
      ShareOfRadius(radius, tolerance);
    }
  }

  /** The finest sweep is one chord, whatever the tolerance. */
  lemma FinestStrays(m: Libm, radius: real, tolerance: real)
    requires Circular(m) && radius > 0.0 && tolerance > 0.0
    requires tolerance < 2.0 * radius && m.acos(Ratio(radius, tolerance)) < F32_EPSILON / 2.0
    ensures Deviation(m, radius, F32_EPSILON, tolerance) > tolerance
  {
    hide SegmentCount, Mul, Circular, AddsUp, OnUnitCircle, IsAngleOf, Ratio;
    var ratio := Ratio(radius, tolerance);
    OneChord(m, radius, tolerance);
    RatioOf(tolerance, radius);
    CosineFalls(m, ratio, F32_EPSILON / 2.0);
    assert F32_EPSILON / 1 as real == F32_EPSILON;
    MulOrder(radius, ratio, m.cos(F32_EPSILON / 2.0));
    ShareOfRadius(radius, tolerance);
  }

  lemma OneChord(m: Libm, radius: real, tolerance: real)
    requires radius > 0.0
    ensures SegmentCount(m, radius, F32_EPSILON, tolerance) == 1
  {
    hide SegmentCount, CutAngle;
    var n := SegmentCount(m, radius, F32_EPSILON, tolerance);
    CutIsPositive(m, radius, tolerance);
    ChordsAreFewest(m, radius, F32_EPSILON, tolerance);
    if n > 1 {
      MulGrows(CutAngle(m, radius, tolerance), 1.0, (n - 1) as real);
      MulByZero(CutAngle(m, radius, tolerance));
      MulCommutes(CutAngle(m, radius, tolerance), (n - 1) as real);
    }
  }

  lemma CutIsPositive(m: Libm, radius: real, tolerance: real)
    requires radius > 0.0
    ensures CutAngle(m, radius, tolerance) >= F32_EPSILON
  {
  }

  lemma CosineFalls(m: Libm, ratio: real, a: real)
    requires Circular(m) && -1.0 <= ratio <= 1.0 && m.acos(ratio) < a <= PI
    ensures m.cos(a) < ratio
  {
    assert Inverts(m, ratio) && Falls(m, m.acos(ratio), a);
    hide Circular, AddsUp, IsAngleOf, Mul;
  }

  lemma CutIsAnAngle(m: Libm, radius: real, tolerance: real)
    requires Circular(m) && radius > 0.0 && tolerance > 0.0
    ensures F32_EPSILON <= CutAngle(m, radius, tolerance) <= PI
    ensures -1.0 < Ratio(radius, tolerance) && m.acos(Ratio(radius, tolerance)) >= F32_EPSILON / 2.0 ==>
              CutAngle(m, radius, tolerance) / 2.0 <= m.acos(Ratio(radius, tolerance))
  {
    hide Ratio, AddsUp, OnUnitCircle, IsAngleOf;
    RatioOf(tolerance, radius);
    assert Inverts(m, Ratio(radius, tolerance));
  }

  lemma RatioOf(tolerance: real, radius: real)
    requires radius > 0.0 && tolerance > 0.0
    ensures var ratio := Ratio(radius, tolerance);
            ratio < 1.0 && (ratio <= -1.0 <==> tolerance >= radius * 2.0)
  {
    var q := tolerance / radius;
    assert q * radius == tolerance;
    if q >= 2.0 {
      MulMono(2.0, q, radius);
    } else {
      assert (2.0 - q) * radius > 0.0;
    }
    if q <= 0.0 {
      MulMono(q, 0.0, radius);
    }
  }

  lemma EachTurns(sweep: real, n: nat, cut: real, turn: real)
    requires n > 0 && turn == sweep / n as real && AbsR(sweep) <= Mul(n as real, cut)
    ensures 0.0 <= AbsR(turn) <= cut
  {
    var k := n as real;
    assert turn * k == sweep;
    assert Mul(k, AbsR(turn)) == AbsR(sweep);
    MulOrder(k, AbsR(turn), cut);
    hide Mul;
  }

  lemma CosineFacts(m: Libm, half: real, ratio: real)
    requires Circular(m) && 0.0 <= half
    ensures -1.0 <= m.cos(half)
    ensures -1.0 <= ratio <= 1.0 && half <= m.acos(ratio) ==> ratio <= m.cos(half)
  {
    assert Inverts(m, ratio) && Falls(m, half, m.acos(ratio)) && OnUnitCircle(m, half);
    AtLeastMinusOne(m.cos(half), m.sin(half));
    hide Circular, AddsUp, IsAngleOf, Mul;
  }

  lemma AtLeastMinusOne(c: real, s: real)
    requires Mul(c, c) + Mul(s, s) == 1.0
    ensures -1.0 <= c
  {
    SquareNonNegative(s);
    if c < 0.0 {
      assert (-c) * (-c) == c * c;
      SquareMonoBack(-c, 1.0);
    }
  }

  lemma MulNegates(r: real)
    ensures Mul(r, -1.0) == -r
  {
  }

  lemma ShareOfRadius(radius: real, tolerance: real)
    requires radius > 0.0
    ensures Mul(radius, Ratio(radius, tolerance)) == radius - tolerance
  {
    var q := tolerance / radius;
    assert radius * q == tolerance;
  }

  /** The chords carry the arc's feed; in inverse time each is given its share of the arc's duration, and all of them
      together the whole of it. */
  lemma ChordsShareTheDuration(st: State, cmd: PlannerCommand)
    requires st.cfg.Valid() && cmd.Arc? && PrepareArc(st, cmd).Some?
    ensures var (arc, rq) := (PrepareArc(st, cmd).value, PrepareArc(st, cmd).value.Request());
            && rq.units == cmd.units && rq.feedMode == cmd.feedMode && !rq.rapid && !rq.jog
            && (cmd.feedMode == UnitsPerMin ==> rq.feed == cmd.feed)
            && (cmd.feedMode == InverseTime && cmd.feed > 0.0 ==>
                  rq.feed > 0.0 && Mul(arc.segments as real, 60.0 / rq.feed) == 60.0 / cmd.feed)
  {
    if cmd.feedMode == InverseTime && cmd.feed > 0.0 {
      SharedOut(cmd.feed, PrepareArc(st, cmd).value.segments);
    }
    hide SweepAngle, SegmentCount, ArcEndMm, PositionMm, Mul, Hypot;
  }

  lemma SharedOut(feed: real, n: nat)
    requires feed > 0.0 && n > 0
    ensures Mul(feed, n as real) > 0.0 && Mul(n as real, 60.0 / Mul(feed, n as real)) == 60.0 / feed
  {
    var k := n as real;
    var f := feed * k;
    assert f > 0.0;
    var q := 60.0 / f;
    assert q * f == 60.0;
    assert (k * q) * feed == 60.0;
  }
}

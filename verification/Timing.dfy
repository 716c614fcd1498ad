/** When each tick of a block is due: the speed at the middle of its own step sets its period (motion.rs:115-180,
    224, 280-285, 725-730). */
module Timing {
  import opened Base
  import opened Products
  import opened Blocks
  import opened Kinematics
  import opened PlannerState
  import opened PlannerRuns
  import opened Trapezoid
  import opened Dda
  import opened Motion
  import opened Periods
  import Schedules
  import Execution

  /** How far along a block of `n` ticks the middle of tick `t` is. */
  function Midpoint(length: real, t: nat, n: nat): real
    requires n > 0
  {
    Mul(length, (2 * t + 1) as real / (2 * n) as real)
  }

  lemma MidpointIsTravel(p: Profile, t: nat, n: nat)
    requires n > 0
    ensures TravelAt(p, t, n) == Midpoint(p.length, t, n)
  {
    hide TravelAt, Mul;
    Schedules.TravelIsShare(p, t, n);
    HalfSteps(t as real, n as real);
    assert Schedules.Share(t, n) == (2 * t + 1) as real / (2 * n) as real;
  }

  lemma HalfSteps(t: real, n: real)
    requires n > 0.0
    ensures (t + 0.5) / n == (2.0 * t + 1.0) / (2.0 * n)
  {
    var q := (t + 0.5) / n;
    assert q * n == t + 0.5;
    assert q * (2.0 * n) == 2.0 * t + 1.0;
  }

  lemma MidpointIsInside(length: real, t: nat, n: nat)
    requires length > 0.0 && t < n
    ensures 0.0 < Midpoint(length, t, n) < length
  {
    hide Mul;
    var x := (2 * t + 1) as real / (2 * n) as real;
    Schedules.ProperFraction((2 * t + 1) as real, (2 * n) as real);
    MulOrder(length, x, 0.0);
    MulOrder(length, 1.0, x);
    MulByZero(length);
  }

  lemma MidpointsAdvance(length: real, t1: nat, t2: nat, n: nat)
    requires length > 0.0 && t1 <= t2 && n > 0
    ensures Midpoint(length, t1, n) <= Midpoint(length, t2, n)
  {
    hide Mul;
    var (x1, x2) := ((2 * t1 + 1) as real / (2 * n) as real, (2 * t2 + 1) as real / (2 * n) as real);
    FractionsGrow((2 * t1 + 1) as real, (2 * t2 + 1) as real, (2 * n) as real);
    MulOrder(length, x1, x2);
  }

  lemma FractionsGrow(x: real, y: real, n: real)
    requires n > 0.0 && x <= y
    ensures x / n <= y / n
  {
    DivisionBound(x / n, n, y);
    assert x / n * n == x;
  }

  /** The period a tick gets when the machine is at squared speed `vSq` in the middle of it. */
  function PeriodAt(cfg: MotionConfig, b: Block, vSq: real): nat
    requires cfg.Usable() && Steppable(b)
  {
    PeriodTicks(cfg, b.millimeters, DominantCount(b.steps), vSq)
  }

  /** Whatever the profile, a tick is timed where the middle of its own step is. */
  lemma TickIsTimedAtItsMidpoint(cfg: MotionConfig, b: Block, p: Profile, t: nat)
    requires cfg.Usable() && Steppable(b) && t < b.stepEventCount
    ensures Events(cfg, b, p)[t].periodTicks
            == PeriodAt(cfg, b, VelocitySqAt(p, Midpoint(p.length, t, b.stepEventCount)))
  {
    hide VelocitySqAt, TravelAt, MaskAt, PeriodTicks, Midpoint, DominantCount;
    MidpointIsTravel(p, t, b.stepEventCount);
  }

  /** On tick `t` an axis steps exactly when its share of the ticks so far passes a whole number. */
  lemma TickStepsEachAxis(cfg: MotionConfig, b: Block, p: Profile, t: nat, a: nat)
    requires cfg.Usable() && Steppable(b) && t < b.stepEventCount && a < AXES
    ensures var (n, dom) := (AbsI(b.steps[a]), b.stepEventCount);
            Events(cfg, b, p)[t].step[a] <==> (t + 1) * n / dom == t * n / dom + 1
  {
    EventsInOrder(cfg, b, p, t);
    DominantBounds(b.steps, a);
    BresenhamStep(AbsI(b.steps[a]), b.stepEventCount, t);
    hide TickPeriod, Events, DominantCount;
  }

  lemma DominantBounds(s: Steps, a: nat)
    requires a < AXES
    ensures AbsI(s[a]) <= DominantCount(s)
  {
  }

  /** A planned speed as an override and a ceiling leave it. */
  function Overridden(vSq: real, scale: real, ceilingSq: Option<real>): real {
    if ceilingSq.Some? then MinR(Mul(Mul(scale, scale), vSq), ceilingSq.value) else Mul(Mul(scale, scale), vSq)
  }

  lemma OverriddenIsScaled(vSq: real, scale: real, ceilingSq: Option<real>)
    requires vSq >= 0.0 && scale > 0.0 && (ceilingSq.Some? ==> ceilingSq.value >= 0.0)
    ensures ScaledSq(vSq, scale, ceilingSq) == Overridden(vSq, scale, ceilingSq)
  {
    Execution.ScaledIsNonNegative(vSq, scale);
    hide Mul;
  }

  /** The speed in the middle of tick `t` of a block that is to run between two squared speeds: the least of the ramp
      from its entry, its cruise speed and the ramp to its exit. */
  function SpeedInTick(b: Block, entry: real, nominal: real, exit: real, t: nat): real
    requires b.stepEventCount > 0
  {
    Envelope(2.0 * b.acceleration, b.millimeters, entry, nominal, exit, Midpoint(b.millimeters, t, b.stepEventCount))
  }

  /** What a block asks of the machine is possible: it speeds up and slows down at no more than its acceleration. */
  predicate Possible(b: Block, entry: real, nominal: real, exit: real) {
    && b.acceleration > 0.0 && b.millimeters > 0.0
    && Runnable(2.0 * b.acceleration, b.millimeters, entry, nominal, exit)
    && Reachable(2.0 * b.acceleration, b.millimeters, entry, exit)
  }

  /** Under every override and ceiling that leave a block possible, each of its ticks is timed by the least of its entry
      ramp, its cruise and its exit ramp at the middle of the tick. */
  lemma TickFollowsTheEnvelope(cfg: MotionConfig, b: Block, exitSq: real, scale: real, ceilingSq: Option<real>, t: nat)
    requires cfg.Usable() && Steppable(b) && t < b.stepEventCount && scale > 0.0
    requires ceilingSq.Some? ==> ceilingSq.value >= 0.0
    requires b.entrySq >= 0.0 && b.nominalSq >= 0.0 && exitSq >= 0.0
    requires Possible(b, Overridden(b.entrySq, scale, ceilingSq), Overridden(b.nominalSq, scale, ceilingSq),
                      Overridden(exitSq, scale, ceilingSq))
    ensures Events(cfg, b, BlockProfile(b, exitSq, scale, ceilingSq))[t].periodTicks
            == PeriodAt(cfg, b, SpeedInTick(b, Overridden(b.entrySq, scale, ceilingSq),
                                            Overridden(b.nominalSq, scale, ceilingSq),
                                            Overridden(exitSq, scale, ceilingSq), t))
  {
    hide Events, VelocitySqAt, Envelope, Overridden, ScaledSq, PeriodAt, Midpoint, DominantCount, Mul;
    var p := BlockProfile(b, exitSq, scale, ceilingSq);
    OverriddenIsScaled(b.entrySq, scale, ceilingSq);
    OverriddenIsScaled(b.nominalSq, scale, ceilingSq);
    OverriddenIsScaled(exitSq, scale, ceilingSq);
    TickIsTimedAtItsMidpoint(cfg, b, p, t);
    MidpointIsInside(b.millimeters, t, b.stepEventCount);
    ProfileIsEnvelope(2.0 * b.acceleration, b.millimeters, Overridden(b.entrySq, scale, ceilingSq),
                      Overridden(b.nominalSq, scale, ceilingSq), Overridden(exitSq, scale, ceilingSq),
                      Midpoint(b.millimeters, t, b.stepEventCount));
  }

  /** At 100 % every block a planner hands out is timed so, between its own entry and the exit read for it. */
  lemma PoppedTickFollowsTheEnvelope(cfg: MotionConfig, st: State, t: nat)
    requires cfg.Usable() && Inv(st) && st.queue != [] && t < st.queue[0].stepEventCount
    ensures var (b, exit) := (st.queue[0], ExitFor(PopBlock(st).0));
            && Steppable(b)
            && Events(cfg, b, BlockProfile(b, exit, 1.0, None))[t].periodTicks
               == PeriodAt(cfg, b, SpeedInTick(b, b.entrySq, b.nominalSq, exit, t))
  {
    hide Events, Envelope, PeriodAt, Midpoint, DominantCount, Mul, Inv, BlockProfile, PopBlock;
    var (b, exit) := (st.queue[0], ExitFor(PopBlock(st).0));
    Execution.PoppedBlockIsRunnable(st);
    assert Steppable(b);
    AtFull(b.entrySq);
    AtFull(b.nominalSq);
    AtFull(exit);
    TickFollowsTheEnvelope(cfg, b, exit, 1.0, None, t);
  }

  lemma AtFull(vSq: real)
    ensures Overridden(vSq, 1.0, None) == vSq
  {
    MulByZero(1.0);
    MulByZero(vSq);
  }

  /** The middle of a tick is on the ramp from the block's entry. */
  predicate OnEntryRamp(b: Block, entry: real, nominal: real, exit: real, t: nat)
    requires b.stepEventCount > 0
  {
    SpeedInTick(b, entry, nominal, exit, t)
    == entry + Mul(2.0 * b.acceleration, Midpoint(b.millimeters, t, b.stepEventCount))
  }

  /** The middle of a tick is on the ramp to the block's exit. */
  predicate OnExitRamp(b: Block, entry: real, nominal: real, exit: real, t: nat)
    requires b.stepEventCount > 0
  {
    SpeedInTick(b, entry, nominal, exit, t)
    == exit + Mul(2.0 * b.acceleration, b.millimeters - Midpoint(b.millimeters, t, b.stepEventCount))
  }

  /** Up to a tick on the entry ramp the periods never grow, and from a tick on the exit ramp on they never shrink. */
  lemma PeriodsFallThenRise(cfg: MotionConfig, b: Block, entry: real, nominal: real, exit: real, t1: nat, t2: nat)
    requires cfg.Usable() && cfg.math.Valid() && Steppable(b) && t1 <= t2 < b.stepEventCount
    requires Possible(b, entry, nominal, exit)
    ensures OnEntryRamp(b, entry, nominal, exit, t2) ==>
              PeriodAt(cfg, b, SpeedInTick(b, entry, nominal, exit, t2))
              <= PeriodAt(cfg, b, SpeedInTick(b, entry, nominal, exit, t1))
    ensures OnExitRamp(b, entry, nominal, exit, t1) ==>
              PeriodAt(cfg, b, SpeedInTick(b, entry, nominal, exit, t1))
              <= PeriodAt(cfg, b, SpeedInTick(b, entry, nominal, exit, t2))
  {
    hide Midpoint, DominantCount, Mul, PeriodTicks;
    var (k, l, n) := (2.0 * b.acceleration, b.millimeters, b.stepEventCount);
    var (d1, d2) := (Midpoint(l, t1, n), Midpoint(l, t2, n));
    MidpointsAdvance(l, t1, t2, n);
    MidpointIsInside(l, t1, n);
    MidpointIsInside(l, t2, n);
    MulOrder(k, d1, d2);
    MulOrder(k, l - d2, l - d1);
    MulOrder(k, d1, 0.0);
    MulOrder(k, l - d2, 0.0);
    MulByZero(k);
    var (v1, v2) := (SpeedInTick(b, entry, nominal, exit, t1), SpeedInTick(b, entry, nominal, exit, t2));
    assert nominal > 0.0 ==> v1 > 0.0 && v2 > 0.0;
    assert nominal == 0.0 ==> v1 == v2 == 0.0;
    NoSlower(cfg, b, v1, v2);
    NoSlower(cfg, b, v2, v1);
  }

  lemma NoSlower(cfg: MotionConfig, b: Block, slow: real, fast: real)
    requires cfg.Usable() && cfg.math.Valid() && Steppable(b) && b.millimeters > 0.0
    ensures 0.0 < slow <= fast || slow == fast ==> PeriodAt(cfg, b, fast) <= PeriodAt(cfg, b, slow)
  {
    if 0.0 < slow <= fast {
      FasterIsNeverLonger(cfg, b.millimeters, DominantCount(b.steps), slow, fast);
    }
    hide PeriodTicks, DominantCount;
  }

  /** Every emitted period leaves room for the pulse and the low time after it, and its low part fits the 15-bit field of
      the pulse hardware unless the low time alone exceeds it; and every period in that range is made by some speed. */
  lemma PeriodsFitTheHardware(cfg: MotionConfig, b: Block, p: Profile, t: nat, period: nat)
    requires cfg.Usable() && cfg.math.Valid() && Steppable(b) && t < b.stepEventCount && b.millimeters > 0.0
    ensures var ticks := Events(cfg, b, p)[t].periodTicks;
            && ticks >= cfg.stepPulseTicks + cfg.minLowTicks
            && (ticks - cfg.stepPulseTicks <= 32767 || ticks == cfg.stepPulseTicks + cfg.minLowTicks)
    ensures cfg.stepPulseTicks + cfg.minLowTicks <= period <= cfg.stepPulseTicks + 32767 ==>
              PeriodAt(cfg, b, SpeedFor(cfg, b.millimeters, DominantCount(b.steps), period)) == period
    ensures cfg.stepPulseTicks + cfg.minLowTicks <= 30000 ==>
              PeriodAt(cfg, b, 0.0) == if 30000 <= cfg.stepPulseTicks + 32767 then 30000 else cfg.stepPulseTicks + 32767
  {
    EventsInOrder(cfg, b, p, t);
    PeriodAtRest(cfg, b.millimeters, DominantCount(b.steps));
    if cfg.stepPulseTicks + cfg.minLowTicks <= period <= cfg.stepPulseTicks + 32767 {
      PeriodIsExact(cfg, b.millimeters, DominantCount(b.steps), period);
    }
    hide PeriodTicks, SpeedFor, DominantCount, MaskAt, VelocitySqAt, Events;
  }
}

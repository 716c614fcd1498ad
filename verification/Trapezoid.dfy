/** The speed a block is run at, as a function of the distance travelled (motion.rs:166-178, 580-750). Speeds are
    squared throughout. */
module Trapezoid {
  import opened Base
  import opened Products

  datatype Profile = Profile(
    entrySq: real,
    cruiseSq: real,
    exitSq: real,
    twoA: real,
    length: real,
    accelEnd: real,
    decelStart: real)

  /** Distance to change the squared speed from `from` to `to` at `twoA` per millimetre, none when already past it. */
  function RampLength(twoA: real, from: real, to: real): real {
    if twoA > 0.0 then MaxR(Quot(to - from, twoA), 0.0) else 0.0
  }

  /** Where the two ramps of a triangle cross. */
  function Crossover(twoA: real, length: real, entry: real, exit: real): real {
    if twoA > 0.0 then MinR(MaxR(0.5 * (Quot(exit - entry, twoA) + length), 0.0), length) else 0.0
  }

  /** `TrapezoidProfile::plan_scaled`, after its inputs have been floored at zero. */
  function PlanProfile(twoA: real, length: real, entry: real, nominal: real, exit: real): Profile {
    var accelDist := RampLength(twoA, entry, nominal);
    var decelDist := RampLength(twoA, exit, nominal);
    if accelDist + decelDist <= length then
      Profile(entry, nominal, exit, twoA, length, accelDist, length - decelDist)
    else
      var accelEnd := Crossover(twoA, length, entry, exit);
      Profile(entry, MaxR(entry + Mul(twoA, accelEnd), MaxR(entry, exit)), exit, twoA, length, accelEnd, accelEnd)
  }

  /** `TrapezoidProfile::velocity_sq_at`. */
  function VelocitySqAt(p: Profile, d: real): real {
    if d <= p.accelEnd then MaxR(MinR(p.entrySq + Mul(p.twoA, d), p.cruiseSq), 0.0)
    else if d <= p.decelStart then p.cruiseSq
    else MaxR(MinR(p.exitSq + Mul(p.twoA, MaxR(p.length - d, 0.0)), p.cruiseSq), MinR(p.exitSq, p.cruiseSq))
  }

  /** A block as the planner leaves it: it can accelerate, and neither end is faster than it cruises. */
  predicate Runnable(twoA: real, length: real, entry: real, nominal: real, exit: real) {
    twoA > 0.0 && length > 0.0 && 0.0 <= entry <= nominal && 0.0 <= exit <= nominal
  }

  /** Each end speed can be reached from the other over the block's length. */
  predicate Reachable(twoA: real, length: real, entry: real, exit: real) {
    entry <= exit + Mul(twoA, length) && exit <= entry + Mul(twoA, length)
  }

  /** The fastest speed at `d` that respects the entry, the exit, the cruise speed and the acceleration. */
  function Envelope(twoA: real, length: real, entry: real, nominal: real, exit: real, d: real): real {
    MinR(MinR(entry + Mul(twoA, d), nominal), exit + Mul(twoA, length - d))
  }

  /** Where the ramps end: on the cruise speed, in order, within the block. */
  lemma RampEnds(k: real, l: real, entry: real, nominal: real, exit: real)
    requires Runnable(k, l, entry, nominal, exit) && Reachable(k, l, entry, exit)
    ensures var p := PlanProfile(k, l, entry, nominal, exit);
            && 0.0 <= p.accelEnd <= p.decelStart <= p.length
            && entry <= p.cruiseSq <= nominal && exit <= p.cruiseSq
            && entry + Mul(k, p.accelEnd) == p.cruiseSq && exit + Mul(k, p.length - p.decelStart) == p.cruiseSq
            && (p.accelEnd < p.decelStart ==> p.cruiseSq == nominal)
  {
    hide Mul, Quot;
    var u, w, v := Quot(nominal - entry, k), Quot(nominal - exit, k), Quot(exit - entry, k);
    MulQuot(nominal - entry, k);
    MulQuot(nominal - exit, k);
    MulQuot(exit - entry, k);
    MulByZero(k);
    if u + w <= l {
      assert l - (l - w) == w;
    } else {
      var m := 0.5 * (v + l);
      MulOrder(k, l, u + w);
      MulSplits(k, u, w);
      MulHalves(k, v + l);
      MulSplits(k, v, l);
      MulSplits(k, l, m);
      MulOrder(k, 0.0, m);
      MulOrder(k, m, l);
      assert Crossover(k, l, entry, exit) == m;
    }
  }

  /** The realized profile is exactly the envelope: as fast as the limits allow, everywhere. */
  lemma ProfileIsEnvelope(k: real, l: real, entry: real, nominal: real, exit: real, d: real)
    requires Runnable(k, l, entry, nominal, exit) && Reachable(k, l, entry, exit) && 0.0 <= d <= l
    ensures VelocitySqAt(PlanProfile(k, l, entry, nominal, exit), d) == Envelope(k, l, entry, nominal, exit, d)
  {
    var p := PlanProfile(k, l, entry, nominal, exit);
    RampEnds(k, l, entry, nominal, exit);
    assert p.twoA == k && p.length == l && p.entrySq == entry && p.exitSq == exit;
    hide PlanProfile, Mul;
    MulOrder(k, d, p.accelEnd);
    MulOrder(k, l - d, l - p.decelStart);
    MulOrder(k, 0.0, d);
    MulOrder(k, 0.0, l - d);
    MulByZero(k);
    if p.accelEnd < d <= p.decelStart {
      assert p.cruiseSq == nominal || p.accelEnd == p.decelStart;
    }
  }

  lemma EnvelopeLipschitz(k: real, l: real, e: real, n: real, x: real, a: real, b: real)
    requires k > 0.0 && a <= b
    ensures Envelope(k, l, e, n, x, b) - Envelope(k, l, e, n, x, a) <= Mul(k, b - a)
    ensures Envelope(k, l, e, n, x, a) - Envelope(k, l, e, n, x, b) <= Mul(k, b - a)
  {
    hide Mul;
    MulSplits(k, b, a);
    MulSplits(k, l - a, l - b);
    assert (l - a) - (l - b) == b - a;
    MulOrder(k, 0.0, b - a);
    MulByZero(k);
  }

  /** Squared speed never changes faster than `2a` per millimetre. */
  ghost predicate Gentle(p: Profile) {
    forall a, b :: 0.0 <= a <= b <= p.length ==>
      && VelocitySqAt(p, b) - VelocitySqAt(p, a) <= Mul(p.twoA, b - a)
      && VelocitySqAt(p, a) - VelocitySqAt(p, b) <= Mul(p.twoA, b - a)
  }

  /** It starts at the entry speed and ends at the exit speed. */
  predicate Meets(p: Profile) {
    VelocitySqAt(p, 0.0) == p.entrySq && VelocitySqAt(p, p.length) == p.exitSq
  }

  /** A block is realized with its two end speeds and within its acceleration exactly when each end is reachable
      from the other over its length. */
  lemma RealizedIffReachable(k: real, l: real, entry: real, nominal: real, exit: real)
    requires Runnable(k, l, entry, nominal, exit)
    ensures var p := PlanProfile(k, l, entry, nominal, exit);
            Meets(p) && Gentle(p) <==> Reachable(k, l, entry, exit)
  {
    var p := PlanProfile(k, l, entry, nominal, exit);
    assert p.twoA == k && p.length == l && p.entrySq == entry && p.exitSq == exit;
    hide PlanProfile, VelocitySqAt, Mul;
    assert l - 0.0 == l && l - l == 0.0;
    MulByZero(k);
    if Gentle(p) {
      assert 0.0 <= 0.0 <= l <= p.length;
      assert && VelocitySqAt(p, l) - VelocitySqAt(p, 0.0) <= Mul(p.twoA, l - 0.0)
             && VelocitySqAt(p, 0.0) - VelocitySqAt(p, l) <= Mul(p.twoA, l - 0.0);
    }
    if Reachable(k, l, entry, exit) {
      ProfileIsEnvelope(k, l, entry, nominal, exit, 0.0);
      ProfileIsEnvelope(k, l, entry, nominal, exit, l);
      forall a, b | 0.0 <= a <= b <= p.length
        ensures VelocitySqAt(p, b) - VelocitySqAt(p, a) <= Mul(p.twoA, b - a)
        ensures VelocitySqAt(p, a) - VelocitySqAt(p, b) <= Mul(p.twoA, b - a)
      {
        ProfileIsEnvelope(k, l, entry, nominal, exit, a);
        ProfileIsEnvelope(k, l, entry, nominal, exit, b);
        EnvelopeLipschitz(k, l, entry, nominal, exit, a, b);
      }
    }
  }

  lemma PeakBound(k: real, l: real, entry: real, nominal: real, exit: real)
    requires entry >= 0.0 && nominal >= 0.0 && exit >= 0.0 && l >= 0.0
    ensures var p := PlanProfile(k, l, entry, nominal, exit);
            0.0 <= p.cruiseSq <= MaxR(nominal, MaxR(entry, exit))
  {
    hide Mul, Quot;
    var u, w := RampLength(k, entry, nominal), RampLength(k, exit, nominal);
    if u + w > l && k > 0.0 {
      var v := Quot(exit - entry, k);
      var m := 0.5 * (v + l);
      MulQuot(nominal - entry, k);
      MulQuot(nominal - exit, k);
      MulQuot(exit - entry, k);
      MulByZero(k);
      MulOrder(k, l, u + w);
      MulSplits(k, u, w);
      MulHalves(k, v + l);
      MulSplits(k, v, l);
      MulOrder(k, 0.0, m);
      MulOrder(k, m, l);
    }
  }

  /** Whatever it is asked for, a profile never runs faster than the fastest of its three target speeds. */
  lemma NeverFasterThanAsked(k: real, l: real, entry: real, nominal: real, exit: real, d: real)
    requires entry >= 0.0 && nominal >= 0.0 && exit >= 0.0 && l >= 0.0
    ensures 0.0 <= VelocitySqAt(PlanProfile(k, l, entry, nominal, exit), d) <= MaxR(nominal, MaxR(entry, exit))
  {
    var p := PlanProfile(k, l, entry, nominal, exit);
    PeakBound(k, l, entry, nominal, exit);
    assert p.exitSq == exit;
    hide PlanProfile, Mul;
  }

  /** `clamp_speed_sq`; no ceiling is an infinite one. */
  function ClampSpeedSq(v: real, ceiling: Option<real>): real {
    if ceiling.Some? then MinR(MaxR(v, 0.0), ceiling.value) else MaxR(v, 0.0)
  }

  /** The ceiling as `run_block_scaled` floors it. */
  function CeilingSq(maxSpeedSq: Option<real>): (c: Option<real>)
    ensures c.Some? ==> c.value >= 0.0
  {
    if maxSpeedSq.Some? then Some(MaxR(maxSpeedSq.value, 0.0)) else None
  }

  /** The square of the override; a degenerate override counts as 100 %. */
  function ScaleSq(scale: real): (s: real)
    ensures s > 0.0
  {
    if scale > 0.0 then (MulOrder(scale, scale, 0.0); MulByZero(scale); Mul(scale, scale)) else 1.0
  }

  function ScaledSq(v: real, scale: real, maxSpeedSq: Option<real>): real {
    ClampSpeedSq(Mul(ScaleSq(scale), v), CeilingSq(maxSpeedSq))
  }

  /** The profile `run_block_scaled` realizes under a live override and a rate ceiling. */
  function ScaledProfile(k: real, l: real, entry: real, nominal: real, exit: real, scale: real,
                         maxSpeedSq: Option<real>): Profile {
    PlanProfile(k, l, ScaledSq(entry, scale, maxSpeedSq), ScaledSq(nominal, scale, maxSpeedSq),
                ScaledSq(exit, scale, maxSpeedSq))
  }

  /** For every override, every sample of every block stays at or below the ceiling. */
  lemma CeilingHoldsAtEveryScale(k: real, l: real, entry: real, nominal: real, exit: real, scale: real,
                                 maxSpeedSq: real, d: real)
    requires maxSpeedSq >= 0.0 && l >= 0.0
    ensures 0.0 <= VelocitySqAt(ScaledProfile(k, l, entry, nominal, exit, scale, Some(maxSpeedSq)), d) <= maxSpeedSq
  {
    hide PlanProfile, VelocitySqAt, Mul;
    var c := Some(maxSpeedSq);
    NeverFasterThanAsked(k, l, ScaledSq(entry, scale, c), ScaledSq(nominal, scale, c), ScaledSq(exit, scale, c), d);
  }

  lemma ScaledStaysRunnable(k: real, l: real, entry: real, nominal: real, exit: real, scale: real,
                            maxSpeedSq: Option<real>)
    requires Runnable(k, l, entry, nominal, exit)
    ensures Runnable(k, l, ScaledSq(entry, scale, maxSpeedSq), ScaledSq(nominal, scale, maxSpeedSq),
                     ScaledSq(exit, scale, maxSpeedSq))
    ensures Mul(ScaleSq(scale), entry) >= 0.0 && Mul(ScaleSq(scale), exit) >= 0.0
  {
    hide Mul, ScaleSq;
    var q := ScaleSq(scale);
    MulByZero(q);
    MulOrder(q, 0.0, entry);
    MulOrder(q, entry, nominal);
    MulOrder(q, 0.0, exit);
    MulOrder(q, exit, nominal);
  }

  lemma ReachNonNegative(k: real, l: real)
    requires k > 0.0 && l > 0.0
    ensures Mul(k, l) > 0.0
  {
    MulOrder(k, l, 0.0);
    MulByZero(k);
  }

  /** Scaling by at most one does not widen the gap between the ends. */
  lemma ShrunkStaysReachable(k: real, l: real, entry: real, exit: real, q: real)
    requires k > 0.0 && l > 0.0 && Reachable(k, l, entry, exit) && 0.0 <= q <= 1.0
    ensures Reachable(k, l, Mul(q, entry), Mul(q, exit))
  {
    var r := Mul(k, l);
    ReachNonNegative(k, l);
    hide Mul;
    MulGrows(q, entry, exit + r);
    MulGrows(q, exit, entry + r);
    MulSplits(q, exit, r);
    MulSplits(q, entry, r);
    MulGrows(r, q, 1.0);
    MulCommutes(q, r);
    MulByZero(r);
  }

  lemma ScaleSqAtMostOne(scale: real)
    requires scale <= 1.0
    ensures ScaleSq(scale) <= 1.0
  {
    if scale > 0.0 {
      MulOrder(scale, scale, 1.0);
      MulByZero(scale);
    }
  }

  /** Slowing down is always safe: for an override of at most 100 %, with any ceiling, a feasible block is still
      realized with both end speeds and within its unscaled acceleration. */
  lemma OverrideDownStaysRealized(k: real, l: real, entry: real, nominal: real, exit: real, scale: real,
                                  maxSpeedSq: Option<real>)
    requires Runnable(k, l, entry, nominal, exit) && Reachable(k, l, entry, exit) && scale <= 1.0
    ensures var p := ScaledProfile(k, l, entry, nominal, exit, scale, maxSpeedSq);
            Meets(p) && Gentle(p)
  {
    var q := ScaleSq(scale);
    ScaleSqAtMostOne(scale);
    ShrunkStaysReachable(k, l, entry, exit, q);
    ReachNonNegative(k, l);
    ScaledStaysRunnable(k, l, entry, nominal, exit, scale, maxSpeedSq);
    var e, n, x := ScaledSq(entry, scale, maxSpeedSq), ScaledSq(nominal, scale, maxSpeedSq), ScaledSq(exit, scale, maxSpeedSq);
    hide Mul, PlanProfile, Meets, Gentle, ScaleSq;
    assert Reachable(k, l, e, x);
    RealizedIffReachable(k, l, e, n, x);
  }

  /** At any override and under any ceiling a block is realized exactly when the two end speeds that come out of
      both are still within reach of each other. */
  lemma OverrideRealizedIff(k: real, l: real, entry: real, nominal: real, exit: real, scale: real,
                            maxSpeedSq: Option<real>)
    requires Runnable(k, l, entry, nominal, exit)
    ensures var p := ScaledProfile(k, l, entry, nominal, exit, scale, maxSpeedSq);
            Meets(p) && Gentle(p) <==>
            AbsR(ScaledSq(entry, scale, maxSpeedSq) - ScaledSq(exit, scale, maxSpeedSq)) <= Mul(k, l)
  {
    ScaledStaysRunnable(k, l, entry, nominal, exit, scale, maxSpeedSq);
    hide Mul, PlanProfile, Meets, Gentle, ScaleSq;
    RealizedIffReachable(k, l, ScaledSq(entry, scale, maxSpeedSq), ScaledSq(nominal, scale, maxSpeedSq),
                         ScaledSq(exit, scale, maxSpeedSq));
  }

  /** Where neither end reaches the ceiling that is a bound on the square of the override. */
  lemma OverrideRealizedBelowTheCeiling(k: real, l: real, entry: real, nominal: real, exit: real, scale: real,
                                        maxSpeedSq: Option<real>)
    requires Runnable(k, l, entry, nominal, exit) && scale > 0.0
    requires maxSpeedSq.Some? ==> Mul(Mul(scale, scale), MaxR(entry, exit)) <= maxSpeedSq.value
    ensures var p := ScaledProfile(k, l, entry, nominal, exit, scale, maxSpeedSq);
            Meets(p) && Gentle(p) <==> Mul(Mul(scale, scale), AbsR(entry - exit)) <= Mul(k, l)
  {
    OverrideRealizedIff(k, l, entry, nominal, exit, scale, maxSpeedSq);
    ScaledStaysRunnable(k, l, entry, nominal, exit, scale, maxSpeedSq);
    var q := ScaleSq(scale);
    assert q == Mul(scale, scale);
    hide Mul, ScaledProfile, Meets, Gentle, ScaleSq;
    MulOrder(q, entry, exit);
    MulSplits(q, entry, exit);
    MulSplits(q, exit, entry);
    MulByZero(q);
  }

  /** A block that brakes over its whole length is broken by an override above 100 % exactly when the ceiling, if
      there is one, lies above its entry speed. */
  lemma OverrideUpBreaksABrakingBlock(k: real, l: real, scale: real, maxSpeedSq: Option<real>)
    requires k > 0.0 && l > 0.0 && scale > 1.0
    ensures var r := Mul(k, l);
            && Runnable(k, l, r, r, 0.0) && Reachable(k, l, r, 0.0)
            && (var p := ScaledProfile(k, l, r, r, 0.0, scale, maxSpeedSq);
                Meets(p) && Gentle(p) <==> maxSpeedSq.Some? && maxSpeedSq.value <= r)
  {
    var r := Mul(k, l);
    ReachNonNegative(k, l);
    OverrideRealizedIff(k, l, r, r, 0.0, scale, maxSpeedSq);
    var q := ScaleSq(scale);
    assert q == Mul(scale, scale);
    hide Mul, ScaledProfile, Meets, Gentle, ScaleSq;
    MulOrder(scale, scale, 1.0);
    MulByZero(scale);
    MulOrder(r, q, 1.0);
    MulCommutes(r, q);
    MulByZero(r);
    MulByZero(q);
  }
}

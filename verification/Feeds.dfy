/** What the feed and the corner speed of a block mean (planner.rs:1071-1178). */
module Feeds {
  import opened Base
  import opened Products
  import opened Commands
  import opened Kinematics

  /** The length of the linear, or of the rotary, leg of a move. */
  function LegMm(cfg: PlannerConfig, steps: Steps, rotary: bool): real
    requires cfg.Valid()
  {
    cfg.math.sqrt(PartSq(cfg, DeltaMm(steps, cfg.stepsPerMm), rotary))
  }

  lemma LegsAreTheMove(cfg: PlannerConfig, d: Vec)
    requires |cfg.rotary| == AXES
    ensures PartSq(cfg, d, false) + PartSq(cfg, d, true) == Dot(d, d)
  {
  }

  /** The rate a feed asks for, in millimetres a second. */
  function Asked(rq: Request): real { rq.feed * UnitsScale(rq.units) / 60.0 }

  /** Both legs are long enough to count: more than the length epsilon. */
  predicate Mixed(cfg: PlannerConfig, steps: Steps)
    requires cfg.Valid()
  {
    LegMm(cfg, steps, false) > LENGTH_EPSILON_MM && LegMm(cfg, steps, true) > LENGTH_EPSILON_MM
  }

  /** A units-per-minute feed governs the linear leg. No move takes less time than its linear leg takes at the feed,
      and one that no axis limit holds back takes exactly that time if and only if it has no rotary leg, two legs long
      enough to count, or no feed: a move with a leg too short to count is run at the feed along the whole path. */
  lemma FeedGovernsTheLinearLeg(cfg: PlannerConfig, steps: Steps, rq: Request)
    requires cfg.Valid() && TravelMm(cfg, steps).Some? && !rq.rapid && rq.feedMode == UnitsPerMin && rq.feed >= 0.0
    ensures var v, limit := CruiseSpeed(cfg, steps, rq), AxisRateLimit(cfg, Direction(cfg, steps));
            var mm, linear := TravelMm(cfg, steps).value, LegMm(cfg, steps, false);
            && Mul(v, linear) <= Mul(Asked(rq), mm)
            && (v < limit ==> (Mul(v, linear) == Mul(Asked(rq), mm) <==>
                               LegMm(cfg, steps, true) == 0.0 || Mixed(cfg, steps) || rq.feed == 0.0))
            && (v < limit && !Mixed(cfg, steps) ==> v == Asked(rq))
  {
    hide AxisRateLimit, Direction, CruiseSpeed, Mul, Asked, LegMm, TravelMm, Requested;
    var v, requested := CruiseSpeed(cfg, steps, rq), Requested(cfg, steps, rq);
    var mm, linear := TravelMm(cfg, steps).value, LegMm(cfg, steps, false);
    CruiseIsRequested(cfg, steps, rq);
    RequestedForTheLinearLeg(cfg, steps, rq);
    LegWithinTheMove(cfg, steps);
    if v < requested {
      MulGrows(linear, v, requested);
      MulCommutes(v, linear);
      MulCommutes(requested, linear);
    }
  }

  /** The speed a feed move asks for, once a move of both kinds of axes is put in inverse time. */
  function Requested(cfg: PlannerConfig, steps: Steps, rq: Request): real
    requires cfg.Valid() && TravelMm(cfg, steps).Some?
  {
    var (feed, mode) := ResolveFeed(cfg, rq, DeltaMm(steps, cfg.stepsPerMm));
    if mode == UnitsPerMin then feed * UnitsScale(rq.units) / 60.0 else TravelMm(cfg, steps).value * feed / 60.0
  }

  lemma CruiseIsRequested(cfg: PlannerConfig, steps: Steps, rq: Request)
    requires cfg.Valid() && TravelMm(cfg, steps).Some? && !rq.rapid
    ensures CruiseSpeed(cfg, steps, rq) ==
            MaxR(MinR(Requested(cfg, steps, rq), AxisRateLimit(cfg, Direction(cfg, steps))), 0.0)
  {
    hide AxisRateLimit, Direction, TravelMm, ResolveFeed;
  }

  lemma RequestedForTheLinearLeg(cfg: PlannerConfig, steps: Steps, rq: Request)
    requires cfg.Valid() && TravelMm(cfg, steps).Some? && !rq.rapid && rq.feedMode == UnitsPerMin && rq.feed >= 0.0
    ensures var linear, mm := LegMm(cfg, steps, false), TravelMm(cfg, steps).value;
            && Requested(cfg, steps, rq) >= 0.0
            && Mul(Requested(cfg, steps, rq), linear) <= Mul(Asked(rq), mm)
            && (Mul(Requested(cfg, steps, rq), linear) == Mul(Asked(rq), mm) <==>
                LegMm(cfg, steps, true) == 0.0 || Mixed(cfg, steps) || rq.feed == 0.0)
            && (!Mixed(cfg, steps) ==> Requested(cfg, steps, rq) == Asked(rq))
  {
    hide Mul, TravelMm, LegMm, Asked, Requested, InverseTimeSpeed;
    var mm, linear := TravelMm(cfg, steps).value, LegMm(cfg, steps, false);
    RequestedByLegs(cfg, steps, rq);
    AskedSign(rq);
    LegWithinTheMove(cfg, steps);
    if Mixed(cfg, steps) {
      AskedIsPositive(rq, mm, linear);
    } else if rq.feed == 0.0 {
      MulByZero(linear);
      MulByZero(mm);
    } else {
      MulOrder(Asked(rq), linear, mm);
      MulOrder(Asked(rq), mm, linear);
    }
  }

  /** The linear leg is no longer than the move, and as long exactly when there is no rotary leg. */
  lemma LegWithinTheMove(cfg: PlannerConfig, steps: Steps)
    requires cfg.Valid() && TravelMm(cfg, steps).Some?
    ensures LegMm(cfg, steps, true) >= 0.0 && LegMm(cfg, steps, false) >= 0.0
    ensures LegMm(cfg, steps, false) <= TravelMm(cfg, steps).value
    ensures LegMm(cfg, steps, false) == TravelMm(cfg, steps).value <==> LegMm(cfg, steps, true) == 0.0
  {
    var d := DeltaMm(steps, cfg.stepsPerMm);
    LegsAreTheMove(cfg, d);
    SquaresOfLegs(cfg.math, PartSq(cfg, d, false), PartSq(cfg, d, true));
  }

  lemma SquaresOfLegs(math: Libm, a: real, b: real)
    requires math.Valid() && a >= 0.0 && b >= 0.0
    ensures math.sqrt(b) >= 0.0 && 0.0 <= math.sqrt(a) <= math.sqrt(a + b)
    ensures math.sqrt(a) == math.sqrt(a + b) <==> math.sqrt(b) == 0.0
  {
    SqrtMono(math, a, a + b);
    var (x, y, z) := (math.sqrt(a), math.sqrt(b), math.sqrt(a + b));
    assert x * x == a && y * y == b && z * z == a + b;
    if y == 0.0 {
      assert b == 0.0;
    }
    if x == z {
      assert b == 0.0;
      SquareMonoBack(y, 0.0);
    }
  }

  function InverseTimeSpeed(rq: Request, mm: real, linear: real): real
    requires linear > 0.0
  {
    mm * (rq.feed * UnitsScale(rq.units) / linear) / 60.0
  }

  lemma RequestedByLegs(cfg: PlannerConfig, steps: Steps, rq: Request)
    requires cfg.Valid() && TravelMm(cfg, steps).Some? && rq.feedMode == UnitsPerMin
    ensures Requested(cfg, steps, rq) ==
            if Mixed(cfg, steps)
            then InverseTimeSpeed(rq, TravelMm(cfg, steps).value, LegMm(cfg, steps, false)) else Asked(rq)
  {
    hide TravelMm, PartSq, DeltaMm;
  }

  lemma AskedSign(rq: Request)
    requires rq.feed >= 0.0
    ensures Asked(rq) >= 0.0 && (Asked(rq) == 0.0 <==> rq.feed == 0.0)
  {
  }

  lemma AskedIsPositive(rq: Request, mm: real, linear: real)
    requires rq.feed >= 0.0 && mm > 0.0 && linear > 0.0
    ensures Asked(rq) >= 0.0 && (Asked(rq) == 0.0 <==> rq.feed == 0.0)
    ensures var requested := InverseTimeSpeed(rq, mm, linear);
            requested >= 0.0 && Mul(requested, linear) == Mul(Asked(rq), mm)
  {
    var f := rq.feed * UnitsScale(rq.units);
    assert f >= 0.0;
    var q := f / linear;
    assert q * linear == f;
    assert q >= 0.0;
    assert mm * q >= 0.0;
    assert (mm * q / 60.0) * linear == mm * (q * linear) / 60.0;
  }

  /** An inverse-time feed is the number of such moves a minute, unless an axis limit holds it back. */
  lemma InverseTimeIsADuration(cfg: PlannerConfig, steps: Steps, rq: Request)
    requires cfg.Valid() && TravelMm(cfg, steps).Some? && !rq.rapid && rq.feedMode == InverseTime && rq.feed >= 0.0
    ensures var v, limit := CruiseSpeed(cfg, steps, rq), AxisRateLimit(cfg, Direction(cfg, steps));
            && 60.0 * v <= Mul(TravelMm(cfg, steps).value, rq.feed)
            && (v < limit ==> 60.0 * v == Mul(TravelMm(cfg, steps).value, rq.feed))
  {
    hide CruiseSpeed, TravelMm, AxisRateLimit, Direction, Requested, Mul;
    CruiseIsRequested(cfg, steps, rq);
    RequestedInInverseTime(cfg, steps, rq);
  }

  lemma RequestedInInverseTime(cfg: PlannerConfig, steps: Steps, rq: Request)
    requires cfg.Valid() && TravelMm(cfg, steps).Some? && rq.feedMode == InverseTime && rq.feed >= 0.0
    ensures 60.0 * Requested(cfg, steps, rq) == Mul(TravelMm(cfg, steps).value, rq.feed) >= 0.0
  {
    hide DeltaMm, TravelMm;
    var mm := TravelMm(cfg, steps).value;
    assert mm * rq.feed >= 0.0;
  }

  lemma RadiusGrows(deviation: real, s1: real, s2: real, slow: real, fast: real)
    requires deviation >= 0.0 && 0.0 < slow <= fast && 0.0 <= s1 <= s2 < 1.0
    ensures Centripetal(deviation, s1, slow) <= Centripetal(deviation, s2, fast)
  {
    var (n1, n2) := (deviation * s1, deviation * s2);
    assert 0.0 <= n1 <= n2;
    FractionOrder(n1, 1.0 - s1, n2, 1.0 - s2);
    MulOrder(slow, n1 / (1.0 - s1), n2 / (1.0 - s2));
    var radius := n2 / (1.0 - s2);
    DivisionBound(0.0, 1.0 - s2, n2);
    assert (fast - slow) * radius >= 0.0;
  }

  lemma FractionOrder(n1: real, d1: real, n2: real, d2: real)
    requires 0.0 <= n1 <= n2 && 0.0 < d2 <= d1
    ensures n1 / d1 <= n2 / d2
  {
    var q := n1 / d1;
    assert q * d1 == n1;
    DivisionBound(0.0, d1, n1);
    assert q * (d1 - d2) >= 0.0;
    assert q * d2 <= n2;
    DivisionBound(q, d2, n2);
  }

  /** The squared corner speed from the half-angle sine. */
  function CornerSq(cfg: PlannerConfig, cap: real, s: real, accel: real): real
    requires s <= 1.0
  {
    if s == 1.0 then cap else MinR(Centripetal(cfg.junctionDeviationMm, s, accel), cap)
  }

  function Centripetal(deviation: real, s: real, accel: real): real
    requires s < 1.0
  {
    accel * (deviation * s / (1.0 - s))
  }

  function HalfSine(cfg: PlannerConfig, t: Trail, u: Vec): real {
    cfg.math.sqrt(MaxR((1.0 + Dot(t.prevUnitVec, u)) * 0.5, 0.0))
  }

  lemma JunctionByHalfSine(cfg: PlannerConfig, t: Trail, u: Vec, accel: real)
    requires cfg.Valid() && GoodTrail(t) && IsUnit(u) && !IsZeroVec(t.prevUnitVec)
    ensures 0.0 <= HalfSine(cfg, t, u) <= 1.0
    ensures JunctionSpeedSq(cfg, t, u, accel) ==
            if -Dot(t.prevUnitVec, u) >= 1.0 - JUNCTION_REVERSAL_EPSILON then 0.0
            else CornerSq(cfg, t.prevNominalSq, HalfSine(cfg, t, u), accel)
  {
    CauchySchwarz(t.prevUnitVec, u);
    hide Dot;
    var x := MaxR((1.0 + Dot(t.prevUnitVec, u)) * 0.5, 0.0);
    SqrtMono(cfg.math, x, 1.0);
    SquareMonoBack(cfg.math.sqrt(x), 1.0);
    assert (1.0 - -Dot(t.prevUnitVec, u)) * 0.5 == (1.0 + Dot(t.prevUnitVec, u)) * 0.5;
  }

  lemma CornerGrows(cfg: PlannerConfig, cap: real, s1: real, s2: real, slow: real, fast: real)
    requires cfg.junctionDeviationMm >= 0.0 && 0.0 < slow <= fast && 0.0 <= s1 <= s2 <= 1.0
    ensures CornerSq(cfg, cap, s1, slow) <= CornerSq(cfg, cap, s2, fast)
  {
    hide Centripetal;
    if s2 < 1.0 {
      RadiusGrows(cfg.junctionDeviationMm, s1, s2, slow, fast);
    }
  }

  /** For two accelerations the sharper of every two corners after the same block is taken no faster if and only if the
      sharper one's acceleration is no greater, no deviation is allowed, or the block before stood still. */
  lemma CornersInOrderIff(cfg: PlannerConfig, cap: real, a: real, b: real)
    requires cfg.junctionDeviationMm >= 0.0 && cap >= 0.0 && a > 0.0 && b > 0.0
    ensures (forall s1, s2 :: 0.0 <= s1 <= s2 <= 1.0 ==> CornerSq(cfg, cap, s1, a) <= CornerSq(cfg, cap, s2, b))
            <==> a <= b || cfg.junctionDeviationMm == 0.0 || cap == 0.0
  {
    var dev := cfg.junctionDeviationMm;
    if a <= b || dev == 0.0 || cap == 0.0 {
      forall s1, s2 | 0.0 <= s1 <= s2 <= 1.0
        ensures CornerSq(cfg, cap, s1, a) <= CornerSq(cfg, cap, s2, b)
      {
        CornerInOrder(cfg, cap, s1, s2, a, b);
      }
    } else {
      var s := CornerAtTheCap(dev, cap, a, b);
      assert CornerSq(cfg, cap, s, a) > CornerSq(cfg, cap, s, b);
    }
  }

  lemma CornerInOrder(cfg: PlannerConfig, cap: real, s1: real, s2: real, a: real, b: real)
    requires cfg.junctionDeviationMm >= 0.0 && cap >= 0.0 && a > 0.0 && b > 0.0 && 0.0 <= s1 <= s2 <= 1.0
    requires a <= b || cfg.junctionDeviationMm == 0.0 || cap == 0.0
    ensures CornerSq(cfg, cap, s1, a) <= CornerSq(cfg, cap, s2, b)
  {
    hide Centripetal;
    if a <= b {
      CornerGrows(cfg, cap, s1, s2, a, b);
    } else {
      if s1 < 1.0 {
        CentripetalIsZeroIff(cfg.junctionDeviationMm, s1, a);
      }
      if s2 < 1.0 {
        CentripetalIsZeroIff(cfg.junctionDeviationMm, s2, b);
      }
    }
  }

  lemma CentripetalIsZeroIff(deviation: real, s: real, accel: real)
    requires deviation >= 0.0 && 0.0 <= s < 1.0 && accel > 0.0
    ensures Centripetal(deviation, s, accel) >= 0.0
    ensures Centripetal(deviation, s, accel) == 0.0 <==> deviation == 0.0 || s == 0.0
  {
    CornerRadiusNonNegative(deviation, s, accel);
    var n := deviation * s;
    var q := n / (1.0 - s);
    assert q * (1.0 - s) == n;
    if accel * q == 0.0 {
      assert q == 0.0;
      assert n == 0.0;
    }
  }

  /** The half-angle sine at which acceleration `a` just reaches the cap: there a smaller one falls short. */
  lemma CornerAtTheCap(deviation: real, cap: real, a: real, b: real) returns (s: real)
    requires deviation > 0.0 && cap > 0.0 && 0.0 < b < a
    ensures 0.0 < s < 1.0 && Centripetal(deviation, s, a) == cap && Centripetal(deviation, s, b) < cap
  {
    var c := a * deviation;
    assert c > 0.0;
    var k := cap / c;
    assert k * c == cap;
    assert k > 0.0;
    s := k / (1.0 + k);
    assert s * (1.0 + k) == k;
    assert 0.0 < s < 1.0;
    assert s == k * (1.0 - s);
    var q := deviation * s / (1.0 - s);
    assert q * (1.0 - s) == deviation * k * (1.0 - s);
    assert q == deviation * k;
    assert a * q == cap;
    assert (a - b) * q > 0.0;
  }

  /** Of two corners after the same block the sharper may be taken no faster, if its direction may be accelerated no
      harder. */
  lemma SharperCornersAreSlower(cfg: PlannerConfig, t: Trail, sharp: Vec, flat: Vec)
    requires cfg.Valid() && GoodTrail(t) && IsUnit(sharp) && IsUnit(flat)
    requires Dot(t.prevUnitVec, sharp) <= Dot(t.prevUnitVec, flat)
    requires Acceleration(cfg, sharp) <= Acceleration(cfg, flat)
    ensures JunctionSpeedSq(cfg, t, sharp, Acceleration(cfg, sharp))
         <= JunctionSpeedSq(cfg, t, flat, Acceleration(cfg, flat))
  {
    hide JunctionSpeedSq, CornerSq, HalfSine, Dot, AxisLimit;
    var (slow, fast) := (Acceleration(cfg, sharp), Acceleration(cfg, flat));
    AccelerationKeepsAxes(cfg, sharp);
    AccelerationKeepsAxes(cfg, flat);
    JunctionBounds(cfg, t, sharp, slow);
    JunctionBounds(cfg, t, flat, fast);
    if !IsZeroVec(t.prevUnitVec) {
      JunctionByHalfSine(cfg, t, sharp, slow);
      JunctionByHalfSine(cfg, t, flat, fast);
      HalfSineGrows(cfg, t, sharp, flat);
      CornerGrows(cfg, t.prevNominalSq, HalfSine(cfg, t, sharp), HalfSine(cfg, t, flat), slow, fast);
    }
  }

  lemma HalfSineGrows(cfg: PlannerConfig, t: Trail, sharp: Vec, flat: Vec)
    requires cfg.math.Valid() && Dot(t.prevUnitVec, sharp) <= Dot(t.prevUnitVec, flat)
    ensures HalfSine(cfg, t, sharp) <= HalfSine(cfg, t, flat)
  {
    hide Dot;
    SqrtMono(cfg.math, MaxR((1.0 + Dot(t.prevUnitVec, sharp)) * 0.5, 0.0),
             MaxR((1.0 + Dot(t.prevUnitVec, flat)) * 0.5, 0.0));
  }
}

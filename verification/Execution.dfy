/** What the motion executor does with a block the planner hands it: the speeds it runs at (planner.rs:630-648,
    991-1142; motion.rs:115-180). */
module Execution {
  import opened Base
  import opened Products
  import opened Blocks
  import opened Kinematics
  import opened PlannerState
  import opened PlannerRuns
  import opened Trapezoid
  import opened Motion

  lemma ReachIsProduct(b: Block)
    ensures b.Reach() == Mul(2.0 * b.acceleration, b.millimeters)
  {
  }

  /** Any block the planner pops can be realized as planned. */
  lemma PoppedBlockIsRunnable(st: State)
    requires Inv(st) && st.queue != []
    ensures var b := st.queue[0];
            var exit := ExitFor(PopBlock(st).0);
            && Runnable(2.0 * b.acceleration, b.millimeters, b.entrySq, b.nominalSq, exit)
            && Reachable(2.0 * b.acceleration, b.millimeters, b.entrySq, exit)
            && st.cfg.Valid() && GoodBlock(st.cfg, b)
  {
    PoppedPairIsReachable(st);
    ReachIsProduct(st.queue[0]);
  }

  /** At any override of at most 100 %, under any ceiling, every popped block starts at its (scaled) entry, ends at
      its (scaled) exit and never changes speed faster than its own acceleration allows. */
  lemma PoppedBlockIsRealized(st: State, scale: real, maxSpeedSq: Option<real>)
    requires Inv(st) && st.queue != [] && scale <= 1.0
    ensures var p := BlockProfile(st.queue[0], ExitFor(PopBlock(st).0), scale, maxSpeedSq);
            Meets(p) && Gentle(p)
  {
    var b := st.queue[0];
    PoppedBlockIsRunnable(st);
    OverrideDownStaysRealized(2.0 * b.acceleration, b.millimeters, b.entrySq, b.nominalSq, ExitFor(PopBlock(st).0),
                              scale, maxSpeedSq);
  }

  lemma SlowerKeepsRates(u: Vec, rates: Vec, slow: real, fast: real)
    requires KeepsRates(u, rates, fast) && slow <= fast
    ensures KeepsRates(u, rates, slow)
  {
    forall a: nat | a < AXES && Participates(u, a)
      ensures slow * (u[a] * u[a]) <= rates[a] * rates[a]
    {
      var q := u[a] * u[a];
      SquareNonNegative(u[a]);
      MulMono(slow, fast, q);
    }
  }

  /** Run without an override, a popped block never takes any axis beyond that axis's own maximum rate or
      acceleration, anywhere along it. */
  lemma PoppedBlockKeepsEveryAxis(st: State, d: real)
    requires Inv(st) && st.queue != [] && st.cfg.Valid()
    ensures var b := st.queue[0];
            var p := BlockProfile(b, ExitFor(PopBlock(st).0), 1.0, None);
            && KeepsRates(b.unitVec, RatesMmS(st.cfg), VelocitySqAt(p, d))
            && KeepsAxes(b.unitVec, st.cfg.accelMmS2, b.acceleration, AXES) && p.twoA == 2.0 * b.acceleration && Gentle(p)
  {
    var b, exit := st.queue[0], ExitFor(PopBlock(st).0);
    PoppedBlockIsRunnable(st);
    PoppedBlockIsRealized(st, 1.0, None);
    UnscaledProfile(b, exit);
    NeverFasterThanAsked(2.0 * b.acceleration, b.millimeters, b.entrySq, b.nominalSq, exit, d);
    hide PlanProfile, VelocitySqAt, Gentle, RatesMmS, KeepsRates;
    SlowerKeepsRates(b.unitVec, RatesMmS(st.cfg), VelocitySqAt(EstimatedProfile(b, exit), d), b.nominalSq);
  }

  /** Whatever the override, no sample of a popped block exceeds the ceiling it is given. */
  lemma PoppedBlockKeepsCeiling(st: State, scale: real, ceilingSq: real, d: real)
    requires Inv(st) && st.queue != [] && ceilingSq >= 0.0
    ensures 0.0 <= VelocitySqAt(BlockProfile(st.queue[0], ExitFor(PopBlock(st).0), scale, Some(ceilingSq)), d) <= ceilingSq
  {
    var b := st.queue[0];
    CeilingHoldsAtEveryScale(2.0 * MaxR(b.acceleration, 0.0), MaxR(b.millimeters, 0.0), b.entrySq, b.nominalSq,
                             ExitFor(PopBlock(st).0), scale, ceilingSq, d);
  }

  /** Where one block ends and the next begins, the speeds agree exactly when the same planned speed comes out the same
      of both blocks' overrides and ceilings. */
  lemma JunctionIsContinuousIff(one: Block, two: Block, exitSq: real, scale1: real, max1: Option<real>, scale2: real,
                                max2: Option<real>)
    requires var p1 := BlockProfile(one, two.entrySq, scale1, max1);
             var p2 := BlockProfile(two, exitSq, scale2, max2);
             Meets(p1) && Meets(p2)
    ensures var p1 := BlockProfile(one, two.entrySq, scale1, max1);
            var p2 := BlockProfile(two, exitSq, scale2, max2);
            VelocitySqAt(p1, p1.length) == VelocitySqAt(p2, 0.0) <==>
            ScaledSq(two.entrySq, scale1, max1) == ScaledSq(two.entrySq, scale2, max2)
  {
    hide VelocitySqAt, ScaledSq;
  }

  /** Under one override of at most 100 % and one ceiling, the block popped next starts at the very speed the last one
      ends at, whatever was planned in between. */
  lemma ChainIsContinuous(st: State, ops: seq<Op>, scale: real, maxSpeedSq: Option<real>)
    requires Inv(st) && |st.queue| >= 2 && scale <= 1.0
    requires (PopKeeps(st); AllAllowed(PopBlock(st).0, ops)) && forall op :: op in ops ==> !Removes(op)
    ensures (PopKeeps(st);
             var next := Run(PopBlock(st).0, ops);
             next.queue != [] &&
             var p1 := BlockProfile(st.queue[0], ExitFor(PopBlock(st).0), scale, maxSpeedSq);
             var p2 := BlockProfile(next.queue[0], ExitFor(PopBlock(next).0), scale, maxSpeedSq);
             VelocitySqAt(p1, p1.length) == VelocitySqAt(p2, 0.0))
  {
    PopKeeps(st);
    SpeedsMeetAtJunctions(st, ops);
    var next := Run(PopBlock(st).0, ops);
    PoppedBlockIsRealized(st, scale, maxSpeedSq);
    PoppedBlockIsRealized(next, scale, maxSpeedSq);
    hide Inv, BlockProfile, VelocitySqAt, Gentle, Run, AllAllowed;
    JunctionIsContinuousIff(st.queue[0], next.queue[0], ExitFor(PopBlock(next).0), scale, maxSpeedSq, scale, maxSpeedSq);
  }

  /** A feed override that changes between two blocks keeps the chain continuous exactly when the junction is a stop, the
      override did not change, or the ceiling holds both speeds back. */
  lemma OverrideChangeIsContinuousIff(junctionSq: real, scale1: real, scale2: real, ceilingSq: real)
    requires junctionSq >= 0.0 && scale1 > 0.0 && scale2 > 0.0 && ceilingSq >= 0.0
    ensures ScaledSq(junctionSq, scale1, Some(ceilingSq)) == ScaledSq(junctionSq, scale2, Some(ceilingSq)) <==>
            || junctionSq == 0.0 || scale1 == scale2
            || (Mul(Mul(scale1, scale1), junctionSq) >= ceilingSq && Mul(Mul(scale2, scale2), junctionSq) >= ceilingSq)
  {
    ScaledAgreeIff(junctionSq, scale1, scale2);
    ScaledIsNonNegative(junctionSq, scale1);
    ScaledIsNonNegative(junctionSq, scale2);
    hide Mul;
  }

  /** Between a rapid, which has an override of its own and no ceiling, and a feed move the chain is continuous exactly
      when the junction is a stop, or the ceiling spares the feed move and both overrides agree, or it brings the feed
      move down to the very speed of the rapid. */
  lemma RapidMeetsFeedIff(junctionSq: real, rapid: real, feed: real, ceilingSq: real)
    requires junctionSq >= 0.0 && rapid > 0.0 && feed > 0.0 && ceilingSq >= 0.0
    ensures var r, f := Mul(Mul(rapid, rapid), junctionSq), Mul(Mul(feed, feed), junctionSq);
            ScaledSq(junctionSq, rapid, None) == ScaledSq(junctionSq, feed, Some(ceilingSq)) <==>
            || junctionSq == 0.0 || (rapid == feed && r <= ceilingSq) || (r == ceilingSq && f >= ceilingSq)
  {
    ScaledAgreeIff(junctionSq, rapid, feed);
    ScaledIsNonNegative(junctionSq, rapid);
    ScaledIsNonNegative(junctionSq, feed);
    hide Mul;
  }

  lemma ScaledIsNonNegative(v: real, scale: real)
    requires v >= 0.0 && scale > 0.0
    ensures ScaleSq(scale) == Mul(scale, scale) && Mul(Mul(scale, scale), v) >= 0.0
    ensures v == 0.0 ==> Mul(Mul(scale, scale), v) == 0.0
  {
    var q := ScaleSq(scale);
    hide Mul;
    MulOrder(q, 0.0, v);
    MulByZero(q);
  }

  lemma ScaledAgreeIff(v: real, s1: real, s2: real)
    requires v >= 0.0 && s1 > 0.0 && s2 > 0.0
    ensures Mul(Mul(s1, s1), v) == Mul(Mul(s2, s2), v) <==> v == 0.0 || s1 == s2
  {
    if v == 0.0 {
      MulByZero(Mul(s1, s1));
      MulByZero(Mul(s2, s2));
    } else {
      SquaresAgreeIff(s1, s2);
      hide Mul;
      MulCommutes(Mul(s1, s1), v);
      MulCommutes(Mul(s2, s2), v);
      MulOrder(v, Mul(s1, s1), Mul(s2, s2));
      MulOrder(v, Mul(s2, s2), Mul(s1, s1));
    }
  }

  lemma SquaresAgreeIff(s1: real, s2: real)
    requires s1 > 0.0 && s2 > 0.0
    ensures Mul(s1, s1) == Mul(s2, s2) <==> s1 == s2
  {
    if s1 < s2 {
      SquareStrict(s2, s1);
    } else if s2 < s1 {
      SquareStrict(s1, s2);
    }
  }
}

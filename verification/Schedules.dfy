/** What the look-ahead is for: no schedule the machine could follow takes less time (planner.rs:1189-1247;
    motion.rs:258-285, 340-358). */
module Schedules {
  import opened Base
  import opened Products
  import opened Blocks
  import opened Kinematics
  import opened LookAhead
  import opened PlannerState
  import opened PlannerRuns
  import opened Trapezoid
  import opened Motion
  import opened Periods

  /** Ticks a queue costs under a schedule of squared entry speeds: each block is left at the entry of the next, the
      newest at a stop. */
  function ScheduleTicks(cfg: MotionConfig, q: seq<Block>, p: seq<real>): nat
    requires |p| == |q|
  {
    if q == [] then 0
    else
      BlockTicks(cfg, q[0].(entrySq := p[0]), if |q| > 1 then p[1] else 0.0) + ScheduleTicks(cfg, q[1..], p[1..])
  }

  /** A raised envelope is nowhere lower, and above zero inside a block that may move. */
  lemma EnvelopeGrows(k: real, l: real, nominal: real, e1: real, x1: real, e2: real, x2: real, d: real)
    requires k > 0.0 && 0.0 < d < l && nominal > 0.0 && 0.0 <= e1 <= e2 && 0.0 <= x1 <= x2
    ensures 0.0 < Envelope(k, l, e1, nominal, x1, d) <= Envelope(k, l, e2, nominal, x2, d)
  {
    hide Mul;
    MulOrder(k, d, 0.0);
    MulOrder(k, l - d, 0.0);
    MulByZero(k);
  }

  /** What a schedule asks of one block. */
  predicate Asks(b: Block, entry: real, exit: real) {
    && b.acceleration > 0.0 && b.millimeters > 0.0
    && Runnable(2.0 * b.acceleration, b.millimeters, entry, b.nominalSq, exit)
    && Reachable(2.0 * b.acceleration, b.millimeters, entry, exit)
  }

  /** How far along a block the middle of a tick is. */
  function Share(tick: nat, total: nat): real
    requires total > 0
  {
    (tick as real + 0.5) / total as real
  }

  lemma ShareIsPartial(tick: nat, total: nat)
    requires tick < total
    ensures 0.0 < Share(tick, total) < 1.0
  {
    assert tick as real + 1.0 <= total as real;
    ProperFraction(tick as real + 0.5, total as real);
  }

  lemma ProperFraction(x: real, n: real)
    requires 0.0 < x < n
    ensures 0.0 < x / n < 1.0
  {
    var q := x / n;
    assert q * n == x;
    if q >= 1.0 {
      MulMono(1.0, q, n);
    }
    if q <= 0.0 {
      MulMono(q, 0.0, n);
    }
  }

  lemma TravelIsShare(p: Profile, tick: nat, total: nat)
    requires total > 0
    ensures TravelAt(p, tick, total) == Mul(p.length, Share(tick, total))
  {
  }

  lemma MidpointIsInside(p: Profile, tick: nat, total: nat)
    requires tick < total && p.length > 0.0
    ensures 0.0 < TravelAt(p, tick, total) < p.length
  {
    hide TravelAt, Share, Mul;
    ShareIsPartial(tick, total);
    TravelIsShare(p, tick, total);
    MulOrder(p.length, 1.0, Share(tick, total));
    MulOrder(p.length, Share(tick, total), 0.0);
    MulByZero(p.length);
  }

  lemma SameLengthSameTravel(p1: Profile, p2: Profile, tick: nat, total: nat)
    requires total > 0 && p1.length == p2.length
    ensures TravelAt(p1, tick, total) == TravelAt(p2, tick, total)
  {
    hide TravelAt, Share, Mul;
    TravelIsShare(p1, tick, total);
    TravelIsShare(p2, tick, total);
  }

  /** The profile of a block under a schedule is its envelope. */
  lemma ScheduledProfile(b: Block, entry: real, exit: real, d: real)
    requires Asks(b, entry, exit) && 0.0 <= d <= b.millimeters
    ensures var p := EstimatedProfile(b.(entrySq := entry), exit);
            && p.length == b.millimeters
            && VelocitySqAt(p, d) == Envelope(2.0 * b.acceleration, b.millimeters, entry, b.nominalSq, exit, d)
  {
    ProfileIsEnvelope(2.0 * b.acceleration, b.millimeters, entry, b.nominalSq, exit, d);
    hide VelocitySqAt, Envelope;
  }

  lemma FasterTick(cfg: MotionConfig, b: Block, e1: real, x1: real, e2: real, x2: real, tick: nat)
    requires cfg.Usable() && cfg.math.Valid() && Steppable(b) && tick < b.stepEventCount
    requires Asks(b, e1, x1) && Asks(b, e2, x2) && e1 <= e2 && x1 <= x2 && b.nominalSq > 0.0
    ensures TickPeriod(cfg, b.(entrySq := e2), EstimatedProfile(b.(entrySq := e2), x2), tick)
         <= TickPeriod(cfg, b.(entrySq := e1), EstimatedProfile(b.(entrySq := e1), x1), tick)
  {
    hide PlanProfile, EstimatedProfile, VelocitySqAt, Envelope, PeriodTicks, DominantCount, TravelAt;
    var (p1, p2) := (EstimatedProfile(b.(entrySq := e1), x1), EstimatedProfile(b.(entrySq := e2), x2));
    ScheduledProfile(b, e1, x1, 0.0);
    ScheduledProfile(b, e2, x2, 0.0);
    var d := TravelAt(p1, tick, b.stepEventCount);
    MidpointIsInside(p1, tick, b.stepEventCount);
    SameLengthSameTravel(p1, p2, tick, b.stepEventCount);
    ScheduledProfile(b, e1, x1, d);
    ScheduledProfile(b, e2, x2, d);
    EnvelopeGrows(2.0 * b.acceleration, b.millimeters, b.nominalSq, e1, x1, e2, x2, d);
    FasterIsNeverLonger(cfg, b.millimeters, DominantCount(b.steps),
                        Envelope(2.0 * b.acceleration, b.millimeters, e1, b.nominalSq, x1, d),
                        Envelope(2.0 * b.acceleration, b.millimeters, e2, b.nominalSq, x2, d));
  }

  lemma {:induction false} FasterTicks(cfg: MotionConfig, b: Block, e1: real, x1: real, e2: real, x2: real, n: nat)
    requires cfg.Usable() && cfg.math.Valid() && Steppable(b) && n <= b.stepEventCount
    requires Asks(b, e1, x1) && Asks(b, e2, x2) && e1 <= e2 && x1 <= x2 && b.nominalSq > 0.0
    ensures TicksUpTo(cfg, b.(entrySq := e2), EstimatedProfile(b.(entrySq := e2), x2), n)
         <= TicksUpTo(cfg, b.(entrySq := e1), EstimatedProfile(b.(entrySq := e1), x1), n)
  {
    hide EstimatedProfile, TickPeriod, Asks, DominantCount;
    if n > 0 {
      FasterTicks(cfg, b, e1, x1, e2, x2, n - 1);
      FasterTick(cfg, b, e1, x1, e2, x2, n - 1);
    }
  }

  /** A block entered and left no slower costs no more ticks. */
  lemma FasterBlock(cfg: MotionConfig, b: Block, e1: real, x1: real, e2: real, x2: real)
    requires cfg.math.Valid() && Asks(b, e1, x1) && Asks(b, e2, x2) && e1 <= e2 && x1 <= x2
    ensures BlockTicks(cfg, b.(entrySq := e2), x2) <= BlockTicks(cfg, b.(entrySq := e1), x1)
  {
    hide EstimatedProfile, TicksUpTo, DominantCount;
    if cfg.Usable() && Steppable(b) && b.nominalSq > 0.0 {
      FasterTicks(cfg, b, e1, x1, e2, x2, b.stepEventCount);
    } else if b.nominalSq <= 0.0 {
      assert e1 == e2 && x1 == x2;
    }
  }

  /** Both schedules can be followed, and the second is nowhere slower. */
  ghost predicate Dominates(q: seq<Block>, p1: seq<real>, p2: seq<real>) {
    && |p1| == |p2| == |q|
    && (forall i: nat :: i < |q| ==> p1[i] <= p2[i])
    && (forall i: nat :: i < |q| ==> Asks(q[i], p1[i], ExitOf(p1, i)) && Asks(q[i], p2[i], ExitOf(p2, i)))
  }

  function ExitOf(p: seq<real>, i: nat): real { if i + 1 < |p| then p[i + 1] else 0.0 }

  lemma {:induction false} DominatingIsFaster(cfg: MotionConfig, q: seq<Block>, p1: seq<real>, p2: seq<real>)
    requires cfg.math.Valid() && Dominates(q, p1, p2)
    ensures ScheduleTicks(cfg, q, p2) <= ScheduleTicks(cfg, q, p1)
    decreases |q|
  {
    hide BlockTicks, Asks;
    if q != [] {
      assert Asks(q[0], p1[0], ExitOf(p1, 0)) && Asks(q[0], p2[0], ExitOf(p2, 0));
      FasterBlock(cfg, q[0], p1[0], ExitOf(p1, 0), p2[0], ExitOf(p2, 0));
      var (r, s1, s2) := (q[1..], p1[1..], p2[1..]);
      forall i: nat | i < |r|
        ensures Asks(r[i], s1[i], ExitOf(s1, i)) && Asks(r[i], s2[i], ExitOf(s2, i)) && s1[i] <= s2[i]
      {
        assert ExitOf(s1, i) == ExitOf(p1, i + 1) && ExitOf(s2, i) == ExitOf(p2, i + 1);
        assert Asks(q[i + 1], p1[i + 1], ExitOf(p1, i + 1)) && Asks(q[i + 1], p2[i + 1], ExitOf(p2, i + 1));
        assert p1[i + 1] <= p2[i + 1];
      }
      DominatingIsFaster(cfg, r, s1, s2);
    }
  }

  /** A schedule that can be followed asks of every block what it can do. */
  lemma FollowableAsks(st: State, p: seq<real>, i: nat)
    requires Inv(st) && CanFollow(st.queue, st.headBusy, p) && i < |st.queue|
    ensures |p| == |st.queue| && Asks(st.queue[i], p[i], ExitOf(p, i))
  {
    var q, s := st.queue, Spans(st.queue);
    assert GoodBlock(st.cfg, q[i]);
    assert s[i] == Span(q[i].maxEntrySq, q[i].Reach());
    assert q[i].Reach() == Mul(2.0 * q[i].acceleration, q[i].millimeters);
    if i + 1 < |q| {
      assert GoodBlock(st.cfg, q[i + 1]);
      assert s[i + 1] == Span(q[i + 1].maxEntrySq, q[i + 1].Reach());
      assert FeasiblePair(s, p, i);
      assert q[i + 1].maxEntrySq <= q[i].nominalSq;
    }
    hide GoodBlock, Mul, Fastest;
  }

  /** Whatever the pulse timing, no schedule that could be followed from here, and keeps a committed head, costs fewer
      ticks than the stored one. */
  lemma StoredScheduleIsQuickest(cfg: MotionConfig, st: State, p: seq<real>)
    requires cfg.math.Valid() && Inv(st) && CanFollow(st.queue, st.headBusy, p)
    ensures |p| == |st.queue|
    ensures ScheduleTicks(cfg, st.queue, Entries(st.queue)) <= ScheduleTicks(cfg, st.queue, p)
  {
    StoredCanBeFollowed(st);
    var e := Entries(st.queue);
    assert AtMost(p, e);
    forall i: nat | i < |st.queue|
      ensures Asks(st.queue[i], p[i], ExitOf(p, i)) && Asks(st.queue[i], e[i], ExitOf(e, i))
    {
      FollowableAsks(st, p, i);
      FollowableAsks(st, e, i);
    }
    hide Inv, CanFollow, Asks, ScheduleTicks;
    DominatingIsFaster(cfg, st.queue, p, e);
  }

  lemma StoredCanBeFollowed(st: State)
    requires Inv(st)
    ensures CanFollow(st.queue, st.headBusy, Entries(st.queue))
  {
  }
}

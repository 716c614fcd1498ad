/** The single-axis homing cycle: seek into the switch, pull off, locate it again slowly, pull off (homing.rs:85-421). */
module Homing {
  import opened Base
  import opened Blocks
  import opened Kinematics
  import opened Dda
  import opened Motion
  import opened Probing
  import PlannerState

  const HOMING_SEARCH_SCALAR := 1.5
  const F32_MIN_POSITIVE := 0.0000000000000000000000000000000000000117549435

  datatype HomingConfig = HomingConfig(
    stepsPerMm: Vec,
    maxTravelMm: Vec,
    seekMmMin: real,
    feedMmMin: real,
    pulloffMm: real,
    homesPositive: Mask,
    forceSetOrigin: bool,
    motion: MotionConfig,
    limitInvert: bool)

  datatype HomingError = NoContact(axis: nat) | InvalidConfig(axis: nat) | SinkFailed

  datatype HomeAxisOutcome = HomeAxisOutcome(axis: nat, zeroSteps: int)

  /** Whole steps in a distance: none for a degenerate product, capped so that it can be negated. */
  function MmToStepsSafe(mm: real, stepsPerMm: real): (n: nat)
    ensures n <= I32_MAX
  {
    Clamp(Round(mm * stepsPerMm), 0, I32_MAX)
  }

  function SearchSteps(cfg: HomingConfig, axis: nat): nat
    requires axis < AXES
  {
    MmToStepsSafe(HOMING_SEARCH_SCALAR * cfg.maxTravelMm[axis], cfg.stepsPerMm[axis])
  }

  function PulloffSteps(cfg: HomingConfig, axis: nat): nat
    requires axis < AXES
  {
    MmToStepsSafe(cfg.pulloffMm, cfg.stepsPerMm[axis])
  }

  function Sign(cfg: HomingConfig, axis: nat): int
    requires axis < AXES
  {
    if cfg.homesPositive[axis] then 1 else -1
  }

  function StepPeriod(cfg: HomingConfig, axis: nat, rateMmMin: real): nat
    requires axis < AXES
  {
    if rateMmMin / 60.0 <= 0.0 || cfg.stepsPerMm[axis] <= 0.0 || cfg.motion.tickHz <= 0.0 then U32_MAX
    else TicksPerStep(cfg.motion.tickHz, StepsPerSecond(rateMmMin, cfg.stepsPerMm[axis]))
  }

  function StepsPerSecond(rateMmMin: real, stepsPerMm: real): real { rateMmMin / 60.0 * stepsPerMm }

  function TicksPerStep(tickHz: real, hz: real): nat {
    Clamp(Round(tickHz / MaxR(hz, F32_MIN_POSITIVE)), 0, U32_MAX)
  }

  /** `machine_zero_steps`. */
  function MachineZeroSteps(cfg: HomingConfig, axis: nat): (z: int)
    requires axis < AXES
    ensures -I32_MAX <= z <= I32_MAX
  {
    var pulloff := PulloffSteps(cfg, axis);
    if cfg.forceSetOrigin then 0
    else if cfg.homesPositive[axis] then -(pulloff as int)
    else Clamp(MmToStepsSafe(cfg.maxTravelMm[axis], cfg.stepsPerMm[axis]) + pulloff, I32_MIN, I32_MAX)
  }

  /** A single-axis move with placeholder speeds (planner.rs:228-251). */
  function SingleAxis(axis: nat, delta: int): (b: Block)
    requires axis < AXES
    ensures b.stepEventCount == DominantCount(b.steps) == AbsI(delta)
  {
    var steps := ORIGIN[axis := delta];
    Block(steps, AbsI(delta), ZERO_VEC, 1.0, 1.0, 1.0, 1.0, 0.0, false, false)
  }

  /** The machine moved by `delta` along one axis. */
  function Along(p: Steps, axis: nat, delta: int): Steps
    requires axis < AXES
  {
    p[axis := p[axis] + delta]
  }

  /** On a single-axis move tick `t` is simply the `t`-th step of that axis. */
  lemma SingleAxisMoves(from: Steps, axis: nat, delta: int, t: nat)
    requires axis < AXES && delta != 0 && t <= AbsI(delta)
    ensures Moved(from, SingleAxis(axis, delta).steps, t) == Along(from, axis, if delta > 0 then t else -(t as int))
  {
    var s := SingleAxis(axis, delta).steps;
    var d := DominantCount(s);
    MadeBounds(AbsI(delta), d, t);
    MadeBounds(0, d, t);
    hide Made;
  }

  /** The switch as a reading of the machine position; the homing walk samples it before every step. */
  function SwitchEdge(cfg: HomingConfig, high: Steps -> bool): Edge {
    (k: nat, p: Steps) => Tripped(cfg, high, p)
  }

  predicate Tripped(cfg: HomingConfig, high: Steps -> bool, p: Steps) { high(p) != cfg.limitInvert }

  /** Steps a seek takes from `p`: up to the first position where the switch is tripped, at most `limit`. */
  function SeekSteps(cfg: HomingConfig, high: Steps -> bool, p: Steps, axis: nat, limit: nat): (k: nat)
    requires axis < AXES
    ensures k <= limit
    ensures forall j: nat :: j < k ==> !Tripped(cfg, high, Along(p, axis, Sign(cfg, axis) * j))
    ensures k < limit ==> Tripped(cfg, high, Along(p, axis, Sign(cfg, axis) * k))
  {
    SeekFrom(cfg, high, p, axis, limit, 0)
  }

  function SeekFrom(cfg: HomingConfig, high: Steps -> bool, p: Steps, axis: nat, limit: nat, t: nat): (k: nat)
    requires axis < AXES && t <= limit
    ensures t <= k <= limit
    ensures forall j: nat :: t <= j < k ==> !Tripped(cfg, high, Along(p, axis, Sign(cfg, axis) * j))
    ensures k < limit ==> Tripped(cfg, high, Along(p, axis, Sign(cfg, axis) * k))
    decreases limit - t
  {
    if t == limit || Tripped(cfg, high, Along(p, axis, Sign(cfg, axis) * t)) then t
    else SeekFrom(cfg, high, p, axis, limit, t + 1)
  }

  /** A seek that starts at `p`: whether it makes contact, and where it ends. */
  function Seek(cfg: HomingConfig, high: Steps -> bool, p: Steps, axis: nat): (bool, Steps)
    requires axis < AXES
  {
    var end := Along(p, axis, Sign(cfg, axis) * SeekSteps(cfg, high, p, axis, SearchSteps(cfg, axis)));
    (Tripped(cfg, high, end), end)
  }

  function Backed(cfg: HomingConfig, p: Steps, axis: nat): Steps
    requires axis < AXES
  {
    Along(p, axis, -Sign(cfg, axis) * PulloffSteps(cfg, axis))
  }

  /** The whole cycle on a machine whose outputs work: its result and where the machine ends. */
  function HomeAxis(cfg: HomingConfig, axis: nat, high: Steps -> bool, start: Steps)
    : (Result<HomeAxisOutcome, HomingError>, Steps)
  {
    if axis >= AXES || SearchSteps(cfg, axis) == 0 then (Err(HomingError.InvalidConfig(axis)), start)
    else
      var (hit1, at1) := Seek(cfg, high, start, axis);
      if !hit1 then (Err(NoContact(axis)), at1)
      else
        var (hit2, at2) := Seek(cfg, high, Backed(cfg, at1, axis), axis);
        if !hit2 then (Err(NoContact(axis)), at2)
        else (Ok(HomeAxisOutcome(axis, MachineZeroSteps(cfg, axis))), Backed(cfg, at2, axis))
  }

  lemma SeekReadsSwitch(cfg: HomingConfig, high: Steps -> bool, p: Steps, axis: nat, n: nat, t: nat)
    requires axis < AXES && 0 < n && t <= n
    ensures var s := SingleAxis(axis, Sign(cfg, axis) * n).steps;
            && DominantCount(s) == n && Moved(p, s, t) == Along(p, axis, Sign(cfg, axis) * t)
  {
    SingleAxisMoves(p, axis, Sign(cfg, axis) * n, t);
  }

  lemma SeekIsProbe(cfg: HomingConfig, high: Steps -> bool, p: Steps, axis: nat, t: nat)
    requires axis < AXES && 0 < SearchSteps(cfg, axis) && t <= SearchSteps(cfg, axis)
    ensures var n := SearchSteps(cfg, axis);
            var s := SingleAxis(axis, Sign(cfg, axis) * n).steps;
            StopsAfter(SwitchEdge(cfg, high), p, s, n, t) == SeekFrom(cfg, high, p, axis, n, t)
    decreases SearchSteps(cfg, axis) - t
  {
    var n := SearchSteps(cfg, axis);
    SeekReadsSwitch(cfg, high, p, axis, n, t);
    hide SearchSteps, SingleAxis, Moved, Along, Sign, Tripped;
    if t < n {
      SeekIsProbe(cfg, high, p, axis, t + 1);
    }
  }

  /** Probing towards the switch over the search distance is `Seek`. */
  lemma SeekOutcome(cfg: HomingConfig, high: Steps -> bool, p: Steps, axis: nat, b: Block)
    requires axis < AXES && 0 < SearchSteps(cfg, axis)
    requires b == SingleAxis(axis, Sign(cfg, axis) * SearchSteps(cfg, axis))
    ensures b.stepEventCount == DominantCount(b.steps) == SearchSteps(cfg, axis)
    ensures var o := Probed(SwitchEdge(cfg, high), p, b);
            && (o.triggered, Moved(p, b.steps, o.stepsEmitted)) == Seek(cfg, high, p, axis)
            && o.stepsEmitted == SeekSteps(cfg, high, p, axis, SearchSteps(cfg, axis))
  {
    var n := SearchSteps(cfg, axis);
    var k := SeekSteps(cfg, high, p, axis, n);
    SeekIsProbe(cfg, high, p, axis, 0);
    SeekReadsSwitch(cfg, high, p, axis, n, k);
    hide SearchSteps, SingleAxis, Moved, StopsAfter, SeekFrom, Tripped, Along;
  }

  /** `n` steps of one axis alone, each at the period the pulse timing makes of `period`. */
  function AxisTicks(cfg: HomingConfig, axis: nat, n: nat, period: nat): (e: seq<StepEvent>)
    requires axis < AXES
    ensures |e| == n
  {
    seq(n, _ => StepEvent([axis == 0, axis == 1, axis == 2, axis == 3], ProbePeriod(cfg.motion, period)))
  }

  lemma OnlyItsAxisSteps(axis: nat, delta: int, t: nat)
    requires axis < AXES && t < AbsI(delta)
    ensures MaskAt(SingleAxis(axis, delta).steps, t) == [axis == 0, axis == 1, axis == 2, axis == 3]
  {
    var s := SingleAxis(axis, delta).steps;
    var d := DominantCount(s);
    assert forall a :: 0 <= a < AXES ==> s[a] == if a == axis then delta else 0;
    MadeBounds(d, d, t);
    MadeBounds(d, d, t + 1);
    MadeBounds(0, d, t);
    MadeBounds(0, d, t + 1);
    hide Made;
  }

  lemma SingleAxisTicks(cfg: HomingConfig, axis: nat, delta: int, period: nat, n: nat)
    requires axis < AXES && 0 < AbsI(delta) && n <= AbsI(delta)
    ensures ProbeEvents(cfg.motion, SingleAxis(axis, delta), period, n) == AxisTicks(cfg, axis, n, period)
  {
    hide MaskAt, ProbePeriod, DominantCount;
    forall t: nat | t < n
      ensures MaskAt(SingleAxis(axis, delta).steps, t) == [axis == 0, axis == 1, axis == 2, axis == 3]
    {
      OnlyItsAxisSteps(axis, delta, t);
    }
  }

  /** The ticks of a seek from `p`: one for every step up to the switch. */
  function SeekTicks(cfg: HomingConfig, high: Steps -> bool, p: Steps, axis: nat, period: nat): seq<StepEvent>
    requires axis < AXES
  {
    AxisTicks(cfg, axis, SeekSteps(cfg, high, p, axis, SearchSteps(cfg, axis)), period)
  }

  /** `seek_into_switch`. */
  method SeekIntoSwitch(cfg: HomingConfig, axis: nat, period: nat, high: Steps -> bool, rig: Rig)
    returns (r: Result<(), HomingError>)
    requires axis < AXES && SearchSteps(cfg, axis) > 0
    modifies rig
    ensures r == Err(SinkFailed) || rig.position == Seek(cfg, high, old(rig.position), axis).1
    ensures r == Err(SinkFailed) ||
            r == if Seek(cfg, high, old(rig.position), axis).0 then Ok(()) else Err(NoContact(axis))
    ensures r == Err(SinkFailed) || rig.sent == old(rig.sent) + SeekTicks(cfg, high, old(rig.position), axis, period)
  {
    var n := SearchSteps(cfg, axis);
    var block := SingleAxis(axis, Sign(cfg, axis) * n);
    ghost var from := rig.position;
    var o := RunProbe(cfg.motion, block, period, SwitchEdge(cfg, high), rig);
    if o.Err? {
      return Err(SinkFailed);
    }
    SeekOutcome(cfg, high, from, axis, block);
    SingleAxisTicks(cfg, axis, Sign(cfg, axis) * n, period, o.value.stepsEmitted);
    hide SearchSteps, SeekSteps, SingleAxis, Moved, Probed, Seek;
    r := if o.value.triggered then Ok(()) else Err(NoContact(axis));
  }

  /** `pull_off`: the whole distance, whatever the switch does. */
  method PullOff(cfg: HomingConfig, axis: nat, rig: Rig) returns (r: Result<(), HomingError>)
    requires axis < AXES
    modifies rig
    ensures r == Err(SinkFailed) || (r == Ok(()) && rig.position == Backed(cfg, old(rig.position), axis))
    ensures r == Err(SinkFailed) ||
            rig.sent == old(rig.sent) + AxisTicks(cfg, axis, PulloffSteps(cfg, axis), StepPeriod(cfg, axis, cfg.feedMmMin))
  {
    var n := PulloffSteps(cfg, axis);
    if n == 0 {
      return Ok(());
    }
    var delta := -Sign(cfg, axis) * n;
    var block := SingleAxis(axis, delta);
    ghost var from := rig.position;
    var o := RunProbe(cfg.motion, block, StepPeriod(cfg, axis, cfg.feedMmMin), (k: nat, p: Steps) => false, rig);
    if o.Err? {
      return Err(SinkFailed);
    }
    SingleAxisMoves(from, axis, delta, o.value.stepsEmitted);
    SingleAxisTicks(cfg, axis, delta, StepPeriod(cfg, axis, cfg.feedMmMin), n);
    r := Ok(());
  }

  /** Everything a cycle sends: a seek at the seek rate, then a pull-off, a second seek and a pull-off at the feed rate,
      as far as it gets. */
  function CycleTicks(cfg: HomingConfig, axis: nat, high: Steps -> bool, start: Steps): seq<StepEvent>
    requires axis < AXES
  {
    var (fast, slow) := (StepPeriod(cfg, axis, cfg.seekMmMin), StepPeriod(cfg, axis, cfg.feedMmMin));
    var off := AxisTicks(cfg, axis, PulloffSteps(cfg, axis), slow);
    var (hit1, at1) := Seek(cfg, high, start, axis);
    var first := SeekTicks(cfg, high, start, axis, fast);
    if !hit1 then first
    else
      var back := Backed(cfg, at1, axis);
      var second := first + off + SeekTicks(cfg, high, back, axis, slow);
      if !Seek(cfg, high, back, axis).0 then second else second + off
  }

  /** `home_axis`: unless an output fails, the cycle ends with the result and at the position `HomeAxis` gives, having
      sent each phase at its own rate. */
  method RunHomeAxis(cfg: HomingConfig, axis: nat, high: Steps -> bool, rig: Rig)
    returns (r: Result<HomeAxisOutcome, HomingError>)
    modifies rig
    ensures r == Err(SinkFailed) || (r, rig.position) == HomeAxis(cfg, axis, high, old(rig.position))
    ensures r == Err(SinkFailed) || axis >= AXES || SearchSteps(cfg, axis) == 0 ||
            rig.sent == old(rig.sent) + CycleTicks(cfg, axis, high, old(rig.position))
  {
    if axis >= AXES {
      return Err(HomingError.InvalidConfig(axis));
    }
    if SearchSteps(cfg, axis) == 0 {
      return Err(HomingError.InvalidConfig(axis));
    }
    hide Seek, Backed, SearchSteps, AxisTicks, SeekTicks, StepPeriod, PulloffSteps;
    var seek := SeekIntoSwitch(cfg, axis, StepPeriod(cfg, axis, cfg.seekMmMin), high, rig);
    if seek.Err? {
      return Err(seek.error);
    }
    var off := PullOff(cfg, axis, rig);
    if off.Err? {
      return Err(off.error);
    }
    var locate := SeekIntoSwitch(cfg, axis, StepPeriod(cfg, axis, cfg.feedMmMin), high, rig);
    if locate.Err? {
      return Err(locate.error);
    }
    var clear := PullOff(cfg, axis, rig);
    if clear.Err? {
      return Err(clear.error);
    }
    r := Ok(HomeAxisOutcome(axis, MachineZeroSteps(cfg, axis)));
  }

  /** How far past the trip point the homed axis is, in the homing direction; negative is short of it. */
  function Depth(cfg: HomingConfig, axis: nat, trip: int, p: Steps): int
    requires axis < AXES
  {
    Sign(cfg, axis) * (p[axis] - trip)
  }

  /** The switch is tripped exactly from the trip point on. */
  ghost predicate TripsAt(cfg: HomingConfig, axis: nat, trip: int, high: Steps -> bool)
    requires axis < AXES
  {
    forall p: Steps :: (if cfg.limitInvert then !high(p) else high(p)) <==> Depth(cfg, axis, trip, p) >= 0
  }

  predicate OnlyMoves(axis: nat, p: Steps, q: Steps) {
    forall a: nat :: a < AXES && a != axis ==> q[a] == p[a]
  }

  lemma AlongDepth(cfg: HomingConfig, axis: nat, trip: int, p: Steps, k: int)
    requires axis < AXES
    ensures Depth(cfg, axis, trip, Along(p, axis, Sign(cfg, axis) * k)) == Depth(cfg, axis, trip, p) + k
    ensures Depth(cfg, axis, trip, Along(p, axis, -Sign(cfg, axis) * k)) == Depth(cfg, axis, trip, p) - k
  {
  }

  /** A seek reaches the trip point, or stays where it is past it, exactly when it is within the search distance;
      otherwise it stops after exactly that distance. */
  lemma SeekAgainstThreshold(cfg: HomingConfig, axis: nat, trip: int, high: Steps -> bool, p: Steps)
    requires axis < AXES && TripsAt(cfg, axis, trip, high)
    ensures var (hit, end) := Seek(cfg, high, p, axis);
            var gap := -Depth(cfg, axis, trip, p);
            && (hit <==> gap <= SearchSteps(cfg, axis))
            && Depth(cfg, axis, trip, end) == (if hit then MaxI(-gap, 0) else SearchSteps(cfg, axis) - gap)
            && OnlyMoves(axis, p, end)
  {
    var n := SearchSteps(cfg, axis);
    var k := SeekSteps(cfg, high, p, axis, n);
    var gap := -Depth(cfg, axis, trip, p);
    AlongDepth(cfg, axis, trip, p, k);
    if 0 <= gap <= n {
      AlongDepth(cfg, axis, trip, p, gap);
      assert Tripped(cfg, high, Along(p, axis, Sign(cfg, axis) * gap));
    }
    if gap < 0 {
      AlongDepth(cfg, axis, trip, p, 0);
      assert Tripped(cfg, high, Along(p, axis, Sign(cfg, axis) * 0));
    }
    if k < n {
      assert Tripped(cfg, high, Along(p, axis, Sign(cfg, axis) * k));
    }
    if 0 < k {
      AlongDepth(cfg, axis, trip, p, k - 1);
      assert !Tripped(cfg, high, Along(p, axis, Sign(cfg, axis) * (k - 1)));
    }
  }

  /** Against a switch that trips from a point on, homing succeeds exactly when the trip point is within the search
      distance and the pull-off, less any run past it, is too. Only the homed axis moves. It ends one pull-off
      clear of the trip point exactly when the start was at most one pull-off past it. */
  lemma HomingAgainstThreshold(cfg: HomingConfig, axis: nat, trip: int, high: Steps -> bool, start: Steps,
                               r: Result<HomeAxisOutcome, HomingError>, end: Steps, search: nat, pulloff: nat)
    requires axis < AXES && search == SearchSteps(cfg, axis) && pulloff == PulloffSteps(cfg, axis)
    requires TripsAt(cfg, axis, trip, high) && (r, end) == HomeAxis(cfg, axis, high, start)
    ensures var past := Depth(cfg, axis, trip, start);
            && (r.Ok? <==> 0 < search && -past <= search && pulloff - MaxI(past, 0) <= search)
            && (r.Ok? ==> (Depth(cfg, axis, trip, end) + pulloff == 0 <==> past <= pulloff))
            && (-past > search > 0 ==> end == Along(start, axis, Sign(cfg, axis) * search))
    ensures r == if r.Ok? then Ok(HomeAxisOutcome(axis, MachineZeroSteps(cfg, axis)))
                 else if search == 0 then Err(HomingError.InvalidConfig(axis)) else Err(NoContact(axis))
    ensures OnlyMoves(axis, start, end)
  {
    var (hit1, at1) := Seek(cfg, high, start, axis);
    SeekAgainstThreshold(cfg, axis, trip, high, start);
    var off := Backed(cfg, at1, axis);
    AlongDepth(cfg, axis, trip, at1, pulloff);
    var (hit2, at2) := Seek(cfg, high, off, axis);
    SeekAgainstThreshold(cfg, axis, trip, high, off);
    AlongDepth(cfg, axis, trip, at2, pulloff);
    AlongDepth(cfg, axis, trip, start, search);
    hide Seek, SearchSteps, PulloffSteps, MachineZeroSteps;
    if !hit1 && search > 0 {
      assert Depth(cfg, axis, trip, at1) == Depth(cfg, axis, trip, Along(start, axis, Sign(cfg, axis) * search));
    }
  }

  /** Where the switch is, once the homed position is called `zeroSteps`: at machine zero for an axis that homes towards
      positive, at the far end of its travel for one that homes towards negative; with a forced origin the machine is at
      zero itself. */
  lemma SwitchIsWhereItBelongs(cfg: HomingConfig, axis: nat, trip: int, high: Steps -> bool, start: Steps)
    requires axis < AXES && TripsAt(cfg, axis, trip, high)
    requires Depth(cfg, axis, trip, start) <= PulloffSteps(cfg, axis)
    requires HomeAxis(cfg, axis, high, start).0.Ok?
    ensures var (r, end) := HomeAxis(cfg, axis, high, start);
            var zero := r.value.zeroSteps;
            var switch := zero + (trip - end[axis]);
            var travel := MmToStepsSafe(cfg.maxTravelMm[axis], cfg.stepsPerMm[axis]);
            && r.value.axis == axis
            && (cfg.forceSetOrigin ==> zero == 0)
            && (!cfg.forceSetOrigin && cfg.homesPositive[axis] ==> switch == 0)
            && (!cfg.forceSetOrigin && !cfg.homesPositive[axis] && travel + PulloffSteps(cfg, axis) <= I32_MAX ==>
                  switch == travel)
  {
    var (r, end) := HomeAxis(cfg, axis, high, start);
    HomingAgainstThreshold(cfg, axis, trip, high, start, r, end, SearchSteps(cfg, axis), PulloffSteps(cfg, axis));
    hide HomeAxis, SearchSteps, PulloffSteps, MmToStepsSafe, TripsAt;
  }

  /** A distance in steps is the nearest whole number, none below zero and none beyond 32 bits. */
  lemma DistanceIsNearest(mm: real, spm: real)
    ensures var (n, x) := (MmToStepsSafe(mm, spm), mm * spm);
            && (0.0 <= x <= I32_MAX as real ==> 2.0 * AbsR(n as real - x) <= 1.0)
            && (x < 0.0 ==> n == 0) && (x > I32_MAX as real ==> n == I32_MAX)
  {
    var x := mm * spm;
    if x >= 0.0 {
      assert AbsR(Round(x) as real - x) <= 0.5;
    } else {
      assert Round(x) <= 0;
    }
  }

  /** A seek covers half as much again as the travel, a pull-off its own distance. */
  lemma SearchCoversTheTravel(cfg: HomingConfig, axis: nat)
    requires axis < AXES
    ensures SearchSteps(cfg, axis) == MmToStepsSafe(cfg.maxTravelMm[axis] * 3.0 / 2.0, cfg.stepsPerMm[axis])
    ensures PulloffSteps(cfg, axis) == MmToStepsSafe(cfg.pulloffMm, cfg.stepsPerMm[axis])
  {
    assert HOMING_SEARCH_SCALAR * cfg.maxTravelMm[axis] == cfg.maxTravelMm[axis] * 3.0 / 2.0;
    hide MmToStepsSafe;
  }

  /** A step at a rate takes the whole number of ticks nearest to its duration: `period` ticks a step are the commanded
      steps a minute to within half a tick each. */
  lemma PeriodIsItsRate(cfg: HomingConfig, axis: nat, rateMmMin: real)
    requires axis < AXES && rateMmMin > 0.0 && cfg.stepsPerMm[axis] > 0.0 && cfg.motion.tickHz > 0.0
    ensures var stepsPerSecond := StepsPerSecond(rateMmMin, cfg.stepsPerMm[axis]);
            var period := StepPeriod(cfg, axis, rateMmMin);
            stepsPerSecond >= F32_MIN_POSITIVE && cfg.motion.tickHz / stepsPerSecond <= U32_MAX as real ==>
              2.0 * AbsR(period as real - cfg.motion.tickHz / stepsPerSecond) <= 1.0
    ensures 60.0 * StepsPerSecond(rateMmMin, cfg.stepsPerMm[axis]) == rateMmMin * cfg.stepsPerMm[axis]
  {
    SixtySeconds(rateMmMin, cfg.stepsPerMm[axis]);
    hide TicksPerStep, StepsPerSecond;
    TicksAreNearest(cfg.motion.tickHz, StepsPerSecond(rateMmMin, cfg.stepsPerMm[axis]));
  }

  lemma SixtySeconds(rateMmMin: real, spm: real)
    ensures 60.0 * StepsPerSecond(rateMmMin, spm) == rateMmMin * spm
  {
    assert rateMmMin / 60.0 * 60.0 == rateMmMin;
  }

  lemma TicksAreNearest(tickHz: real, hz: real)
    requires tickHz > 0.0
    ensures hz >= F32_MIN_POSITIVE && tickHz / hz <= U32_MAX as real ==>
              2.0 * AbsR(TicksPerStep(tickHz, hz) as real - tickHz / hz) <= 1.0
  {
    if hz >= F32_MIN_POSITIVE {
      var x := tickHz / hz;
      assert x * hz == tickHz;
      assert x > 0.0;
    }
  }

  lemma RoundIsOdd(x: real)
    ensures Round(-x) == -Round(x)
  {
  }

  /** The step position a homed axis is set to lies inside the soft-limit envelope exactly when the origin is forced,
      or the axis homes towards positive with a pull-off that fits the travel, or it homes towards negative and
      travel and pull-off together are at most the one-step tolerance: on any real travel it does not. */
  lemma HomedZeroInEnvelopeIff(cfg: HomingConfig, planner: PlannerConfig, axis: nat)
    requires axis < AXES && planner.stepsPerMm == cfg.stepsPerMm
    requires cfg.maxTravelMm[axis] >= 0.0 && cfg.stepsPerMm[axis] > 0.0
    ensures var travel := MmToStepsSafe(cfg.maxTravelMm[axis], cfg.stepsPerMm[axis]);
            PlannerState.LowerLimit(planner, cfg.maxTravelMm, axis) <= MachineZeroSteps(cfg, axis) <= 1 <==>
              || cfg.forceSetOrigin
              || (cfg.homesPositive[axis] && PulloffSteps(cfg, axis) <= travel + 1)
              || (!cfg.homesPositive[axis] && travel + PulloffSteps(cfg, axis) <= 1)
  {
    TravelBounds(cfg.maxTravelMm[axis], cfg.stepsPerMm[axis]);
    hide MmToSteps, MmToStepsSafe;
  }

  /** The lower end of the envelope mirrors the travel, saturated or not. */
  lemma TravelBounds(mm: real, spm: real)
    requires mm >= 0.0 && spm > 0.0
    ensures var lower, travel := MmToSteps(-mm, spm), MmToStepsSafe(mm, spm);
            lower + travel == 0 || (lower == I32_MIN && travel == I32_MAX)
  {
    var x := mm * spm;
    assert x >= 0.0 && -mm * spm == -x;
    RoundIsOdd(x);
    assert Round(x) >= 0;
    var r := Round(x);
    assert Round(-mm * spm) == -r;
    hide Round;
  }
}

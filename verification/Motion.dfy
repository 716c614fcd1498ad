/** Realizing a block as bursts of step ticks, and what that costs in time (motion.rs:93-389, 471-543; step.rs). */
module Motion {
  import opened Base
  import opened Products
  import opened Blocks
  import opened Kinematics
  import opened Trapezoid
  import opened Dda

  const MAX_SYMBOLS_PER_BURST := 46
  const RMT_MAX_FIELD_LEN := 0x7FFF
  const SLOWEST_PERIOD_TICKS := 30_000

  datatype MotionConfig = MotionConfig(math: Libm, tickHz: real, stepPulseTicks: nat, minLowTicks: nat)
  {
    function MinPeriod(): nat { stepPulseTicks + minLowTicks }

    function MaxPeriod(): nat { MaxI(RMT_MAX_FIELD_LEN + stepPulseTicks, MinPeriod()) }

    /** The settings under which the generator runs at all. */
    predicate Usable() { tickHz > 0.0 && MinPeriod() > 0 }
  }

  datatype StepEvent = StepEvent(step: Mask, periodTicks: nat)

  datatype MotionError = InvalidConfig | BurstTooLong | Transport

  /** `StepTiming::period_ticks` for a block whose dominant axis makes `domSteps` steps over `mm`. */
  function PeriodTicks(cfg: MotionConfig, mm: real, domSteps: nat, vSq: real): (period: nat)
    requires cfg.Usable() && domSteps > 0
    ensures cfg.MinPeriod() <= period <= cfg.MaxPeriod()
  {
    var mmPerStep := mm / domSteps as real;
    var rate := if mmPerStep > 0.0 then cfg.math.sqrt(MaxR(vSq, 0.0)) / mmPerStep else 0.0;
    var clamped := MinR(rate, cfg.tickHz / cfg.MinPeriod() as real);
    if clamped <= 0.0 then Clamp(SLOWEST_PERIOD_TICKS, cfg.MinPeriod(), cfg.MaxPeriod())
    else Clamp(Round(cfg.tickHz / clamped), cfg.MinPeriod(), cfg.MaxPeriod())
  }

  /** The profile a block is realized with: its own speeds scaled by the override, under the ceiling. */
  function BlockProfile(b: Block, exitSq: real, scale: real, maxSpeedSq: Option<real>): Profile {
    ScaledProfile(2.0 * MaxR(b.acceleration, 0.0), MaxR(b.millimeters, 0.0), b.entrySq, b.nominalSq, exitSq, scale,
                  maxSpeedSq)
  }

  /** Distance at the midpoint of a tick. */
  function TravelAt(p: Profile, tick: nat, total: nat): real
    requires total > 0
  {
    (tick as real + 0.5) / total as real * p.length
  }

  function TickPeriod(cfg: MotionConfig, b: Block, p: Profile, tick: nat): nat
    requires cfg.Usable() && b.stepEventCount > 0 && DominantCount(b.steps) > 0
  {
    PeriodTicks(cfg, b.millimeters, DominantCount(b.steps), VelocitySqAt(p, TravelAt(p, tick, b.stepEventCount)))
  }

  /** A block whose tick count is its dominant axis's step count, as every builder of blocks makes it. */
  predicate Steppable(b: Block) {
    b.stepEventCount == DominantCount(b.steps) > 0
  }

  function EventAt(cfg: MotionConfig, b: Block, p: Profile, tick: nat): StepEvent
    requires cfg.Usable() && Steppable(b)
  {
    StepEvent(MaskAt(b.steps, tick), TickPeriod(cfg, b, p, tick))
  }

  /** Every tick of a block, in order. */
  function Events(cfg: MotionConfig, b: Block, p: Profile): (e: seq<StepEvent>)
    requires cfg.Usable() && Steppable(b)
    ensures |e| == b.stepEventCount
  {
    seq(b.stepEventCount, t requires 0 <= t < b.stepEventCount => EventAt(cfg, b, p, t))
  }

  function BurstCount(ticks: nat): nat { (ticks + MAX_SYMBOLS_PER_BURST - 1) / MAX_SYMBOLS_PER_BURST }

  function BurstAt(e: seq<StepEvent>, k: nat): seq<StepEvent>
    requires k * MAX_SYMBOLS_PER_BURST <= |e|
  {
    var from := k * MAX_SYMBOLS_PER_BURST;
    var to := if from + MAX_SYMBOLS_PER_BURST <= |e| then from + MAX_SYMBOLS_PER_BURST else |e|;
    e[from..to]
  }

  /** The ticks cut into full bursts, the last one carrying what is left. */
  function Bursts(e: seq<StepEvent>): (b: seq<seq<StepEvent>>)
    ensures |b| == BurstCount(|e|)
  {
    seq(BurstCount(|e|), k requires 0 <= k < BurstCount(|e|) => BurstAt(e, k))
  }

  function Flatten<T>(s: seq<seq<T>>): seq<T> {
    if s == [] then [] else Flatten(s[..|s| - 1]) + s[|s| - 1]
  }

  lemma {:induction false} FlattenPrefix(e: seq<StepEvent>, k: nat)
    requires k <= BurstCount(|e|)
    ensures Flatten(Bursts(e)[..k]) == e[..if k * MAX_SYMBOLS_PER_BURST <= |e| then k * MAX_SYMBOLS_PER_BURST else |e|]
  {
    if k > 0 {
      FlattenPrefix(e, k - 1);
      var b := Bursts(e)[..k];
      assert b[..k - 1] == Bursts(e)[..k - 1];
      assert b[k - 1] == BurstAt(e, k - 1);
    } else {
      assert Bursts(e)[..0] == [];
    }
  }

  /** The bursts carry every tick once, in order; each but the last is full and the last is not empty. */
  lemma BurstsAreExact(e: seq<StepEvent>)
    ensures Flatten(Bursts(e)) == e
    ensures forall k :: 0 <= k < |Bursts(e)| - 1 ==> |Bursts(e)[k]| == MAX_SYMBOLS_PER_BURST
    ensures e != [] ==> 1 <= |Bursts(e)[|Bursts(e)| - 1]| <= MAX_SYMBOLS_PER_BURST
  {
    FlattenPrefix(e, BurstCount(|e|));
    assert Bursts(e)[..BurstCount(|e|)] == Bursts(e);
  }

  /** A step output that records what it accepts and may stop accepting. */
  class StepSink {
    const directionWorks: bool
    const capacity: Option<nat>
    var dir: Mask
    var bursts: seq<seq<StepEvent>>

    constructor (directionWorks: bool, capacity: Option<nat>)
      ensures bursts == [] && this.directionWorks == directionWorks && this.capacity == capacity
    {
      this.directionWorks := directionWorks;
      this.capacity := capacity;
      dir := [true, true, true, true];
      bursts := [];
    }

    method SetDirection(d: Mask) returns (r: Result<(), MotionError>)
      modifies `dir
      ensures r == if directionWorks then Ok(()) else Err(Transport)
      ensures dir == if directionWorks then d else old(dir)
    {
      if !directionWorks {
        return Err(Transport);
      }
      dir := d;
      r := Ok(());
    }

    method EmitBurst(burst: seq<StepEvent>) returns (r: Result<(), MotionError>)
      modifies `bursts
      ensures r == if |burst| > MAX_SYMBOLS_PER_BURST then Err(BurstTooLong)
                   else if capacity.Some? && |old(bursts)| >= capacity.value then Err(Transport) else Ok(())
      ensures bursts == if r.Ok? then old(bursts) + [burst] else old(bursts)
    {
      if |burst| > MAX_SYMBOLS_PER_BURST {
        return Err(BurstTooLong);
      }
      if capacity.Some? && |bursts| >= capacity.value {
        return Err(Transport);
      }
      bursts := bursts + [burst];
      r := Ok(());
    }
  }

  /** `after` is `before` and the first few of `all`. */
  predicate PartlySent(before: seq<seq<StepEvent>>, after: seq<seq<StepEvent>>, all: seq<seq<StepEvent>>) {
    |before| <= |after| <= |before| + |all| && after == before + all[..|after| - |before|]
  }

  lemma OneMoreSent(before: seq<seq<StepEvent>>, all: seq<seq<StepEvent>>, k: nat)
    requires k < |all|
    ensures before + all[..k] + [all[k]] == before + all[..k + 1]
  {
  }

  lemma FullBurst(e: seq<StepEvent>, k: nat, tick: nat)
    requires k * MAX_SYMBOLS_PER_BURST < tick <= |e|
    requires tick == (k + 1) * MAX_SYMBOLS_PER_BURST || (tick == |e| && tick <= (k + 1) * MAX_SYMBOLS_PER_BURST)
    ensures k < |Bursts(e)| && Bursts(e)[k] == e[k * MAX_SYMBOLS_PER_BURST..tick]
    ensures tick == |e| ==> |Bursts(e)| == k + 1
  {
  }

  lemma EventsInOrder(cfg: MotionConfig, b: Block, p: Profile, tick: nat)
    requires cfg.Usable() && Steppable(b) && tick < b.stepEventCount
    ensures Events(cfg, b, p)[tick] == StepEvent(MaskAt(b.steps, tick), TickPeriod(cfg, b, p, tick))
  {
    hide MaskAt, TickPeriod;
  }

  /** The first `tick` ticks have gone out in `sent` whole bursts, but for those waiting in `burst`. */
  predicate Carried(before: seq<seq<StepEvent>>, now: seq<seq<StepEvent>>, burst: seq<StepEvent>, e: seq<StepEvent>,
                    sent: nat, tick: nat)
  {
    && sent * MAX_SYMBOLS_PER_BURST <= tick <= (sent + 1) * MAX_SYMBOLS_PER_BURST && tick <= |e|
    && sent <= |Bursts(e)| && (tick > 0 ==> tick > sent * MAX_SYMBOLS_PER_BURST)
    && burst == e[sent * MAX_SYMBOLS_PER_BURST..tick]
    && now == before + Bursts(e)[..sent]
  }

  lemma NoneCarried(before: seq<seq<StepEvent>>, e: seq<StepEvent>)
    ensures Carried(before, before, [], e, 0, 0)
  {
  }

  lemma OneMoreCarried(before: seq<seq<StepEvent>>, now: seq<seq<StepEvent>>, burst: seq<StepEvent>, e: seq<StepEvent>,
                       sent: nat, tick: nat)
    requires Carried(before, now, burst, e, sent, tick) && tick < |e|
    ensures |burst| <= MAX_SYMBOLS_PER_BURST && PartlySent(before, now, Bursts(e))
    ensures if |burst| == MAX_SYMBOLS_PER_BURST then Carried(before, now + [burst], [e[tick]], e, sent + 1, tick + 1)
            else Carried(before, now, burst + [e[tick]], e, sent, tick + 1)
  {
    hide Bursts;
    var from := sent * MAX_SYMBOLS_PER_BURST;
    if |burst| == MAX_SYMBOLS_PER_BURST {
      FullBurst(e, sent, tick);
      OneMoreSent(before, Bursts(e), sent);
    }
    assert e[from..tick] + [e[tick]] == e[from..tick + 1];
  }

  lemma AllCarried(before: seq<seq<StepEvent>>, now: seq<seq<StepEvent>>, burst: seq<StepEvent>, e: seq<StepEvent>,
                   sent: nat)
    requires Carried(before, now, burst, e, sent, |e|)
    ensures |burst| <= MAX_SYMBOLS_PER_BURST && PartlySent(before, now, Bursts(e))
    ensures (if burst != [] then now + [burst] else now) == before + Bursts(e)
  {
    hide Bursts;
    if burst != [] {
      FullBurst(e, sent, |e|);
      OneMoreSent(before, Bursts(e), sent);
      assert Bursts(e)[..sent + 1] == Bursts(e);
    } else {
      NoTicksNoBursts();
    }
  }

  lemma NoTicksNoBursts()
    ensures Bursts([]) == []
  {
  }

  /** `SegmentGenerator::emit_profile`: the ticks reach the sink in order and whole; a sink that fails has received
      a prefix of the bursts, and is never handed one that is too long. */
  method EmitProfile(cfg: MotionConfig, b: Block, p: Profile, sink: StepSink) returns (r: Result<nat, MotionError>)
    requires cfg.Usable() && Steppable(b)
    modifies sink`bursts
    ensures r.Ok? ==> r.value == b.stepEventCount && sink.bursts == old(sink.bursts) + Bursts(Events(cfg, b, p))
    ensures r.Err? ==> r.error == Transport && PartlySent(old(sink.bursts), sink.bursts, Bursts(Events(cfg, b, p)))
  {
    hide TickPeriod, MaskAt, Error, DominantAxis, Events, DominantCount, ErrorsAt, Carried, Bursts, PartlySent;
    ghost var e := Events(cfg, b, p);
    var total := b.stepEventCount;
    var dominant := DominantAxis(b.steps);
    var error: seq<nat> := [0, 0, 0, 0];
    var burst: seq<StepEvent> := [];
    ghost var sent: nat := 0;
    var tick: nat := 0;
    MadeBoundsAll(b.steps);
    NoneCarried(sink.bursts, e);
    while tick < total
      invariant tick <= total && |error| == AXES
      invariant ErrorsAt(b.steps, dominant, tick, error)
      invariant Carried(old(sink.bursts), sink.bursts, burst, e, sent, tick)
    {
      var step: Mask;
      step, error := DistributeTick(b.steps, dominant, error, tick);
      var event := StepEvent(step, TickPeriod(cfg, b, p, tick));
      EventsInOrder(cfg, b, p, tick);
      OneMoreCarried(old(sink.bursts), sink.bursts, burst, e, sent, tick);
      if |burst| == MAX_SYMBOLS_PER_BURST {
        var sunk := sink.EmitBurst(burst);
        if sunk.Err? {
          return Err(sunk.error);
        }
        burst := [];
        sent := sent + 1;
        assert burst + [event] == [event];
      }
      burst := burst + [event];
      tick := tick + 1;
    }
    AllCarried(old(sink.bursts), sink.bursts, burst, e, sent);
    if burst != [] {
      var sunk := sink.EmitBurst(burst);
      if sunk.Err? {
        return Err(sunk.error);
      }
    }
    r := Ok(total);
  }

  /** The Bresenham remainders of the subordinate axes after `tick` ticks. */
  predicate ErrorsAt(s: Steps, dominant: nat, tick: nat, error: seq<nat>)
    requires DominantCount(s) > 0
  {
    |error| == AXES
    && forall a :: 0 <= a < AXES && a != dominant ==> error[a] == Error(AbsI(s[a]), DominantCount(s), tick)
  }

  lemma MadeBoundsAll(s: Steps)
    requires DominantCount(s) > 0
    ensures ErrorsAt(s, DominantAxis(s), 0, [0, 0, 0, 0])
  {
    forall a | 0 <= a < AXES
      ensures Error(AbsI(s[a]), DominantCount(s), 0) == 0
    {
      MadeBounds(AbsI(s[a]), DominantCount(s), 0);
    }
  }

  /** One tick of the integer DDA: the dominant axis steps, the others when their error overflows. */
  method DistributeTick(s: Steps, dominant: nat, before: seq<nat>, ghost tick: nat)
    returns (step: Mask, error: seq<nat>)
    requires DominantCount(s) > 0 && dominant == DominantAxis(s) && |before| == AXES && tick < DominantCount(s)
    requires ErrorsAt(s, dominant, tick, before)
    ensures step == MaskAt(s, tick) && |error| == AXES && ErrorsAt(s, dominant, tick + 1, error)
  {
    var domCount := AbsI(s[dominant]);
    step := [false, false, false, false];
    error := before;
    DominantStepsEveryTick(s, tick);
    ghost var goal := MaskAt(s, tick);
    assert forall a: nat :: a < AXES ==> goal[a] == StepsOn(AbsI(s[a]), domCount, tick);
    hide Made, Error, MaskAt;
    var axis: nat := 0;
    while axis < AXES
      invariant axis <= AXES && |error| == AXES && |step| == AXES
      invariant forall a: nat :: a < axis ==> step[a] == goal[a]
      invariant forall a: nat :: axis <= a < AXES ==> !step[a]
      invariant forall a :: 0 <= a < axis && a != dominant ==> error[a] == Error(AbsI(s[a]), domCount, tick + 1)
      invariant forall a :: axis <= a < AXES ==> error[a] == before[a]
    {
      if axis == dominant {
        step := step[axis := AbsI(s[axis]) != 0];
      } else {
        BresenhamStep(AbsI(s[axis]), domCount, tick);
        var e := error[axis] + AbsI(s[axis]);
        if e >= domCount {
          error := error[axis := e - domCount];
          step := step[axis := true];
        } else {
          error := error[axis := e];
        }
      }
      axis := axis + 1;
    }
  }

  /** `SegmentGenerator::run_block_scaled`. */
  method RunBlockScaled(cfg: MotionConfig, b: Block, exitSq: real, scale: real, maxSpeedSq: Option<real>, sink: StepSink)
    returns (r: Result<nat, MotionError>)
    requires b.stepEventCount == DominantCount(b.steps)
    modifies sink
    ensures !cfg.Usable() ==> r == Err(InvalidConfig) && sink.bursts == old(sink.bursts)
    ensures cfg.Usable() && b.stepEventCount == 0 ==> r == Ok(0) && sink.bursts == old(sink.bursts)
    ensures cfg.Usable() && b.stepEventCount > 0 && r.Ok? ==>
              r.value == b.stepEventCount && sink.dir == DirOf(b.steps)
              && sink.bursts == old(sink.bursts) + Bursts(Events(cfg, b, BlockProfile(b, exitSq, scale, maxSpeedSq)))
    ensures cfg.Usable() && b.stepEventCount > 0 && r.Err? ==>
              r.error == Transport
              && PartlySent(old(sink.bursts), sink.bursts,
                            Bursts(Events(cfg, b, BlockProfile(b, exitSq, scale, maxSpeedSq))))
  {
    if !cfg.Usable() {
      return Err(InvalidConfig);
    }
    if b.stepEventCount == 0 {
      return Ok(0);
    }
    var p := BlockProfile(b, exitSq, scale, maxSpeedSq);
    var latched := sink.SetDirection(DirOf(b.steps));
    if latched.Err? {
      assert Bursts(Events(cfg, b, p))[..0] == [];
      return Err(latched.error);
    }
    r := EmitProfile(cfg, b, p, sink);
  }

  /** Ticks spent on the first `n` steps of a block. */
  function TicksUpTo(cfg: MotionConfig, b: Block, p: Profile, n: nat): nat
    requires cfg.Usable() && Steppable(b)
  {
    if n == 0 then 0 else TicksUpTo(cfg, b, p, n - 1) + TickPeriod(cfg, b, p, n - 1)
  }

  function SumPeriods(e: seq<StepEvent>): nat {
    if e == [] then 0 else SumPeriods(e[..|e| - 1]) + e[|e| - 1].periodTicks
  }

  /** What the estimator charges for a block: the unscaled profile, tick by tick. */
  function BlockTicks(cfg: MotionConfig, b: Block, exitSq: real): nat {
    if !cfg.Usable() || !Steppable(b) then 0
    else TicksUpTo(cfg, b, EstimatedProfile(b, exitSq), b.stepEventCount)
  }

  /** The estimator floors the speeds itself instead of going through the override. */
  function EstimatedProfile(b: Block, exitSq: real): Profile {
    PlanProfile(2.0 * MaxR(b.acceleration, 0.0), MaxR(b.millimeters, 0.0), MaxR(b.entrySq, 0.0), MaxR(b.nominalSq, 0.0),
                MaxR(exitSq, 0.0))
  }

  /** `estimate_block_time`, in seconds. */
  method EstimateBlockTime(b: Block, exitSq: real, cfg: MotionConfig) returns (seconds: real)
    requires b.stepEventCount == DominantCount(b.steps)
    ensures cfg.Usable() ==> seconds == BlockTicks(cfg, b, exitSq) as real / cfg.tickHz
    ensures !cfg.Usable() ==> seconds == 0.0
  {
    if !cfg.Usable() {
      return 0.0;
    }
    if b.stepEventCount == 0 {
      return 0.0;
    }
    var p := EstimatedProfile(b, exitSq);
    var ticks: nat := 0;
    var tick: nat := 0;
    while tick < b.stepEventCount
      invariant tick <= b.stepEventCount && ticks == TicksUpTo(cfg, b, p, tick)
    {
      ticks := ticks + TickPeriod(cfg, b, p, tick);
      tick := tick + 1;
    }
    seconds := ticks as real / cfg.tickHz;
  }

  /** At 100 % with no ceiling the override changes nothing. */
  lemma UnscaledProfile(b: Block, exitSq: real)
    ensures BlockProfile(b, exitSq, 1.0, None) == EstimatedProfile(b, exitSq)
  {
    MulByZero(b.entrySq);
    MulByZero(b.nominalSq);
    MulByZero(exitSq);
    assert ScaleSq(1.0) == 1.0;
    hide Mul, PlanProfile, ScaleSq;
  }

  lemma {:induction false} SumOfEvents(cfg: MotionConfig, b: Block, p: Profile, n: nat)
    requires cfg.Usable() && Steppable(b) && n <= b.stepEventCount
    ensures SumPeriods(Events(cfg, b, p)[..n]) == TicksUpTo(cfg, b, p, n)
  {
    hide TickPeriod, MaskAt, DominantCount;
    if n > 0 {
      SumOfEvents(cfg, b, p, n - 1);
      var e := Events(cfg, b, p)[..n];
      assert e[..n - 1] == Events(cfg, b, p)[..n - 1];
      assert e[n - 1] == EventAt(cfg, b, p, n - 1);
    }
  }

  /** The estimate is the motion: the ticks charged to a block are the periods the generator emits for it. */
  lemma EstimateMatchesMotion(cfg: MotionConfig, b: Block, exitSq: real)
    requires cfg.Usable() && Steppable(b)
    ensures BlockTicks(cfg, b, exitSq) == SumPeriods(Flatten(Bursts(Events(cfg, b, BlockProfile(b, exitSq, 1.0, None)))))
  {
    var p := BlockProfile(b, exitSq, 1.0, None);
    UnscaledProfile(b, exitSq);
    SumOfEvents(cfg, b, p, b.stepEventCount);
    var e := Events(cfg, b, p);
    assert e[..b.stepEventCount] == e;
    BurstsAreExact(e);
  }

  /** Live machine position, fed the ticks as they are emitted. */
  class StepCounter {
    var position: Steps
    var dir: Mask

    constructor ()
      ensures position == ORIGIN
    {
      position := ORIGIN;
      dir := [true, true, true, true];
    }

    method SetDirection(d: Mask)
      modifies this
      ensures dir == d && position == old(position)
    {
      dir := d;
    }

    method AdvanceBy(event: StepEvent)
      modifies this
      ensures position == Advance(old(position), dir, event.step) && dir == old(dir)
    {
      var axis: nat := 0;
      var start := position;
      while axis < AXES
        invariant axis <= AXES && dir == old(dir)
        invariant forall a :: 0 <= a < axis ==> position[a] == AdvanceAxis(start[a], dir[a], event.step[a])
        invariant forall a :: axis <= a < AXES ==> position[a] == start[a]
      {
        if event.step[axis] {
          position := position[axis := AdvanceAxis(position[axis], dir[axis], true)];
        }
        axis := axis + 1;
      }
    }

    method SyncTo(p: Steps)
      modifies this
      ensures position == p && dir == old(dir)
    {
      position := p;
    }

    /** Follow a whole block: latch its direction, then count every tick. */
    method FollowBlock(cfg: MotionConfig, b: Block, p: Profile)
      requires cfg.Usable() && Steppable(b)
      modifies this
      ensures position == LiveAfter(old(position), b.steps, b.stepEventCount)
    {
      SetDirection(DirOf(b.steps));
      var tick: nat := 0;
      while tick < b.stepEventCount
        invariant tick <= b.stepEventCount && dir == DirOf(b.steps)
        invariant position == LiveAfter(old(position), b.steps, tick)
      {
        AdvanceBy(EventAt(cfg, b, p, tick));
        tick := tick + 1;
      }
    }
  }
}

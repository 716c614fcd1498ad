/** Stepping one tick at a time towards an edge (motion.rs:391-471). */
module Probing {
  import opened Base
  import opened Blocks
  import opened Kinematics
  import opened Dda
  import opened Motion

  /** What is read before each tick: the reading may depend on how many ticks have gone by and on the position. */
  type Edge = (nat, Steps) -> bool

  /** Where a block started at `from` is after `t` ticks. */
  function Moved(from: Steps, s: Steps, t: nat): Steps
    requires DominantCount(s) > 0
  {
    [from[0] + Travelled(s, 0, t), from[1] + Travelled(s, 1, t),
     from[2] + Travelled(s, 2, t), from[3] + Travelled(s, 3, t)]
  }

  /** The machine as the stepper sees it: outputs that may fail, and a position that follows the ticks sent. */
  class Rig {
    const directionWorks: bool
    const capacity: Option<nat>
    var dir: Mask
    var position: Steps
    var sent: seq<StepEvent>

    constructor (position: Steps, directionWorks: bool, capacity: Option<nat>)
      ensures this.position == position && sent == []
    {
      this.directionWorks := directionWorks;
      this.capacity := capacity;
      this.position := position;
      dir := [true, true, true, true];
      sent := [];
    }

    method SetDirection(d: Mask) returns (r: Result<(), MotionError>)
      modifies `dir
      ensures r == if directionWorks then Ok(()) else Err(Transport)
      ensures r.Ok? ==> dir == d
    {
      if !directionWorks {
        return Err(Transport);
      }
      dir := d;
      r := Ok(());
    }

    method EmitTick(event: StepEvent) returns (r: Result<(), MotionError>)
      modifies `position, `sent
      ensures r.Err? ==> r.error == Transport && position == old(position) && sent == old(sent)
      ensures r.Ok? ==> sent == old(sent) + [event] && position == Shifted(old(position), dir, event.step)
    {
      if capacity.Some? && |sent| >= capacity.value {
        return Err(Transport);
      }
      sent := sent + [event];
      position := Shifted(position, dir, event.step);
      r := Ok(());
    }
  }

  function Shift(p: int, positive: bool, step: bool): int {
    if !step then p else if positive then p + 1 else p - 1
  }

  /** The machine moved by one tick. */
  function Shifted(p: Steps, dir: Mask, step: Mask): Steps {
    [Shift(p[0], dir[0], step[0]), Shift(p[1], dir[1], step[1]),
     Shift(p[2], dir[2], step[2]), Shift(p[3], dir[3], step[3])]
  }

  lemma ShiftedAxis(n: nat, dom: nat, t: nat, p: int, s: int)
    requires 0 < dom && n == AbsI(s) <= dom
    ensures Shift(p + Signed(s, Made(n, dom, t)), s >= 0, StepsOn(n, dom, t)) == p + Signed(s, Made(n, dom, t + 1))
  {
    BresenhamStep(n, dom, t);
    hide Made, Error;
  }

  lemma MovedByOne(from: Steps, s: Steps, t: nat)
    requires DominantCount(s) > 0
    ensures Shifted(Moved(from, s, t), DirOf(s), MaskAt(s, t)) == Moved(from, s, t + 1)
  {
    forall a: nat | a < AXES
      ensures Shift(from[a] + Travelled(s, a, t), s[a] >= 0, StepsOn(AbsI(s[a]), DominantCount(s), t)) ==
              from[a] + Travelled(s, a, t + 1)
    {
      ShiftedAxis(AbsI(s[a]), DominantCount(s), t, from[a], s[a]);
    }
    hide Travelled, StepsOn, Shift, DominantCount;
  }

  lemma NotMoved(from: Steps, s: Steps)
    requires DominantCount(s) > 0
    ensures Moved(from, s, 0) == from
  {
    forall a: nat | a < AXES
      ensures Travelled(s, a, 0) == 0
    {
      MadeBounds(AbsI(s[a]), DominantCount(s), 0);
    }
    hide Travelled;
  }

  /** Ticks taken before the walk stops: up to the first true reading, or all of them. */
  function StopsAfter(edge: Edge, from: Steps, s: Steps, total: nat, t: nat): (k: nat)
    requires DominantCount(s) > 0 && t <= total
    ensures t <= k <= total
    ensures forall j: nat :: t <= j < k ==> !edge(j, Moved(from, s, j))
    ensures k < total ==> edge(k, Moved(from, s, k))
    decreases total - t
  {
    if t == total || edge(t, Moved(from, s, t)) then t else StopsAfter(edge, from, s, total, t + 1)
  }

  datatype ProbeOutcome = ProbeOutcome(triggered: bool, stepsEmitted: nat)

  /** The outcome of a probe that starts at `from`: it triggers exactly when some reading on its way is true, and it
      stops at the first of them. */
  function Probed(edge: Edge, from: Steps, b: Block): (o: ProbeOutcome)
    requires b.stepEventCount == DominantCount(b.steps)
    ensures b.stepEventCount > 0 ==>
              && (o.triggered <==> exists j: nat :: j <= b.stepEventCount && edge(j, Moved(from, b.steps, j)))
              && (forall j: nat :: j < o.stepsEmitted ==> !edge(j, Moved(from, b.steps, j)))
              && (if o.triggered then edge(o.stepsEmitted, Moved(from, b.steps, o.stepsEmitted))
                  else o.stepsEmitted == b.stepEventCount)
  {
    if b.stepEventCount == 0 then ProbeOutcome(edge(0, from), 0)
    else
      var k := StopsAfter(edge, from, b.steps, b.stepEventCount, 0);
      ProbeOutcome(edge(k, Moved(from, b.steps, k)), k)
  }

  function ProbePeriod(cfg: MotionConfig, period: nat): nat {
    Clamp(period, cfg.MinPeriod(), cfg.MaxPeriod())
  }

  /** The ticks of the first `k` steps of a probe. */
  function ProbeEvents(cfg: MotionConfig, b: Block, period: nat, k: nat): (e: seq<StepEvent>)
    requires DominantCount(b.steps) > 0
    ensures |e| == k
  {
    seq(k, t requires 0 <= t < k => StepEvent(MaskAt(b.steps, t), ProbePeriod(cfg, period)))
  }

  /** `ProbeStepper::run_probe`. */
  method RunProbe(cfg: MotionConfig, b: Block, period: nat, edge: Edge, rig: Rig)
    returns (r: Result<ProbeOutcome, MotionError>)
    requires b.stepEventCount == DominantCount(b.steps)
    modifies rig
    ensures !cfg.Usable() ==> r == Err(InvalidConfig) && rig.position == old(rig.position) && rig.sent == old(rig.sent)
    ensures cfg.Usable() && r.Err? ==> r.error == Transport
    ensures cfg.Usable() && r.Ok? ==> r.value == Probed(edge, old(rig.position), b)
    ensures cfg.Usable() && b.stepEventCount == 0 ==> r.Ok? && rig.position == old(rig.position) && rig.sent == old(rig.sent)
    ensures cfg.Usable() && r.Ok? && b.stepEventCount > 0 ==>
              && rig.position == Moved(old(rig.position), b.steps, r.value.stepsEmitted)
              && rig.sent == old(rig.sent) + ProbeEvents(cfg, b, period, r.value.stepsEmitted)
  {
    hide Moved, MaskAt, Shifted, DominantAxis, Error, DirOf, StopsAfter, ProbeEvents, ErrorsAt, DominantCount;
    if !cfg.Usable() {
      return Err(InvalidConfig);
    }
    var total := b.stepEventCount;
    if total == 0 {
      return Ok(ProbeOutcome(edge(0, rig.position), 0));
    }
    var latched := rig.SetDirection(DirOf(b.steps));
    if latched.Err? {
      return Err(latched.error);
    }
    ghost var from := rig.position;
    var dominant := DominantAxis(b.steps);
    var error: seq<nat> := [0, 0, 0, 0];
    var emitted: nat := 0;
    NotMoved(from, b.steps);
    MadeBoundsAll(b.steps);
    assert ProbeEvents(cfg, b, period, 0) == [];
    while emitted < total
      invariant emitted <= total && |error| == AXES && ErrorsAt(b.steps, dominant, emitted, error)
      invariant rig.dir == DirOf(b.steps) && rig.position == Moved(from, b.steps, emitted)
      invariant StopsAfter(edge, from, b.steps, total, emitted) == StopsAfter(edge, from, b.steps, total, 0)
      invariant rig.sent == old(rig.sent) + ProbeEvents(cfg, b, period, emitted)
    {
      StopsStep(edge, from, b.steps, total, emitted);
      if edge(emitted, rig.position) {
        return Ok(ProbeOutcome(true, emitted));
      }
      var step: Mask;
      step, error := DistributeTick(b.steps, dominant, error, emitted);
      MovedByOne(from, b.steps, emitted);
      var sunk := rig.EmitTick(StepEvent(step, ProbePeriod(cfg, period)));
      if sunk.Err? {
        return Err(sunk.error);
      }
      OneMoreEvent(cfg, b, period, emitted);
      emitted := emitted + 1;
    }
    StopsStep(edge, from, b.steps, total, emitted);
    r := Ok(ProbeOutcome(edge(emitted, rig.position), emitted));
  }

  lemma StopsStep(edge: Edge, from: Steps, s: Steps, total: nat, t: nat)
    requires DominantCount(s) > 0 && t <= total
    ensures StopsAfter(edge, from, s, total, t) ==
            if t == total || edge(t, Moved(from, s, t)) then t else StopsAfter(edge, from, s, total, t + 1)
  {
    hide Moved;
  }

  lemma OneMoreEvent(cfg: MotionConfig, b: Block, period: nat, k: nat)
    requires DominantCount(b.steps) > 0
    ensures ProbeEvents(cfg, b, period, k + 1) ==
            ProbeEvents(cfg, b, period, k) + [StepEvent(MaskAt(b.steps, k), ProbePeriod(cfg, period))]
  {
    hide MaskAt, ProbePeriod;
  }

  /** Every tick of a probe lasts the period asked for, or the nearest that the pulse timing can make. */
  lemma ProbeTicksLastTheirPeriod(cfg: MotionConfig, b: Block, period: nat, k: nat, t: nat, other: nat)
    requires DominantCount(b.steps) > 0 && cfg.Usable() && t < k && cfg.MinPeriod() <= other <= cfg.MaxPeriod()
    ensures var ticks := ProbeEvents(cfg, b, period, k)[t].periodTicks;
            cfg.MinPeriod() <= ticks <= cfg.MaxPeriod() && AbsI(ticks - period) <= AbsI(other - period)
    ensures ProbeEvents(cfg, b, period, k)[t].step == MaskAt(b.steps, t)
  {
    hide MaskAt, DominantCount;
    assert ProbeEvents(cfg, b, period, k)[t] == StepEvent(MaskAt(b.steps, t), ProbePeriod(cfg, period));
  }
}

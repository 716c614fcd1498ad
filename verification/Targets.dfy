/** Where a command goes: what its axis words mean for the step position the planner ends at (planner.rs:672-871,
    917-944, 1482-1522). */
module Targets {
  import opened Base
  import opened Products
  import opened Blocks
  import opened Commands
  import opened Kinematics
  import opened LookAhead
  import opened PlannerState
  import opened BlockLaws
  import opened Arcs
  import opened Helix

  /** How far the step count `k` is from the exact step coordinate `w`. */
  function Off(k: int, w: real): real { AbsR(k as real - w) }

  /** `p` is the 32-bit step count nearest to `w`, and of two equally near ones the one further from zero. */
  ghost predicate Nearest(p: int, w: real) {
    && I32_MIN <= p <= I32_MAX
    && forall k: int :: I32_MIN <= k <= I32_MAX && k != p ==>
                          Off(p, w) < Off(k, w) || (Off(p, w) == Off(k, w) && AbsI(k) < AbsI(p))
  }

  lemma RoundIsNearest(x: real)
    ensures var p := Round(x);
            && (x >= 0.0 ==> -0.5 < p as real - x <= 0.5 && p >= 0)
            && (x < 0.0 ==> -0.5 <= p as real - x < 0.5 && p <= 0)
  {
  }

  lemma StepsAreNearest(mm: real, spm: real)
    ensures Nearest(MmToSteps(mm, spm), Mul(mm, spm))
  {
    var w := Mul(mm, spm);
    var p := MmToSteps(mm, spm);
    RoundIsNearest(w);
    forall k: int | I32_MIN <= k <= I32_MAX && k != p
      ensures Off(p, w) < Off(k, w) || (Off(p, w) == Off(k, w) && AbsI(k) < AbsI(p))
    {
      NearerThan(p, k, w);
    }
  }

  lemma NearerThan(p: int, k: int, w: real)
    requires p == Clamp(Round(w), I32_MIN, I32_MAX) && I32_MIN <= k <= I32_MAX && k != p
    ensures Off(p, w) < Off(k, w) || (Off(p, w) == Off(k, w) && AbsI(k) < AbsI(p))
  {
    RoundIsNearest(w);
    hide Round;
    if k < p {
      assert k as real + 1.0 <= p as real;
    } else {
      assert p as real + 1.0 <= k as real;
    }
  }

  lemma BothNearest(p: int, q: int, w: real)
    requires Nearest(p, w) && Nearest(q, w)
    ensures p == q
  {
    var (dp, dq) := (Off(p, w), Off(q, w));
    hide Off;
    assert p != q ==> dp < dq || (dp == dq && AbsI(q) < AbsI(p));
  }

  lemma ExactIsNearest(q: int, w: real)
    requires I32_MIN <= q <= I32_MAX && w == q as real
    ensures Nearest(q, w)
  {
    forall k: int | I32_MIN <= k <= I32_MAX && k != q
      ensures Off(q, w) < Off(k, w)
    {
    }
  }

  /** On whole steps nearest is exact. */
  lemma NearestIsUnique(p: int, q: int, w: real)
    requires Nearest(p, w)
    ensures Nearest(q, w) ==> q == p
    ensures w == q as real && I32_MIN <= q <= I32_MAX ==> p == q
  {
    if w == q as real && I32_MIN <= q <= I32_MAX {
      ExactIsNearest(q, w);
    }
    if Nearest(q, w) {
      BothNearest(p, q, w);
    }
  }

  /** Millimetres, or degrees, in one unit of a word. */
  function UnitMm(cfg: PlannerConfig, units: Units, a: nat): real
    requires |cfg.rotary| == AXES && a < AXES
  {
    if units == Inch && !cfg.rotary[a] then 25.4 else 1.0
  }

  /** The step position an axis word stands for: in work or machine coordinates, or from where the axis is. */
  function WordAt(st: State, word: real, units: Units, distance: DistanceMode, machineCoords: bool, a: nat): real
    requires st.cfg.Valid() && a < AXES
  {
    var mm := word * UnitMm(st.cfg, units, a);
    if distance == Incremental then Mul(st.position[a] as real / st.cfg.stepsPerMm[a] + mm, st.cfg.stepsPerMm[a])
    else if machineCoords then Mul(mm, st.cfg.stepsPerMm[a])
    else Mul(mm + st.workOffsetMm[a], st.cfg.stepsPerMm[a])
  }

  /** `target` is where the words send every axis: nearest to its word, or where it is without one. */
  ghost predicate Lands(st: State, axes: AxisWords, units: Units, distance: DistanceMode, machineCoords: bool,
                        target: Steps)
    requires st.cfg.Valid()
  {
    forall a: nat :: a < AXES ==>
      var word := [axes.x, axes.y, axes.z, axes.a][a];
      if word.None? then target[a] == st.position[a]
      else Nearest(target[a], WordAt(st, word.value, units, distance, machineCoords, a))
  }

  lemma TargetLands(st: State, axes: AxisWords, units: Units, distance: DistanceMode, machineCoords: bool)
    requires st.cfg.Valid()
    ensures Lands(st, axes, units, distance, machineCoords, ResolveTarget(st, axes, units, distance, machineCoords))
  {
    var target := ResolveTarget(st, axes, units, distance, machineCoords);
    forall a: nat | a < AXES && [axes.x, axes.y, axes.z, axes.a][a].Some?
      ensures Nearest(target[a], WordAt(st, [axes.x, axes.y, axes.z, axes.a][a].value, units, distance, machineCoords, a))
    {
      var v := [axes.x, axes.y, axes.z, axes.a][a].value;
      AxisLands(st, a, v, units, distance, machineCoords);
      hide MmToSteps, Nearest, WordAt, AxisMm;
      assert target[a] == MmToSteps(AxisMm(st, a, v, units, distance, machineCoords), st.cfg.stepsPerMm[a]);
    }
    hide MmToSteps, Nearest, WordAt, AxisMm;
  }

  lemma AxisLands(st: State, a: nat, v: real, units: Units, distance: DistanceMode, machineCoords: bool)
    requires st.cfg.Valid() && a < AXES
    ensures Nearest(MmToSteps(AxisMm(st, a, v, units, distance, machineCoords), st.cfg.stepsPerMm[a]),
                    WordAt(st, v, units, distance, machineCoords, a))
  {
    hide Nearest, MmToSteps, Mul;
    StepsAreNearest(AxisMm(st, a, v, units, distance, machineCoords), st.cfg.stepsPerMm[a]);
    SameWord(st, a, v, units, distance, machineCoords);
    hide AxisMm, WordAt;
  }

  lemma SameWord(st: State, a: nat, v: real, units: Units, distance: DistanceMode, machineCoords: bool)
    requires st.cfg.Valid() && a < AXES
    ensures Mul(AxisMm(st, a, v, units, distance, machineCoords), st.cfg.stepsPerMm[a])
            == WordAt(st, v, units, distance, machineCoords, a)
  {
    assert UnitMm(st.cfg, units, a) == if st.cfg.rotary[a] then 1.0 else UnitsScale(units);
    hide UnitMm, UnitsScale, Mul;
  }

  /** Where a word falls on a whole step the position means exactly what the word says. */
  lemma WholeStepsAreExact(st: State, axes: AxisWords, units: Units, distance: DistanceMode, machineCoords: bool,
                           target: Steps, a: nat, n: int)
    requires st.cfg.Valid() && a < AXES && Lands(st, axes, units, distance, machineCoords, target)
    requires var word := [axes.x, axes.y, axes.z, axes.a][a];
             word.Some? && WordAt(st, word.value, units, distance, machineCoords, a) == n as real
    requires I32_MIN <= n <= I32_MAX
    ensures var unit := if units == Inch && !st.cfg.rotary[a] then 25.4 else 1.0;
            var mm := [axes.x, axes.y, axes.z, axes.a][a].value * unit;
            var (at, from) := (target[a] as real / st.cfg.stepsPerMm[a], st.position[a] as real / st.cfg.stepsPerMm[a]);
            && (distance == Incremental ==> at - from == mm)
            && (distance == Absolute && machineCoords ==> at == mm)
            && (distance == Absolute && !machineCoords ==> at - st.workOffsetMm[a] == mm)
  {
    var word := [axes.x, axes.y, axes.z, axes.a][a].value;
    var (spm, mm) := (st.cfg.stepsPerMm[a], word * UnitMm(st.cfg, units, a));
    var from := st.position[a] as real / spm;
    NearestIsUnique(target[a], n, WordAt(st, word, units, distance, machineCoords, a));
    BackToMm(from + mm, spm, target[a] as real);
    BackToMm(mm, spm, target[a] as real);
    BackToMm(mm + st.workOffsetMm[a], spm, target[a] as real);
    hide Nearest, Mul;
  }

  lemma BackToMm(x: real, spm: real, n: real)
    requires spm > 0.0
    ensures Mul(x, spm) == n ==> n / spm == x
  {
  }

  /** A move too short for the planner to make. */
  predicate Negligible(cfg: PlannerConfig, from: Steps, to: Steps)
    requires cfg.Valid()
  {
    to == from || LengthSq(cfg, from, to) < LENGTH_EPSILON_MM * LENGTH_EPSILON_MM
  }

  /** Axis `a` of a position is in the travel `[-travel, 0]`, give or take one step at either end. */
  ghost predicate AxisInTravel(cfg: PlannerConfig, travelMm: Vec, p: Steps, a: nat)
    requires a < AXES
  {
    var end := Mul(-travelMm[a], cfg.stepsPerMm[a]);
    p[a] <= 1 && exists low: int :: Nearest(low, end) && low - 1 <= p[a]
  }

  /** Every linear axis is in its travel; a rotary one has none. */
  ghost predicate InTravel(cfg: PlannerConfig, limits: Option<Vec>, p: Steps)
    requires |cfg.rotary| == AXES
  {
    limits.Some? ==> forall a: nat :: a < AXES && !cfg.rotary[a] ==> AxisInTravel(cfg, limits.value, p, a)
  }

  lemma AxisTravel(cfg: PlannerConfig, travelMm: Vec, p: Steps, a: nat)
    requires a < AXES
    ensures AxisInTravel(cfg, travelMm, p, a) <==> LowerLimit(cfg, travelMm, a) <= p[a] <= 1
  {
    hide Nearest, MmToSteps, Mul;
    var (w, low) := (Mul(-travelMm[a], cfg.stepsPerMm[a]), MmToSteps(-travelMm[a], cfg.stepsPerMm[a]));
    StepsAreNearest(-travelMm[a], cfg.stepsPerMm[a]);
    OnlyNearest(low, w);
  }

  lemma OnlyNearest(low: int, w: real)
    requires Nearest(low, w)
    ensures forall k: int :: Nearest(k, w) ==> k == low
  {
    forall k: int | Nearest(k, w)
      ensures k == low
    {
      NearestIsUnique(low, k, w);
    }
    hide Nearest;
  }

  lemma TravelIsTheEnvelope(cfg: PlannerConfig, limits: Option<Vec>, p: Steps)
    requires |cfg.rotary| == AXES
    ensures SoftLimitViolation(cfg, limits, p) <==> !InTravel(cfg, limits, p)
  {
    hide AxisInTravel, LowerLimit;
    if limits.Some? {
      forall a: nat | a < AXES
        ensures AxisInTravel(cfg, limits.value, p, a) <==> LowerLimit(cfg, limits.value, a) <= p[a] <= 1
      {
        AxisTravel(cfg, limits.value, p, a);
      }
    }
  }

  /** What one straight line to `target` does to the planner's position and queue. */
  ghost predicate WentTo(st: State, st': State, blocks: nat, target: Steps)
    requires st.cfg.Valid()
  {
    if Negligible(st.cfg, st.position, target) then blocks == 0 && st' == st
    else blocks == 1 && st'.position == target && |st'.queue| == |st.queue| + 1
  }

  lemma LineGoesToItsTarget(st: State, target: Steps, rq: Request)
    requires st.cfg.Valid()
    ensures var (st', r) := PlanLine(st, target, rq);
            && st'.cfg == st.cfg
            && (r.Ok? ==> WentTo(st, st', r.value, target))
            && (r.Err? <==> !Negligible(st.cfg, st.position, target) && |st.queue| >= BLOCK_QUEUE_LEN)
            && (r.Err? ==> r.error == QueueFull && st' == st)
  {
    DroppedIffNull(st.cfg, st.Trail(), target, rq);
    var mid := EnqueueMove(st, target, rq).0;
    ReplanKeepsShapes(mid.queue, mid.headBusy);
    hide BuildBlock, Replanned, LengthSq;
  }

  /** An accepted move ends where its words say: at work coordinates, at machine coordinates under G53, or the words
      away from where it began. It is refused for the envelope exactly when that is outside it, and then for the queue. */
  lemma MoveGoesWhereItsWordsSay(st: State, cmd: PlannerCommand, limits: Option<Vec>) returns (target: Steps)
    requires st.cfg.Valid() && cmd.Move?
    ensures Lands(st, cmd.axes, cmd.units, cmd.distance, cmd.machineCoords, target)
    ensures var (st', r) := PlanCommand(st, cmd, limits);
            && (r == Err(MoveExceedsTravel) <==> !InTravel(st.cfg, limits, target))
            && (r == Err(QueueFull) <==> InTravel(st.cfg, limits, target) && |st.queue| >= BLOCK_QUEUE_LEN
                                         && !Negligible(st.cfg, st.position, target))
            && (r.Err? ==> r.error == MoveExceedsTravel || r.error == QueueFull)
            && (r.Ok? ==> r.value.Queued? && WentTo(st, st', r.value.blocks, target))
  {
    target := CommandTarget(st, cmd);
    TargetLands(st, cmd.axes, cmd.units, cmd.distance, cmd.machineCoords);
    LineGoesToItsTarget(st, target, MoveRequest(cmd));
    TravelIsTheEnvelope(st.cfg, limits, target);
    hide ResolveTarget, Lands, SoftLimitViolation, PlanLine, WentTo, InTravel, Negligible;
  }

  /** So does an accepted jog. */
  lemma JogGoesWhereItsWordsSay(st: State, jog: JogCommand, limits: Option<Vec>) returns (target: Steps)
    requires st.cfg.Valid()
    ensures Lands(st, jog.axes, jog.units, jog.distance, jog.machineCoords, target)
    ensures var (st', r) := PlanJog(st, jog, limits);
            && (r == Err(JogExceedsTravel) <==> !InTravel(st.cfg, limits, target))
            && (r == Err(QueueFull) <==> InTravel(st.cfg, limits, target) && |st.queue| >= BLOCK_QUEUE_LEN
                                         && !Negligible(st.cfg, st.position, target))
            && (r.Err? ==> r.error == JogExceedsTravel || r.error == QueueFull)
            && (r.Ok? ==> r.value.Queued? && WentTo(st, st', r.value.blocks, target))
  {
    target := ResolveTarget(st, jog.axes, jog.units, jog.distance, jog.machineCoords);
    TargetLands(st, jog.axes, jog.units, jog.distance, jog.machineCoords);
    LineGoesToItsTarget(st, target, JogRequest(jog));
    TravelIsTheEnvelope(st.cfg, limits, target);
    hide ResolveTarget, Lands, SoftLimitViolation, PlanLine, WentTo, InTravel, Negligible;
  }

  /** A probe is sent to where its words say, in work coordinates or from where it is, and nothing is queued for it. */
  lemma ProbeGoesWhereItsWordsSay(st: State, cmd: PlannerCommand, limits: Option<Vec>) returns (target: Steps)
    requires st.cfg.Valid() && cmd.Probe?
    ensures Lands(st, cmd.axes, cmd.units, cmd.distance, false, target)
    ensures PlanCommand(st, cmd, limits).1 == Ok(ProbeTo(cmd.kind, target, cmd.feed, cmd.units))
    ensures var st' := PlanCommand(st, cmd, limits).0;
            st'.queue == st.queue && st'.position == st.position
  {
    target := ResolveTarget(st, cmd.axes, cmd.units, cmd.distance, false);
    TargetLands(st, cmd.axes, cmd.units, cmd.distance, false);
    hide ResolveTarget, Lands;
  }

  /** An arc is refused for the envelope exactly when its target is outside it, then for its geometry when it has none,
      and never for the queue; on the axis normal to its plane and on the rotary axis its last chord ends on the target. */
  lemma ArcGoesWhereItsWordsSay(st: State, cmd: PlannerCommand, limits: Option<Vec>) returns (target: Steps)
    requires st.cfg.Valid() && cmd.Arc? && InI32(st.position)
    ensures Lands(st, cmd.axes, cmd.units, cmd.distance, cmd.machineCoords, target)
    ensures var r := PlanCommand(st, cmd, limits).1;
            && (r == Err(MoveExceedsTravel) <==> !InTravel(st.cfg, limits, target))
            && (r == Err(InvalidArc) <==> InTravel(st.cfg, limits, target) && PrepareArc(st, cmd).None?)
            && (r.Err? ==> r.error == MoveExceedsTravel || r.error == InvalidArc)
            && (r.Ok? ==> r.value.Queued? || r.value.ArcPending?)
    ensures PrepareArc(st, cmd).Some? ==>
              var (arc, n) := (PrepareArc(st, cmd).value, AxesFor(cmd.plane).normal);
              var last := ChordEnd(st.cfg, arc, arc.segments);
              last[n] == target[n] && last[A_AXIS] == target[A_AXIS]
  {
    hide ResolveTarget, Lands, SoftLimitViolation, InTravel, PrepareArc, ChordEnd;
    target := CommandTarget(st, cmd);
    TargetLands(st, cmd.axes, cmd.units, cmd.distance, cmd.machineCoords);
    TravelIsTheEnvelope(st.cfg, limits, target);
    if PrepareArc(st, cmd).Some? {
      HelixEndsOnTarget(st, cmd);
      ChunkAnswers(st, PrepareArc(st, cmd).value);
    }
    hide EnqueueArcChunk;
  }

  lemma ChunkAnswers(st: State, arc: ArcInProgress)
    requires st.cfg.Valid() && arc.segments > 0
    ensures var r := EnqueueArcChunk(st, arc).1;
            r.Ok? && (r.value.Queued? || r.value.ArcPending?)
  {
    hide FeedChords, Recalculate;
  }

  /** A recall goes through the point its words name, if it has any, to the stored position; room is asked for as many
      of the two legs as change the position. */
  lemma RecallGoesWhereItsWordsSay(st: State, axes: AxisWords, units: Units, distance: DistanceMode, predefined: Vec,
                                   limits: Option<Vec>) returns (via: Steps, stored: Steps)
    requires st.cfg.Valid()
    ensures if axes == AxisWords(None, None, None, None) then via == st.position
            else Lands(st, axes, units, distance, false, via)
    ensures forall a: nat :: a < AXES ==> Nearest(stored[a], Mul(predefined[a], st.cfg.stepsPerMm[a]))
    ensures var (st', r) := PlanGoToPredefined(st, axes, units, distance, predefined, limits);
            && (r == Err(MoveExceedsTravel) <==>
                !InTravel(st.cfg, limits, stored)
                || (axes != AxisWords(None, None, None, None) && !InTravel(st.cfg, limits, via)))
            && (r == Err(QueueFull) <==>
                r != Err(MoveExceedsTravel) && |st.queue| + Legs(st.position, via, stored) > BLOCK_QUEUE_LEN)
            && (r.Err? ==> r.error == MoveExceedsTravel || r.error == QueueFull)
            && (r.Ok? ==> ThroughTo(st, st', r.value, via, stored))
  {
    hide ResolveTarget, Lands, SoftLimitViolation, ThroughTo, InTravel, PredefinedTarget, Nearest, RecallLegs;
    var inter := Intermediate(st, axes, units, distance);
    via := if inter.Some? then inter.value else st.position;
    stored := PredefinedTarget(st, predefined);
    TargetLands(st, axes, units, distance, false);
    StoredLands(st, predefined);
    TravelIsTheEnvelope(st.cfg, limits, via);
    TravelIsTheEnvelope(st.cfg, limits, stored);
    assert LegsNeeded(st.position, inter, stored) == Legs(st.position, via, stored);
    if |st.queue| + Legs(st.position, via, stored) <= BLOCK_QUEUE_LEN {
      LegsGoThrough(st, inter, stored, units);
    }
  }

  /** How many legs of the way over `via` change the position. */
  function Legs(from: Steps, via: Steps, to: Steps): nat {
    (if via == from then 0 else 1) + (if to == via then 0 else 1)
  }

  lemma StoredLands(st: State, predefined: Vec)
    requires st.cfg.Valid()
    ensures forall a: nat :: a < AXES ==>
              Nearest(PredefinedTarget(st, predefined)[a], Mul(predefined[a], st.cfg.stepsPerMm[a]))
  {
    forall a: nat | a < AXES
      ensures Nearest(PredefinedTarget(st, predefined)[a], Mul(predefined[a], st.cfg.stepsPerMm[a]))
    {
      StepsAreNearest(predefined[a], st.cfg.stepsPerMm[a]);
      hide Nearest, MmToSteps, Mul;
    }
  }

  /** The planner went by one line to `via` and by another from there to `stored`. */
  ghost predicate ThroughTo(st: State, st': State, blocks: nat, via: Steps, stored: Steps)
    requires st.cfg.Valid()
  {
    exists mid: State, first: nat, second: nat ::
      mid.cfg == st.cfg && WentTo(st, mid, first, via) && WentTo(mid, st', second, stored) && blocks == first + second
  }

  lemma LegsGoThrough(st: State, inter: Option<Steps>, stored: Steps, units: Units)
    requires st.cfg.Valid()
    requires |st.queue| + LegsNeeded(st.position, inter, stored) <= BLOCK_QUEUE_LEN
    ensures var (st', r) := RecallLegs(st, inter, stored, units);
            r.Ok? && ThroughTo(st, st', r.value, if inter.Some? then inter.value else st.position, stored)
  {
    hide PlanLine, LengthSq;
    var via := if inter.Some? then inter.value else st.position;
    var (mid, r1) := if inter.Some? then PlanLine(st, via, RapidRequest(units)) else (st, Ok(0));
    LineGoesToItsTarget(st, via, RapidRequest(units));
    LineGoesToItsTarget(mid, stored, RapidRequest(units));
    assert r1.Ok? && WentTo(st, mid, r1.value, via);
    var (st', r2) := PlanLine(mid, stored, RapidRequest(units));
    assert r2.Ok? && WentTo(mid, st', r2.value, stored);
  }
}

/** The planner as an object: its fields, its in-place passes, and its operations, each proved to do what the
    corresponding function of PlannerState says (planner.rs:517-1441). */
module PlannerObject {
  import opened Base
  import opened Blocks
  import opened Commands
  import opened Kinematics
  import opened LookAhead
  import opened Arcs
  import S = PlannerState

  class Planner {
    var config: PlannerConfig
    var queue: seq<Block>
    var positionSteps: Steps
    var workOffsetMm: Vec
    var prevUnitVec: Vec
    var prevNominalSpeedSq: real
    var headBusy: bool
    var arcInProgress: Option<ArcInProgress>

    ghost predicate Valid()
      reads this
    {
      config.Valid() && |queue| <= S.BLOCK_QUEUE_LEN && (arcInProgress.Some? ==> arcInProgress.value.Valid())
    }

    function View(): (st: S.State)
      reads this
      ensures st.cfg == config && st.queue == queue && st.arc == arcInProgress && st.workOffsetMm == workOffsetMm
    {
      S.State(config, queue, positionSteps, workOffsetMm, prevUnitVec, prevNominalSpeedSq, headBusy, arcInProgress)
    }

    constructor (cfg: PlannerConfig)
      requires cfg.Valid()
      ensures Valid() && View() == S.Fresh(cfg)
    {
      config := cfg;
      queue := [];
      positionSteps := ORIGIN;
      workOffsetMm := ZERO_VEC;
      prevUnitVec := ZERO_VEC;
      prevNominalSpeedSq := 0.0;
      headBusy := false;
      arcInProgress := None;
    }

    method SyncPosition(steps: Steps)
      requires Valid()
      modifies this
      ensures Valid() && View() == S.SyncPosition(old(View()), steps)
    {
      positionSteps := steps;
      prevUnitVec := ZERO_VEC;
      prevNominalSpeedSq := 0.0;
    }

    method SetConfig(cfg: PlannerConfig)
      requires Valid() && cfg.Valid()
      modifies this
      ensures Valid() && View() == S.SetConfig(old(View()), cfg)
    {
      config := cfg;
      prevUnitVec := ZERO_VEC;
      prevNominalSpeedSq := 0.0;
    }

    method SetWorkOffset(wco: Vec)
      requires Valid()
      modifies this
      ensures Valid() && View() == old(View()).(workOffsetMm := wco)
    {
      workOffsetMm := wco;
    }

    method PopBlock() returns (block: Option<Block>)
      requires Valid()
      modifies this
      ensures Valid() && (View(), block) == S.PopBlock(old(View()))
    {
      if queue == [] {
        return None;
      }
      block := Some(queue[0]);
      queue := queue[1..];
      headBusy := queue != [];
    }

    /** Newest to oldest: each entry is capped by braking into the next; a busy head is left alone. */
    method ReversePass()
      requires Valid()
      modifies `queue
      ensures queue == WithEntries(old(queue), BackwardAll(Spans(old(queue)), Committed(old(queue), headBusy)))
    {
      ghost var q := queue;
      var remaining: nat := |queue|;
      var nextEntrySq := 0.0;
      while remaining > 0
        invariant remaining <= |queue| == |q|
        invariant nextEntrySq == if remaining < |q| then queue[remaining].entrySq else 0.0
        invariant forall i :: 0 <= i < remaining ==> queue[i] == q[i]
        invariant forall k: nat :: remaining <= k < |q| ==> ReversedAt(q, queue, headBusy, k)
      {
        ghost var before := queue;
        remaining := remaining - 1;
        var block := queue[remaining];
        if headBusy && remaining == 0 {
          nextEntrySq := block.entrySq;
        } else {
          nextEntrySq := MinR(block.maxEntrySq, nextEntrySq + block.Reach());
          queue := queue[remaining := block.(entrySq := nextEntrySq)];
        }
        forall k: nat | remaining < k < |q|
          ensures ReversedAt(q, queue, headBusy, k)
        {
          assert ReversedAt(q, before, headBusy, k);
        }
        assert ReversedAt(q, queue, headBusy, remaining);
      }
      ReverseInPlace(q, headBusy, queue);
    }

    /** Oldest to newest: each entry is capped by accelerating out of the previous block. */
    method ForwardPass()
      requires Valid()
      modifies `queue
      ensures queue == WithEntries(old(queue), ForwardAll(Spans(old(queue)), Entries(old(queue))))
    {
      ghost var q := queue;
      var prevEntry, prevReach := 0.0, 0.0;
      var i: nat := 0;
      while i < |queue|
        invariant 0 <= i <= |queue| == |q|
        invariant i > 0 ==> prevEntry == queue[i - 1].entrySq && prevReach == q[i - 1].Reach()
        invariant forall k: nat :: k < i ==> ForwardedAt(q, queue, k)
        invariant forall k :: i <= k < |q| ==> queue[k] == q[k]
      {
        ghost var before := queue;
        var block := queue[i];
        var entry := block.entrySq;
        if i > 0 && entry > prevEntry + prevReach {
          entry := prevEntry + prevReach;
        }
        queue := queue[i := block.(entrySq := entry)];
        prevEntry, prevReach := entry, block.Reach();
        forall k: nat | k < i
          ensures ForwardedAt(q, queue, k)
        {
          assert ForwardedAt(q, before, k);
        }
        assert ForwardedAt(q, queue, i);
        i := i + 1;
      }
      ForwardInPlace(q, queue);
    }

    method Recalculate()
      requires Valid()
      modifies `queue
      ensures Valid() && View() == S.Recalculate(old(View()))
    {
      ghost var q := queue;
      ghost var b := BackwardAll(Spans(q), Committed(q, headBusy));
      ReversePass();
      assert Shapes(queue) == Shapes(q) by {
        forall i | 0 <= i < |q|
          ensures Shapes(queue)[i] == Shapes(q)[i]
        {
          assert queue[i] == q[i].(entrySq := b[i]);
        }
      }
      SameShapeSameSpans(queue, q);
      assert Entries(queue) == b;
      ghost var q1 := queue;
      ForwardPass();
      SameShapeSameResult(q1, q, ForwardAll(Spans(q), b));
    }

    method EnqueueMove(target: Steps, rq: Request) returns (r: Result<nat, S.PlannerError>)
      requires Valid()
      modifies this
      ensures Valid() && (View(), r) == S.EnqueueMove(old(View()), target, rq) && config == old(config)
    {
      var block := BuildBlock(config, Trail(positionSteps, prevUnitVec, prevNominalSpeedSq), target, rq);
      if block.None? {
        return Ok(0);
      }
      if |queue| >= S.BLOCK_QUEUE_LEN {
        return Err(S.QueueFull);
      }
      queue := queue + [block.value];
      positionSteps := target;
      prevUnitVec := block.value.unitVec;
      prevNominalSpeedSq := block.value.nominalSq;
      r := Ok(1);
    }

    method PlanLine(target: Steps, rq: Request) returns (r: Result<nat, S.PlannerError>)
      requires Valid()
      modifies this
      ensures Valid() && (View(), r) == S.PlanLine(old(View()), target, rq)
    {
      r := EnqueueMove(target, rq);
      if r == Ok(1) {
        Recalculate();
      }
    }

    method PlanJog(jog: JogCommand, limits: Option<Vec>) returns (r: Result<S.Outcome, S.PlannerError>)
      requires Valid()
      modifies this
      ensures Valid() && (View(), r) == S.PlanJog(old(View()), jog, limits)
    {
      var target := S.ResolveTarget(View(), jog.axes, jog.units, jog.distance, jog.machineCoords);
      if S.SoftLimitViolation(config, limits, target) {
        return Err(S.JogExceedsTravel);
      }
      var n := PlanLine(target, S.JogRequest(jog));
      r := if n.Ok? then Ok(S.Queued(n.value)) else Err(n.error);
    }

    method PlanRecallLegs(inter: Option<Steps>, recall: Steps, units: Units) returns (r: Result<nat, S.PlannerError>)
      requires Valid()
      modifies this
      ensures Valid() && (View(), r) == S.RecallLegs(old(View()), inter, recall, units)
    {
      hide S.PlanLine;
      var blocks: nat := 0;
      if inter.Some? {
        r := PlanLine(inter.value, S.RapidRequest(units));
        if r.Err? {
          return r;
        }
        blocks := r.value;
      }
      r := PlanLine(recall, S.RapidRequest(units));
      if r.Ok? {
        r := Ok(blocks + r.value);
      }
    }

    method PlanGoToPredefined(axes: AxisWords, units: Units, distance: DistanceMode, predefined: Vec,
                              limits: Option<Vec>) returns (r: Result<nat, S.PlannerError>)
      requires Valid()
      modifies this
      ensures Valid() && (View(), r) == S.PlanGoToPredefined(old(View()), axes, units, distance, predefined, limits)
    {
      var inter := S.Intermediate(View(), axes, units, distance);
      var recall := S.PredefinedTarget(View(), predefined);
      if (inter.Some? && S.SoftLimitViolation(config, limits, inter.value))
         || S.SoftLimitViolation(config, limits, recall) {
        return Err(S.MoveExceedsTravel);
      }
      if |queue| + S.LegsNeeded(positionSteps, inter, recall) > S.BLOCK_QUEUE_LEN {
        return Err(S.QueueFull);
      }
      r := PlanRecallLegs(inter, recall, units);
    }

    method EnqueueArcChunk(start: ArcInProgress) returns (r: Result<S.Outcome, S.PlannerError>)
      requires Valid() && start.Valid()
      modifies this
      ensures Valid() && (View(), r) == S.EnqueueArcChunk(old(View()), start)
    {
      hide ChordEnd, S.EnqueueMove, S.Recalculate, BuildBlock;
      var arc := start;
      var enqueued: nat := 0;
      ghost var goal := S.FeedChords(View(), start, 0);
      while arc.nextSeg <= arc.segments && |queue| < S.BLOCK_QUEUE_LEN
        invariant Valid() && config == old(config) && arc.segments == start.segments
        invariant 1 <= arc.nextSeg <= arc.segments + 1
        invariant S.FeedChords(View(), arc, enqueued) == goal
        decreases arc.segments + 1 - arc.nextSeg
      {
        var n := EnqueueMove(ChordEnd(config, arc, arc.nextSeg), arc.Request());
        enqueued := enqueued + n.value;
        arc := arc.(nextSeg := arc.nextSeg + 1);
      }
      Recalculate();
      if arc.nextSeg > arc.segments {
        arcInProgress := None;
        r := Ok(S.Queued(enqueued));
      } else {
        arcInProgress := Some(arc);
        r := Ok(S.ArcPending(enqueued));
      }
    }

    method ResumeArc() returns (r: Result<S.Outcome, S.PlannerError>)
      requires Valid()
      modifies this
      ensures Valid() && (View(), r) == S.ResumeArc(old(View()))
    {
      if arcInProgress.None? {
        return Ok(S.Queued(0));
      }
      r := EnqueueArcChunk(arcInProgress.value);
    }

    method AbortArc()
      requires Valid()
      modifies this
      ensures Valid() && View() == old(View()).(arc := None)
    {
      arcInProgress := None;
    }

    method FlushLookahead()
      requires Valid()
      modifies this
      ensures Valid() && View() == S.FlushLookahead(old(View()))
    {
      prevUnitVec := ZERO_VEC;
      prevNominalSpeedSq := 0.0;
    }

    method PlanMove(cmd: PlannerCommand, limits: Option<Vec>) returns (r: Result<S.Outcome, S.PlannerError>)
      requires Valid() && cmd.Move?
      modifies this
      ensures Valid() && (View(), r) == S.PlanMove(old(View()), cmd, limits)
    {
      var target := S.CommandTarget(View(), cmd);
      if S.SoftLimitViolation(config, limits, target) {
        return Err(S.MoveExceedsTravel);
      }
      var n := PlanLine(target, S.MoveRequest(cmd));
      r := if n.Ok? then Ok(S.Queued(n.value)) else Err(n.error);
    }

    method PlanArc(cmd: PlannerCommand, limits: Option<Vec>) returns (r: Result<S.Outcome, S.PlannerError>)
      requires Valid() && cmd.Arc?
      modifies this
      ensures Valid() && (View(), r) == S.PlanArc(old(View()), cmd, limits)
    {
      if S.SoftLimitViolation(config, limits, S.CommandTarget(View(), cmd)) {
        return Err(S.MoveExceedsTravel);
      }
      var arc := S.PrepareArc(View(), cmd);
      if arc.None? {
        return Err(S.InvalidArc);
      }
      r := EnqueueArcChunk(arc.value);
    }

    method PlanCommand(cmd: PlannerCommand, limits: Option<Vec>) returns (r: Result<S.Outcome, S.PlannerError>)
      requires Valid()
      modifies this
      ensures Valid() && (View(), r) == S.PlanCommand(old(View()), cmd, limits)
    {
      match cmd
      case Move(_, _, _, _, _, _, _) =>
        r := PlanMove(cmd, limits);
      case Arc(_, _, _, _, _, _, _, _, _, _, _) =>
        r := PlanArc(cmd, limits);
      case Probe(kind, axes, units, distance, feed) =>
        var target := S.ResolveTarget(View(), axes, units, distance, false);
        FlushLookahead();
        r := Ok(S.ProbeTo(kind, target, feed, units));
      case Dwell(seconds) =>
        FlushLookahead();
        r := Ok(S.DwellFor(seconds));
      case Spindle(state, speed) =>
        r := Ok(S.SpindleTo(state, speed));
      case GoToPredefined(isG28, _, _, _) =>
        FlushLookahead();
        r := Ok(S.RecallPredefined(isG28));
      case Coordinate(op) =>
        r := Ok(S.CoordinateChange(op));
      case ProgramEnd =>
        FlushLookahead();
        r := Ok(S.EndProgram);
      case ProgramPause(optional, toolChange) =>
        FlushLookahead();
        r := Ok(S.PauseProgram(optional, toolChange));
      case Coolant(coolant) =>
        r := Ok(S.CoolantTo(coolant));
    }

    method FlushQueue() returns (flushed: nat)
      requires Valid()
      modifies this
      ensures Valid() && View() == S.FlushQueue(old(View())) && flushed == |old(queue)|
    {
      flushed := |queue|;
      queue := [];
      FlushLookahead();
    }

    method FlushJogBlocks() returns (flushed: nat)
      requires Valid()
      modifies this
      ensures Valid() && View() == S.FlushJogBlocks(old(View())) && flushed == |old(queue)| - |queue|
    {
      flushed := 0;
      while queue != [] && queue[|queue| - 1].jog
        invariant S.WithoutTrailingJogs(queue) == S.WithoutTrailingJogs(old(queue))
        invariant flushed == |old(queue)| - |queue| && |queue| <= |old(queue)|
        invariant View() == old(View()).(queue := queue)
        decreases |queue|
      {
        queue := queue[..|queue| - 1];
        flushed := flushed + 1;
      }
      FlushLookahead();
    }
  }
}

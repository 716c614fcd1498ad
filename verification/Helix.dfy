/** Where an arc ends on the axes it slaves linearly (planner.rs:1270-1350, 1384-1400, 1446-1480). */
module Helix {
  import opened Base
  import opened Products
  import opened Commands
  import opened Kinematics
  import opened Arcs
  import opened PlannerState

  lemma StepsOfMm(steps: int, spm: real)
    requires spm > 0.0 && I32_MIN <= steps <= I32_MAX
    ensures MmToSteps(steps as real / spm, spm) == steps
  {
    var mm := steps as real / spm;
    assert mm * spm == steps as real;
  }

  lemma EndIsTarget(st: State, cmd: PlannerCommand, axis: nat)
    requires st.cfg.Valid() && cmd.Arc? && axis < AXES && InI32(st.position)
    ensures MmToSteps(ArcEndMm(st, cmd, axis), st.cfg.stepsPerMm[axis]) == CommandTarget(st, cmd)[axis]
  {
    StepsOfMm(st.position[axis], st.cfg.stepsPerMm[axis]);
    hide MmToSteps;
  }

  /** The last chord of an arc ends exactly on the commanded target on the axis normal to its plane and on the rotary
      axis. */
  lemma HelixEndsOnTarget(st: State, cmd: PlannerCommand)
    requires st.cfg.Valid() && cmd.Arc? && InI32(st.position) && PrepareArc(st, cmd).Some?
    ensures var arc := PrepareArc(st, cmd).value;
            var last, target := ChordEnd(st.cfg, arc, arc.segments), CommandTarget(st, cmd);
            last[AxesFor(cmd.plane).normal] == target[AxesFor(cmd.plane).normal] && last[A_AXIS] == target[A_AXIS]
  {
    var arc := PrepareArc(st, cmd).value;
    EndIsTarget(st, cmd, AxesFor(cmd.plane).normal);
    EndIsTarget(st, cmd, A_AXIS);
    ArcSlavesItsAxes(st, cmd);
    SlavedAxesEnd(st.cfg, arc);
    hide PrepareArc, CommandTarget, ArcEndMm, MmToSteps, ChordEnd;
  }

  lemma SlavedAxesEnd(cfg: PlannerConfig, arc: ArcInProgress)
    requires cfg.Valid() && arc.segments > 0
    ensures var last, n := ChordEnd(cfg, arc, arc.segments), AxesFor(arc.plane).normal;
            && last[n] == MmToSteps(arc.normalStart + arc.normalDelta, cfg.stepsPerMm[n])
            && last[A_AXIS] == MmToSteps(arc.aStart + arc.aDelta, cfg.stepsPerMm[A_AXIS])
  {
    var frac := arc.segments as real / arc.segments as real;
    assert frac == 1.0;
    WholeOf(arc.normalDelta, frac);
    WholeOf(arc.aDelta, frac);
    hide MmToSteps;
    var last := ChordEnd(cfg, arc, arc.segments);
    assert last[A_AXIS] == MmToSteps(arc.aStart + Mul(arc.aDelta, frac), cfg.stepsPerMm[A_AXIS]);
    match arc.plane
    case XY => assert last[2] == MmToSteps(arc.normalStart + Mul(arc.normalDelta, frac), cfg.stepsPerMm[2]);
    case ZX => assert last[1] == MmToSteps(arc.normalStart + Mul(arc.normalDelta, frac), cfg.stepsPerMm[1]);
    case YZ => assert last[0] == MmToSteps(arc.normalStart + Mul(arc.normalDelta, frac), cfg.stepsPerMm[0]);
  }

  lemma WholeOf(delta: real, frac: real)
    requires frac == 1.0
    ensures Mul(delta, frac) == delta
  {
  }

  lemma ArcSlavesItsAxes(st: State, cmd: PlannerCommand)
    requires st.cfg.Valid() && cmd.Arc? && PrepareArc(st, cmd).Some?
    ensures var arc := PrepareArc(st, cmd).value;
            && arc.plane == cmd.plane
            && arc.normalStart + arc.normalDelta == ArcEndMm(st, cmd, AxesFor(cmd.plane).normal)
            && arc.aStart + arc.aDelta == ArcEndMm(st, cmd, A_AXIS)
  {
  }
}

/** Arcs under soft limits: the source checks the end point, the machine visits every chord (planner.rs:672-770,
    1270-1441, 1499-1521). */
module ArcLimits {
  import opened Base
  import opened Blocks
  import opened Commands
  import opened Kinematics
  import opened LookAhead
  import opened Arcs
  import opened PlannerState
  import opened Backpressure
  import opened Corners
  import opened Dda
  import opened Conservation

  /** Run from `from`, the blocks keep the machine inside the region at every tick. */
  ghost predicate StaysIn(r: Region, from: Steps, q: seq<Block>)
    decreases |q|
  {
    q == [] || (BlockStaysIn(r, from, q[0].steps) && StaysIn(r, AddSteps(from, q[0].steps), q[1..]))
  }

  ghost predicate BlockStaysIn(r: Region, from: Steps, s: Steps) {
    DominantCount(s) > 0 ==> forall tick: nat :: tick <= DominantCount(s) ==> In(r, LiveAfter(from, s, tick))
  }

  /** Where the chords that become blocks end. */
  function MovingEnds(cfg: PlannerConfig, t: Trail, arc: ArcInProgress): seq<Steps>
    requires cfg.Valid() && arc.segments > 0
    decreases arc.segments + 1 - arc.nextSeg
  {
    if arc.nextSeg > arc.segments then []
    else
      var end := ChordEnd(cfg, arc, arc.nextSeg);
      var rest := MovingEnds(cfg, Leg(cfg, t, end, arc.Request()).1, arc.(nextSeg := arc.nextSeg + 1));
      if LegOf(cfg, t, end, arc.Request()).Some? then [end] + rest else rest
  }

  /** A block that begins inside stays inside exactly when it ends inside. */
  lemma BlockStaysInIff(r: Region, from: Steps, s: Steps)
    requires In(r, from) && InI32(AddSteps(from, s)) && DominantCount(s) > 0
    ensures BlockStaysIn(r, from, s) <==> In(r, AddSteps(from, s))
  {
    BlockMovesLive(from, s);
    if In(r, AddSteps(from, s)) {
      forall tick: nat | tick <= DominantCount(s) ensures In(r, LiveAfter(from, s, tick)) {
        TickIsIn(r, from, s, tick);
      }
    }
    hide In, LiveAfter, DominantCount;
  }

  lemma TickIsIn(r: Region, from: Steps, s: Steps, tick: nat)
    requires In(r, from) && In(r, AddSteps(from, s)) && 0 < DominantCount(s) && tick <= DominantCount(s)
    ensures In(r, LiveAfter(from, s, tick))
  {
    hide LiveAfter, DominantCount;
    forall a: nat | a < AXES
      ensures I32_MIN <= LiveAfter(from, s, tick)[a] <= I32_MAX
    {
      LiveStaysBetween(from, s, tick, a);
    }
    if r.Travel? {
      BetweenIsWithin(r.cfg, r.maxTravelMm, from, s, tick);
    }
  }

  /** A move that becomes a block makes one of exactly its steps, and at least one of them. */
  lemma LegSteps(cfg: PlannerConfig, t: Trail, target: Steps, rq: Request)
    requires cfg.Valid()
    ensures var (leg, t') := Leg(cfg, t, target, rq);
            if LegOf(cfg, t, target, rq).None? then leg == [] && t' == t
            else
              && |leg| == 1 && t'.position == target && AddSteps(t.position, leg[0].steps) == target
              && DominantCount(leg[0].steps) > 0
  {
    hide Direction, Acceleration, CruiseSpeedSq, JunctionSpeedSq;
    DeltaAdds(t.position, target);
  }

  /** Started inside, an arc keeps every tick of every block inside if and only if every chord that moves ends inside. */
  lemma {:induction false} ArcStaysInIff(r: Region, cfg: PlannerConfig, t: Trail, arc: ArcInProgress)
    requires cfg.Valid() && arc.segments > 0 && In(r, t.position)
    ensures StaysIn(r, t.position, ArcShapes(cfg, t, arc)) <==> forall p :: p in MovingEnds(cfg, t, arc) ==> In(r, p)
    decreases arc.segments + 1 - arc.nextSeg
  {
    hide In, Leg, LegOf, ChordEnd, BlockStaysIn, DominantCount, ArcShapes;
    ArcDone(cfg, t, arc);
    if arc.nextSeg <= arc.segments {
      var end, next := ChordEnd(cfg, arc, arc.nextSeg), arc.(nextSeg := arc.nextSeg + 1);
      var (leg, t') := Leg(cfg, t, end, arc.Request());
      ArcStep(cfg, t, arc);
      LegSteps(cfg, t, end, arc.Request());
      ChordInI32(cfg, arc, arc.nextSeg);
      var rest := ArcShapes(cfg, t', next);
      if LegOf(cfg, t, end, arc.Request()).None? {
        assert leg + rest == rest;
        ArcStaysInIff(r, cfg, t', next);
      } else {
        assert (leg + rest)[0] == leg[0] && (leg + rest)[1..] == rest;
        BlockStaysInIff(r, t.position, leg[0].steps);
        assert MovingEnds(cfg, t, arc) == [end] + MovingEnds(cfg, t', next);
        assert end in MovingEnds(cfg, t, arc);
        if In(r, end) {
          ArcStaysInIff(r, cfg, t', next);
          assert forall p :: p in MovingEnds(cfg, t, arc) <==> p == end || p in MovingEnds(cfg, t', next);
        }
      }
    }
  }

  /** An arc is accepted for its end point alone. Planned from inside the envelope, its blocks, in whatever chunks they
      are fed, keep the machine inside at every tick if and only if every chord that moves ends inside. */
  lemma AcceptedArcStaysInIff(st: State, cmd: PlannerCommand, maxTravelMm: Vec)
    requires st.cfg.Valid() && cmd.Arc? && In(Travel(st.cfg, maxTravelMm), st.position)
    requires PlanCommand(st, cmd, Some(maxTravelMm)).1.Ok?
    ensures PrepareArc(st, cmd).Some?
    ensures var r, arc := Travel(st.cfg, maxTravelMm), PrepareArc(st, cmd).value;
            StaysIn(r, st.position, ArcShapes(st.cfg, st.Trail(), arc)) <==>
            forall p :: p in MovingEnds(st.cfg, st.Trail(), arc) ==> In(r, p)
  {
    hide PrepareArc, EnqueueArcChunk, SoftLimitViolation, CommandTarget, StaysIn, MovingEnds, In, ArcShapes;
    assert PrepareArc(st, cmd).Some?;
    ArcStaysInIff(Travel(st.cfg, maxTravelMm), st.cfg, st.Trail(), PrepareArc(st, cmd).value);
  }
}

/** The blocks the executor runs, one after another. It reads the speed a block is to be left at when it pops the block
    and keeps to it, so whether the next one can follow depends on what happens to the queue meanwhile
    (planner.rs:642-648, 880-911; crates/firmware/src/motion.rs:613-641, 770-774). */
module Chain {
  import opened Base
  import opened Blocks
  import opened Commands
  import opened Kinematics
  import opened LookAhead
  import opened PlannerState
  import opened PlannerRuns
  import opened Corners
  import opened Execution

  /** The planner, and the squared speed at which the block in flight will be left: a stop if there is none. */
  datatype Plant = Plant(planner: State, exitSq: real)

  function Idle(cfg: PlannerConfig): Plant { Plant(Fresh(cfg), 0.0) }

  /** A pop hands the executor a block and its exit speed; if nothing is queued the machine stands. */
  function Act(m: Plant, op: Op): Plant
    requires m.planner.cfg.Valid() && (m.planner.arc.Some? ==> m.planner.arc.value.Valid())
  {
    if op.Pop? then Plant(PopBlock(m.planner).0, ExitFor(PopBlock(m.planner).0))
    else Plant(Step(m.planner, op), m.exitSq)
  }

  /** What comes next is entered at the speed the block in flight is left at: the block at the front, or a stop. */
  predicate Joins(m: Plant) { m.exitSq == ExitFor(m.planner) }

  /** A committed exit is the front block's entry, unless a flush took that block away. */
  ghost predicate PlantInv(m: Plant) {
    && Inv(m.planner) && m.exitSq >= 0.0
    && (m.exitSq > 0.0 ==> m.planner.headBusy)
    && (m.exitSq > 0.0 && m.planner.queue != [] ==>
          m.exitSq == m.planner.queue[0].entrySq || m.planner.queue[0].maxEntrySq == 0.0)
  }

  /** Seen before an operation: whether the chain can go on after it. */
  predicate Continues(m: Plant, op: Op)
    requires m.planner.cfg.Valid() && (m.planner.arc.Some? ==> m.planner.arc.value.Valid())
  {
    if op.Pop? then true
    else if op.FlushAll? || (op.CancelJogs? && WithoutTrailingJogs(m.planner.queue) == []) then m.exitSq == 0.0
    else if m.planner.queue == [] && FirstLeg(m.planner, op).Some? then
      m.exitSq == 0.0 && MovesFromRest(m.planner, op)
    else Joins(m)
  }

  /** The first move `op` puts on an empty queue starts from rest. */
  predicate MovesFromRest(st: State, op: Op)
    requires st.cfg.Valid() && (st.arc.Some? ==> st.arc.value.Valid()) && FirstLeg(st, op).Some?
  {
    var (target, rq) := FirstLeg(st, op).value;
    LegOf(st.cfg, st.Trail(), target, rq).Some? && StartsAtRest(st.cfg, st.Trail(), target, rq)
  }

  lemma IdleKeeps(cfg: PlannerConfig)
    requires cfg.Valid()
    ensures PlantInv(Idle(cfg)) && Joins(Idle(cfg))
  {
    FreshIsConsistent(cfg);
  }

  lemma FrontEntry(st: State)
    requires Inv(st) && st.queue != []
    ensures 0.0 <= st.queue[0].entrySq <= st.queue[0].maxEntrySq && ExitFor(st) == st.queue[0].entrySq
  {
    PlannedQueueRunsToAStop(st);
  }

  lemma PopJoins(m: Plant)
    requires PlantInv(m)
    ensures PlantInv(Act(m, Pop)) && Joins(Act(m, Pop))
  {
    PopKeeps(m.planner);
    var st := PopBlock(m.planner).0;
    hide Inv;
    if st.queue != [] {
      FrontEntry(st);
    }
  }

  /** The queue emptied: the block in flight is left at its committed speed, with nothing behind it. */
  lemma EmptiedJoins(m: Plant, op: Op)
    requires PlantInv(m) && Allowed(m.planner, op)
    requires op.FlushAll? || (op.CancelJogs? && WithoutTrailingJogs(m.planner.queue) == [])
    ensures PlantInv(Act(m, op)) && (Joins(Act(m, op)) <==> m.exitSq == 0.0)
  {
    StepKeeps(m.planner, op);
    hide Inv;
  }

  lemma SparedJoins(m: Plant)
    requires PlantInv(m) && Allowed(m.planner, CancelJogs) && WithoutTrailingJogs(m.planner.queue) != []
    ensures PlantInv(Act(m, CancelJogs)) && (Joins(Act(m, CancelJogs)) <==> Joins(m))
  {
    StepKeeps(m.planner, CancelJogs);
    hide Inv;
  }

  /** With a block at the front, planning behind it does not part the chain. */
  lemma BehindJoins(m: Plant, op: Op)
    requires PlantInv(m) && Allowed(m.planner, op) && !Removes(op) && m.planner.queue != []
    ensures PlantInv(Act(m, op)) && (Joins(Act(m, op)) <==> Joins(m))
  {
    StepKeeps(m.planner, op);
    var st, st' := m.planner, Step(m.planner, op);
    assert Shape(st'.queue[0]) == Shape(st.queue[0]);
    FrontEntry(st);
    FrontEntry(st');
    hide Inv, Step;
    if !st.headBusy {
      FreeHeadRestsIff(st);
      FreeHeadRestsIff(st');
    }
  }

  /** The first block on an empty queue. */
  lemma OpeningJoins(m: Plant, op: Op)
    requires PlantInv(m) && Allowed(m.planner, op) && !Removes(op) && m.planner.queue == []
    ensures PlantInv(Act(m, op)) && (Joins(Act(m, op)) <==> Continues(m, op))
  {
    var st, st' := m.planner, Step(m.planner, op);
    StepKeeps(st, op);
    FirstLegOpens(st, op);
    if FirstLeg(st, op).Some? {
      OpenedHead(st, op);
      FrontEntry(st');
    }
    hide Inv, Step, FirstLeg, BuildBlock, MovesFromRest;
  }

  lemma OpenedHead(st: State, op: Op)
    requires Inv(st) && Allowed(st, op) && st.queue == [] && FirstLeg(st, op).Some?
    ensures var st' := Step(st, op);
            && st'.queue != [] && (st.headBusy ==> st'.queue[0].maxEntrySq == 0.0)
            && (st'.queue[0].entrySq == 0.0 <==> MovesFromRest(st, op))
  {
    var (target, rq) := FirstLeg(st, op).value;
    StepKeeps(st, op);
    FirstLegIsPlanned(st, op);
    FirstLegOpens(st, op);
    BuiltAtRestIff(st.cfg, st.Trail(), target, rq);
    BusyEmptyForgets(st, target, rq);
    hide Step, FirstLeg, BuildBlock, StartsAtRest, LegOf, Inv;
    FreeHeadRestsIff(Step(st, op));
  }

  /** Whether the chain can go on after an operation, decided before it, in every state and for every operation. */
  lemma ActJoinsIff(m: Plant, op: Op)
    requires PlantInv(m) && Allowed(m.planner, op)
    ensures PlantInv(Act(m, op)) && (Joins(Act(m, op)) <==> Continues(m, op))
  {
    if op.Pop? {
      PopJoins(m);
    } else if op.FlushAll? || (op.CancelJogs? && WithoutTrailingJogs(m.planner.queue) == []) {
      EmptiedJoins(m, op);
    } else if op.CancelJogs? {
      SparedJoins(m);
    } else if m.planner.queue != [] {
      BehindJoins(m, op);
    } else {
      OpeningJoins(m, op);
    }
    hide PlantInv, Act, FirstLeg, MovesFromRest;
  }

  ghost predicate Admissible(m: Plant, ops: seq<Op>)
    requires PlantInv(m)
    decreases |ops|
  {
    ops == [] || (Allowed(m.planner, ops[0]) && (ActJoinsIff(m, ops[0]); Admissible(Act(m, ops[0]), ops[1..])))
  }

  ghost function After(m: Plant, ops: seq<Op>): (m': Plant)
    requires PlantInv(m) && Admissible(m, ops)
    ensures PlantInv(m')
    decreases |ops|
  {
    if ops == [] then m
    else
      ActJoinsIff(m, ops[0]);
      After(Act(m, ops[0]), ops[1..])
  }

  /** At every pop of the run the next block, or the stop, is entered at the speed the last one was left at. */
  ghost predicate NeverJumps(m: Plant, ops: seq<Op>)
    requires PlantInv(m) && Admissible(m, ops)
    decreases |ops|
  {
    ops == [] ||
    ((ops[0].Pop? ==> Joins(m)) && (ActJoinsIff(m, ops[0]); NeverJumps(Act(m, ops[0]), ops[1..])))
  }

  /** Every operation of the run leaves the chain able to go on, as far as can be seen before it. */
  ghost predicate Careful(m: Plant, ops: seq<Op>)
    requires PlantInv(m) && Admissible(m, ops)
    decreases |ops|
  {
    ops == [] || (Continues(m, ops[0]) && (ActJoinsIff(m, ops[0]); Careful(Act(m, ops[0]), ops[1..])))
  }

  /** While nothing is removed the chain can go on in the end if and only if every single operation left it able to: a
      break is never mended. */
  lemma {:induction false} PlanningJoinsIff(m: Plant, ops: seq<Op>)
    requires PlantInv(m) && Admissible(m, ops) && forall op :: op in ops ==> !Removes(op)
    ensures Joins(After(m, ops)) <==> Joins(m) && Careful(m, ops)
    decreases |ops|
  {
    if ops != [] {
      ActJoinsIff(m, ops[0]);
      OnlyJoinedContinues(m, ops[0]);
      hide PlantInv, Act, Continues, Joins;
      PlanningJoinsIff(Act(m, ops[0]), ops[1..]);
    }
  }

  lemma OnlyJoinedContinues(m: Plant, op: Op)
    requires PlantInv(m) && !Removes(op)
    ensures Continues(m, op) ==> Joins(m)
  {
  }

  /** A careful run never jumps, and can be left as it stands. */
  lemma {:induction false} CarefulRunsNeverJump(m: Plant, ops: seq<Op>)
    requires PlantInv(m) && Admissible(m, ops) && Joins(m) && Careful(m, ops)
    ensures NeverJumps(m, ops) && Joins(After(m, ops))
    decreases |ops|
  {
    if ops != [] {
      ActJoinsIff(m, ops[0]);
      hide PlantInv, Act, Continues;
      CarefulRunsNeverJump(Act(m, ops[0]), ops[1..]);
    }
  }

  lemma PowerOnRunsNeverJump(cfg: PlannerConfig, ops: seq<Op>)
    requires cfg.Valid() && (IdleKeeps(cfg); Admissible(Idle(cfg), ops) && Careful(Idle(cfg), ops))
    ensures (IdleKeeps(cfg); NeverJumps(Idle(cfg), ops))
  {
    IdleKeeps(cfg);
    CarefulRunsNeverJump(Idle(cfg), ops);
  }

  /** A state from which the next block, if the queue is empty, has no corner to come from. */
  predicate Forgotten(m: Plant) { m.planner.queue == [] ==> IsZeroVec(m.planner.prevUnitVec) }

  lemma PlanningAfterAFlush(m: Plant, op: Op)
    requires PlantInv(m) && Allowed(m.planner, op) && !Removes(op) && Forgotten(m)
    ensures PlantInv(Act(m, op)) && Forgotten(Act(m, op)) && (Joins(Act(m, op)) <==> Joins(m))
  {
    ActJoinsIff(m, op);
    var st := m.planner;
    StepKeeps(st, op);
    if st.queue == [] {
      FirstLegOpens(st, op);
      if FirstLeg(st, op).Some? {
        var (target, rq) := FirstLeg(st, op).value;
        BusyEmptyForgets(st, target, rq);
        BuiltAtRestIff(st.cfg, st.Trail(), target, rq);
      }
    }
    hide PlantInv, Step, FirstLeg, BuildBlock, StartsAtRest, LegOf, Inv;
  }

  lemma {:induction false} RunAfterAFlush(m: Plant, ops: seq<Op>)
    requires PlantInv(m) && Admissible(m, ops) && Forgotten(m) && forall op :: op in ops ==> !Removes(op)
    ensures Joins(After(m, ops)) <==> Joins(m)
    decreases |ops|
  {
    if ops != [] {
      PlanningAfterAFlush(m, ops[0]);
      ActJoinsIff(m, ops[0]);
      hide PlantInv, Act, Forgotten, Joins;
      RunAfterAFlush(Act(m, ops[0]), ops[1..]);
    }
  }

  /** A flush that empties the queue, a program stop or a jog-cancel, lets the executed chain end at rest, or go on from
      rest, if and only if the block at the front was to be entered at rest, whatever is planned after the flush and
      before the executor comes back for more. */
  lemma FlushedChainEndsAtRestIff(m: Plant, flush: Op, ops: seq<Op>)
    requires PlantInv(m) && Joins(m) && Allowed(m.planner, flush)
    requires flush.FlushAll? || (flush.CancelJogs? && WithoutTrailingJogs(m.planner.queue) == [])
    requires (ActJoinsIff(m, flush); Admissible(Act(m, flush), ops)) && forall op :: op in ops ==> !Removes(op)
    ensures (ActJoinsIff(m, flush);
             Joins(After(Act(m, flush), ops)) <==> m.planner.queue == [] || m.planner.queue[0].entrySq == 0.0)
  {
    ActJoinsIff(m, flush);
    assert Forgotten(Act(m, flush));
    hide PlantInv, Allowed;
    RunAfterAFlush(Act(m, flush), ops);
  }

  /** Cancelling a queue of jogs alone is always allowed and empties it; the machine comes to rest at the end of the
      jog in flight if and only if the next one was to be entered at rest. */
  lemma JogCancelOfPureJogs(m: Plant)
    requires PlantInv(m) && Joins(m) && forall b :: b in m.planner.queue ==> b.jog
    ensures Allowed(m.planner, CancelJogs) && Act(m, CancelJogs).planner.queue == []
    ensures Inv(FlushJogBlocks(m.planner))
    ensures Joins(Act(m, CancelJogs)) <==> m.planner.queue == [] || m.planner.queue[0].entrySq == 0.0
  {
    forall i | 0 <= i < |m.planner.queue|
      ensures m.planner.queue[i].jog
    {
      assert m.planner.queue[i] in m.planner.queue;
    }
    assert WithoutTrailingJogs(m.planner.queue) == [];
    JogCancel(m.planner);
    ActJoinsIff(m, CancelJogs);
    hide Inv;
  }
}

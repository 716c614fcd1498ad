/** The machine at every tick: a block in flight, planning going on meanwhile, stops and aborts (planner.rs:642-648,
    894-911, 968-986; motion.rs:185-243, 484-543). */
module InFlight {
  import opened Base
  import opened Blocks
  import opened Kinematics
  import opened PlannerState
  import opened PlannerRuns
  import opened Dda
  import opened Conservation

  /** `ground.live` is where the block in flight will end. It began at `from`, makes `steps` in all and has been given
      `ticks` ticks; no steps means no block. While `halting` the queue has been dropped and the planner has yet to be
      told where the machine stopped. */
  datatype Flight = Flight(ground: Machine, from: Steps, steps: Steps, ticks: nat, halting: bool)
  {
    function Live(): Steps { if DominantCount(steps) == 0 then from else LiveAfter(from, steps, ticks) }

    predicate Landed() { ticks == DominantCount(steps) }
  }

  function Standing(m: Machine): Flight { Flight(m, m.live, ORIGIN, 0, false) }

  /** What the block in flight has still to do. */
  function Ahead(f: Flight): Steps {
    if DominantCount(f.steps) == 0 then ORIGIN
    else
      [f.steps[0] - Travelled(f.steps, 0, f.ticks), f.steps[1] - Travelled(f.steps, 1, f.ticks),
       f.steps[2] - Travelled(f.steps, 2, f.ticks), f.steps[3] - Travelled(f.steps, 3, f.ticks)]
  }

  ghost predicate FlightInv(r: Region, f: Flight) {
    && (if f.halting then Stopping(r, f.ground) else MachineInv(r, f.ground)) && In(r, f.from)
    && AddSteps(f.from, f.steps) == f.ground.live && f.ticks <= DominantCount(f.steps)
  }

  /** Nothing is queued, and the commanded position is out of date. */
  ghost predicate Stopping(r: Region, m: Machine) {
    MachineInv(r, m.(planner := SyncPosition(m.planner, m.live))) && m.planner.queue == [] && Inv(m.planner)
  }

  datatype Moment =
    | Drive(op: Op)
    /** The executor comes back for the next block. */
    | Begin
    | Tick
    /** A program stop or a jog-cancel, at any tick: what is queued is dropped. */
    | Halt
    /** The executor has parked at the end of the block: the planner adopts the live position. */
    | Park
    /** A soft reset, at any tick: the block is abandoned where it is, and a new planner adopts that position. */
    | Abandon
    /** A probe or homing ended at `p`. */
    | Relocate(p: Steps)

  ghost predicate CanBe(r: Region, f: Flight, e: Moment)
    requires FlightInv(r, f)
  {
    match e
    case Drive(op) => !f.halting && Possible(r, f.ground, Driven(op))
    case Begin => f.Landed() && f.ground.planner.queue != []
    case Tick => !f.Landed()
    case Halt => !f.halting
    case Park => f.halting && f.Landed()
    case Abandon => true
    case Relocate(p) => !f.halting && f.Landed() && Possible(r, f.ground, Relocated(p))
  }

  ghost function Happen(r: Region, f: Flight, e: Moment): Flight
    requires FlightInv(r, f) && CanBe(r, f, e)
  {
    match e
    case Drive(op) => f.(ground := Happens(r, f.ground, Driven(op)))
    case Begin => Flight(RunHead(f.ground), f.ground.live, f.ground.planner.queue[0].steps, 0, false)
    case Tick => f.(ticks := f.ticks + 1)
    case Halt => f.(ground := f.ground.(planner := FlushQueue(f.ground.planner)), halting := true)
    case Park => f.(ground := f.ground.(planner := SyncPosition(f.ground.planner, f.Live())), halting := false)
    case Abandon => Standing(Machine(SyncPosition(Fresh(f.ground.planner.cfg), f.Live()), f.Live()))
    case Relocate(p) => Standing(Happens(r, f.ground, Relocated(p)))
  }

  /** Where the block in flight ends is inside the region. */
  lemma LandingIsIn(r: Region, f: Flight)
    requires FlightInv(r, f)
    ensures In(r, f.ground.live) && Inv(f.ground.planner) && (r.Travel? ==> f.ground.planner.cfg == r.cfg)
  {
    var m := if f.halting then f.ground.(planner := SyncPosition(f.ground.planner, f.ground.live)) else f.ground;
    PathStarts(r, m.live, m.planner.queue, m.planner.position);
    hide In, Inv;
  }

  /** At every tick the machine is inside the region its blocks' ends are in. */
  lemma LiveIsIn(r: Region, f: Flight)
    requires FlightInv(r, f)
    ensures In(r, f.Live())
  {
    hide MachineInv, Stopping, Inv;
    LandingIsIn(r, f);
    if DominantCount(f.steps) > 0 {
      forall a: nat | a < AXES
        ensures I32_MIN <= f.Live()[a] <= I32_MAX
      {
        LiveStaysBetween(f.from, f.steps, f.ticks, a);
        hide LiveAfter;
      }
      hide LiveAfter, DominantCount;
      if r.Travel? {
        BetweenIsWithin(r.cfg, r.maxTravelMm, f.from, f.steps, f.ticks);
      }
    }
  }

  lemma FreshTracks(r: Region, cfg: PlannerConfig, p: Steps)
    requires cfg.Valid() && In(r, p) && (r.Travel? ==> cfg == r.cfg)
    ensures MachineInv(r, Machine(SyncPosition(Fresh(cfg), p), p))
  {
    FreshIsConsistent(cfg);
    SyncKeeps(Fresh(cfg), p);
    hide Inv, In;
  }

  lemma StandingKeeps(r: Region, m: Machine)
    requires MachineInv(r, m)
    ensures FlightInv(r, Standing(m))
  {
    PathStarts(r, m.live, m.planner.queue, m.planner.position);
    hide MachineInv, In;
  }

  /** A halt drops the queue; all but the commanded position agrees. */
  lemma HaltKeeps(r: Region, m: Machine)
    requires MachineInv(r, m)
    ensures Stopping(r, m.(planner := FlushQueue(m.planner)))
  {
    EventKeeps(r, m, Stopped);
    EmptyQueueKeeps(m.planner, m.planner.cfg);
    hide Inv, Tracks, ChordsIn;
  }

  /** A block that has had all its ticks has landed. */
  lemma LandedIsLive(r: Region, f: Flight)
    requires FlightInv(r, f) && f.Landed()
    ensures f.Live() == f.ground.live
  {
    hide MachineInv, Stopping, Inv;
    LandingIsIn(r, f);
    if DominantCount(f.steps) > 0 {
      BlockMovesLive(f.from, f.steps);
    } else {
      assert f.steps == ORIGIN;
    }
    hide LiveAfter;
  }

  /** Whatever happens, and whenever, keeps the flight, the queue and the commanded position in agreement. */
  lemma MomentKeeps(r: Region, f: Flight, e: Moment)
    requires FlightInv(r, f) && CanBe(r, f, e)
    ensures FlightInv(r, Happen(r, f, e))
  {
    LandingIsIn(r, f);
    match e
    case Drive(op) =>
      EventKeeps(r, f.ground, Driven(op));
      hide MachineInv, In, Step;
    case Begin =>
      RunHeadTracks(r, f.ground);
      hide MachineInv, In, RunHead;
    case Tick =>
    case Halt =>
      HaltKeeps(r, f.ground);
      hide MachineInv, In;
    case Park =>
      LandedIsLive(r, f);
      hide MachineInv, In;
    case Abandon =>
      LiveIsIn(r, f);
      InvBasics(f.ground.planner);
      FreshTracks(r, f.ground.planner.cfg, f.Live());
      StandingKeeps(r, Machine(SyncPosition(Fresh(f.ground.planner.cfg), f.Live()), f.Live()));
      hide MachineInv, In, LiveAfter;
    case Relocate(p) =>
      EventKeeps(r, f.ground, Relocated(p));
      StandingKeeps(r, Happens(r, f.ground, Relocated(p)));
      hide MachineInv, In;
  }

  ghost predicate AllCanBe(r: Region, f: Flight, events: seq<Moment>)
    requires FlightInv(r, f)
    decreases |events|
  {
    events == [] ||
    (CanBe(r, f, events[0]) && (MomentKeeps(r, f, events[0]); AllCanBe(r, Happen(r, f, events[0]), events[1..])))
  }

  ghost function Timeline(r: Region, f: Flight, events: seq<Moment>): (f': Flight)
    requires FlightInv(r, f) && AllCanBe(r, f, events)
    ensures FlightInv(r, f')
    decreases |events|
  {
    if events == [] then f else
      MomentKeeps(r, f, events[0]);
      Timeline(r, Happen(r, f, events[0]), events[1..])
  }

  /** At every tick of every history the live position and what the block in flight has still to do make up where it will
      end; with all that is queued they make up the commanded position, unless a stop has dropped the queue and the
      executor has yet to park, when nothing is queued. */
  lemma EveryTickIsConserved(f: Flight, events: seq<Moment>)
    requires FlightInv(Anywhere, f) && AllCanBe(Anywhere, f, events)
    ensures var f' := Timeline(Anywhere, f, events);
            var (landing, queue) := (AddSteps(f'.Live(), Ahead(f')), f'.ground.planner.queue);
            && landing == f'.ground.live
            && (if f'.halting then queue == [] else AddSteps(landing, TotalSteps(queue)) == f'.ground.planner.position)
  {
    hide AllCanBe, Ahead, Path, In, Inv;
    var f' := Timeline(Anywhere, f, events);
    var m := f'.ground;
    LandingIsIn(Anywhere, f');
    InAnywhere(f'.from);
    InAnywhere(m.live);
    LiveAndAhead(f');
    if !f'.halting {
      PathEnds(Anywhere, m.live, m.planner.queue, m.planner.position);
    }
  }

  lemma InAnywhere(p: Steps)
    requires In(Anywhere, p)
    ensures InI32(p)
  {
  }

  lemma LiveAndAhead(f: Flight)
    requires InI32(f.from) && InI32(f.ground.live)
    requires AddSteps(f.from, f.steps) == f.ground.live && f.ticks <= DominantCount(f.steps)
    ensures AddSteps(f.Live(), Ahead(f)) == f.ground.live
  {
    if DominantCount(f.steps) > 0 {
      LiveIsExact(f.from, f.steps, f.ticks, 0);
      LiveIsExact(f.from, f.steps, f.ticks, 1);
      LiveIsExact(f.from, f.steps, f.ticks, 2);
      LiveIsExact(f.from, f.steps, f.ticks, 3);
      hide LiveAfter, Travelled, DominantCount;
    }
  }

  /** Under soft limits, at every tick of every history of checked moves, jogs, recalls and arcs whose chords end inside,
      stops and aborts included, the machine is inside its envelope. */
  lemma EveryTickIsWithinTheEnvelope(cfg: PlannerConfig, maxTravelMm: Vec, f: Flight, events: seq<Moment>)
    requires FlightInv(Travel(cfg, maxTravelMm), f) && AllCanBe(Travel(cfg, maxTravelMm), f, events)
    ensures cfg.Valid() && WithinEnvelope(cfg, maxTravelMm, Timeline(Travel(cfg, maxTravelMm), f, events).Live())
  {
    LiveIsIn(Travel(cfg, maxTravelMm), Timeline(Travel(cfg, maxTravelMm), f, events));
    hide FlightInv, Timeline, AllCanBe, WithinEnvelope;
  }
}

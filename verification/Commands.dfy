/** What the G-code parser hands to the planner (gcode.rs:186-655). */
module Commands {
  import opened Base

  datatype Units = Inch | Millimeter

  datatype DistanceMode = Absolute | Incremental

  datatype FeedMode = UnitsPerMin | InverseTime

  datatype Plane = XY | ZX | YZ

  datatype MotionMode = Rapid | Linear | ArcCw | ArcCcw

  datatype SpindleState = Clockwise | CounterClockwise | Stop

  datatype CoolantState = CoolantState(mist: bool, flood: bool)

  datatype ProbeKind = ProbeKind(toward: bool, alarmOnFail: bool)

  datatype AxisWords = AxisWords(x: Option<real>, y: Option<real>, z: Option<real>, a: Option<real>)
  {
    predicate Any() { x.Some? || y.Some? || z.Some? || a.Some? }

    function Word(axis: nat): Option<real>
      requires axis < AXES
    {
      if axis == 0 then x else if axis == 1 then y else if axis == 2 then z else a
    }
  }

  datatype CoordinateOp =
    | SelectWcs(index: nat)
    | SetWcsOffset(index: nat, axes: AxisWords, units: Units)
    | SetWcsOffsetToPosition(index: nat, axes: AxisWords, units: Units)
    | SetG92ToPosition(axes: AxisWords, units: Units)
    | ClearG92
    | StorePredefined(index: nat)
    | ApplyTlo(z: real, units: Units)
    | CancelTlo

  datatype PlannerCommand =
    | Move(rapid: bool, axes: AxisWords, units: Units, distance: DistanceMode, feed: real, feedMode: FeedMode,
           machineCoords: bool)
    | Arc(cw: bool, axes: AxisWords, i: Option<real>, j: Option<real>, k: Option<real>, plane: Plane,
          units: Units, distance: DistanceMode, feed: real, feedMode: FeedMode, machineCoords: bool)
    | Probe(kind: ProbeKind, axes: AxisWords, units: Units, distance: DistanceMode, feed: real)
    | Dwell(seconds: real)
    | GoToPredefined(isG28: bool, axes: AxisWords, units: Units, distance: DistanceMode)
    | Coordinate(op: CoordinateOp)
    | Spindle(state: SpindleState, speed: real)
    | ProgramEnd
    | ProgramPause(optional: bool, toolChange: bool)
    | Coolant(coolant: CoolantState)

  datatype JogCommand = JogCommand(axes: AxisWords, distance: DistanceMode, units: Units, feed: real,
                                   machineCoords: bool)
}

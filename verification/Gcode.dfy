/** The parser: words folded into a staged line, and the staged line into a command (gcode.rs:333-1456). */
module Gcode {
  import opened Base
  import opened Commands
  import opened Lexer

  datatype ModalState = ModalState(
    motion: MotionMode,
    distance: DistanceMode,
    units: Units,
    feedMode: FeedMode,
    wcs: nat,
    tloActive: bool,
    feed: real,
    spindleSpeed: real,
    spindle: SpindleState,
    plane: Plane,
    coolant: CoolantState,
    pendingTool: nat,
    currentTool: nat)

  const POWER_ON := ModalState(Rapid, Absolute, Millimeter, UnitsPerMin, 0, false, 0.0, 0.0, SpindleState.Stop, XY,
                               CoolantState(false, false), 0, 0)

  datatype Group = GMotion | GUnits | GDistance | GPlane | GSpindle | GStop | GFeedMode | GCoordinate | GToolOffset
                 | GNonModal | GCoolant

  datatype PendingCoordinate = G10 | G92Set | G92Clear | Store(index: nat) | Tlo | NoTlo

  datatype PendingPause = PendingPause(optional: bool, toolChange: bool)

  /** What the words of a line ask for, apart from the modal settings. */
  datatype Actions = Actions(
    predefined: Option<bool>,
    dwell: bool,
    probe: Option<ProbeKind>,
    spindle: Option<SpindleState>,
    programEnd: bool,
    pause: Option<PendingPause>,
    coolant: Option<CoolantState>,
    coordinate: Option<PendingCoordinate>,
    machineCoords: bool,
    selectedWcs: bool)

  /** The parameter words of a line. */
  datatype Params = Params(
    axes: AxisWords,
    i: Option<real>,
    j: Option<real>,
    k: Option<real>,
    p: Option<real>,
    l: Option<real>,
    sawFeed: bool)

  const NO_AXES := AxisWords(None, None, None, None)

  const NO_ACTIONS := Actions(None, false, None, None, false, None, None, None, false, false)

  const NO_PARAMS := Params(NO_AXES, None, None, None, None, None, false)

  /** What a line has staged: the groups it claimed, its words, and the modal state it would leave. */
  datatype Staged = Staged(seen: set<Group>, acts: Actions, params: Params, next: ModalState)

  const MAX_CODE := 255
  const MAX_TOOL := 0xFFFF

  predicate NearInteger(value: real) { AbsR(value - Round(value) as real) <= 0.001 }

  /** `g_code` */
  function Code(value: real): Option<nat> {
    var n := Round(value);
    if 0 <= n <= MAX_CODE && NearInteger(value) then Some(n) else None
  }

  /** A G code in tenths: fractional codes match exactly, whole ones as integers. */
  function Tenths(value: real): Option<int> {
    var scaled := Round(value * 10.0);
    if AbsR(value * 10.0 - scaled as real) <= 0.01 && scaled % 10 != 0 then Some(scaled)
    else
      match Code(value)
      case Some(n) => Some(10 * n)
      case None => None
  }

  function ToolNumber(value: real): Option<nat> {
    var n := Round(value);
    if 0 <= n <= MAX_TOOL && NearInteger(value) then Some(n) else None
  }

  /** The modal group of a G code in tenths. */
  function GroupOfG(t: int): Option<Group> {
    if t == 0 || t == 10 || t == 20 || t == 30 || t == 40 || t == 280 || t == 300 || 382 <= t <= 385 then Some(GMotion)
    else if t == 100 || t == 920 || t == 281 || t == 301 || t == 921 then Some(GNonModal)
    else if t == 170 || t == 180 || t == 190 then Some(GPlane)
    else if t == 200 || t == 210 then Some(GUnits)
    else if t == 930 || t == 940 then Some(GFeedMode)
    else if t == 490 || t == 431 then Some(GToolOffset)
    else if t == 540 || t == 550 || t == 560 || t == 570 || t == 580 || t == 590 then Some(GCoordinate)
    else if t == 900 || t == 910 then Some(GDistance)
    else None
  }

  /** The supported G codes: those of a group, and G53, which only modifies the line's motion. */
  predicate SupportedG(t: int) { GroupOfG(t).Some? || t == 530 }

  function WithMotion(st: Staged, m: MotionMode): Staged { st.(next := st.next.(motion := m)) }

  function WithCoordinate(st: Staged, c: PendingCoordinate): Staged { st.(acts := st.acts.(coordinate := Some(c))) }

  function WithProbe(st: Staged, toward: bool, alarmOnFail: bool): Staged {
    st.(acts := st.acts.(probe := Some(ProbeKind(toward, alarmOnFail))))
  }

  function MotionWord(t: int, st: Staged): (r: Staged)
    ensures r.next == st.next.(motion := r.next.motion)
    ensures r == st.(next := r.next,
                     acts := st.acts.(dwell := r.acts.dwell, predefined := r.acts.predefined, probe := r.acts.probe))
  {
    match t
    case 0 => WithMotion(st, Rapid)
    case 10 => WithMotion(st, Linear)
    case 20 => WithMotion(st, ArcCw)
    case 30 => WithMotion(st, ArcCcw)
    case 40 => st.(acts := st.acts.(dwell := true))
    case 280 => st.(acts := st.acts.(predefined := Some(true)))
    case 300 => st.(acts := st.acts.(predefined := Some(false)))
    case 382 => WithProbe(st, true, true)
    case 383 => WithProbe(st, true, false)
    case 384 => WithProbe(st, false, true)
    case _ => WithProbe(st, false, false)
  }

  function NonModalOp(t: int): PendingCoordinate {
    match t
    case 100 => G10
    case 920 => G92Set
    case 921 => G92Clear
    case 281 => Store(0)
    case _ => Store(1)
  }

  /** What a supported G code does, by its group. */
  function EffectOfG(t: int, st: Staged): Staged {
    match GroupOfG(t)
    case Some(GMotion) => MotionWord(t, st)
    case Some(GNonModal) => WithCoordinate(st, NonModalOp(t))
    case Some(GPlane) => st.(next := st.next.(plane := if t == 170 then XY else if t == 180 then ZX else YZ))
    case Some(GUnits) => st.(next := st.next.(units := if t == 200 then Inch else Millimeter))
    case Some(GFeedMode) => st.(next := st.next.(feedMode := if t == 930 then InverseTime else UnitsPerMin))
    case Some(GToolOffset) =>
      WithCoordinate(st, if t == 431 then Tlo else NoTlo).(next := st.next.(tloActive := t == 431))
    case Some(GCoordinate) =>
      st.(next := st.next.(wcs := if t >= 540 then t / 10 - 54 else 0), acts := st.acts.(selectedWcs := true))
    case Some(GDistance) => st.(next := st.next.(distance := if t == 900 then Absolute else Incremental))
    case _ => st.(acts := st.acts.(machineCoords := true))
  }

  predicate SupportedM(m: nat) { m <= 9 || m == 30 }

  function GroupOfM(m: nat): Group {
    if 3 <= m <= 5 then GSpindle else if 7 <= m <= 9 then GCoolant else GStop
  }

  function WithPause(st: Staged, optional: bool, toolChange: bool): Staged {
    st.(acts := st.acts.(pause := Some(PendingPause(optional, toolChange))))
  }

  function WithSpindle(st: Staged, s: SpindleState): Staged {
    st.(acts := st.acts.(spindle := Some(s)), next := st.next.(spindle := s))
  }

  function WithCoolant(st: Staged, c: CoolantState): Staged {
    st.(acts := st.acts.(coolant := Some(c)), next := st.next.(coolant := c))
  }

  function EffectOfM(m: nat, st: Staged): Staged {
    match m
    case 0 => WithPause(st, false, false)
    case 1 => WithPause(st, true, false)
    case 6 => WithPause(st, false, true).(next := st.next.(currentTool := st.next.pendingTool, pendingTool := 0))
    case 7 => WithCoolant(st, st.next.coolant.(mist := true))
    case 8 => WithCoolant(st, st.next.coolant.(flood := true))
    case 9 => WithCoolant(st, CoolantState(false, false))
    case 3 => WithSpindle(st, Clockwise)
    case 4 => WithSpindle(st, CounterClockwise)
    case 5 => WithSpindle(st, SpindleState.Stop)
    case _ => st.(acts := st.acts.(programEnd := true))
  }

  /** The parameter letters. */
  predicate IsParameter(c: char) {
    c == 'X' || c == 'Y' || c == 'Z' || c == 'A' || c == 'I' || c == 'J' || c == 'K' || c == 'P' || c == 'L'
  }

  /** What is wrong with a word wherever it stands. */
  function Fault(w: Word): Option<GcodeError> {
    match w.letter
    case 'G' =>
      var t := Tenths(w.value);
      if t.Some? && SupportedG(t.value) then None else Some(UnsupportedCommand)
    case 'M' =>
      var m := Code(w.value);
      if m.Some? && SupportedM(m.value) then None else Some(UnsupportedCommand)
    case 'T' => if ToolNumber(w.value).Some? then None else Some(BadToolNumber)
    case c =>
      if IsParameter(c) || c == 'F' || c == 'S' || c == 'N' then None else Some(UnsupportedCommand)
  }

  /** The modal group a word claims. */
  function GroupOf(w: Word): Option<Group>
    requires Fault(w).None?
  {
    if w.letter == 'G' then GroupOfG(Tenths(w.value).value)
    else if w.letter == 'M' then Some(GroupOfM(Code(w.value).value))
    else None
  }

  function WithAxes(st: Staged, axes: AxisWords): Staged { st.(params := st.params.(axes := axes)) }

  function Effect(w: Word, st: Staged): Staged
    requires Fault(w).None?
  {
    var v := w.value;
    match w.letter
    case 'G' => EffectOfG(Tenths(v).value, st)
    case 'M' => EffectOfM(Code(v).value, st)
    case 'X' => WithAxes(st, st.params.axes.(x := Some(v)))
    case 'Y' => WithAxes(st, st.params.axes.(y := Some(v)))
    case 'Z' => WithAxes(st, st.params.axes.(z := Some(v)))
    case 'A' => WithAxes(st, st.params.axes.(a := Some(v)))
    case 'I' => st.(params := st.params.(i := Some(v)))
    case 'J' => st.(params := st.params.(j := Some(v)))
    case 'K' => st.(params := st.params.(k := Some(v)))
    case 'P' => st.(params := st.params.(p := Some(v)))
    case 'L' => st.(params := st.params.(l := Some(v)))
    case 'F' => st.(params := st.params.(sawFeed := true), next := st.next.(feed := v))
    case 'S' => st.(next := st.next.(spindleSpeed := v))
    case 'T' => st.(next := st.next.(pendingTool := ToolNumber(v).value))
    case _ => st
  }

  /** `apply_word`: a word is faulty, or repeats a group, or takes effect. */
  function ApplyWord(w: Word, st: Staged): Result<Staged, GcodeError> {
    if Fault(w).Some? then Err(Fault(w).value)
    else
      match GroupOf(w)
      case None => Ok(Effect(w, st))
      case Some(g) =>
        if g in st.seen then Err(ModalGroupViolation) else Ok(Effect(w, st.(seen := st.seen + {g})))
  }

  /** The words in order, then the reading error that ended them, if any. */
  function ApplyWords(st: Staged, ws: seq<Word>, unread: Option<GcodeError>): Result<Staged, GcodeError>
    decreases |ws|
  {
    if ws == [] then (if unread.Some? then Err(unread.value) else Ok(st))
    else
      match ApplyWord(ws[0], st)
      case Err(e) => Err(e)
      case Ok(next) => ApplyWords(next, ws[1..], unread)
  }

  /** `feed_is_undefined` */
  predicate FeedIsUndefined(state: ModalState, sawFeed: bool, needsFeed: bool) {
    needsFeed && (state.feed <= 0.0 || (state.feedMode == InverseTime && !sawFeed))
  }

  const WCS_COUNT := 6

  function WcsIndex(p: Option<real>, fallback: nat): nat {
    if p.Some? && 1 <= Round(p.value) <= WCS_COUNT then Round(p.value) - 1 else fallback
  }

  /** `resolve_coordinate` */
  function ResolveCoordinate(c: PendingCoordinate, ps: Params, state: ModalState, fallback: nat): CoordinateOp {
    match c
    case G10 =>
      var index := WcsIndex(ps.p, fallback);
      if ps.l.Some? && Round(ps.l.value) == 20 then SetWcsOffsetToPosition(index, ps.axes, state.units)
      else SetWcsOffset(index, ps.axes, state.units)
    case G92Set => SetG92ToPosition(ps.axes, state.units)
    case G92Clear => ClearG92
    case Store(index) => StorePredefined(index)
    case Tlo => ApplyTlo(if ps.axes.z.Some? then ps.axes.z.value else 0.0, state.units)
    case NoTlo => CancelTlo
  }

  function MotionCommand(ps: Params, machineCoords: bool, state: ModalState): PlannerCommand {
    if state.motion.Rapid? || state.motion.Linear? then
      Move(state.motion.Rapid?, ps.axes, state.units, state.distance, state.feed, state.feedMode, machineCoords)
    else
      Arc(state.motion.ArcCw?, ps.axes, ps.i, ps.j, ps.k, state.plane, state.units, state.distance, state.feed,
          state.feedMode, machineCoords)
  }

  /** `emit` */
  function Emit(acts: Actions, ps: Params, state: ModalState, preLineWcs: nat): Result<Option<PlannerCommand>, GcodeError> {
    if acts.programEnd then Ok(Some(ProgramEnd))
    else if acts.pause.Some? then Ok(Some(ProgramPause(acts.pause.value.optional, acts.pause.value.toolChange)))
    else if acts.dwell then Ok(Some(Dwell(if ps.p.Some? then ps.p.value else 0.0)))
    else if acts.predefined.Some? then Ok(Some(GoToPredefined(acts.predefined.value, ps.axes, state.units, state.distance)))
    else if acts.coordinate.Some? then
      Ok(Some(Coordinate(ResolveCoordinate(acts.coordinate.value, ps, state, preLineWcs))))
    else if acts.probe.Some? then
      if ps.axes.a.Some? then Err(ProbeRotaryAxisWord)
      else if state.feedMode == InverseTime then Err(ProbeInverseTimeUnsupported)
      else if FeedIsUndefined(state, ps.sawFeed, true) then Err(FeedRateUndefined)
      else Ok(Some(Probe(acts.probe.value, ps.axes, state.units, state.distance, state.feed)))
    else if ps.axes.Any() then
      if FeedIsUndefined(state, ps.sawFeed, state.motion != Rapid) then Err(FeedRateUndefined)
      else Ok(Some(MotionCommand(ps, acts.machineCoords, state)))
    else if acts.spindle.Some? then Ok(Some(Spindle(acts.spindle.value, state.spindleSpeed)))
    else if acts.coolant.Some? then Ok(Some(Coolant(acts.coolant.value)))
    else if acts.selectedWcs then Ok(Some(Coordinate(SelectWcs(state.wcs))))
    else Ok(None)
  }

  type Parsed = Result<Option<PlannerCommand>, GcodeError>

  /** What a line whose words are all staged answers. */
  function Finish(st: Staged, preLineWcs: nat): Parsed {
    if st.acts.probe.Some? && !st.params.axes.Any() then Err(ProbeNoAxis) else Emit(st.acts, st.params, st.next, preLineWcs)
  }

  function Start(state: ModalState): Staged { Staged({}, NO_ACTIONS, NO_PARAMS, state) }

  /** A line: the modal state it leaves, and its answer. */
  function ParsedLine(state: ModalState, line: string): (ModalState, Parsed) {
    var (ws, unread) := Words(line);
    match ApplyWords(Start(state), ws, unread)
    case Err(e) => (state, Err(e))
    case Ok(st) =>
      var r := Finish(st, state.wcs);
      if r.Err? then (state, r) else (st.next, r)
  }

  datatype JogStaged = JogStaged(axes: AxisWords, units: Units, distance: DistanceMode, feed: Option<real>,
                                 machineCoords: bool)

  function ApplyJogWord(w: Word, st: JogStaged): Result<JogStaged, GcodeError> {
    match w.letter
    case 'X' => Ok(st.(axes := st.axes.(x := Some(w.value))))
    case 'Y' => Ok(st.(axes := st.axes.(y := Some(w.value))))
    case 'Z' => Ok(st.(axes := st.axes.(z := Some(w.value))))
    case 'A' => Ok(st.(axes := st.axes.(a := Some(w.value))))
    case 'F' => Ok(st.(feed := Some(w.value)))
    case 'G' =>
      if Code(w.value) == Some(20) then Ok(st.(units := Inch))
      else if Code(w.value) == Some(21) then Ok(st.(units := Millimeter))
      else if Code(w.value) == Some(90) then Ok(st.(distance := Absolute))
      else if Code(w.value) == Some(91) then Ok(st.(distance := Incremental))
      else if Code(w.value) == Some(53) then Ok(st.(machineCoords := true))
      else Err(UnsupportedCommand)
    case _ => Err(UnsupportedCommand)
  }

  function ApplyJogWords(st: JogStaged, ws: seq<Word>, unread: Option<GcodeError>): Result<JogStaged, GcodeError>
    decreases |ws|
  {
    if ws == [] then (if unread.Some? then Err(unread.value) else Ok(st))
    else
      match ApplyJogWord(ws[0], st)
      case Err(e) => Err(e)
      case Ok(next) => ApplyJogWords(next, ws[1..], unread)
  }

  function JogStart(state: ModalState): JogStaged { JogStaged(NO_AXES, state.units, state.distance, None, false) }

  function FinishJog(st: JogStaged): Result<JogCommand, GcodeError> {
    if st.feed.None? then Err(FeedRateUndefined)
    else if !st.axes.Any() then Err(JogNoAxis)
    else Ok(JogCommand(st.axes, st.distance, st.units, st.feed.value, st.machineCoords))
  }

  function JogLine(state: ModalState, line: string): Result<JogCommand, GcodeError> {
    var (ws, unread) := Words(line);
    match ApplyJogWords(JogStart(state), ws, unread)
    case Err(e) => Err(e)
    case Ok(st) => FinishJog(st)
  }

  class Parser {
    var state: ModalState

    constructor ()
      ensures state == POWER_ON
    {
      state := POWER_ON;
    }

    /** `parse_line`: the modal state moves only with a line that is accepted. */
    method ParseLine(line: string) returns (r: Parsed)
      modifies this
      ensures (state, r) == ParsedLine(old(state), line)
      ensures r.Err? ==> state == old(state)
    {
      hide NextWord, ApplyWord, Finish, LineFrom;
      ParsedLineFromTheFirstWord(state, line);
      var lexer := new Lexer(line);
      var staged := Start(state);
      var lexed := lexer.Next();
      while lexed.Got?
        invariant lexer.Valid() && fresh(lexer) && state == old(state)
        invariant lexed.Got? ==> lexer.Rest() == lexed.rest
        invariant LineFrom(Start(state), NextWord(line)) == LineFrom(staged, lexed)
        decreases if lexed.Got? then 1 + |lexed.rest| else 0
      {
        LineFromStep(staged, lexed);
        var applied := ApplyWord(lexed.word, staged);
        if applied.Err? {
          return Err(applied.error);
        }
        staged := applied.value;
        lexed := lexer.Next();
      }
      LineFromStep(staged, lexed);
      if lexed.Bad? {
        return Err(lexed.error);
      }
      r := Finish(staged, state.wcs);
      if r.Ok? {
        state := staged.next;
      }
    }

    /** `parse_jog`: the same words in a throwaway context. */
    method ParseJog(line: string) returns (r: Result<JogCommand, GcodeError>)
      ensures r == JogLine(state, line)
    {
      hide NextWord, ApplyJogWord, FinishJog, JogFrom;
      JogLineFromTheFirstWord(state, line);
      var lexer := new Lexer(line);
      var staged := JogStart(state);
      var lexed := lexer.Next();
      while lexed.Got?
        invariant lexer.Valid() && fresh(lexer)
        invariant lexed.Got? ==> lexer.Rest() == lexed.rest
        invariant JogFrom(JogStart(state), NextWord(line)) == JogFrom(staged, lexed)
        decreases if lexed.Got? then 1 + |lexed.rest| else 0
      {
        JogFromStep(staged, lexed);
        var applied := ApplyJogWord(lexed.word, staged);
        if applied.Err? {
          return Err(applied.error);
        }
        staged := applied.value;
        lexed := lexer.Next();
      }
      JogFromStep(staged, lexed);
      if lexed.Bad? {
        return Err(lexed.error);
      }
      r := FinishJog(staged);
    }
  }

  /** The words still to come, from the one just read. */
  function WordsFrom(lexed: Lexed): (seq<Word>, Option<GcodeError>) {
    match lexed
    case End => ([], None)
    case Bad(e) => ([], Some(e))
    case Got(w, rest) => ([w] + Words(rest).0, Words(rest).1)
  }

  function LineFrom(st: Staged, lexed: Lexed): Result<Staged, GcodeError> {
    ApplyWords(st, WordsFrom(lexed).0, WordsFrom(lexed).1)
  }

  function JogFrom(st: JogStaged, lexed: Lexed): Result<JogStaged, GcodeError> {
    ApplyJogWords(st, WordsFrom(lexed).0, WordsFrom(lexed).1)
  }

  lemma WordsFromTheFirst(s: string)
    ensures Words(s) == WordsFrom(NextWord(s))
  {
    hide NextWord;
  }

  lemma LineFromStep(st: Staged, lexed: Lexed)
    ensures lexed.End? ==> LineFrom(st, lexed) == Ok(st)
    ensures lexed.Bad? ==> LineFrom(st, lexed) == Err(lexed.error)
    ensures lexed.Got? ==>
              LineFrom(st, lexed) == if ApplyWord(lexed.word, st).Err? then Err(ApplyWord(lexed.word, st).error)
                                     else LineFrom(ApplyWord(lexed.word, st).value, NextWord(lexed.rest))
  {
    hide NextWord, ApplyWord;
    if lexed.Got? {
      WordsFromTheFirst(lexed.rest);
      assert WordsFrom(lexed).0[1..] == Words(lexed.rest).0;
    }
  }

  lemma JogFromStep(st: JogStaged, lexed: Lexed)
    ensures lexed.End? ==> JogFrom(st, lexed) == Ok(st)
    ensures lexed.Bad? ==> JogFrom(st, lexed) == Err(lexed.error)
    ensures lexed.Got? ==>
              JogFrom(st, lexed) == if ApplyJogWord(lexed.word, st).Err? then Err(ApplyJogWord(lexed.word, st).error)
                                    else JogFrom(ApplyJogWord(lexed.word, st).value, NextWord(lexed.rest))
  {
    hide NextWord, ApplyJogWord;
    if lexed.Got? {
      WordsFromTheFirst(lexed.rest);
      assert WordsFrom(lexed).0[1..] == Words(lexed.rest).0;
    }
  }

  lemma ParsedLineFromTheFirstWord(state: ModalState, line: string)
    ensures var staged := LineFrom(Start(state), NextWord(line));
            ParsedLine(state, line) == if staged.Err? then (state, Err(staged.error))
                                       else
                                         var r := Finish(staged.value, state.wcs);
                                         if r.Err? then (state, r) else (staged.value.next, r)
  {
    WordsFromTheFirst(line);
    hide Words, ApplyWords, NextWord, Finish;
  }

  lemma JogLineFromTheFirstWord(state: ModalState, line: string)
    ensures var staged := JogFrom(JogStart(state), NextWord(line));
            JogLine(state, line) == if staged.Err? then Err(staged.error) else FinishJog(staged.value)
  {
    WordsFromTheFirst(line);
    hide Words, ApplyJogWords, NextWord, FinishJog;
  }
}

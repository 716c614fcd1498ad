/** What each code means on a whole line: which words conflict, which settings they leave, and which command they lead
    to (gcode.rs:833-1360, 1423-1500). */
module GcodeCodes {
  import opened Base
  import opened Commands
  import opened Lexer
  import opened Gcode
  import opened GcodeLaws

  /** A word is a code if its value is within a thousandth of it. */
  predicate IsG(w: Word, code: real) { w.letter == 'G' && AbsR(w.value - code) <= 0.001 }

  predicate IsM(w: Word, code: real) { w.letter == 'M' && AbsR(w.value - code) <= 0.001 }

  /** The codes of each modal group: of each, a line may hold one. */
  predicate InGroup(w: Word, g: Group) {
    match g
    case GMotion =>
      || IsG(w, 0.0) || IsG(w, 1.0) || IsG(w, 2.0) || IsG(w, 3.0) || IsG(w, 4.0) || IsG(w, 28.0) || IsG(w, 30.0)
      || IsG(w, 38.2) || IsG(w, 38.3) || IsG(w, 38.4) || IsG(w, 38.5)
    case GNonModal => IsG(w, 10.0) || IsG(w, 28.1) || IsG(w, 30.1) || IsG(w, 92.0) || IsG(w, 92.1)
    case GPlane => IsG(w, 17.0) || IsG(w, 18.0) || IsG(w, 19.0)
    case GUnits => IsG(w, 20.0) || IsG(w, 21.0)
    case GToolOffset => IsG(w, 43.1) || IsG(w, 49.0)
    case GCoordinate =>
      IsG(w, 54.0) || IsG(w, 55.0) || IsG(w, 56.0) || IsG(w, 57.0) || IsG(w, 58.0) || IsG(w, 59.0)
    case GDistance => IsG(w, 90.0) || IsG(w, 91.0)
    case GFeedMode => IsG(w, 93.0) || IsG(w, 94.0)
    case GStop => IsM(w, 0.0) || IsM(w, 1.0) || IsM(w, 2.0) || IsM(w, 6.0) || IsM(w, 30.0)
    case GSpindle => IsM(w, 3.0) || IsM(w, 4.0) || IsM(w, 5.0)
    case GCoolant => IsM(w, 7.0) || IsM(w, 8.0) || IsM(w, 9.0)
  }

  predicate IsModal(w: Word) {
    || InGroup(w, GMotion) || InGroup(w, GNonModal) || InGroup(w, GPlane) || InGroup(w, GUnits) || InGroup(w, GToolOffset)
    || InGroup(w, GCoordinate) || InGroup(w, GDistance) || InGroup(w, GFeedMode) || InGroup(w, GStop)
    || InGroup(w, GSpindle) || InGroup(w, GCoolant)
  }

  /** A tool number is whole, within a thousandth, and fits sixteen bits. */
  predicate IsTool(value: real) { exists n: int :: 0 <= n <= 65535 && AbsR(value - Exactly(n)) <= 0.001 }

  function Exactly(n: int): real { n as real }

  lemma RoundsTo(x: real, n: int, eps: real)
    requires AbsR(x - n as real) <= eps < 0.5
    ensures Round(x) == n
  {
  }

  lemma CodeIff(value: real, n: nat)
    requires n <= 255
    ensures Code(value) == Some(n) <==> AbsR(value - n as real) <= 0.001
  {
    if AbsR(value - n as real) <= 0.001 {
      RoundsTo(value, n, 0.001);
    }
  }

  lemma TenthsIff(value: real, t: int, code: real)
    requires 0 <= t <= 2550 && code * 10.0 == t as real
    ensures Tenths(value) == Some(t) <==> AbsR(value - code) <= 0.001
  {
    hide Round;
    var x := value * 10.0;
    assert AbsR(value - code) <= 0.001 <==> AbsR(x - t as real) <= 0.01;
    if AbsR(x - t as real) <= 0.01 {
      RoundsTo(x, t, 0.01);
    }
    if Code(value).Some? {
      WholeCodesInTenths(value);
    }
    if t % 10 == 0 {
      CodeIff(value, t / 10);
      assert (t / 10) as real == code;
    }
    hide Code;
  }

  lemma ToolIff(value: real)
    ensures ToolNumber(value).Some? <==> IsTool(value)
    ensures ToolNumber(value).Some? ==> AbsR(value - ToolNumber(value).value as real) <= 0.001
  {
    hide Round;
    var n := Round(value);
    assert Exactly(n) == n as real;
    if IsTool(value) {
      var k: int :| 0 <= k <= 65535 && AbsR(value - Exactly(k)) <= 0.001;
      RoundsTo(value, k, 0.001);
    }
  }

  predicate GAre(w: Word, t: Option<int>) {
    && (IsG(w, 0.0) <==> t == Some(0)) && (IsG(w, 1.0) <==> t == Some(10)) && (IsG(w, 2.0) <==> t == Some(20))
    && (IsG(w, 3.0) <==> t == Some(30)) && (IsG(w, 4.0) <==> t == Some(40)) && (IsG(w, 10.0) <==> t == Some(100))
    && (IsG(w, 17.0) <==> t == Some(170)) && (IsG(w, 18.0) <==> t == Some(180)) && (IsG(w, 19.0) <==> t == Some(190))
    && (IsG(w, 20.0) <==> t == Some(200)) && (IsG(w, 21.0) <==> t == Some(210)) && (IsG(w, 28.0) <==> t == Some(280))
    && (IsG(w, 28.1) <==> t == Some(281)) && (IsG(w, 30.0) <==> t == Some(300)) && (IsG(w, 30.1) <==> t == Some(301))
    && (IsG(w, 38.2) <==> t == Some(382)) && (IsG(w, 38.3) <==> t == Some(383)) && (IsG(w, 38.4) <==> t == Some(384))
    && (IsG(w, 38.5) <==> t == Some(385)) && (IsG(w, 43.1) <==> t == Some(431)) && (IsG(w, 49.0) <==> t == Some(490))
    && (IsG(w, 53.0) <==> t == Some(530)) && (IsG(w, 54.0) <==> t == Some(540)) && (IsG(w, 55.0) <==> t == Some(550))
    && (IsG(w, 56.0) <==> t == Some(560)) && (IsG(w, 57.0) <==> t == Some(570)) && (IsG(w, 58.0) <==> t == Some(580))
    && (IsG(w, 59.0) <==> t == Some(590)) && (IsG(w, 90.0) <==> t == Some(900)) && (IsG(w, 91.0) <==> t == Some(910))
    && (IsG(w, 92.0) <==> t == Some(920)) && (IsG(w, 92.1) <==> t == Some(921)) && (IsG(w, 93.0) <==> t == Some(930))
    && (IsG(w, 94.0) <==> t == Some(940))
  }

  lemma OneG(w: Word, t: int, code: real)
    requires w.letter == 'G' && 0 <= t <= 2550 && code * 10.0 == t as real
    ensures IsG(w, code) <==> Tenths(w.value) == Some(t)
  {
    TenthsIff(w.value, t, code);
    hide Tenths;
  }

  lemma GCodesAre(w: Word)
    ensures GAre(w, if w.letter == 'G' then Tenths(w.value) else None)
  {
    hide Tenths, IsG;
    if w.letter == 'G' {
      GCodesBelow30(w);
      GCodesBelow58(w);
      GCodesTo94(w);
    } else {
      NotG(w);
    }
  }

  lemma NotG(w: Word)
    requires w.letter != 'G'
    ensures forall code: real :: !IsG(w, code)
  {
  }

  lemma GCodesBelow30(w: Word)
    requires w.letter == 'G'
    ensures var t := Tenths(w.value);
            && (IsG(w, 0.0) <==> t == Some(0)) && (IsG(w, 1.0) <==> t == Some(10)) && (IsG(w, 2.0) <==> t == Some(20))
            && (IsG(w, 3.0) <==> t == Some(30)) && (IsG(w, 4.0) <==> t == Some(40)) && (IsG(w, 10.0) <==> t == Some(100))
            && (IsG(w, 17.0) <==> t == Some(170)) && (IsG(w, 18.0) <==> t == Some(180))
            && (IsG(w, 19.0) <==> t == Some(190)) && (IsG(w, 20.0) <==> t == Some(200))
            && (IsG(w, 21.0) <==> t == Some(210)) && (IsG(w, 28.0) <==> t == Some(280))
            && (IsG(w, 28.1) <==> t == Some(281))
  {
    hide Tenths, IsG;
    OneG(w, 0, 0.0);
    OneG(w, 10, 1.0);
    OneG(w, 20, 2.0);
    OneG(w, 30, 3.0);
    OneG(w, 40, 4.0);
    OneG(w, 100, 10.0);
    OneG(w, 170, 17.0);
    OneG(w, 180, 18.0);
    OneG(w, 190, 19.0);
    OneG(w, 200, 20.0);
    OneG(w, 210, 21.0);
    OneG(w, 280, 28.0);
    OneG(w, 281, 28.1);
  }

  lemma GCodesBelow58(w: Word)
    requires w.letter == 'G'
    ensures var t := Tenths(w.value);
            && (IsG(w, 30.0) <==> t == Some(300)) && (IsG(w, 30.1) <==> t == Some(301))
            && (IsG(w, 38.2) <==> t == Some(382)) && (IsG(w, 38.3) <==> t == Some(383))
            && (IsG(w, 38.4) <==> t == Some(384)) && (IsG(w, 38.5) <==> t == Some(385))
            && (IsG(w, 43.1) <==> t == Some(431)) && (IsG(w, 49.0) <==> t == Some(490))
            && (IsG(w, 53.0) <==> t == Some(530)) && (IsG(w, 54.0) <==> t == Some(540))
            && (IsG(w, 55.0) <==> t == Some(550)) && (IsG(w, 56.0) <==> t == Some(560))
            && (IsG(w, 57.0) <==> t == Some(570))
  {
    hide Tenths, IsG;
    OneG(w, 300, 30.0);
    OneG(w, 301, 30.1);
    OneG(w, 382, 38.2);
    OneG(w, 383, 38.3);
    OneG(w, 384, 38.4);
    OneG(w, 385, 38.5);
    OneG(w, 431, 43.1);
    OneG(w, 490, 49.0);
    OneG(w, 530, 53.0);
    OneG(w, 540, 54.0);
    OneG(w, 550, 55.0);
    OneG(w, 560, 56.0);
    OneG(w, 570, 57.0);
  }

  lemma GCodesTo94(w: Word)
    requires w.letter == 'G'
    ensures var t := Tenths(w.value);
            && (IsG(w, 58.0) <==> t == Some(580)) && (IsG(w, 59.0) <==> t == Some(590))
            && (IsG(w, 90.0) <==> t == Some(900)) && (IsG(w, 91.0) <==> t == Some(910))
            && (IsG(w, 92.0) <==> t == Some(920)) && (IsG(w, 92.1) <==> t == Some(921))
            && (IsG(w, 93.0) <==> t == Some(930)) && (IsG(w, 94.0) <==> t == Some(940))
  {
    hide Tenths, IsG;
    OneG(w, 580, 58.0);
    OneG(w, 590, 59.0);
    OneG(w, 900, 90.0);
    OneG(w, 910, 91.0);
    OneG(w, 920, 92.0);
    OneG(w, 921, 92.1);
    OneG(w, 930, 93.0);
    OneG(w, 940, 94.0);
  }

  predicate MAre(w: Word, m: Option<nat>) {
    && (IsM(w, 0.0) <==> m == Some(0)) && (IsM(w, 1.0) <==> m == Some(1)) && (IsM(w, 2.0) <==> m == Some(2))
    && (IsM(w, 3.0) <==> m == Some(3)) && (IsM(w, 4.0) <==> m == Some(4)) && (IsM(w, 5.0) <==> m == Some(5))
    && (IsM(w, 6.0) <==> m == Some(6)) && (IsM(w, 7.0) <==> m == Some(7)) && (IsM(w, 8.0) <==> m == Some(8))
    && (IsM(w, 9.0) <==> m == Some(9)) && (IsM(w, 30.0) <==> m == Some(30))
  }

  lemma OneM(w: Word, m: nat, code: real)
    requires m <= 255 && code == m as real
    ensures IsM(w, code) <==> w.letter == 'M' && Code(w.value) == Some(m)
  {
    CodeIff(w.value, m);
    hide Code;
  }

  lemma MCodesAre(w: Word)
    ensures MAre(w, if w.letter == 'M' then Code(w.value) else None)
  {
    hide Code, IsM;
    OneM(w, 0, 0.0);
    OneM(w, 1, 1.0);
    OneM(w, 2, 2.0);
    OneM(w, 3, 3.0);
    OneM(w, 4, 4.0);
    OneM(w, 5, 5.0);
    OneM(w, 6, 6.0);
    OneM(w, 7, 7.0);
    OneM(w, 8, 8.0);
    OneM(w, 9, 9.0);
    OneM(w, 30, 30.0);
  }

  lemma GIsListed(w: Word)
    requires w.letter == 'G'
    ensures Fault(w) == if IsModal(w) || IsG(w, 53.0) then None else Some(UnsupportedCommand)
    ensures Fault(w).None? ==> forall g: Group :: GroupOf(w) == Some(g) <==> InGroup(w, g)
  {
    hide Tenths, IsG, IsM, MAre;
    GCodesAre(w);
    MCodesAre(w);
    NoM(w);
  }

  lemma NoM(w: Word)
    requires MAre(w, None)
    ensures !InGroup(w, GStop) && !InGroup(w, GSpindle) && !InGroup(w, GCoolant)
  {
    hide IsM;
  }

  lemma NoG(w: Word)
    requires GAre(w, None)
    ensures !IsG(w, 53.0) && !InGroup(w, GMotion) && !InGroup(w, GNonModal) && !InGroup(w, GPlane) && !InGroup(w, GUnits)
    ensures !InGroup(w, GToolOffset) && !InGroup(w, GCoordinate) && !InGroup(w, GDistance) && !InGroup(w, GFeedMode)
  {
    hide IsG;
  }

  lemma MIsListed(w: Word)
    requires w.letter == 'M'
    ensures Fault(w) == if IsModal(w) then None else Some(UnsupportedCommand)
    ensures Fault(w).None? ==> forall g: Group :: GroupOf(w) == Some(g) <==> InGroup(w, g)
    ensures !IsG(w, 53.0)
  {
    hide Code, IsG, IsM, GAre;
    GCodesAre(w);
    MCodesAre(w);
    NoG(w);
  }

  lemma OthersAreListed(w: Word)
    requires w.letter != 'G' && w.letter != 'M'
    ensures !IsModal(w) && !IsG(w, 53.0) && forall g: Group :: !InGroup(w, g)
  {
    hide IsG, IsM, GAre, MAre;
    GCodesAre(w);
    MCodesAre(w);
    NoG(w);
    NoM(w);
  }

  /** The words a line may hold, and which of them claim which group. */
  lemma WordsAreListed(w: Word)
    ensures Fault(w).None? <==>
            || IsModal(w) || IsG(w, 53.0) || (w.letter == 'T' && IsTool(w.value))
            || w.letter in {'X', 'Y', 'Z', 'A', 'I', 'J', 'K', 'P', 'L', 'F', 'S', 'N'}
    ensures Fault(w).Some? ==> Fault(w).value == if w.letter == 'T' then BadToolNumber else UnsupportedCommand
    ensures Fault(w).None? ==> forall g: Group :: GroupOf(w) == Some(g) <==> InGroup(w, g)
  {
    hide InGroup, IsG, IsM, IsModal, IsTool, ToolNumber, Tenths, Code;
    if w.letter == 'G' {
      GIsListed(w);
    } else if w.letter == 'M' {
      MIsListed(w);
    } else {
      OthersAreListed(w);
      ToolIff(w.value);
    }
  }

  /** The line's word of a group. */
  function WordIn(ws: seq<Word>, g: Group): (w: Option<Word>)
    ensures w.None? <==> forall k :: 0 <= k < |ws| ==> !InGroup(ws[k], g)
    ensures w.Some? ==> w.value in ws && InGroup(w.value, g)
  {
    if ws == [] then None else if InGroup(ws[0], g) then Some(ws[0])
    else
      assert forall k :: 0 <= k < |ws[1..]| ==> ws[1..][k] == ws[k + 1];
      WordIn(ws[1..], g)
  }

  /** The last number given for a letter. */
  function LastNumber(ws: seq<Word>, c: char, default: real): real {
    if ws == [] then default else LastNumber(ws[1..], c, if ws[0].letter == c then ws[0].value else default)
  }

  function MotionBy(w: Option<Word>, before: MotionMode): MotionMode {
    if w.None? then before
    else if IsG(w.value, 0.0) then Rapid
    else if IsG(w.value, 1.0) then Linear
    else if IsG(w.value, 2.0) then ArcCw
    else if IsG(w.value, 3.0) then ArcCcw
    else before
  }

  function PlaneBy(w: Option<Word>, before: Plane): Plane {
    if w.None? then before else if IsG(w.value, 17.0) then XY else if IsG(w.value, 18.0) then ZX else YZ
  }

  function WcsBy(w: Option<Word>, before: nat): nat {
    if w.None? then before
    else if IsG(w.value, 54.0) then 0
    else if IsG(w.value, 55.0) then 1
    else if IsG(w.value, 56.0) then 2
    else if IsG(w.value, 57.0) then 3
    else if IsG(w.value, 58.0) then 4
    else 5
  }

  function SpindleBy(w: Option<Word>, before: SpindleState): SpindleState {
    if w.None? then before
    else if IsM(w.value, 3.0) then Clockwise
    else if IsM(w.value, 4.0) then CounterClockwise
    else SpindleState.Stop
  }

  function CoolantBy(w: Option<Word>, before: CoolantState): CoolantState {
    if w.None? then before
    else if IsM(w.value, 7.0) then CoolantState(true, before.flood)
    else if IsM(w.value, 8.0) then CoolantState(before.mist, true)
    else CoolantState(false, false)
  }

  /** The settings a line leaves, group by group, apart from the tools. */
  function LeftBy(word: Group -> Option<Word>, before: ModalState): ModalState {
    before.(
      motion := MotionBy(word(GMotion), before.motion),
      plane := PlaneBy(word(GPlane), before.plane),
      units := if word(GUnits).None? then before.units else if IsG(word(GUnits).value, 20.0) then Inch else Millimeter,
      distance := if word(GDistance).None? then before.distance
                  else if IsG(word(GDistance).value, 90.0) then Absolute else Incremental,
      feedMode := if word(GFeedMode).None? then before.feedMode
                  else if IsG(word(GFeedMode).value, 93.0) then InverseTime else UnitsPerMin,
      wcs := WcsBy(word(GCoordinate), before.wcs),
      tloActive := if word(GToolOffset).None? then before.tloActive else IsG(word(GToolOffset).value, 43.1),
      spindle := SpindleBy(word(GSpindle), before.spindle),
      coolant := CoolantBy(word(GCoolant), before.coolant))
  }

  lemma ModalGSets(w: Word, st: Staged, g: Group)
    requires w.letter == 'G' && Fault(w).None? && InGroup(w, g)
    ensures SameSetting(g, EffectOfG(Tenths(w.value).value, st).next, LeftBy(x => Some(w), st.next))
  {
    hide Tenths, IsG, IsM, SupportedG, NonModalOp, InGroup;
    GIsListed(w);
    GCodesAre(w);
  }

  lemma ModalMSets(w: Word, st: Staged, g: Group)
    requires w.letter == 'M' && Fault(w).None? && InGroup(w, g) && g != GStop
    ensures SameSetting(g, EffectOfM(Code(w.value).value, st).next, LeftBy(x => Some(w), st.next))
  {
    hide Code, IsG, IsM, SupportedM, InGroup;
    MIsListed(w);
    MCodesAre(w);
  }

  lemma ModalWordSets(w: Word, st: Staged, g: Group)
    requires Fault(w).None? && InGroup(w, g) && g != GStop
    ensures SameSetting(g, Effect(w, st).next, LeftBy(x => Some(w), st.next))
  {
    hide Tenths, Code, IsG, IsM, EffectOfG, EffectOfM, LeftBy, SameSetting, InGroup, ToolNumber;
    if w.letter == 'G' {
      ModalGSets(w, st, g);
    } else if w.letter == 'M' {
      ModalMSets(w, st, g);
    } else {
      OthersAreListed(w);
    }
  }

  lemma SettingsAgree(w: Word, word: Group -> Option<Word>, s: ModalState, g: Group)
    requires word(g) == Some(w)
    ensures SameSetting(g, LeftBy(x => Some(w), s), LeftBy(word, s))
  {
    hide IsG, IsM;
  }

  lemma NoWordNoChange(word: Group -> Option<Word>, s: ModalState, g: Group)
    requires word(g).None?
    ensures SameSetting(g, s, LeftBy(word, s))
  {
    hide IsG, IsM;
  }

  /** Every modal setting after an accepted line is the one its group's word names, or the one before it. */
  lemma GroupIsSetByItsWord(state: ModalState, ws: seq<Word>, g: Group)
    requires Faultless(ws) && ApplyWords(Start(state), ws, None).Ok? && g != GStop
    ensures SameSetting(g, ApplyWords(Start(state), ws, None).value.next, LeftBy(x => WordIn(ws, x), state))
  {
    hide Fault, GroupOf, Effect, SameSetting, LeftBy, InGroup, WordIn, ApplyWords;
    var st := Start(state);
    var end := ApplyWords(st, ws, None).value.next;
    var word := x => WordIn(ws, x);
    GroupsAreListed(ws, g);
    if WordIn(ws, g).Some? {
      var w := WordIn(ws, g).value;
      var k :| 0 <= k < |ws| && ws[k] == w;
      SettingFollowsItsWord(st, ws, k);
      ModalWordSets(w, st, g);
      SettingsAgree(w, word, state, g);
      SettingIsTransitive(g, end, Effect(w, st).next, LeftBy(x => Some(w), state));
      SettingIsTransitive(g, end, LeftBy(x => Some(w), state), LeftBy(word, state));
    } else {
      UnclaimedGroupKeepsItsSetting(st, ws, g);
      NoWordNoChange(word, state, g);
      SettingIsTransitive(g, end, state, LeftBy(word, state));
    }
  }

  lemma GroupsAreListed(ws: seq<Word>, g: Group)
    requires Faultless(ws)
    ensures forall k :: 0 <= k < |ws| ==> (GroupOf(ws[k]) == Some(g) <==> InGroup(ws[k], g))
  {
    hide Fault, GroupOf, InGroup;
    forall k | 0 <= k < |ws|
      ensures GroupOf(ws[k]) == Some(g) <==> InGroup(ws[k], g)
    {
      WordsAreListed(ws[k]);
    }
  }

  lemma NumbersOfAWord(w: Word, st: Staged)
    requires Fault(w).None?
    ensures Effect(w, st).next.feed == (if w.letter == 'F' then w.value else st.next.feed)
    ensures Effect(w, st).next.spindleSpeed == (if w.letter == 'S' then w.value else st.next.spindleSpeed)
    ensures Effect(w, st).acts.machineCoords == (st.acts.machineCoords || IsG(w, 53.0))
  {
    hide Tenths, Code, ToolNumber, IsG, EffectOfG, EffectOfM;
    if w.letter == 'G' {
      NumbersOfG(w, st);
    } else if w.letter == 'M' {
      MIsListed(w);
      NumbersOfM(Code(w.value).value, st);
    } else {
      OthersAreListed(w);
    }
  }

  lemma NumbersOfG(w: Word, st: Staged)
    requires w.letter == 'G' && Fault(w).None?
    ensures var r := EffectOfG(Tenths(w.value).value, st);
            && r.next.feed == st.next.feed && r.next.spindleSpeed == st.next.spindleSpeed
            && r.acts.machineCoords == (st.acts.machineCoords || IsG(w, 53.0))
  {
    hide Tenths, IsG, MotionWord, NonModalOp;
    GCodesAre(w);
  }

  lemma NumbersOfM(m: nat, st: Staged)
    ensures var r := EffectOfM(m, st);
            && r.next.feed == st.next.feed && r.next.spindleSpeed == st.next.spindleSpeed
            && r.acts.machineCoords == st.acts.machineCoords
  {
  }

  /** The feed and the spindle speed a line leaves are the last it gives, if it gives any; its words are machine
      coordinates if it holds a G53. */
  lemma {:induction false} NumbersAreLastGiven(st: Staged, ws: seq<Word>)
    requires Faultless(ws) && ApplyWords(st, ws, None).Ok?
    ensures var end := ApplyWords(st, ws, None).value;
            && end.next.feed == LastNumber(ws, 'F', st.next.feed)
            && end.next.spindleSpeed == LastNumber(ws, 'S', st.next.spindleSpeed)
            && end.acts.machineCoords == (st.acts.machineCoords || exists w :: w in ws && IsG(w, 53.0))
    decreases |ws|
  {
    hide Fault, GroupOf, Effect, IsG;
    if ws != [] {
      var w, rest := ws[0], ws[1..];
      var claimed := st.(seen := SeenAfter(w, st.seen));
      NumbersOfAWord(w, claimed);
      NumbersAreLastGiven(Effect(w, claimed), rest);
      assert forall x :: x in ws <==> x == w || x in rest;
    }
  }

  /** The tool named and not yet taken, and the tool in the spindle: a T names one, M6 takes it. */
  function ToolsAfter(ws: seq<Word>, pending: nat, current: nat): (nat, nat) {
    if ws == [] then (pending, current)
    else if ws[0].letter == 'T' then
      ToolsAfter(ws[1..], if ToolNumber(ws[0].value).Some? then ToolNumber(ws[0].value).value else pending, current)
    else if IsM(ws[0], 6.0) then ToolsAfter(ws[1..], 0, pending)
    else ToolsAfter(ws[1..], pending, current)
  }

  lemma {:induction false} ToolsFollow(st: Staged, ws: seq<Word>)
    requires Faultless(ws) && ApplyWords(st, ws, None).Ok?
    ensures var end := ApplyWords(st, ws, None).value.next;
            (end.pendingTool, end.currentTool) == ToolsAfter(ws, st.next.pendingTool, st.next.currentTool)
    decreases |ws|
  {
    hide Fault, GroupOf, Effect, ToolNumber, Code, IsM;
    if ws != [] {
      var w := ws[0];
      var claimed := st.(seen := SeenAfter(w, st.seen));
      ToolWordsAreNumbers(w);
      WordMovesTools(w, claimed);
      MCodesAre(w);
      ToolsFollow(Effect(w, claimed), ws[1..]);
    }
  }

  /** The modal state a line leaves. */
  function Left(ws: seq<Word>, before: ModalState): ModalState {
    var (pending, current) := ToolsAfter(ws, before.pendingTool, before.currentTool);
    LeftBy(g => WordIn(ws, g), before).(feed := LastNumber(ws, 'F', before.feed),
                                       spindleSpeed := LastNumber(ws, 'S', before.spindleSpeed),
                                       pendingTool := pending, currentTool := current)
  }

  lemma WordsLeave(state: ModalState, ws: seq<Word>)
    requires Faultless(ws) && ApplyWords(Start(state), ws, None).Ok?
    ensures ApplyWords(Start(state), ws, None).value.next == Left(ws, state)
  {
    hide ApplyWords, Faultless, MotionBy, PlaneBy, WcsBy, SpindleBy, CoolantBy, IsG, WordIn, LastNumber, ToolsAfter;
    GroupIsSetByItsWord(state, ws, GMotion);
    GroupIsSetByItsWord(state, ws, GPlane);
    GroupIsSetByItsWord(state, ws, GUnits);
    GroupIsSetByItsWord(state, ws, GDistance);
    GroupIsSetByItsWord(state, ws, GFeedMode);
    GroupIsSetByItsWord(state, ws, GCoordinate);
    GroupIsSetByItsWord(state, ws, GToolOffset);
    GroupIsSetByItsWord(state, ws, GSpindle);
    GroupIsSetByItsWord(state, ws, GCoolant);
    NumbersAreLastGiven(Start(state), ws);
    ToolsFollow(Start(state), ws);
  }

  /** The actions a group governs. */
  predicate SameActions(g: Group, s: Actions, t: Actions) {
    match g
    case GMotion => s.dwell == t.dwell && s.predefined == t.predefined && s.probe == t.probe
    case GStop => s.programEnd == t.programEnd && s.pause == t.pause
    case GSpindle => s.spindle.Some? == t.spindle.Some?
    case GCoolant => s.coolant.Some? == t.coolant.Some?
    case GCoordinate => s.selectedWcs == t.selectedWcs
    case _ => true
  }

  /** What a group's word asks for. */
  function ActsBy(word: Group -> Option<Word>): Actions {
    var m, s := word(GMotion), word(GStop);
    NO_ACTIONS.(
      dwell := m.Some? && IsG(m.value, 4.0),
      predefined := if m.Some? && IsG(m.value, 28.0) then Some(true)
                    else if m.Some? && IsG(m.value, 30.0) then Some(false) else None,
      probe := if m.Some? && IsG(m.value, 38.2) then Some(ProbeKind(true, true))
               else if m.Some? && IsG(m.value, 38.3) then Some(ProbeKind(true, false))
               else if m.Some? && IsG(m.value, 38.4) then Some(ProbeKind(false, true))
               else if m.Some? && IsG(m.value, 38.5) then Some(ProbeKind(false, false)) else None,
      programEnd := s.Some? && (IsM(s.value, 2.0) || IsM(s.value, 30.0)),
      pause := if s.Some? && IsM(s.value, 0.0) then Some(PendingPause(false, false))
               else if s.Some? && IsM(s.value, 1.0) then Some(PendingPause(true, false))
               else if s.Some? && IsM(s.value, 6.0) then Some(PendingPause(false, true)) else None,
      spindle := if word(GSpindle).Some? then Some(SpindleState.Stop) else None,
      coolant := if word(GCoolant).Some? then Some(CoolantState(false, false)) else None,
      selectedWcs := word(GCoordinate).Some?)
  }

  lemma GActs(w: Word, st: Staged, g: Group)
    requires w.letter == 'G' && Fault(w).None? && InGroup(w, g) && SameActions(g, st.acts, NO_ACTIONS)
    ensures SameActions(g, EffectOfG(Tenths(w.value).value, st).acts, ActsBy(x => Some(w)))
  {
    hide Tenths, IsG, IsM, SupportedG, NonModalOp, InGroup;
    GIsListed(w);
    GCodesAre(w);
  }

  lemma MActs(w: Word, st: Staged, g: Group)
    requires w.letter == 'M' && Fault(w).None? && InGroup(w, g) && SameActions(g, st.acts, NO_ACTIONS)
    ensures SameActions(g, EffectOfM(Code(w.value).value, st).acts, ActsBy(x => Some(w)))
  {
    hide Code, IsG, IsM, InGroup;
    MIsListed(w);
    MCodesAre(w);
  }

  lemma WordActs(w: Word, st: Staged, g: Group)
    requires Fault(w).None? && InGroup(w, g) && SameActions(g, st.acts, NO_ACTIONS)
    ensures SameActions(g, Effect(w, st).acts, ActsBy(x => Some(w)))
  {
    hide Tenths, Code, IsG, IsM, EffectOfG, EffectOfM, ActsBy, SameActions, InGroup, ToolNumber;
    if w.letter == 'G' {
      GActs(w, st, g);
    } else if w.letter == 'M' {
      MActs(w, st, g);
    } else {
      OthersAreListed(w);
    }
  }

  lemma OtherGKeepActions(t: int, st: Staged, g: Group)
    requires SupportedG(t) && GroupOfG(t) != Some(g)
    ensures SameActions(g, EffectOfG(t, st).acts, st.acts)
  {
    hide GroupOfG, SupportedG, MotionWord, NonModalOp;
  }

  lemma MTouchesItsGroup(m: nat, st: Staged)
    requires SupportedM(m)
    ensures var (r, acts) := (GroupOfM(m), EffectOfM(m, st).acts);
            && (r != GStop ==> acts.pause == st.acts.pause && acts.programEnd == st.acts.programEnd)
            && (r != GSpindle ==> acts.spindle == st.acts.spindle)
            && (r != GCoolant ==> acts.coolant == st.acts.coolant)
            && acts == st.acts.(pause := acts.pause, programEnd := acts.programEnd, spindle := acts.spindle,
                                coolant := acts.coolant)
  {
  }

  lemma OtherMKeepActions(m: nat, st: Staged, g: Group)
    requires SupportedM(m) && GroupOfM(m) != g
    ensures SameActions(g, EffectOfM(m, st).acts, st.acts)
  {
    MTouchesItsGroup(m, st);
    hide EffectOfM, SupportedM, GroupOfM;
  }

  lemma OtherWordsKeepActions(w: Word, st: Staged, g: Group)
    requires Fault(w).None? && GroupOf(w) != Some(g)
    ensures SameActions(g, Effect(w, st).acts, st.acts)
  {
    if w.letter == 'G' {
      OtherGKeepActions(Tenths(w.value).value, st, g);
    } else if w.letter == 'M' {
      OtherMKeepActions(Code(w.value).value, st, g);
    }
    hide EffectOfG, EffectOfM, Tenths, Code, ToolNumber, GroupOf;
  }

  lemma ActionsAreTransitive(g: Group, s: Actions, t: Actions, u: Actions)
    requires SameActions(g, s, t) && SameActions(g, t, u)
    ensures SameActions(g, s, u)
  {
  }

  lemma {:induction false} UnclaimedGroupAsksNothing(st: Staged, ws: seq<Word>, g: Group)
    requires Faultless(ws) && ApplyWords(st, ws, None).Ok?
    requires forall k :: 0 <= k < |ws| ==> GroupOf(ws[k]) != Some(g)
    ensures SameActions(g, ApplyWords(st, ws, None).value.acts, st.acts)
    decreases |ws|
  {
    hide Fault, GroupOf, Effect, SameActions;
    if ws != [] {
      var w := ws[0];
      var claimed := st.(seen := SeenAfter(w, st.seen));
      OtherWordsKeepActions(w, claimed, g);
      UnclaimedGroupAsksNothing(Effect(w, claimed), ws[1..], g);
      ActionsAreTransitive(g, ApplyWords(st, ws, None).value.acts, Effect(w, claimed).acts, st.acts);
    } else {
      ActionsAreReflexive(g, st.acts);
    }
  }

  lemma ActionsAreReflexive(g: Group, s: Actions)
    ensures SameActions(g, s, s)
  {
  }

  lemma {:induction false} ActionsFollowTheirWord(st: Staged, ws: seq<Word>, k: nat, g: Group)
    requires k < |ws| && Faultless(ws) && ApplyWords(st, ws, None).Ok?
    requires GroupOf(ws[k]) == Some(g) && InGroup(ws[k], g) && SameActions(g, st.acts, NO_ACTIONS)
    ensures SameActions(g, ApplyWords(st, ws, None).value.acts, ActsBy(x => Some(ws[k])))
    decreases |ws|
  {
    hide Fault, GroupOf, Effect, SameActions, InGroup, ActsBy;
    WordsAcceptedIff(st, ws, None);
    var w, rest := ws[0], ws[1..];
    var claimed := st.(seen := SeenAfter(w, st.seen));
    if k == 0 {
      WordActs(w, claimed, g);
      UnclaimedGroupAsksNothing(Effect(w, claimed), rest, g);
      ActionsAreTransitive(g, ApplyWords(st, ws, None).value.acts, Effect(w, claimed).acts, ActsBy(x => Some(w)));
    } else {
      OtherWordsKeepActions(w, claimed, g);
      ActionsAreTransitive(g, Effect(w, claimed).acts, st.acts, NO_ACTIONS);
      ActionsFollowTheirWord(Effect(w, claimed), rest, k - 1, g);
    }
  }

  lemma ActionsAgree(w: Word, word: Group -> Option<Word>, g: Group)
    ensures word(g) == Some(w) ==> SameActions(g, ActsBy(x => Some(w)), ActsBy(word))
    ensures word(g) == None ==> SameActions(g, NO_ACTIONS, ActsBy(word))
  {
    hide IsG, IsM;
  }

  lemma GroupAsksByItsWord(state: ModalState, ws: seq<Word>, g: Group)
    requires Faultless(ws) && ApplyWords(Start(state), ws, None).Ok?
    ensures SameActions(g, ApplyWords(Start(state), ws, None).value.acts, ActsBy(x => WordIn(ws, x)))
  {
    hide Fault, GroupOf, Effect, SameActions, ActsBy, InGroup, WordIn, ApplyWords;
    var st := Start(state);
    var end := ApplyWords(st, ws, None).value.acts;
    var word := x => WordIn(ws, x);
    GroupsAreListed(ws, g);
    ActionsAreReflexive(g, NO_ACTIONS);
    if WordIn(ws, g).Some? {
      var w := WordIn(ws, g).value;
      var k :| 0 <= k < |ws| && ws[k] == w;
      ActionsFollowTheirWord(st, ws, k, g);
      ActionsAgree(w, word, g);
      ActionsAreTransitive(g, end, ActsBy(x => Some(w)), ActsBy(word));
    } else {
      UnclaimedGroupAsksNothing(st, ws, g);
      ActionsAgree(Word('N', 0.0), word, g);
      ActionsAreTransitive(g, end, NO_ACTIONS, ActsBy(word));
    }
  }

  /** A staged spindle or coolant command is the setting the line leaves. */
  predicate Latched(st: Staged) {
    && (st.acts.spindle.Some? ==> st.acts.spindle.value == st.next.spindle)
    && (st.acts.coolant.Some? ==> st.acts.coolant.value == st.next.coolant)
  }

  lemma WordLatches(w: Word, st: Staged)
    requires Fault(w).None? && Latched(st)
    ensures Latched(Effect(w, st))
  {
    if w.letter == 'G' {
      GLatches(Tenths(w.value).value, st);
    } else if w.letter == 'M' {
      MLatches(Code(w.value).value, st);
    }
    hide Tenths, Code, ToolNumber, EffectOfG, EffectOfM;
  }

  lemma GLatches(t: int, st: Staged)
    requires Latched(st)
    ensures Latched(EffectOfG(t, st))
  {
    hide GroupOfG, MotionWord, NonModalOp;
  }

  lemma MLatches(m: nat, st: Staged)
    requires Latched(st)
    ensures Latched(EffectOfM(m, st))
  {
  }

  lemma {:induction false} WordsLatch(st: Staged, ws: seq<Word>)
    requires Faultless(ws) && ApplyWords(st, ws, None).Ok? && Latched(st)
    ensures Latched(ApplyWords(st, ws, None).value)
    decreases |ws|
  {
    hide Fault, GroupOf, Effect;
    if ws != [] {
      var w := ws[0];
      var claimed := st.(seen := SeenAfter(w, st.seen));
      WordLatches(w, claimed);
      hide Latched;
      WordsLatch(Effect(w, claimed), ws[1..]);
    }
  }

  /** The last word that names a coordinate operation: of the non-modal ones or of the tool offset. */
  function LastCoordinate(ws: seq<Word>, default: Option<Word>): Option<Word> {
    if ws == [] then default
    else
      var names := InGroup(ws[0], GNonModal) || InGroup(ws[0], GToolOffset);
      LastCoordinate(ws[1..], if names then Some(ws[0]) else default)
  }

  function PendingBy(w: Option<Word>): Option<PendingCoordinate> {
    if w.None? then None
    else if IsG(w.value, 10.0) then Some(G10)
    else if IsG(w.value, 92.0) then Some(G92Set)
    else if IsG(w.value, 92.1) then Some(G92Clear)
    else if IsG(w.value, 28.1) then Some(Store(0))
    else if IsG(w.value, 30.1) then Some(Store(1))
    else if IsG(w.value, 43.1) then Some(Tlo)
    else Some(NoTlo)
  }

  lemma CoordinateOfG(w: Word, st: Staged)
    requires w.letter == 'G' && Fault(w).None?
    ensures EffectOfG(Tenths(w.value).value, st).acts.coordinate
            == if InGroup(w, GNonModal) || InGroup(w, GToolOffset) then PendingBy(Some(w)) else st.acts.coordinate
  {
    hide Tenths, IsG, MotionWord, SupportedG;
    GCodesAre(w);
  }

  lemma CoordinateOfM(m: nat, st: Staged)
    ensures EffectOfM(m, st).acts.coordinate == st.acts.coordinate
  {
  }

  lemma CoordinateOfWord(w: Word, st: Staged)
    requires Fault(w).None?
    ensures Effect(w, st).acts.coordinate
            == if InGroup(w, GNonModal) || InGroup(w, GToolOffset) then PendingBy(Some(w)) else st.acts.coordinate
  {
    hide Tenths, Code, ToolNumber, EffectOfG, EffectOfM, InGroup, PendingBy, IsModal, IsG;
    if w.letter == 'G' {
      CoordinateOfG(w, st);
    } else if w.letter == 'M' {
      CoordinateOfM(Code(w.value).value, st);
      MIsListed(w);
    } else {
      OthersAreListed(w);
    }
  }

  lemma {:induction false} CoordinateIsTheLast(st: Staged, ws: seq<Word>, default: Option<Word>)
    requires Faultless(ws) && ApplyWords(st, ws, None).Ok? && st.acts.coordinate == PendingBy(default)
    ensures ApplyWords(st, ws, None).value.acts.coordinate == PendingBy(LastCoordinate(ws, default))
    decreases |ws|
  {
    hide Fault, GroupOf, Effect, PendingBy, InGroup;
    if ws != [] {
      var w := ws[0];
      var claimed := st.(seen := SeenAfter(w, st.seen));
      CoordinateOfWord(w, claimed);
      CoordinateIsTheLast(Effect(w, claimed), ws[1..],
                          if InGroup(w, GNonModal) || InGroup(w, GToolOffset) then Some(w) else default);
    }
  }

  /** What a coordinate word asks for: G10 writes the system its P names, else the one active before the line, to the
      position if its L is 20; the others do as they are named. */
  function CoordinateAsked(w: Word, ws: seq<Word>, axes: AxisWords, units: Units, active: nat): CoordinateOp {
    var (p, l) := (LastValue(ws, 'P', None), LastValue(ws, 'L', None));
    var system := if p.Some? && 1 <= Round(p.value) <= 6 then Round(p.value) - 1 else active;
    if IsG(w, 10.0) then
      if l.Some? && Round(l.value) == 20 then SetWcsOffsetToPosition(system, axes, units)
      else SetWcsOffset(system, axes, units)
    else if IsG(w, 92.0) then SetG92ToPosition(axes, units)
    else if IsG(w, 92.1) then ClearG92
    else if IsG(w, 28.1) then StorePredefined(0)
    else if IsG(w, 30.1) then StorePredefined(1)
    else if IsG(w, 43.1) then ApplyTlo(if axes.z.Some? then axes.z.value else 0.0, units)
    else CancelTlo
  }

  /** A feed is wanting: none that is positive, or in inverse time none on the line. */
  predicate FeedIsWanting(ws: seq<Word>, left: ModalState) {
    left.feed <= 0.0 || (left.feedMode == InverseTime && !SomeWord(ws, 'F'))
  }

  function Coded(w: Option<Word>, code: real): bool { w.Some? && IsG(w.value, code) }

  function CodedM(w: Option<Word>, code: real): bool { w.Some? && IsM(w.value, code) }

  function ProbeAsked(w: Option<Word>): Option<ProbeKind> {
    if Coded(w, 38.2) then Some(ProbeKind(true, true))
    else if Coded(w, 38.3) then Some(ProbeKind(true, false))
    else if Coded(w, 38.4) then Some(ProbeKind(false, true))
    else if Coded(w, 38.5) then Some(ProbeKind(false, false))
    else None
  }

  function AxesOf(ws: seq<Word>): AxisWords {
    AxisWords(LastValue(ws, 'X', None), LastValue(ws, 'Y', None), LastValue(ws, 'Z', None), LastValue(ws, 'A', None))
  }

  /** A motion under the settings the line leaves. */
  function MotionAsked(ws: seq<Word>, left: ModalState): Parsed {
    var (axes, machine) := (AxesOf(ws), exists w :: w in ws && IsG(w, 53.0));
    if left.motion == Rapid then
      Ok(Some(Move(true, axes, left.units, left.distance, left.feed, left.feedMode, machine)))
    else if FeedIsWanting(ws, left) then Err(FeedRateUndefined)
    else if left.motion == Linear then
      Ok(Some(Move(false, axes, left.units, left.distance, left.feed, left.feedMode, machine)))
    else
      Ok(Some(Arc(left.motion == ArcCw, axes, LastValue(ws, 'I', None), LastValue(ws, 'J', None), LastValue(ws, 'K', None),
                  left.plane, left.units, left.distance, left.feed, left.feedMode, machine)))
  }

  function ProbeOf(kind: ProbeKind, ws: seq<Word>, left: ModalState): Parsed {
    if AxesOf(ws).a.Some? then Err(ProbeRotaryAxisWord)
    else if left.feedMode == InverseTime then Err(ProbeInverseTimeUnsupported)
    else if left.feed <= 0.0 then Err(FeedRateUndefined)
    else Ok(Some(Probe(kind, AxesOf(ws), left.units, left.distance, left.feed)))
  }

  /** What a line of these words asks for, by the codes on it: the first of a stop, a dwell, a recall, a coordinate
      operation, a probe, a motion, a spindle, a coolant and a coordinate system that it holds. */
  function Answer(ws: seq<Word>, left: ModalState, before: ModalState): Parsed {
    var (stop, move, op, axes) := (WordIn(ws, GStop), WordIn(ws, GMotion), LastCoordinate(ws, None), AxesOf(ws));
    var p := LastValue(ws, 'P', None);
    if ProbeAsked(move).Some? && axes == AxisWords(None, None, None, None) then Err(ProbeNoAxis)
    else if CodedM(stop, 2.0) || CodedM(stop, 30.0) then Ok(Some(ProgramEnd))
    else if CodedM(stop, 0.0) then Ok(Some(ProgramPause(false, false)))
    else if CodedM(stop, 1.0) then Ok(Some(ProgramPause(true, false)))
    else if CodedM(stop, 6.0) then Ok(Some(ProgramPause(false, true)))
    else if Coded(move, 4.0) then Ok(Some(Dwell(if p.Some? then p.value else 0.0)))
    else if Coded(move, 28.0) then Ok(Some(GoToPredefined(true, axes, left.units, left.distance)))
    else if Coded(move, 30.0) then Ok(Some(GoToPredefined(false, axes, left.units, left.distance)))
    else if op.Some? then Ok(Some(Coordinate(CoordinateAsked(op.value, ws, axes, left.units, before.wcs))))
    else if ProbeAsked(move).Some? then ProbeOf(ProbeAsked(move).value, ws, left)
    else if axes != AxisWords(None, None, None, None) then MotionAsked(ws, left)
    else if WordIn(ws, GSpindle).Some? then Ok(Some(Spindle(left.spindle, left.spindleSpeed)))
    else if WordIn(ws, GCoolant).Some? then Ok(Some(Coolant(left.coolant)))
    else if WordIn(ws, GCoordinate).Some? then Ok(Some(Coordinate(SelectWcs(left.wcs))))
    else Ok(None)
  }

  lemma ParametersOf(state: ModalState, ws: seq<Word>)
    requires Faultless(ws) && ApplyWords(Start(state), ws, None).Ok?
    ensures var ps := ApplyWords(Start(state), ws, None).value.params;
            && ps.axes == AxesOf(ws)
            && ps.i == LastValue(ws, 'I', None) && ps.j == LastValue(ws, 'J', None) && ps.k == LastValue(ws, 'K', None)
            && ps.p == LastValue(ws, 'P', None) && ps.l == LastValue(ws, 'L', None)
            && ps.sawFeed == SomeWord(ws, 'F')
  {
    hide ApplyWords, Faultless, LastValue, SomeWord;
    ParametersAreLastValues(Start(state), ws, 'X');
    ParametersAreLastValues(Start(state), ws, 'Y');
    ParametersAreLastValues(Start(state), ws, 'Z');
    ParametersAreLastValues(Start(state), ws, 'A');
    ParametersAreLastValues(Start(state), ws, 'P');
    ParametersAreLastValues(Start(state), ws, 'L');
    OffsetsAreLastValues(state, ws);
  }

  /** What is staged once all words have taken effect, by the codes. */
  ghost predicate StagedBy(st: Staged, ws: seq<Word>, left: ModalState) {
    && (var word := x => WordIn(ws, x);
        && SameActions(GMotion, st.acts, ActsBy(word)) && SameActions(GStop, st.acts, ActsBy(word))
        && SameActions(GSpindle, st.acts, ActsBy(word)) && SameActions(GCoolant, st.acts, ActsBy(word))
        && SameActions(GCoordinate, st.acts, ActsBy(word)))
    && st.acts.coordinate == PendingBy(LastCoordinate(ws, None))
    && st.acts.machineCoords == (exists w :: w in ws && IsG(w, 53.0))
    && Latched(st) && st.next == left
    && st.params.axes == AxesOf(ws) && st.params.i == LastValue(ws, 'I', None) && st.params.j == LastValue(ws, 'J', None)
    && st.params.k == LastValue(ws, 'K', None) && st.params.p == LastValue(ws, 'P', None)
    && st.params.l == LastValue(ws, 'L', None) && st.params.sawFeed == SomeWord(ws, 'F')
  }

  lemma WordsStage(state: ModalState, ws: seq<Word>)
    requires Faultless(ws) && ApplyWords(Start(state), ws, None).Ok?
    ensures var st := ApplyWords(Start(state), ws, None).value;
            StagedBy(st, ws, st.next)
  {
    hide ApplyWords, Faultless, LastValue, SomeWord, ActsBy, SameActions, WordIn, LastCoordinate, IsG;
    GroupAsksByItsWord(state, ws, GMotion);
    GroupAsksByItsWord(state, ws, GStop);
    GroupAsksByItsWord(state, ws, GSpindle);
    GroupAsksByItsWord(state, ws, GCoolant);
    GroupAsksByItsWord(state, ws, GCoordinate);
    CoordinateIsTheLast(Start(state), ws, None);
    NumbersAreLastGiven(Start(state), ws);
    WordsLatch(Start(state), ws);
    ParametersOf(state, ws);
  }

  lemma CoordinateIsResolved(st: Staged, ws: seq<Word>, before: ModalState)
    requires StagedBy(st, ws, st.next) && LastCoordinate(ws, None).Some?
    ensures st.acts.coordinate.Some?
            && ResolveCoordinate(st.acts.coordinate.value, st.params, st.next, before.wcs)
               == CoordinateAsked(LastCoordinate(ws, None).value, ws, AxesOf(ws), st.next.units, before.wcs)
  {
    hide ActsBy, SameActions, WordIn, LastCoordinate, IsG, LastValue, SomeWord, Round, Latched;
  }

  lemma MotionIsAsked(st: Staged, ws: seq<Word>)
    requires StagedBy(st, ws, st.next)
    ensures MotionAsked(ws, st.next)
            == if FeedIsUndefined(st.next, st.params.sawFeed, st.next.motion != Rapid) then Err(FeedRateUndefined)
               else Ok(Some(MotionCommand(st.params, st.acts.machineCoords, st.next)))
  {
    hide ActsBy, SameActions, WordIn, LastCoordinate, IsG, LastValue, SomeWord, Latched;
  }

  lemma ActionsAre(st: Staged, ws: seq<Word>)
    requires StagedBy(st, ws, st.next)
    ensures var (acts, stop, move) := (st.acts, WordIn(ws, GStop), WordIn(ws, GMotion));
            && acts.programEnd == (CodedM(stop, 2.0) || CodedM(stop, 30.0)) && acts.dwell == Coded(move, 4.0)
            && acts.pause == (if CodedM(stop, 0.0) then Some(PendingPause(false, false))
                              else if CodedM(stop, 1.0) then Some(PendingPause(true, false))
                              else if CodedM(stop, 6.0) then Some(PendingPause(false, true)) else None)
            && acts.predefined == (if Coded(move, 28.0) then Some(true)
                                   else if Coded(move, 30.0) then Some(false) else None)
            && acts.probe == ProbeAsked(move) && acts.selectedWcs == WordIn(ws, GCoordinate).Some?
            && acts.spindle == (if WordIn(ws, GSpindle).Some? then Some(st.next.spindle) else None)
            && acts.coolant == (if WordIn(ws, GCoolant).Some? then Some(st.next.coolant) else None)
            && acts.coordinate.Some? == LastCoordinate(ws, None).Some?
  {
    hide WordIn, LastCoordinate, IsG, IsM, LastValue, SomeWord, AxesOf;
  }

  lemma StagedAnswers(st: Staged, ws: seq<Word>, before: ModalState)
    requires StagedBy(st, ws, st.next)
    ensures Finish(st, before.wcs) == Answer(ws, st.next, before)
  {
    hide WordIn, LastCoordinate, IsG, IsM, LastValue, SomeWord, ResolveCoordinate, CoordinateAsked,
         MotionCommand, MotionAsked, ActsBy, SameActions, Latched, PendingBy, ProbeAsked, CodedM, Coded;
    MotionIsAsked(st, ws);
    ActionsAre(st, ws);
    if LastCoordinate(ws, None).Some? {
      CoordinateIsResolved(st, ws, before);
    }
  }

  /** What a whole line means: the settings it leaves and the command it leads to follow from its codes. A line that
      asks for what it may not leaves every setting as it was. */
  lemma LineMeansItsCodes(state: ModalState, line: string)
    requires var (ws, unread) := Words(line);
             unread.None? && Faultless(ws) && NoRepeat(ws, {})
    ensures var ws := Words(line).0;
            var answer := Answer(ws, Left(ws, state), state);
            ParsedLine(state, line) == (if answer.Ok? then Left(ws, state) else state, answer)
  {
    hide Words, ApplyWords, Finish, Answer, Left, Faultless, NoRepeat, StagedBy;
    var (ws, unread) := Words(line);
    WordsAcceptedIff(Start(state), ws, unread);
    WordsLeave(state, ws);
    WordsStage(state, ws);
    StagedAnswers(ApplyWords(Start(state), ws, None).value, ws, state);
  }

  /** Every other line reports its first offence: a word no line may hold, one whose group was claimed before it, or what
      could not be read. */
  lemma FirstOffenceIsReported(state: ModalState, line: string) returns (k: nat)
    requires var (ws, unread) := Words(line);
             !(unread.None? && Faultless(ws) && NoRepeat(ws, {}))
    ensures var (ws, unread) := Words(line);
            FirstOffendsAt(ws, unread, k) && ParsedLine(state, line) == (state, Err(Offence(ws, k, unread)))
  {
    hide Words, ApplyWords, Fault, GroupOf, Faultless, NoRepeat;
    var (ws, unread) := Words(line);
    WordsAcceptedIff(Start(state), ws, unread);
    k := OffenceStops(Start(state), ws, unread);
    WordsAcceptedIff(Start(state), ws[..k], None);
    if k < |ws| && Fault(ws[k]).None? {
      SeenAreClaimed(Start(state), ws[..k], GroupOf(ws[k]).value);
    }
  }

  /** The words before the one numbered `k` are in order, and it is not: or they all are, and the rest is unreadable. */
  predicate FirstOffendsAt(ws: seq<Word>, unread: Option<GcodeError>, k: nat) {
    && k <= |ws| && Faultless(ws[..k]) && NoRepeat(ws[..k], {})
    && if k < |ws| then Fault(ws[k]).Some? || Repeats(ws, k) else unread.Some?
  }

  /** The word numbered `k` claims a group that a word before it claims. */
  predicate Repeats(ws: seq<Word>, k: nat)
    requires k < |ws| && Fault(ws[k]).None? && Faultless(ws[..k])
  {
    GroupOf(ws[k]).Some? && exists j :: 0 <= j < k && GroupOf(ws[..k][j]) == GroupOf(ws[k])
  }

  function Offence(ws: seq<Word>, k: nat, unread: Option<GcodeError>): GcodeError
    requires k <= |ws|
  {
    if k < |ws| then (if Fault(ws[k]).Some? then Fault(ws[k]).value else ModalGroupViolation)
    else if unread.Some? then unread.value else UnsupportedCommand
  }

  lemma {:induction false} OffenceStops(st: Staged, ws: seq<Word>, unread: Option<GcodeError>) returns (k: nat)
    requires ApplyWords(st, ws, unread).Err?
    ensures k <= |ws| && ApplyWords(st, ws[..k], None).Ok? && ApplyWords(st, ws, unread) == Err(Offence(ws, k, unread))
    ensures k < |ws| && Fault(ws[k]).None? ==>
              GroupOf(ws[k]).Some? && GroupOf(ws[k]).value in ApplyWords(st, ws[..k], None).value.seen
    ensures k == |ws| ==> unread.Some?
    decreases |ws|
  {
    hide Fault, GroupOf, Effect;
    if ws == [] {
      return 0;
    }
    var applied := ApplyWord(ws[0], st);
    if applied.Err? {
      return 0;
    }
    var j := OffenceStops(applied.value, ws[1..], unread);
    k := j + 1;
    assert ws[..k][1..] == ws[1..][..j] && ws[..k][0] == ws[0];
  }

  lemma {:induction false} SeenAreClaimed(st: Staged, ws: seq<Word>, g: Group)
    requires Faultless(ws) && ApplyWords(st, ws, None).Ok?
    ensures g in ApplyWords(st, ws, None).value.seen <==>
            g in st.seen || exists j :: 0 <= j < |ws| && GroupOf(ws[j]) == Some(g)
    decreases |ws|
  {
    hide Fault, GroupOf, Effect;
    if ws != [] {
      var (w, rest) := (ws[0], ws[1..]);
      var claimed := st.(seen := SeenAfter(w, st.seen));
      EffectKeepsSeen(w, claimed);
      SeenAreClaimed(Effect(w, claimed), rest, g);
      if j :| 0 <= j < |rest| && GroupOf(rest[j]) == Some(g) {
        assert GroupOf(ws[j + 1]) == Some(g);
      }
      if j :| 0 <= j < |ws| && GroupOf(ws[j]) == Some(g) {
        assert j > 0 ==> GroupOf(rest[j - 1]) == Some(g);
      }
    }
  }

  /** The words a jog may hold. */
  predicate JogMayHold(w: Word) {
    || w.letter in {'X', 'Y', 'Z', 'A', 'F'}
    || IsG(w, 20.0) || IsG(w, 21.0) || IsG(w, 53.0) || IsG(w, 90.0) || IsG(w, 91.0)
  }

  function LastUnits(ws: seq<Word>, default: Units): Units {
    if ws == [] then default
    else LastUnits(ws[1..], if IsG(ws[0], 20.0) then Inch else if IsG(ws[0], 21.0) then Millimeter else default)
  }

  function LastDistance(ws: seq<Word>, default: DistanceMode): DistanceMode {
    if ws == [] then default
    else LastDistance(ws[1..], if IsG(ws[0], 90.0) then Absolute else if IsG(ws[0], 91.0) then Incremental else default)
  }

  /** A jog in progress, by the codes seen so far. */
  function JogSoFar(ws: seq<Word>, st: JogStaged): JogStaged {
    JogStaged(
      AxisWords(LastValue(ws, 'X', st.axes.x), LastValue(ws, 'Y', st.axes.y), LastValue(ws, 'Z', st.axes.z),
                LastValue(ws, 'A', st.axes.a)),
      LastUnits(ws, st.units), LastDistance(ws, st.distance), LastValue(ws, 'F', st.feed),
      st.machineCoords || exists w :: w in ws && IsG(w, 53.0))
  }

  lemma JogCode(w: Word, code: real, n: nat)
    requires n <= 255 && code == n as real
    ensures IsG(w, code) <==> w.letter == 'G' && Code(w.value) == Some(n)
  {
    CodeIff(w.value, n);
    hide Code;
  }

  lemma LastOfOne(w: Word, c: char, default: Option<real>)
    ensures LastValue([w], c, default) == if w.letter == c then Some(w.value) else default
  {
    assert [w][1..] == [];
  }

  lemma JogOfOne(w: Word, st: JogStaged)
    ensures var r := JogSoFar([w], st);
            && r.axes == AxisWords(if w.letter == 'X' then Some(w.value) else st.axes.x,
                                   if w.letter == 'Y' then Some(w.value) else st.axes.y,
                                   if w.letter == 'Z' then Some(w.value) else st.axes.z,
                                   if w.letter == 'A' then Some(w.value) else st.axes.a)
            && r.units == (if IsG(w, 20.0) then Inch else if IsG(w, 21.0) then Millimeter else st.units)
            && r.distance == (if IsG(w, 90.0) then Absolute else if IsG(w, 91.0) then Incremental else st.distance)
            && r.feed == (if w.letter == 'F' then Some(w.value) else st.feed)
            && r.machineCoords == (st.machineCoords || IsG(w, 53.0))
  {
    hide IsG, LastValue;
    var one := [w];
    assert one[0] == w && one[1..] == [] && w in one;
    assert LastUnits(one, st.units) == LastUnits(one[1..], if IsG(w, 20.0) then Inch else if IsG(w, 21.0) then Millimeter
                                                           else st.units);
    assert LastDistance(one, st.distance) == LastDistance(one[1..], if IsG(w, 90.0) then Absolute
                                                                    else if IsG(w, 91.0) then Incremental else st.distance);
    LastOfOne(w, 'X', st.axes.x);
    LastOfOne(w, 'Y', st.axes.y);
    LastOfOne(w, 'Z', st.axes.z);
    LastOfOne(w, 'A', st.axes.a);
    LastOfOne(w, 'F', st.feed);
  }

  lemma JogWordDoes(w: Word, st: JogStaged)
    ensures ApplyJogWord(w, st) == if JogMayHold(w) then Ok(JogSoFar([w], st)) else Err(UnsupportedCommand)
  {
    hide Code, IsG, JogSoFar;
    JogCode(w, 20.0, 20);
    JogCode(w, 21.0, 21);
    JogCode(w, 53.0, 53);
    JogCode(w, 90.0, 90);
    JogCode(w, 91.0, 91);
    JogOfOne(w, st);
  }

  lemma JogGoesOn(ws: seq<Word>, st: JogStaged)
    requires ws != []
    ensures JogSoFar(ws, st) == JogSoFar(ws[1..], JogSoFar([ws[0]], st))
  {
    hide IsG;
    var (w, rest) := (ws[0], ws[1..]);
    JogOfOne(w, st);
    var one := JogSoFar([w], st);
    assert forall x :: x in ws <==> x == w || x in rest;
    hide JogSoFar;
    JogSoFarIs(ws, st);
    JogSoFarIs(rest, one);
  }

  lemma JogSoFarIs(ws: seq<Word>, st: JogStaged)
    ensures var r := JogSoFar(ws, st);
            && r.axes == AxisWords(LastValue(ws, 'X', st.axes.x), LastValue(ws, 'Y', st.axes.y),
                                   LastValue(ws, 'Z', st.axes.z), LastValue(ws, 'A', st.axes.a))
            && r.units == LastUnits(ws, st.units) && r.distance == LastDistance(ws, st.distance)
            && r.feed == LastValue(ws, 'F', st.feed)
            && r.machineCoords == (st.machineCoords || exists w :: w in ws && IsG(w, 53.0))
  {
    hide LastValue, LastUnits, LastDistance, IsG;
  }

  /** A jog's words are taken together, or the first that a jog may not hold is reported, or what could not be read. */
  lemma {:induction false} JogWordsDo(st: JogStaged, ws: seq<Word>, unread: Option<GcodeError>)
    ensures ApplyJogWords(st, ws, unread)
            == if exists w :: w in ws && !JogMayHold(w) then Err(UnsupportedCommand)
               else if unread.Some? then Err(unread.value)
               else Ok(JogSoFar(ws, st))
    decreases |ws|
  {
    hide JogMayHold, ApplyJogWord, JogSoFar;
    if ws != [] {
      JogWordDoes(ws[0], st);
      assert forall x :: x in ws <==> x == ws[0] || x in ws[1..];
      JogGoesOn(ws, st);
      if JogMayHold(ws[0]) {
        JogWordsDo(JogSoFar([ws[0]], st), ws[1..], unread);
      }
    } else {
      NoJogYet(st);
    }
  }

  lemma NoJogYet(st: JogStaged)
    ensures JogSoFar([], st) == st
  {
  }

  /** What a jog line means, for every line. */
  lemma JogMeansItsCodes(state: ModalState, line: string)
    ensures var (ws, unread) := Words(line);
            JogLine(state, line)
            == if exists w :: w in ws && !JogMayHold(w) then Err(UnsupportedCommand)
               else if unread.Some? then Err(unread.value)
               else if LastValue(ws, 'F', None).None? then Err(FeedRateUndefined)
               else if AxesOf(ws) == AxisWords(None, None, None, None) then Err(JogNoAxis)
               else Ok(JogCommand(AxesOf(ws), LastDistance(ws, state.distance), LastUnits(ws, state.units),
                                  LastValue(ws, 'F', None).value, exists w :: w in ws && IsG(w, 53.0)))
  {
    hide Words, LastValue, IsG, JogMayHold, LastUnits, LastDistance;
    var (ws, unread) := Words(line);
    JogWordsDo(JogStart(state), ws, unread);
    hide ApplyJogWords;
  }

  /** A line is met from power-on as absolute millimetres in the XY plane of the first coordinate system, with rapid
      motion, feeds per minute, and everything off. */
  lemma PowerOn(ws: seq<Word>)
    requires forall g: Group :: WordIn(ws, g).None?
    ensures var left := Left(ws, POWER_ON);
            && left.motion == Rapid && left.plane == XY && left.units == Millimeter && left.distance == Absolute
            && left.feedMode == UnitsPerMin && left.wcs == 0 && !left.tloActive
            && left.spindle == SpindleState.Stop && left.coolant == CoolantState(false, false)
            && left.feed == LastNumber(ws, 'F', 0.0) && left.spindleSpeed == LastNumber(ws, 'S', 0.0)
            && (left.pendingTool, left.currentTool) == ToolsAfter(ws, 0, 0)
  {
    hide WordIn, LastNumber, ToolsAfter;
  }
}

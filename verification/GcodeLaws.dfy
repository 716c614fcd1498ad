/** What the parser promises of whole lines. */
module GcodeLaws {
  import opened Base
  import opened Commands
  import opened Lexer
  import opened Gcode

  predicate Faultless(ws: seq<Word>) { forall k :: 0 <= k < |ws| ==> Fault(ws[k]).None? }

  /** No word claims a group that was seen, or that another word claims. */
  predicate NoRepeat(ws: seq<Word>, seen: set<Group>)
    requires Faultless(ws)
  {
    && (forall k :: 0 <= k < |ws| && GroupOf(ws[k]).Some? ==> GroupOf(ws[k]).value !in seen)
    && (forall i, j :: 0 <= i < j < |ws| && GroupOf(ws[i]).Some? ==> GroupOf(ws[i]) != GroupOf(ws[j]))
  }

  /** Neither a G nor an M word touches the parameters of a line or the groups seen. */
  predicate SameWords(s: Staged, t: Staged) { s.seen == t.seen && s.params == t.params }

  lemma GKeepsTheWords(t: int, st: Staged)
    ensures SameWords(EffectOfG(t, st), st)
  {
    hide GroupOfG, MotionWord, NonModalOp;
  }

  lemma MKeepsTheWords(m: nat, st: Staged)
    ensures SameWords(EffectOfM(m, st), st)
  {
  }

  lemma EffectKeepsSeen(w: Word, st: Staged)
    requires Fault(w).None?
    ensures Effect(w, st).seen == st.seen
  {
    if w.letter == 'G' {
      GKeepsTheWords(Tenths(w.value).value, st);
    }
    if w.letter == 'M' {
      MKeepsTheWords(Code(w.value).value, st);
    }
    hide EffectOfG, EffectOfM, Tenths, Code, ToolNumber;
  }

  function SeenAfter(w: Word, seen: set<Group>): set<Group>
    requires Fault(w).None?
  {
    if GroupOf(w).Some? then seen + {GroupOf(w).value} else seen
  }

  /** The words of a line all take effect exactly when all could be read, none is faulty, and no modal group is
      claimed twice. */
  lemma {:induction false} WordsAcceptedIff(st: Staged, ws: seq<Word>, unread: Option<GcodeError>)
    ensures ApplyWords(st, ws, unread).Ok? <==> unread.None? && Faultless(ws) && NoRepeat(ws, st.seen)
    decreases |ws|
  {
    hide Fault, GroupOf, Effect;
    if ws != [] {
      var w, rest := ws[0], ws[1..];
      if ApplyWord(w, st).Ok? {
        var next := ApplyWord(w, st).value;
        EffectKeepsSeen(w, st.(seen := next.seen));
        EffectKeepsSeen(w, st.(seen := SeenAfter(w, st.seen)));
        EffectKeepsSeen(w, st);
        WordsAcceptedIff(next, rest, unread);
        ConsNoRepeat(w, rest, st.seen);
        assert ws == [w] + rest;
      } else if Fault(w).None? {
        assert GroupOf(ws[0]).value in st.seen;
      }
    }
  }

  lemma ConsNoRepeat(w: Word, rest: seq<Word>, seen: set<Group>)
    requires Fault(w).None? && (GroupOf(w).Some? ==> GroupOf(w).value !in seen)
    ensures Faultless([w] + rest) <==> Faultless(rest)
    ensures Faultless(rest) ==> (NoRepeat([w] + rest, seen) <==> NoRepeat(rest, SeenAfter(w, seen)))
  {
    hide Fault, GroupOf;
    var ws := [w] + rest;
    assert ws[1..] == rest && forall k :: 0 <= k < |rest| ==> rest[k] == ws[k + 1];
    if Faultless(rest) && NoRepeat(ws, seen) {
      forall k | 0 <= k < |rest| && GroupOf(rest[k]).Some?
        ensures GroupOf(rest[k]).value !in SeenAfter(w, seen)
      {
        assert GroupOf(ws[k + 1]).value !in seen && GroupOf(ws[0]) != GroupOf(ws[k + 1]);
      }
      assert NoRepeat(rest, SeenAfter(w, seen));
    }
    if Faultless(rest) && NoRepeat(rest, SeenAfter(w, seen)) {
      forall i, j | 0 <= i < j < |ws| && GroupOf(ws[i]).Some? ensures GroupOf(ws[i]) != GroupOf(ws[j]) {
        assert ws[j] == rest[j - 1];
        if i > 0 {
          assert ws[i] == rest[i - 1];
        }
      }
    }
  }

  /** A line that is accepted has only known words, at most one of each modal group. */
  lemma AcceptedLineClaimsEachGroupOnce(state: ModalState, line: string)
    requires ParsedLine(state, line).1.Ok?
    ensures Words(line).1.None? && Faultless(Words(line).0) && NoRepeat(Words(line).0, {})
  {
    hide ApplyWords, NoRepeat, Faultless, Finish, Words;
    WordsAcceptedIff(Start(state), Words(line).0, Words(line).1);
  }

  /** White space and closed comments before a word, or at the end, change neither the answer nor the state. */
  lemma GapsChangeNoLine(state: ModalState, a: string, gap: string, b: string)
    requires ModeAfter(Outside, a) == Outside && Gap(gap) && WordStart(b)
    ensures ParsedLine(state, a + gap + b) == ParsedLine(state, a + b)
    ensures JogLine(state, a + gap + b) == JogLine(state, a + b)
  {
    GapsChangeNothing(a, gap, b);
  }

  /** Nor does the case, nor a comment that runs to the end. */
  lemma CaseAndTrailingCommentChangeNoLine(state: ModalState, a: string, comment: string)
    requires ModeAfter(Outside, a) == Outside && comment != []
    requires comment[0] == ';' || (comment[0] == '(' && PastParen(comment[1..]) == [])
    ensures ParsedLine(state, a + comment) == ParsedLine(state, a) == ParsedLine(state, UpperLine(a))
    ensures JogLine(state, a + comment) == JogLine(state, a) == JogLine(state, UpperLine(a))
  {
    CommentEndsTheLine(a, comment);
    CaseChangesNothing(a);
  }

  /** The modal setting a group governs. */
  predicate SameSetting(g: Group, s: ModalState, t: ModalState) {
    match g
    case GMotion => s.motion == t.motion
    case GUnits => s.units == t.units
    case GDistance => s.distance == t.distance
    case GPlane => s.plane == t.plane
    case GSpindle => s.spindle == t.spindle
    case GStop => s.currentTool == t.currentTool
    case GFeedMode => s.feedMode == t.feedMode
    case GCoordinate => s.wcs == t.wcs
    case GToolOffset => s.tloActive == t.tloActive
    case GNonModal => true
    case GCoolant => s.coolant == t.coolant
  }

  lemma OtherGKeepASetting(t: int, st: Staged, g: Group)
    requires SupportedG(t) && GroupOfG(t) != Some(g)
    ensures SameSetting(g, EffectOfG(t, st).next, st.next)
  {
    hide GroupOfG, SupportedG, MotionWord, NonModalOp;
  }

  lemma OtherMKeepASetting(m: nat, st: Staged, g: Group)
    requires SupportedM(m) && GroupOfM(m) != g
    ensures SameSetting(g, EffectOfM(m, st).next, st.next)
  {
  }

  lemma OtherWordsKeepASetting(w: Word, st: Staged, g: Group)
    requires Fault(w).None? && GroupOf(w) != Some(g)
    ensures SameSetting(g, Effect(w, st).next, st.next)
  {
    if w.letter == 'G' {
      OtherGKeepASetting(Tenths(w.value).value, st, g);
    } else if w.letter == 'M' {
      OtherMKeepASetting(Code(w.value).value, st, g);
    }
    hide EffectOfG, EffectOfM, Tenths, Code, ToolNumber, GroupOf;
  }

  lemma GSettingDependsOnItself(c: int, s: Staged, t: Staged, g: Group)
    requires SupportedG(c) && GroupOfG(c) == Some(g) && SameSetting(g, s.next, t.next)
    ensures SameSetting(g, EffectOfG(c, s).next, EffectOfG(c, t).next)
  {
    hide GroupOfG, SupportedG, NonModalOp;
  }

  lemma MSettingDependsOnItself(m: nat, s: Staged, t: Staged, g: Group)
    requires SupportedM(m) && GroupOfM(m) == g && g != GStop && SameSetting(g, s.next, t.next)
    ensures SameSetting(g, EffectOfM(m, s).next, EffectOfM(m, t).next)
  {
  }

  lemma SettingDependsOnItself(w: Word, s: Staged, t: Staged, g: Group)
    requires Fault(w).None? && GroupOf(w) == Some(g) && g != GStop
    requires SameSetting(g, s.next, t.next)
    ensures SameSetting(g, Effect(w, s).next, Effect(w, t).next)
  {
    if w.letter == 'G' {
      GSettingDependsOnItself(Tenths(w.value).value, s, t, g);
    } else {
      MSettingDependsOnItself(Code(w.value).value, s, t, g);
    }
    hide EffectOfG, EffectOfM, Tenths, Code, ToolNumber, SameSetting;
  }

  /** A group no word of the line claims keeps its setting. */
  lemma {:induction false} UnclaimedGroupKeepsItsSetting(st: Staged, ws: seq<Word>, g: Group)
    requires Faultless(ws) && ApplyWords(st, ws, None).Ok?
    requires forall k :: 0 <= k < |ws| ==> GroupOf(ws[k]) != Some(g)
    ensures SameSetting(g, ApplyWords(st, ws, None).value.next, st.next)
    decreases |ws|
  {
    hide Fault, GroupOf, Effect;
    if ws != [] {
      var w := ws[0];
      var claimed := st.(seen := SeenAfter(w, st.seen));
      OtherWordsKeepASetting(w, claimed, g);
      UnclaimedGroupKeepsItsSetting(Effect(w, claimed), ws[1..], g);
    }
  }

  /** A setting is what the one word of its group makes of the setting before the line, wherever the word stands. */
  lemma {:induction false} SettingFollowsItsWord(st: Staged, ws: seq<Word>, k: nat)
    requires k < |ws| && Faultless(ws) && ApplyWords(st, ws, None).Ok?
    requires GroupOf(ws[k]).Some? && GroupOf(ws[k]).value != GStop
    ensures SameSetting(GroupOf(ws[k]).value, ApplyWords(st, ws, None).value.next, Effect(ws[k], st).next)
    decreases |ws|
  {
    hide Fault, GroupOf, Effect, SameSetting;
    WordsAcceptedIff(st, ws, None);
    var w, rest := ws[0], ws[1..];
    var g := GroupOf(ws[k]).value;
    var claimed := st.(seen := SeenAfter(w, st.seen));
    if k == 0 {
      SettingDependsOnItself(w, claimed, st, g) by { SettingIsReflexive(g, st.next); }
      UnclaimedGroupKeepsItsSetting(Effect(w, claimed), rest, g);
      SettingIsTransitive(g, ApplyWords(st, ws, None).value.next, Effect(w, claimed).next, Effect(w, st).next);
    } else {
      OtherWordsKeepASetting(w, claimed, g);
      SettingFollowsItsWord(Effect(w, claimed), rest, k - 1);
      SettingDependsOnItself(ws[k], Effect(w, claimed), st, g);
      SettingIsTransitive(g, ApplyWords(st, ws, None).value.next, Effect(ws[k], Effect(w, claimed)).next,
                          Effect(ws[k], st).next);
    }
  }

  lemma SettingIsReflexive(g: Group, s: ModalState)
    ensures SameSetting(g, s, s)
  {
  }

  lemma SettingIsTransitive(g: Group, s: ModalState, t: ModalState, u: ModalState)
    requires SameSetting(g, s, t) && SameSetting(g, t, u)
    ensures SameSetting(g, s, u)
  {
  }

  predicate IsToolChange(w: Word) { w.letter == 'M' && Code(w.value) == Some(6) }

  /** The last tool named, if any. */
  function LastTool(ws: seq<Word>, default: nat): nat {
    if ws == [] then default
    else
      var named := if ws[0].letter == 'T' then ToolNumber(ws[0].value) else None;
      LastTool(ws[1..], if named.Some? then named.value else default)
  }

  lemma WordMovesTools(w: Word, st: Staged)
    requires Fault(w).None?
    ensures var before, after := st.next, Effect(w, st).next;
            && after.currentTool == (if IsToolChange(w) then before.pendingTool else before.currentTool)
            && after.pendingTool ==
                 (if w.letter == 'T' then ToolNumber(w.value).value else if IsToolChange(w) then 0 else before.pendingTool)
  {
    if w.letter == 'G' {
      GKeepsTheTools(Tenths(w.value).value, st);
    } else if w.letter == 'M' {
      MMovesTools(Code(w.value).value, st);
    }
    hide EffectOfG, EffectOfM, Tenths, Code, ToolNumber;
  }

  lemma GKeepsTheTools(t: int, st: Staged)
    ensures var before, after := st.next, EffectOfG(t, st).next;
            after.currentTool == before.currentTool && after.pendingTool == before.pendingTool
  {
    hide GroupOfG, MotionWord, NonModalOp;
  }

  lemma MMovesTools(m: nat, st: Staged)
    ensures var before, after := st.next, EffectOfM(m, st).next;
            && after.currentTool == (if m == 6 then before.pendingTool else before.currentTool)
            && after.pendingTool == (if m == 6 then 0 else before.pendingTool)
  {
  }

  /** Without a tool change a line only stages the last tool it names. */
  lemma {:induction false} NoToolChangeOnlyStages(st: Staged, ws: seq<Word>)
    requires Faultless(ws) && ApplyWords(st, ws, None).Ok? && forall k :: 0 <= k < |ws| ==> !IsToolChange(ws[k])
    ensures var end := ApplyWords(st, ws, None).value.next;
            end.currentTool == st.next.currentTool && end.pendingTool == LastTool(ws, st.next.pendingTool)
    decreases |ws|
  {
    hide Fault, GroupOf, Effect, IsToolChange, ToolNumber;
    if ws != [] {
      var w := ws[0];
      var claimed := st.(seen := SeenAfter(w, st.seen));
      ToolWordsAreNumbers(w);
      WordMovesTools(w, claimed);
      NoToolChangeOnlyStages(Effect(w, claimed), ws[1..]);
    }
  }

  lemma ToolWordsAreNumbers(w: Word)
    requires Fault(w).None?
    ensures w.letter == 'T' ==> ToolNumber(w.value).Some?
    ensures IsToolChange(w) ==> w.letter != 'T' && GroupOf(w) == Some(GStop)
  {
  }

  /** A tool change takes the last tool named before it, on its line or earlier; one named after it stays pending. */
  lemma {:induction false} ToolChangeTakesTheToolBefore(st: Staged, ws: seq<Word>, k: nat)
    requires k < |ws| && Faultless(ws) && ApplyWords(st, ws, None).Ok? && IsToolChange(ws[k])
    ensures var end := ApplyWords(st, ws, None).value.next;
            && end.currentTool == LastTool(ws[..k], st.next.pendingTool)
            && end.pendingTool == LastTool(ws[k + 1..], 0)
    decreases |ws|
  {
    hide Fault, GroupOf, Effect, IsToolChange, ToolNumber;
    WordsAcceptedIff(st, ws, None);
    var w, rest := ws[0], ws[1..];
    var claimed := st.(seen := SeenAfter(w, st.seen));
    ToolWordsAreNumbers(w);
    ToolWordsAreNumbers(ws[k]);
    WordMovesTools(w, claimed);
    if k == 0 {
      forall j | 0 <= j < |rest| ensures !IsToolChange(rest[j]) {
        assert GroupOf(ws[0]) != GroupOf(ws[j + 1]);
        ToolWordsAreNumbers(ws[j + 1]);
      }
      NoToolChangeOnlyStages(Effect(w, claimed), rest);
    } else {
      assert GroupOf(ws[0]).Some? ==> GroupOf(ws[0]) != GroupOf(ws[k]);
      ToolChangeTakesTheToolBefore(Effect(w, claimed), rest, k - 1);
      assert ws[..k][1..] == rest[..k - 1] && ws[..k][0] == w && rest[k..] == ws[k + 1..];
    }
  }

  /** A parameter of a line. */
  function Parameter(ps: Params, c: char): Option<real>
    requires IsParameter(c)
  {
    if c == 'X' then ps.axes.x else if c == 'Y' then ps.axes.y else if c == 'Z' then ps.axes.z
    else if c == 'A' then ps.axes.a else if c == 'I' then ps.i else if c == 'J' then ps.j
    else if c == 'K' then ps.k else if c == 'P' then ps.p else ps.l
  }

  /** The last value given for a letter. */
  function LastValue(ws: seq<Word>, c: char, default: Option<real>): Option<real> {
    if ws == [] then default
    else LastValue(ws[1..], c, if ws[0].letter == c then Some(ws[0].value) else default)
  }

  predicate SomeWord(ws: seq<Word>, c: char) { exists k :: 0 <= k < |ws| && ws[k].letter == c }

  lemma WordSetsItsParameter(w: Word, st: Staged, c: char)
    requires Fault(w).None? && IsParameter(c)
    ensures Parameter(Effect(w, st).params, c) == if w.letter == c then Some(w.value) else Parameter(st.params, c)
    ensures Effect(w, st).params.sawFeed == (st.params.sawFeed || w.letter == 'F')
  {
    if w.letter == 'G' || w.letter == 'M' {
      GKeepsTheWords(if w.letter == 'G' then Tenths(w.value).value else 0, st);
      MKeepsTheWords(if w.letter == 'M' then Code(w.value).value else 0, st);
      hide EffectOfG, EffectOfM, Tenths, Code, ToolNumber, Parameter, Fault;
    } else if IsParameter(w.letter) {
      ParameterWord(w, st, c);
    } else {
      hide Parameter;
    }
  }

  lemma ParameterWord(w: Word, st: Staged, c: char)
    requires Fault(w).None? && IsParameter(w.letter) && IsParameter(c)
    ensures Parameter(Effect(w, st).params, c) == if w.letter == c then Some(w.value) else Parameter(st.params, c)
    ensures Effect(w, st).params.sawFeed == st.params.sawFeed
  {
    hide EffectOfG, EffectOfM, Tenths, Code, ToolNumber;
  }

  /** Each parameter of a line is the last value given for it; a feed was seen exactly when an F word was. */
  lemma {:induction false} ParametersAreLastValues(st: Staged, ws: seq<Word>, c: char)
    requires Faultless(ws) && ApplyWords(st, ws, None).Ok? && IsParameter(c)
    ensures var end := ApplyWords(st, ws, None).value.params;
            && Parameter(end, c) == LastValue(ws, c, Parameter(st.params, c))
            && (end.sawFeed <==> st.params.sawFeed || SomeWord(ws, 'F'))
    decreases |ws|
  {
    hide Fault, GroupOf, Effect, IsParameter, Parameter;
    if ws != [] {
      var w, rest := ws[0], ws[1..];
      var claimed := st.(seen := SeenAfter(w, st.seen));
      WordSetsItsParameter(w, claimed, c);
      ParametersAreLastValues(Effect(w, claimed), rest, c);
      ConsSomeWord(ws, 'F');
      assert Parameter(claimed.params, c) == Parameter(st.params, c);
    }
  }

  lemma ConsSomeWord(ws: seq<Word>, c: char)
    requires ws != []
    ensures SomeWord(ws, c) <==> ws[0].letter == c || SomeWord(ws[1..], c)
  {
    if SomeWord(ws[1..], c) {
      var k :| 0 <= k < |ws[1..]| && ws[1..][k].letter == c;
      assert ws[k + 1].letter == c;
    }
    if SomeWord(ws, c) {
      var k :| 0 <= k < |ws| && ws[k].letter == c;
      assert k > 0 ==> ws[1..][k - 1].letter == c;
    }
  }

  /** A motion command that goes out is defined: it names an axis, is stamped with the modal settings its line leaves,
      and unless it is a rapid it has a feed, given on the line itself in inverse time. */
  predicate Defined(cmd: PlannerCommand, left: ModalState, i: Option<real>, j: Option<real>, k: Option<real>, fed: bool) {
    match cmd
    case Move(rapid, axes, units, distance, feed, feedMode, _) =>
      && axes.Any() && left.motion == (if rapid then Rapid else Linear)
      && units == left.units && distance == left.distance && feed == left.feed && feedMode == left.feedMode
      && (!rapid ==> feed > 0.0 && (feedMode == InverseTime ==> fed))
    case Arc(cw, axes, ci, cj, ck, plane, units, distance, feed, feedMode, _) =>
      && axes.Any() && left.motion == (if cw then ArcCw else ArcCcw) && plane == left.plane
      && units == left.units && distance == left.distance && feed == left.feed && feedMode == left.feedMode
      && feed > 0.0 && (feedMode == InverseTime ==> fed)
      && ci == i && cj == j && ck == k
    case Probe(_, axes, units, distance, feed) =>
      && axes.Any() && axes.a.None? && left.feedMode == UnitsPerMin && feed > 0.0
      && units == left.units && distance == left.distance && feed == left.feed
    case _ => true
  }

  lemma FinishedIsDefined(st: Staged, preLineWcs: nat)
    requires Finish(st, preLineWcs).Ok? && Finish(st, preLineWcs).value.Some?
    ensures Defined(Finish(st, preLineWcs).value.value, st.next, st.params.i, st.params.j, st.params.k, st.params.sawFeed)
  {
    hide ResolveCoordinate;
  }

  lemma OffsetsAreLastValues(state: ModalState, ws: seq<Word>)
    requires Faultless(ws) && ApplyWords(Start(state), ws, None).Ok?
    ensures var end := ApplyWords(Start(state), ws, None).value.params;
            && end.i == LastValue(ws, 'I', None) && end.j == LastValue(ws, 'J', None)
            && end.k == LastValue(ws, 'K', None) && end.sawFeed == SomeWord(ws, 'F')
  {
    hide ApplyWords, Faultless, LastValue, SomeWord;
    ParametersAreLastValues(Start(state), ws, 'I');
    ParametersAreLastValues(Start(state), ws, 'J');
    ParametersAreLastValues(Start(state), ws, 'K');
  }

  lemma EmittedCommandsAreDefined(state: ModalState, line: string)
    requires ParsedLine(state, line).1.Ok? && ParsedLine(state, line).1.value.Some?
    ensures var ws := Words(line).0;
            Defined(ParsedLine(state, line).1.value.value, ParsedLine(state, line).0,
                    LastValue(ws, 'I', None), LastValue(ws, 'J', None), LastValue(ws, 'K', None), SomeWord(ws, 'F'))
  {
    AcceptedLineClaimsEachGroupOnce(state, line);
    hide Words, ApplyWords, NoRepeat, Faultless, LastValue, SomeWord, Defined, Finish;
    var ws := Words(line).0;
    OffsetsAreLastValues(state, ws);
    FinishedIsDefined(ApplyWords(Start(state), ws, None).value, state.wcs);
  }

  /** G10 writes the system its P word names, else the one active before the line: a selection on the same line never
      retargets it. */
  lemma G10IgnoresASelectionOnItsLine(state: ModalState, line: string)
    requires ParsedLine(state, line).1.Ok? && ParsedLine(state, line).1.value.Some?
    ensures var cmd, p := ParsedLine(state, line).1.value.value, LastValue(Words(line).0, 'P', None);
            cmd.Coordinate? && (cmd.op.SetWcsOffset? || cmd.op.SetWcsOffsetToPosition?) ==>
              cmd.op.index == if p.Some? && 1 <= Round(p.value) <= WCS_COUNT then Round(p.value) - 1 else state.wcs
  {
    AcceptedLineClaimsEachGroupOnce(state, line);
    hide Words, ApplyWords, NoRepeat, Faultless, LastValue, Finish, Round;
    var ws := Words(line).0;
    SystemWordIsLastValue(state, ws);
    FinishedG10(ApplyWords(Start(state), ws, None).value, state.wcs);
  }

  lemma SystemWordIsLastValue(state: ModalState, ws: seq<Word>)
    requires Faultless(ws) && ApplyWords(Start(state), ws, None).Ok?
    ensures ApplyWords(Start(state), ws, None).value.params.p == LastValue(ws, 'P', None)
  {
    hide ApplyWords, Faultless, LastValue, SomeWord;
    ParametersAreLastValues(Start(state), ws, 'P');
  }

  lemma FinishedG10(st: Staged, preLineWcs: nat)
    requires Finish(st, preLineWcs).Ok? && Finish(st, preLineWcs).value.Some?
    ensures var cmd := Finish(st, preLineWcs).value.value;
            cmd.Coordinate? && (cmd.op.SetWcsOffset? || cmd.op.SetWcsOffsetToPosition?) ==>
              cmd.op.index == WcsIndex(st.params.p, preLineWcs)
  {
    hide WcsIndex, FeedIsUndefined;
  }

  /** A jog in progress and the same words of an ordinary line in progress. */
  predicate Alike(jog: JogStaged, st: Staged) {
    && st.acts == NO_ACTIONS.(machineCoords := jog.machineCoords)
    && st.params == NO_PARAMS.(axes := jog.axes, sawFeed := jog.feed.Some?)
    && st.next.units == jog.units && st.next.distance == jog.distance
    && st.next.motion == Linear && st.next.feedMode == UnitsPerMin
    && (jog.feed.Some? ==> st.next.feed == jog.feed.value)
  }

  lemma WholeCodesInTenths(value: real)
    requires Code(value).Some?
    ensures Tenths(value) == Some(10 * Code(value).value)
  {
    var n := Code(value).value;
    var x := value * 10.0;
    assert -0.01 <= x - (10 * n) as real <= 0.01;
    RoundNear(x, 10 * n);
  }

  lemma RoundNear(x: real, n: nat)
    requires -0.01 <= x - n as real <= 0.01
    ensures Round(x) == n
  {
  }

  lemma JogCodesAreAlike(value: real, jog: JogStaged, st: Staged)
    requires Alike(jog, st) && ApplyJogWord(Word('G', value), jog).Ok?
    ensures var t := Tenths(value);
            && t.Some? && SupportedG(t.value)
            && Alike(ApplyJogWord(Word('G', value), jog).value, EffectOfG(t.value, st))
  {
    if Code(value).Some? {
      WholeCodesInTenths(value);
      JogCodeEffects(st);
      AlikeChanges(jog, st);
    }
    hide Tenths, Code, EffectOfG, Alike;
  }

  lemma AlikeChanges(jog: JogStaged, st: Staged)
    requires Alike(jog, st)
    ensures Alike(jog.(units := Inch), st.(next := st.next.(units := Inch)))
    ensures Alike(jog.(units := Millimeter), st.(next := st.next.(units := Millimeter)))
    ensures Alike(jog.(distance := Absolute), st.(next := st.next.(distance := Absolute)))
    ensures Alike(jog.(distance := Incremental), st.(next := st.next.(distance := Incremental)))
    ensures Alike(jog.(machineCoords := true), st.(acts := st.acts.(machineCoords := true)))
  {
  }

  lemma JogCodeEffects(st: Staged)
    ensures EffectOfG(200, st) == st.(next := st.next.(units := Inch))
    ensures EffectOfG(210, st) == st.(next := st.next.(units := Millimeter))
    ensures EffectOfG(900, st) == st.(next := st.next.(distance := Absolute))
    ensures EffectOfG(910, st) == st.(next := st.next.(distance := Incremental))
    ensures EffectOfG(530, st) == st.(acts := st.acts.(machineCoords := true))
  {
  }

  lemma JogWordsAreAlike(w: Word, jog: JogStaged, st: Staged)
    requires Alike(jog, st) && ApplyJogWord(w, jog).Ok?
    ensures Fault(w).None? && Alike(ApplyJogWord(w, jog).value, Effect(w, st))
  {
    if w.letter == 'G' {
      JogCodesAreAlike(w.value, jog, st);
      hide Alike, Tenths, Code, EffectOfG, ApplyJogWord;
      assert w == Word('G', w.value);
    } else {
      hide Tenths, Code, ToolNumber, EffectOfG, EffectOfM;
    }
  }

  lemma {:induction false} JogRunsAreAlike(jog: JogStaged, st: Staged, ws: seq<Word>)
    requires Alike(jog, st) && ApplyJogWords(jog, ws, None).Ok? && ApplyWords(st, ws, None).Ok?
    ensures Alike(ApplyJogWords(jog, ws, None).value, ApplyWords(st, ws, None).value)
    decreases |ws|
  {
    hide Fault, GroupOf, Effect, ApplyJogWord;
    if ws != [] {
      var w := ws[0];
      var claimed := st.(seen := SeenAfter(w, st.seen));
      assert Fault(w).None?;
      JogWordsAreAlike(w, jog, claimed);
      hide Alike;
      JogRunsAreAlike(ApplyJogWord(w, jog).value, Effect(w, claimed), ws[1..]);
    }
  }

  /** A jog asks for the move that its words would be on an ordinary line under G1 and G94, if its feed is positive
      and it repeats no group: only then would the ordinary line be accepted. */
  lemma JogIsAFeedMove(state: ModalState, line: string)
    requires state.motion == Linear && state.feedMode == UnitsPerMin && JogLine(state, line).Ok?
    ensures var jog := JogLine(state, line).value;
            ParsedLine(state, line).1 ==
              (if !(Faultless(Words(line).0) && NoRepeat(Words(line).0, {})) then Err(ModalGroupViolation)
               else if jog.feed <= 0.0 then Err(FeedRateUndefined)
               else Ok(Some(Move(false, jog.axes, jog.units, jog.distance, jog.feed, UnitsPerMin, jog.machineCoords))))
  {
    var (ws, unread) := Words(line);
    hide Words, NoRepeat, Faultless;
    JogWordsAreFaultless(JogStart(state), Start(state), ws, unread);
    WordsAcceptedIff(Start(state), ws, unread);
    if ApplyWords(Start(state), ws, unread).Ok? {
      JogRunsAreAlike(JogStart(state), Start(state), ws);
    }
    hide ApplyWords, ApplyJogWords;
  }

  /** An ordinary line can refuse a jog's words only for repeating a group. */
  lemma {:induction false} JogWordsAreFaultless(jog: JogStaged, st: Staged, ws: seq<Word>, unread: Option<GcodeError>)
    requires ApplyJogWords(jog, ws, unread).Ok? && Alike(jog, st)
    ensures unread.None? && Faultless(ws)
    ensures ApplyWords(st, ws, unread).Err? ==> ApplyWords(st, ws, unread) == Err(ModalGroupViolation)
    decreases |ws|
  {
    hide Fault, GroupOf, Effect, ApplyJogWord;
    if ws != [] {
      var w := ws[0];
      JogWordsAreAlike(w, jog, st);
      var claimed := st.(seen := SeenAfter(w, st.seen));
      JogWordsAreAlike(w, jog, claimed);
      hide Alike;
      JogWordsAreFaultless(ApplyJogWord(w, jog).value, Effect(w, claimed), ws[1..], unread);
      assert ws == [w] + ws[1..];
    }
  }
}

/** The tokenizer (gcode.rs:98-230). A line is a text without its terminator. */
module Lexer {
  import opened Base
  import opened Products

  datatype GcodeError =
    | ExpectedCommandLetterValue
    | BadNumberFormat
    | ModalGroupViolation
    | UnsupportedCommand
    | ProbeNoAxis
    | FeedRateUndefined
    | JogNoAxis
    | ProbeInverseTimeUnsupported
    | ProbeRotaryAxisWord
    | BadToolNumber

  datatype Word = Word(letter: char, value: real)

  datatype Lexed = End | Bad(error: GcodeError) | Got(word: Word, rest: string)

  predicate Blank(c: char) { c == ' ' || c == '\t' }

  predicate White(c: char) { Blank(c) || c == '\r' || c == '\n' }

  predicate Digit(c: char) { '0' <= c <= '9' }

  predicate Sign(c: char) { c == '+' || c == '-' }

  predicate Mantissa(c: char) { Digit(c) || c == '.' }

  predicate Letter(c: char) { 'A' <= c <= 'Z' || 'a' <= c <= 'z' }

  function Upper(c: char): char { if 'a' <= c <= 'z' then c - ' ' else c }

  /** What follows a block comment, from just inside it. */
  function PastParen(s: string): (r: string)
    ensures |r| <= |s|
  {
    if s == [] then [] else if s[0] == ')' then s[1..] else PastParen(s[1..])
  }

  /** The text from the next significant character. */
  function Skipped(s: string): (r: string)
    ensures |r| <= |s|
    decreases |s|
  {
    if s == [] then []
    else if White(s[0]) then Skipped(s[1..])
    else if s[0] == ';' then []
    else if s[0] == '(' then Skipped(PastParen(s[1..]))
    else s
  }

  function PastBlanks(s: string): (r: string)
    ensures |r| <= |s|
  {
    if s != [] && Blank(s[0]) then PastBlanks(s[1..]) else s
  }

  function MantissaLen(s: string): (n: nat)
    ensures n <= |s|
  {
    if s != [] && Mantissa(s[0]) then 1 + MantissaLen(s[1..]) else 0
  }

  function NumberLen(s: string): (n: nat)
    ensures n <= |s|
  {
    if s != [] && Sign(s[0]) then 1 + MantissaLen(s[1..]) else MantissaLen(s)
  }

  function DigitsLen(s: string): (n: nat)
    ensures n <= |s| && (n < |s| ==> !Digit(s[n]))
    ensures forall k :: 0 <= k < n ==> Digit(s[k])
  {
    if s != [] && Digit(s[0]) then 1 + DigitsLen(s[1..]) else 0
  }

  function DigitValue(c: char): nat
    requires Digit(c)
  {
    (c - '0') as nat
  }

  predicate AllDigits(s: string) { forall k :: 0 <= k < |s| ==> Digit(s[k]) }

  function Decimal(digits: string): nat
    requires AllDigits(digits)
  {
    if digits == [] then 0
    else 10 * Decimal(digits[..|digits| - 1]) + DigitValue(digits[|digits| - 1])
  }

  function TenthPower(n: nat): real { if n == 0 then 1.0 else 0.1 * TenthPower(n - 1) }

  /** A sign, whole digits, and fraction digits if there is a point. */
  datatype Numeral = Numeral(sign: string, whole: string, point: bool, fraction: string)
  {
    predicate Valid() {
      && (sign == [] || (|sign| == 1 && Sign(sign[0])))
      && AllDigits(whole) && AllDigits(fraction)
      && (!point ==> fraction == []) && (whole != [] || fraction != [])
    }

    function Spelled(): string {
      sign + whole + (if point then "." + fraction else "")
    }

    function Value(): real
      requires Valid()
    {
      var size := Measure(whole + fraction, |fraction|);
      if sign == "-" then -size else size
    }
  }

  /** The longest numeral a token starts with, sign, digits and fraction each as long as they go. */
  function Parts(token: string): Numeral {
    var sign := if token != [] && Sign(token[0]) then token[..1] else [];
    Unsigned(sign, token[|sign|..])
  }

  function Unsigned(sign: string, s: string): Numeral {
    Pointed(sign, s[..DigitsLen(s)], s[DigitsLen(s)..])
  }

  function Pointed(sign: string, whole: string, s: string): Numeral {
    if s != [] && s[0] == '.' then Numeral(sign, whole, true, s[1..][..DigitsLen(s[1..])])
    else Numeral(sign, whole, false, [])
  }

  function ParseNumber(token: string): Result<real, GcodeError> {
    var parts := Parts(token);
    if parts.Valid() && parts.Spelled() == token then Ok(parts.Value()) else Err(BadNumberFormat)
  }

  lemma DigitsStop(digits: string, rest: string)
    requires AllDigits(digits) && (rest == [] || !Digit(rest[0]))
    ensures DigitsLen(digits + rest) == |digits|
  {
    var s := digits + rest;
    assert forall k :: 0 <= k < |digits| ==> s[k] == digits[k];
    assert |digits| < |s| ==> s[|digits|] == rest[0];
  }

  /** Every way of spelling a number is read, as the number it spells, and nothing else is. */
  lemma NumberIffSpelled(token: string, value: real)
    ensures ParseNumber(token) == Ok(value) <==>
            exists n: Numeral :: n.Valid() && n.Spelled() == token && n.Value() == value
  {
    if ParseNumber(token) == Ok(value) {
      var n := Parts(token);
      assert n.Valid() && n.Spelled() == token && n.Value() == value;
    }
    forall n: Numeral | n.Valid() && n.Spelled() == token && n.Value() == value
      ensures ParseNumber(token) == Ok(value)
    {
      PartsOfSpelled(n);
    }
  }

  lemma PartsOfSpelled(n: Numeral)
    requires n.Valid()
    ensures Parts(n.Spelled()) == n
  {
    var token := n.Spelled();
    var start, wholeEnd := |n.sign|, |n.sign| + |n.whole|;
    assert token[..start] == n.sign && token[start..wholeEnd] == n.whole;
    if n.point {
      assert token[wholeEnd] == '.' && token[wholeEnd + 1..|token|] == n.fraction;
    }
    if n.whole != [] {
      assert token[start] == n.whole[0] && Digit(n.whole[0]);
    }
    PartsAreRead(token, start, wholeEnd, |token|);
  }

  /** `parse_f32`, over exact numbers. */
  method ParseF32(token: string) returns (r: Result<real, GcodeError>)
    ensures r == ParseNumber(token)
  {
    hide Decimal, ParseNumber, TenthPower, Digit, Sign, AllDigits, Parts, Measure, Term, DigitValue;
    var i: nat := 0;
    var negative := false;
    if i < |token| && Sign(token[i]) {
      negative := token[i] == '-';
      i := i + 1;
    }
    ghost var start := i;
    var intPart := 0.0;
    var sawDigit := false;
    NoDigits();
    DecimalGrows([]);
    assert token[start..start] == [];
    while i < |token| && Digit(token[i])
      invariant start <= i <= |token| && AllDigits(token[start..i])
      invariant intPart == Decimal(token[start..i]) as real && (sawDigit <==> i > start)
    {
      OneMoreDigit(token, start, i);
      DecimalGrows(token[start..i + 1]);
      intPart := intPart * 10.0 + DigitValue(token[i]) as real;
      sawDigit := true;
      i := i + 1;
    }
    ghost var whole := token[start..i];
    ghost var wholeEnd := i;
    var value := intPart;
    MeasureOfWhole(whole);
    if i < |token| && token[i] == '.' {
      i := i + 1;
      var scale := 0.1;
      ghost var from := i;
      assert token[from..from] == [] && whole + [] == whole;
      while i < |token| && Digit(token[i])
        invariant from <= i <= |token| && AllDigits(token[from..i]) && AllDigits(whole + token[from..i])
        invariant scale == TenthPower(i - from + 1)
        invariant value == Measure(whole + token[from..i], i - from)
        invariant sawDigit <==> whole != [] || i > from
      {
        OneMoreDigit(token, from, i);
        DigitsJoin(whole, token[from..i + 1]);
        FractionGrows(whole, token[from..i + 1]);
        TenthPowerGrows(i - from + 1);
        value := value + Term(token[i], scale);
        scale := scale * 0.1;
        sawDigit := true;
        i := i + 1;
      }
    }
    assert whole + [] == whole;
    NumberIsFound(token, start, wholeEnd, i, value);
    if !sawDigit || i != |token| {
      return Err(BadNumberFormat);
    }
    r := Ok(if negative then -value else value);
  }

  /** `n` digits after the point. */
  function Measure(digits: string, n: nat): real
    requires AllDigits(digits)
  {
    Mul(Decimal(digits) as real, TenthPower(n))
  }

  function Term(c: char, scale: real): real
    requires Digit(c)
  {
    Mul(DigitValue(c) as real, scale)
  }

  lemma MeasureOfWhole(digits: string)
    requires AllDigits(digits)
    ensures Measure(digits, 0) == Decimal(digits) as real && TenthPower(1) == 0.1
  {
  }

  lemma NumberIsFound(token: string, start: nat, wholeEnd: nat, end: nat, size: real)
    requires start <= wholeEnd <= end <= |token|
    requires start == if token != [] && Sign(token[0]) then 1 else 0
    requires AllDigits(token[start..wholeEnd]) && (wholeEnd < |token| ==> !Digit(token[wholeEnd]))
    requires if wholeEnd < |token| && token[wholeEnd] == '.'
             then wholeEnd < end && AllDigits(token[wholeEnd + 1..end]) && (end < |token| ==> !Digit(token[end]))
             else end == wholeEnd
    requires var n := Found(token, start, wholeEnd, end);
             AllDigits(n.whole + n.fraction) && size == Measure(n.whole + n.fraction, |n.fraction|)
    ensures ParseNumber(token) ==
            if (wholeEnd == start && end <= wholeEnd + 1) || end != |token| then Err(BadNumberFormat)
            else Ok(if start == 1 && token[0] == '-' then -size else size)
  {
    PartsAreRead(token, start, wholeEnd, end);
    ParsedBy(token);
    NoDigits();
    var n := Found(token, start, wholeEnd, end);
    hide AllDigits, Digit, Sign, Parts, ParseNumber, Decimal, TenthPower, Numeral.Spelled;
    assert n.sign == [] || n.sign == [token[0]];
    assert n.Valid() <==> wholeEnd > start || end > wholeEnd + 1;
    assert n.Valid() ==> n.Value() == if start == 1 && token[0] == '-' then -size else size;
  }

  lemma NoDigits()
    ensures AllDigits([])
  {
  }

  lemma OneMoreDigit(token: string, from: nat, i: nat)
    requires from <= i < |token| && AllDigits(token[from..i]) && Digit(token[i])
    ensures AllDigits(token[from..i + 1]) && token[from..i + 1][..i - from] == token[from..i]
  {
    hide Digit;
    var more := token[from..i + 1];
    assert forall k :: 0 <= k < |more| ==> more[k] == if k < i - from then token[from..i][k] else token[i];
  }

  lemma DigitsJoin(a: string, b: string)
    requires AllDigits(a) && AllDigits(b)
    ensures AllDigits(a + b)
  {
    hide Digit;
  }

  lemma ParsedBy(token: string)
    ensures var parts := Parts(token);
            ParseNumber(token) == if parts.Valid() && parts.Spelled() == token then Ok(parts.Value()) else Err(BadNumberFormat)
  {
    hide Parts;
  }

  /** Where the two digit loops stop is what `Parts` finds. */
  lemma PartsAreRead(token: string, start: nat, wholeEnd: nat, end: nat)
    requires start <= wholeEnd <= end <= |token|
    requires start == if token != [] && Sign(token[0]) then 1 else 0
    requires AllDigits(token[start..wholeEnd]) && (wholeEnd < |token| ==> !Digit(token[wholeEnd]))
    requires if wholeEnd < |token| && token[wholeEnd] == '.'
             then wholeEnd < end && AllDigits(token[wholeEnd + 1..end]) && (end < |token| ==> !Digit(token[end]))
             else end == wholeEnd
    ensures Parts(token) == Found(token, start, wholeEnd, end)
    ensures Parts(token).Spelled() == token <==> end == |token|
  {
    hide AllDigits, Digit, Sign, Pointed;
    UnsignedStops(token[..start], token[start..wholeEnd], token[wholeEnd..]);
    assert token[start..] == token[start..wholeEnd] + token[wholeEnd..];
    if wholeEnd < |token| && token[wholeEnd] == '.' {
      assert token[wholeEnd..][1..end - wholeEnd] == token[wholeEnd + 1..end];
    }
    PointedStops(token[..start], token[start..wholeEnd], token[wholeEnd..], end - wholeEnd);
    FoundSpells(token, start, wholeEnd, end);
    assert token[..end] == token <==> end == |token|;
  }

  lemma UnsignedStops(sign: string, whole: string, rest: string)
    requires AllDigits(whole) && (rest != [] ==> !Digit(rest[0]))
    ensures Unsigned(sign, whole + rest) == Pointed(sign, whole, rest)
  {
    DigitsStop(whole, rest);
    hide Pointed, AllDigits, Digit, DigitsLen;
    assert (whole + rest)[..|whole|] == whole && (whole + rest)[|whole|..] == rest;
  }

  lemma PointedStops(sign: string, whole: string, s: string, n: nat)
    requires n <= |s|
    requires if s != [] && s[0] == '.' then n > 0 && AllDigits(s[1..n]) && (n < |s| ==> !Digit(s[n])) else n == 0
    ensures Pointed(sign, whole, s) ==
            if s != [] && s[0] == '.' then Numeral(sign, whole, true, s[1..n]) else Numeral(sign, whole, false, [])
  {
    if s != [] && s[0] == '.' {
      DigitsStop(s[1..n], s[n..]);
      assert s[1..] == s[1..n] + s[n..];
    }
  }

  function Found(token: string, start: nat, wholeEnd: nat, end: nat): Numeral
    requires start <= wholeEnd <= end <= |token| && (wholeEnd < |token| && token[wholeEnd] == '.' ==> wholeEnd < end)
  {
    var point := wholeEnd < |token| && token[wholeEnd] == '.';
    Numeral(token[..start], token[start..wholeEnd], point, if point then token[wholeEnd + 1..end] else [])
  }

  lemma FoundSpells(token: string, start: nat, wholeEnd: nat, end: nat)
    requires start <= wholeEnd <= end <= |token|
    requires if wholeEnd < |token| && token[wholeEnd] == '.' then wholeEnd < end else end == wholeEnd
    ensures Found(token, start, wholeEnd, end).Spelled() == token[..end]
  {
    assert token[..wholeEnd] == token[..start] + token[start..wholeEnd];
    if wholeEnd < |token| && token[wholeEnd] == '.' {
      assert token[..end] == token[..wholeEnd] + ("." + token[wholeEnd + 1..end]);
    }
  }

  lemma DecimalGrows(digits: string)
    requires AllDigits(digits)
    ensures digits == [] ==> Decimal(digits) == 0
    ensures digits != [] ==> Digit(digits[|digits| - 1])
    ensures digits != [] ==>
              Decimal(digits) == 10 * Decimal(digits[..|digits| - 1]) + DigitValue(digits[|digits| - 1])
  {
  }

  lemma TenthPowerGrows(n: nat)
    ensures TenthPower(0) == 1.0 && TenthPower(n + 1) == 0.1 * TenthPower(n)
  {
  }

  lemma FractionGrows(whole: string, fraction: string)
    requires AllDigits(whole) && AllDigits(fraction) && fraction != []
    requires AllDigits(whole + fraction[..|fraction| - 1]) && AllDigits(whole + fraction)
    ensures Measure(whole + fraction, |fraction|) ==
            Measure(whole + fraction[..|fraction| - 1], |fraction| - 1) +
            Term(fraction[|fraction| - 1], TenthPower(|fraction|))
  {
    hide Decimal, DigitValue, TenthPower, Mul, AllDigits, Digit;
    var n := |fraction| - 1;
    var all := whole + fraction;
    assert Digit(fraction[n]) by { DecimalGrows(fraction); }
    assert all[..|all| - 1] == whole + fraction[..n] && all[|all| - 1] == fraction[n];
    DecimalGrows(all);
    TenthPowerGrows(n);
    PlaceValue(Decimal(whole + fraction[..n]), TenthPower(n), DigitValue(fraction[n]));
  }

  lemma PlaceValue(d: nat, t: real, c: nat)
    ensures Mul((10 * d + c) as real, 0.1 * t) == Mul(d as real, t) + Mul(c as real, 0.1 * t)
  {
    var (x, y) := (d as real, c as real);
    assert (10 * d + c) as real == 10.0 * x + y;
    assert (10.0 * x + y) * (0.1 * t) == x * t + y * (0.1 * t);
  }

  /** The word a significant text begins with. */
  function FirstWord(t: string): (r: Lexed)
    requires t != []
    ensures !r.End? && (r.Got? ==> |r.rest| < |t|)
  {
    if !Letter(t[0]) then Bad(ExpectedCommandLetterValue)
    else
      var u := PastBlanks(t[1..]);
      var n := NumberLen(u);
      if n == 0 then Bad(ExpectedCommandLetterValue)
      else
        match ParseNumber(u[..n])
        case Err(e) => Bad(e)
        case Ok(v) => Got(Word(Upper(t[0]), v), u[n..])
  }

  /** `next_word` */
  function NextWord(s: string): (r: Lexed)
    ensures r.Got? ==> |r.rest| < |s|
  {
    var t := Skipped(s);
    if t == [] then End else FirstWord(t)
  }

  /** The words of a line, up to the first that cannot be read. */
  function Words(s: string): (seq<Word>, Option<GcodeError>)
    decreases |s|
  {
    match NextWord(s)
    case End => ([], None)
    case Bad(e) => ([], Some(e))
    case Got(w, rest) => var (ws, e) := Words(rest); ([w] + ws, e)
  }

  lemma SkippedStep(s: string)
    ensures Skipped([]) == []
    ensures s != [] ==>
              Skipped(s) == if White(s[0]) then Skipped(s[1..])
                            else if s[0] == ';' then []
                            else if s[0] == '(' then Skipped(PastParen(s[1..]))
                            else s
  {
    hide White, PastParen;
  }

  lemma PastParenStep(s: string)
    ensures PastParen(s) == if s == [] then [] else if s[0] == ')' then s[1..] else PastParen(s[1..])
  {
  }

  class Lexer {
    const bytes: string
    var pos: nat

    ghost predicate Valid() reads this { pos <= |bytes| }

    ghost function Rest(): string
      reads this
      requires Valid()
    {
      bytes[pos..]
    }

    constructor (line: string)
      ensures Valid() && bytes == line && Rest() == line
    {
      bytes := line;
      pos := 0;
    }

    method SkipInsignificant()
      requires Valid()
      modifies this
      ensures Valid() && Rest() == Skipped(old(Rest()))
    {
      hide Skipped, PastParen, White;
      ghost var start := Rest();
      while pos < |bytes|
        invariant Valid() && Skipped(Rest()) == Skipped(start)
        decreases |bytes| - pos
      {
        ghost var here := Rest();
        SkippedStep(here);
        assert here[1..] == bytes[pos + 1..];
        if White(bytes[pos]) {
          pos := pos + 1;
        } else if bytes[pos] == ';' {
          pos := |bytes|;
        } else if bytes[pos] == '(' {
          pos := pos + 1;
          ghost var from := pos;
          PastParenStep(Rest());
          while pos < |bytes| && bytes[pos] != ')'
            invariant from <= pos <= |bytes| && PastParen(Rest()) == PastParen(here[1..])
          {
            PastParenStep(Rest());
            assert Rest()[1..] == bytes[pos + 1..];
            pos := pos + 1;
          }
          PastParenStep(Rest());
          if pos < |bytes| {
            assert Rest()[1..] == bytes[pos + 1..];
            pos := pos + 1;
          }
        } else {
          break;
        }
      }
      SkippedStep(Rest());
    }

    method AdvanceOverNumber()
      requires Valid()
      modifies this
      ensures Valid() && pos == old(pos) + NumberLen(old(Rest()))
    {
      ghost var s := Rest();
      if pos < |bytes| && Sign(bytes[pos]) {
        assert s[1..] == bytes[pos + 1..];
        pos := pos + 1;
      }
      ghost var from := pos;
      while pos < |bytes| && Mantissa(bytes[pos])
        invariant from <= pos <= |bytes| && pos - from + MantissaLen(Rest()) == MantissaLen(bytes[from..])
      {
        assert Rest()[1..] == bytes[pos + 1..];
        pos := pos + 1;
      }
    }

    method Next() returns (r: Lexed)
      requires Valid()
      modifies this
      ensures Valid() && r == NextWord(old(Rest()))
      ensures r.Got? ==> Rest() == r.rest
    {
      hide Skipped, ParseNumber, NumberLen, Letter, Upper;
      SkipInsignificant();
      if pos >= |bytes| {
        return End;
      }
      var first := bytes[pos];
      if !Letter(first) {
        return Bad(ExpectedCommandLetterValue);
      }
      assert Rest()[1..] == bytes[pos + 1..];
      pos := pos + 1;
      ghost var from := pos;
      while pos < |bytes| && Blank(bytes[pos])
        invariant from <= pos <= |bytes| && PastBlanks(Rest()) == PastBlanks(bytes[from..])
      {
        assert Rest()[1..] == bytes[pos + 1..];
        pos := pos + 1;
      }
      var start := pos;
      ghost var u := Rest();
      AdvanceOverNumber();
      assert u[..pos - start] == bytes[start..pos] && u[pos - start..] == bytes[pos..];
      if start == pos {
        return Bad(ExpectedCommandLetterValue);
      }
      var value := ParseF32(bytes[start..pos]);
      r := match value case Ok(v) => Got(Word(Upper(first), v), bytes[pos..]) case Err(e) => Bad(e);
    }
  }

  /** Where a reader of comments stands. */
  datatype Mode = Outside | Block | LineComment

  function ModeAfter(m: Mode, s: string): Mode
    decreases |s|
  {
    if s == [] then m
    else
      var c := s[0];
      var next := match m
        case Outside => if c == '(' then Block else if c == ';' then LineComment else Outside
        case Block => if c == ')' then Outside else Block
        case LineComment => LineComment;
      ModeAfter(next, s[1..])
  }

  /** Text that is skipped whole and leaves no comment open. */
  predicate Gap(s: string) { Skipped(s) == [] && ModeAfter(Outside, s) == Outside }

  /** Text that cannot continue a number. */
  predicate Neutral(s: string) {
    NumberLen(s) == 0 && NumberLen(PastBlanks(s)) == 0
  }

  lemma {:induction false} LineCommentStays(s: string)
    ensures ModeAfter(LineComment, s) == LineComment
  {
    if s != [] {
      LineCommentStays(s[1..]);
    }
  }

  lemma {:induction false} PastParenFront(a: string, x: string)
    requires ModeAfter(Block, a) == Outside
    ensures PastParen(a + x) == PastParen(a) + x && ModeAfter(Outside, PastParen(a)) == Outside
  {
    if a != [] {
      assert (a + x)[1..] == a[1..] + x;
      if a[0] != ')' {
        PastParenFront(a[1..], x);
      }
    }
  }

  lemma {:induction false} SkippedFront(a: string, x: string)
    requires ModeAfter(Outside, a) == Outside
    ensures Skipped(a + x) == if Skipped(a) == [] then Skipped(x) else Skipped(a) + x
    ensures ModeAfter(Outside, Skipped(a)) == Outside
    decreases |a|
  {
    if a == [] {
      assert a + x == x;
    } else {
      assert (a + x)[1..] == a[1..] + x;
      if White(a[0]) {
        SkippedFront(a[1..], x);
      } else if a[0] == ';' {
        LineCommentStays(a[1..]);
      } else if a[0] == '(' {
        PastParenFront(a[1..], x);
        SkippedFront(PastParen(a[1..]), x);
      }
    }
  }

  lemma {:induction false} PastBlanksFront(a: string, x: string)
    requires ModeAfter(Outside, a) == Outside
    ensures PastBlanks(a + x) == if PastBlanks(a) == [] then PastBlanks(x) else PastBlanks(a) + x
    ensures ModeAfter(Outside, PastBlanks(a)) == Outside
  {
    if a == [] {
      assert a + x == x;
    } else {
      assert (a + x)[1..] == a[1..] + x;
      if Blank(a[0]) {
        PastBlanksFront(a[1..], x);
      }
    }
  }

  lemma {:induction false} MantissaFront(a: string, x: string)
    requires ModeAfter(Outside, a) == Outside && Neutral(x)
    ensures MantissaLen(a + x) == MantissaLen(a) && ModeAfter(Outside, a[MantissaLen(a)..]) == Outside
  {
    if a == [] {
      assert a + x == x;
    } else {
      assert (a + x)[1..] == a[1..] + x;
      if Mantissa(a[0]) {
        MantissaFront(a[1..], x);
        assert a[MantissaLen(a)..] == a[1..][MantissaLen(a[1..])..];
      }
    }
  }

  lemma NumberFront(a: string, x: string)
    requires ModeAfter(Outside, a) == Outside && Neutral(x) && a != []
    ensures NumberLen(a + x) == NumberLen(a) && ModeAfter(Outside, a[NumberLen(a)..]) == Outside
  {
    if Sign(a[0]) {
      assert (a + x)[1..] == a[1..] + x;
      MantissaFront(a[1..], x);
      assert a[NumberLen(a)..] == a[1..][MantissaLen(a[1..])..];
    } else {
      MantissaFront(a, x);
    }
  }

  /** The text after a word's letter: what its number is read from, and where it ends. */
  lemma NumberTextFront(r: string, x: string)
    requires ModeAfter(Outside, r) == Outside && Neutral(x)
    ensures var u, v := PastBlanks(r), PastBlanks(r + x);
            var n := NumberLen(u);
            && NumberLen(v) == n
            && (n > 0 ==> v[..n] == u[..n] && v[n..] == u[n..] + x && ModeAfter(Outside, u[n..]) == Outside)
  {
    hide ModeAfter;
    PastBlanksFront(r, x);
    var u := PastBlanks(r);
    if u != [] {
      NumberFront(u, x);
      hide NumberLen, PastBlanks, Neutral;
      var n := NumberLen(u);
      assert (u + x)[..n] == u[..n] && (u + x)[n..] == u[n..] + x;
    }
  }

  lemma FirstWordFront(t: string, x: string)
    requires t != [] && ModeAfter(Outside, t) == Outside && Neutral(x)
    ensures FirstWord(t + x) == match FirstWord(t)
                                case End => End
                                case Bad(e) => Bad(e)
                                case Got(w, rest) => Got(w, rest + x)
    ensures FirstWord(t).Got? ==> ModeAfter(Outside, FirstWord(t).rest) == Outside
  {
    if Letter(t[0]) {
      var r := t[1..];
      assert ModeAfter(Outside, r) == Outside;
      hide ParseNumber, PastBlanks, NumberLen, Letter, Upper, ModeAfter, Skipped, Neutral;
      assert (t + x)[0] == t[0] && (t + x)[1..] == r + x;
      NumberTextFront(r, x);
    }
  }

  /** A front that leaves no comment open gives its own next word, or gives way to what follows. */
  lemma NextWordFront(a: string, x: string)
    requires ModeAfter(Outside, a) == Outside && Neutral(x)
    ensures NextWord(a + x) == match NextWord(a)
                               case End => NextWord(x)
                               case Bad(e) => Bad(e)
                               case Got(w, rest) => Got(w, rest + x)
    ensures NextWord(a).Got? ==> ModeAfter(Outside, NextWord(a).rest) == Outside
  {
    hide FirstWord, ModeAfter, Neutral, Skipped;
    SkippedFront(a, x);
    if Skipped(a) != [] {
      FirstWordFront(Skipped(a), x);
    }
  }

  /** After a front that leaves no comment open, only the significant part of what follows matters. */
  lemma {:induction false} OnlyTheSignificantMatters(a: string, x: string, y: string)
    requires ModeAfter(Outside, a) == Outside
    requires Neutral(x) && Neutral(y) && Skipped(x) == Skipped(y)
    ensures Words(a + x) == Words(a + y)
    decreases |a|
  {
    assert NextWord(x) == NextWord(y);
    hide NextWord, Neutral, Skipped, ModeAfter;
    NextWordFront(a, x);
    NextWordFront(a, y);
    if NextWord(a).Got? {
      OnlyTheSignificantMatters(NextWord(a).rest, x, y);
    }
  }

  /** Where a word may start, or the line may end. */
  predicate WordStart(b: string) { b == [] || Letter(b[0]) }

  lemma {:induction false} GapIsNeutral(gap: string, b: string)
    requires Gap(gap) && WordStart(b)
    ensures Neutral(gap + b) && Skipped(gap + b) == b
  {
    SkippedFront(gap, b);
    GapHasNoNumber(gap, b);
  }

  lemma {:induction false} GapHasNoNumber(gap: string, b: string)
    requires Skipped(gap) == [] && WordStart(b)
    ensures Neutral(gap + b)
  {
    if gap == [] {
      assert gap + b == b;
    } else if Blank(gap[0]) {
      assert (gap + b)[1..] == gap[1..] + b;
      GapHasNoNumber(gap[1..], b);
    }
  }

  /** White space and closed comments before a word, or at the end of the line, change nothing. */
  lemma GapsChangeNothing(a: string, gap: string, b: string)
    requires ModeAfter(Outside, a) == Outside && Gap(gap) && WordStart(b)
    ensures Words(a + gap + b) == Words(a + b)
  {
    GapIsNeutral(gap, b);
    GapIsNeutral([], b);
    hide Gap, Neutral, Words, Skipped;
    assert [] + b == b && a + gap + b == a + (gap + b);
    OnlyTheSignificantMatters(a, gap + b, b);
  }

  /** A line comment, or a block comment never closed, ends the line where it starts. */
  lemma CommentEndsTheLine(a: string, comment: string)
    requires ModeAfter(Outside, a) == Outside && comment != []
    requires comment[0] == ';' || (comment[0] == '(' && PastParen(comment[1..]) == [])
    ensures Words(a + comment) == Words(a)
  {
    assert Skipped(comment) == [] && Neutral(comment);
    OnlyTheSignificantMatters(a, comment, []);
    assert a + [] == a;
  }

  function UpperLine(s: string): (r: string)
    ensures |r| == |s| && forall k :: 0 <= k < |s| ==> r[k] == Upper(s[k])
  {
    seq(|s|, (k: nat) requires k < |s| => Upper(s[k]))
  }

  lemma {:induction false} UpperPastParen(s: string)
    ensures PastParen(UpperLine(s)) == UpperLine(PastParen(s))
  {
    if s != [] {
      assert UpperLine(s)[1..] == UpperLine(s[1..]);
      UpperPastParen(s[1..]);
    }
  }

  lemma {:induction false} UpperSkipped(s: string)
    ensures Skipped(UpperLine(s)) == UpperLine(Skipped(s))
    decreases |s|
  {
    if s != [] {
      assert UpperLine(s)[1..] == UpperLine(s[1..]);
      if White(s[0]) {
        UpperSkipped(s[1..]);
      } else if s[0] == '(' {
        UpperPastParen(s[1..]);
        UpperSkipped(PastParen(s[1..]));
      }
    }
  }

  lemma {:induction false} UpperPastBlanks(s: string)
    ensures PastBlanks(UpperLine(s)) == UpperLine(PastBlanks(s))
  {
    if s != [] {
      assert UpperLine(s)[1..] == UpperLine(s[1..]);
      UpperPastBlanks(s[1..]);
    }
  }

  lemma {:induction false} UpperMantissa(s: string)
    ensures MantissaLen(UpperLine(s)) == MantissaLen(s)
    ensures UpperLine(s)[..MantissaLen(s)] == s[..MantissaLen(s)]
  {
    if s != [] && Mantissa(s[0]) {
      assert UpperLine(s)[1..] == UpperLine(s[1..]);
      UpperMantissa(s[1..]);
      var n := MantissaLen(s[1..]);
      assert s[..n + 1] == [s[0]] + s[1..][..n];
      assert UpperLine(s)[..n + 1] == [s[0]] + UpperLine(s)[1..][..n];
    }
  }

  lemma UpperNumber(s: string)
    ensures NumberLen(UpperLine(s)) == NumberLen(s)
    ensures UpperLine(s)[..NumberLen(s)] == s[..NumberLen(s)]
  {
    if s != [] && Sign(s[0]) {
      assert UpperLine(s)[1..] == UpperLine(s[1..]);
      UpperMantissa(s[1..]);
      var n := MantissaLen(s[1..]);
      assert s[..n + 1] == [s[0]] + s[1..][..n];
      assert UpperLine(s)[..n + 1] == [s[0]] + UpperLine(s)[1..][..n];
    } else {
      UpperMantissa(s);
    }
  }

  /** The case of a line does not matter. */
  lemma {:induction false} CaseChangesNothing(s: string)
    ensures Words(UpperLine(s)) == Words(s)
    decreases |s|
  {
    hide ParseNumber;
    UpperSkipped(s);
    var t := Skipped(s);
    if t != [] && Letter(t[0]) {
      assert UpperLine(t)[1..] == UpperLine(t[1..]);
      UpperPastBlanks(t[1..]);
      var u := PastBlanks(t[1..]);
      UpperNumber(u);
      var n := NumberLen(u);
      assert UpperLine(u)[n..] == UpperLine(u[n..]);
      if n > 0 {
        CaseChangesNothing(u[n..]);
      }
    }
  }
}

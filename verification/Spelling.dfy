/** How a line is written: letters, blanks and numerals make its words, white space and comments do not
    (gcode.rs:98-230). */
module Spelling {
  import opened Base
  import opened Products
  import opened Lexer

  /** The letter as the parser takes it. */
  function Capital(c: char): char
    requires 'A' <= c <= 'Z' || 'a' <= c <= 'z'
  {
    if 'a' <= c then (c as int - 32) as char else c
  }

  predicate Blanks(s: string) { forall k :: 0 <= k < |s| ==> s[k] == ' ' || s[k] == '\t' }

  /** Text that goes on with neither a digit nor a point. */
  predicate EndsNumber(rest: string) { rest == [] || !('0' <= rest[0] <= '9' || rest[0] == '.') }

  lemma {:induction false} BlanksArePassed(blanks: string, s: string)
    requires Blanks(blanks) && (s == [] || (s[0] != ' ' && s[0] != '\t'))
    ensures PastBlanks(blanks + s) == s
  {
    if blanks == [] {
      assert blanks + s == s;
    } else {
      assert (blanks + s)[1..] == blanks[1..] + s;
      BlanksArePassed(blanks[1..], s);
    }
  }

  predicate Mantissas(s: string) { forall k :: 0 <= k < |s| ==> Mantissa(s[k]) }

  lemma {:induction false} MantissaStops(s: string, rest: string)
    requires Mantissas(s) && EndsNumber(rest)
    ensures MantissaLen(s + rest) == |s|
  {
    if s == [] {
      assert s + rest == rest;
    } else {
      assert (s + rest)[1..] == s[1..] + rest;
      MantissaStops(s[1..], rest);
    }
  }

  lemma SpelledParts(n: Numeral)
    requires n.Valid()
    ensures var s := n.Spelled();
            var body := s[|n.sign|..];
            s == n.sign + body && body != [] && Mantissas(body) && !Sign(body[0])
  {
    var body := n.whole + (if n.point then "." + n.fraction else "");
    assert n.Spelled() == n.sign + body && n.Spelled()[|n.sign|..] == body;
    forall k | 0 <= k < |body| ensures Mantissa(body[k]) {
      if k < |n.whole| {
        assert body[k] == n.whole[k];
      } else if k > |n.whole| {
        assert body[k] == n.fraction[k - |n.whole| - 1];
      }
    }
  }

  lemma NumberStops(n: Numeral, rest: string)
    requires n.Valid() && EndsNumber(rest)
    ensures n.Spelled() != [] && n.Spelled()[0] != ' ' && n.Spelled()[0] != '\t'
    ensures NumberLen(n.Spelled() + rest) == |n.Spelled()|
  {
    hide Numeral.Spelled;
    SpelledParts(n);
    var (s, body) := (n.Spelled(), n.Spelled()[|n.sign|..]);
    MantissaStops(body, rest);
    if n.sign != [] {
      assert s[0] == n.sign[0] && (s + rest)[1..] == body + rest;
    } else {
      assert s == body && (s + rest)[0] == body[0];
    }
  }

  /** A letter, blanks and a numeral are one word, whatever follows, if it does not go on with the number. */
  lemma WordIsRead(letter: char, blanks: string, n: Numeral, rest: string)
    requires ('A' <= letter <= 'Z' || 'a' <= letter <= 'z') && Blanks(blanks) && n.Valid() && EndsNumber(rest)
    ensures Words([letter] + blanks + n.Spelled() + rest)
            == ([Word(Capital(letter), n.Value())] + Words(rest).0, Words(rest).1)
  {
    hide Numeral.Spelled, Numeral.Value, ParseNumber, NumberLen, PastBlanks, Numeral.Valid;
    var (number, line) := (n.Spelled() + rest, [letter] + blanks + n.Spelled() + rest);
    NumberStops(n, rest);
    BlanksArePassed(blanks, number);
    NumberIffSpelled(n.Spelled(), n.Value());
    SkippedStep(line);
    assert line[0] == letter && line[1..] == blanks + number;
    assert number[..|n.Spelled()|] == n.Spelled() && number[|n.Spelled()|..] == rest;
    assert FirstWord(line) == Got(Word(Capital(letter), n.Value()), rest);
  }

  /** White space, and a comment that is closed, are gaps; so are gaps after one another. */
  lemma GapsAre(comment: string, a: string, b: string)
    requires ')' !in comment && Gap(a) && Gap(b)
    ensures Gap([]) && Gap(" ") && Gap("\t") && Gap("\r") && Gap("\n") && Gap("(" + comment + ")") && Gap(a + b)
  {
    SkippedFront(a, b);
    ModesJoin(Outside, a, b);
    var c := "(" + comment + ")";
    assert c[1..] == comment + ")";
    ClosedComment(comment, []);
    assert comment + ")" + [] == comment + ")";
    assert " "[1..] == [] && "\t"[1..] == [] && "\r"[1..] == [] && "\n"[1..] == [];
  }

  lemma {:induction false} ModesJoin(m: Mode, a: string, b: string)
    ensures ModeAfter(m, a + b) == ModeAfter(ModeAfter(m, a), b)
    decreases |a|
  {
    if a == [] {
      assert a + b == b;
    } else {
      assert (a + b)[..1] == a[..1] && (a + b)[1..] == a[1..] + b;
      ModeStep(m, a);
      ModeStep(m, a + b);
      ModesJoin(ModeAfter(m, a[..1]), a[1..], b);
    }
  }

  lemma ModeStep(m: Mode, s: string)
    requires s != []
    ensures ModeAfter(m, s) == ModeAfter(ModeAfter(m, s[..1]), s[1..])
  {
    var one := s[..1];
    assert one[0] == s[0] && one[1..] == [];
    assert ModeAfter(ModeAfter(m, one), one[1..]) == ModeAfter(m, one);
  }

  lemma {:induction false} ClosedComment(comment: string, rest: string)
    requires ')' !in comment
    ensures PastParen(comment + ")" + rest) == rest
    ensures ModeAfter(Block, comment + ")" + rest) == ModeAfter(Outside, rest)
  {
    var s := comment + ")" + rest;
    if comment == [] {
      assert s[1..] == rest;
    } else {
      assert s[1..] == comment[1..] + ")" + rest;
      ClosedComment(comment[1..], rest);
    }
  }

  /** What cannot begin a word ends the reading with an error: neither a letter, nor a gap, nor a comment, or a letter
      without a number. */
  lemma NoWordIsRead(c: char, blanks: string, rest: string)
    requires Blanks(blanks) && c !in " \t\r\n;("
    requires ('A' <= c <= 'Z' || 'a' <= c <= 'z') ==>
               rest == [] || !(rest[0] in " \t+-." || '0' <= rest[0] <= '9')
    ensures Words([c] + blanks + rest) == ([], Some(ExpectedCommandLetterValue))
  {
    hide PastBlanks, Skipped, ParseNumber, NumberLen, FirstWord;
    var line := [c] + blanks + rest;
    SkippedStep(line);
    assert line[0] == c && line[1..] == blanks + rest;
    NoNumber(rest);
    if Letter(c) {
      BlanksArePassed(blanks, rest);
    }
    NoWordFirst(line, rest);
  }

  lemma NoNumber(rest: string)
    ensures rest == [] || !(rest[0] in " \t+-." || '0' <= rest[0] <= '9') ==>
              NumberLen(rest) == 0 && (rest == [] || (rest[0] != ' ' && rest[0] != '\t'))
  {
  }

  lemma NoWordFirst(line: string, rest: string)
    requires line != [] && (Letter(line[0]) ==> PastBlanks(line[1..]) == rest && NumberLen(rest) == 0)
    ensures FirstWord(line) == Bad(ExpectedCommandLetterValue)
  {
    hide PastBlanks, NumberLen, ParseNumber;
  }

  predicate Digits(s: string) { forall k :: 0 <= k < |s| ==> '0' <= s[k] <= '9' }

  /** A numeral has a sign or none, digits, and after a point more of them: at least one in all. */
  lemma NumeralsAre(n: Numeral)
    ensures n.Valid() <==>
            && (n.sign == "" || n.sign == "+" || n.sign == "-") && Digits(n.whole) && Digits(n.fraction)
            && (!n.point ==> n.fraction == "") && |n.whole| + |n.fraction| > 0
  {
    if |n.sign| == 1 {
      assert n.sign == [n.sign[0]];
    }
  }

  /** A numeral's value: what a digit more makes of it, before the point and after it, and what its sign does. */
  lemma ValueGrows(n: Numeral, c: char)
    requires n.Valid() && '0' <= c <= '9' && n.sign != "-"
    ensures var d := (c as int - 48) as real;
            && n.(whole := n.whole + [c], point := false, fraction := "").Value()
               == (if n.whole == "" then 0.0 else n.(point := false, fraction := "").Value()) * 10.0 + d
            && n.(point := true, fraction := n.fraction + [c]).Value()
               == n.(point := true).Value() + d * TenthPower(|n.fraction| + 1)
            && n.(sign := "-").Value() == -n.Value()
  {
    hide Mul, TenthPower, Decimal;
    var f := n.fraction + [c];
    assert f[..|n.fraction|] == n.fraction;
    FractionGrows(n.whole, f);
    TermIs(c, TenthPower(|f|));
    var w := n.whole + [c];
    assert w[..|n.whole|] == n.whole && w + "" == w && n.whole + "" == n.whole;
    DecimalGrows(w);
    DecimalGrows("");
    MeasureOfWhole(w);
    MeasureOfWhole(n.whole);
  }

  lemma TermIs(c: char, scale: real)
    requires '0' <= c <= '9'
    ensures Term(c, scale) == (c as int - 48) as real * scale
  {
  }

  /** Places after the point count tenths. */
  lemma PlacesCountTenths(n: nat)
    ensures TenthPower(0) == 1.0 && TenthPower(n + 1) * 10.0 == TenthPower(n)
  {
  }
}

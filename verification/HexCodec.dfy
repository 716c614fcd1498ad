/** The hex text of the host-sync channel (settings.rs:1398-1440). Text is a run of bytes. */
module HexCodec {
  import opened Base
  import opened Crc32

  type Text = seq<Byte>

  /** The uppercase digit of a nibble. */
  function Digit(n: Byte): Byte
    requires n < 16
  {
    if n < 10 then 0x30 + n else 0x41 + (n - 10)
  }

  /** `hex_nibble`. */
  function Nibble(c: Byte): (r: Option<Byte>)
    ensures r.Some? ==> r.value < 16
  {
    if 0x30 <= c <= 0x39 then Some(c - 0x30)
    else if 0x61 <= c <= 0x66 then Some(c - 0x61 + 10)
    else if 0x41 <= c <= 0x46 then Some(c - 0x41 + 10)
    else None
  }

  function High(b: Byte): (n: Byte)
    ensures n < 16
  {
    b >> 4
  }

  function Low(b: Byte): (n: Byte)
    ensures n < 16
  {
    b & 0x0F
  }

  function Joined(high: Byte, low: Byte): Byte { (high << 4) | low }

  function HexOf(bytes: seq<Byte>): (t: Text)
    ensures |t| == 2 * |bytes|
  {
    if bytes == [] then []
    else
      var n := |bytes| - 1;
      HexOf(bytes[..n]) + [Digit(High(bytes[n])), Digit(Low(bytes[n]))]
  }

  function PairValue(a: Byte, b: Byte): Option<Byte> {
    if Nibble(a).Some? && Nibble(b).Some? then Some(Joined(Nibble(a).value, Nibble(b).value)) else None
  }

  /** The bytes a text spells, if it has an even length and only digits. */
  function HexBytes(text: Text): (r: Option<seq<Byte>>)
    ensures r.Some? ==> |text| == 2 * |r.value|
  {
    if text == [] then Some([])
    else if |text| == 1 then None
    else
      var n := |text| - 2;
      var (front, last) := (HexBytes(text[..n]), PairValue(text[n], text[n + 1]));
      if front.Some? && last.Some? then Some(front.value + [last.value]) else None
  }

  /** `write_hex`: on a full string the text stops at the capacity. */
  method WriteHex(bytes: seq<Byte>, start: Text, capacity: nat) returns (ok: bool, out: Text)
    requires |start| <= capacity
    ensures ok <==> |start| + 2 * |bytes| <= capacity
    ensures out == if ok then start + HexOf(bytes) else (start + HexOf(bytes))[..capacity]
  {
    out := start;
    hide HexOf, Digit, High, Low;
    HexOfStep(bytes, 0);
    for i := 0 to |bytes|
      invariant out == start + HexOf(bytes[..i]) && |out| <= capacity
    {
      HexOfStep(bytes, i);
      HexOfGrows(bytes, i);
      HexOfGrows(bytes, i + 1);
      if |out| == capacity {
        return false, out;
      }
      out := out + [Digit(High(bytes[i]))];
      if |out| == capacity {
        assert out == start + HexOf(bytes[..i + 1])[..2 * i + 1];
        return false, out;
      }
      out := out + [Digit(Low(bytes[i]))];
      assert out == start + HexOf(bytes[..i + 1]);
    }
    assert bytes[..|bytes|] == bytes;
    ok := true;
  }

  lemma HexOfStep(bytes: seq<Byte>, i: nat)
    requires i <= |bytes|
    ensures HexOf(bytes[..0]) == []
    ensures i < |bytes| ==>
              HexOf(bytes[..i + 1]) == HexOf(bytes[..i]) + [Digit(High(bytes[i])), Digit(Low(bytes[i]))]
  {
    hide Digit, High, Low;
    if i < |bytes| {
      assert bytes[..i + 1][..i] == bytes[..i];
    }
  }

  lemma {:induction false} HexOfGrows(bytes: seq<Byte>, i: nat)
    requires i <= |bytes|
    ensures HexOf(bytes[..i]) == HexOf(bytes)[..2 * i]
    decreases |bytes|
  {
    hide Digit, High, Low;
    var n := |bytes| - 1;
    if i <= n {
      HexOfGrows(bytes[..n], i);
      assert bytes[..n][..i] == bytes[..i];
    } else {
      assert bytes[..i] == bytes;
    }
  }

  /** `decode_hex`: appends to `start`; a failure may leave some bytes appended, never more than fit. */
  method DecodeHex(text: Text, start: seq<Byte>, capacity: nat) returns (ok: bool, out: seq<Byte>)
    requires |start| <= capacity
    ensures ok <==> HexBytes(text).Some? && |start| + |text| / 2 <= capacity
    ensures ok ==> out == start + HexBytes(text).value
    ensures start <= out && |out| <= capacity
  {
    hide Nibble, Joined, HexBytes, PairValue;
    out := start;
    if |text| % 2 != 0 {
      return false, out;
    }
    HexBytesStep(text[..0]);
    var index: nat := 0;
    while index < |text|
      invariant index <= |text| && index % 2 == 0
      invariant HexBytes(text[..index]).Some? && out == start + HexBytes(text[..index]).value
      invariant |out| == |start| + index / 2 <= capacity
    {
      DecodeStep(text, index);
      var high := Nibble(text[index]);
      if high.None? { return false, out; }
      var low := Nibble(text[index + 1]);
      if low.None? { return false, out; }
      if |out| == capacity { return false, out; }
      out := out + [Joined(high.value, low.value)];
      index := index + 2;
    }
    assert text[..|text|] == text;
    ok := true;
  }

  lemma DecodeStep(text: Text, i: nat)
    requires i + 2 <= |text| && |text| % 2 == i % 2 == 0 && HexBytes(text[..i]).Some?
    ensures HexBytes(text).Some? ==> HexBytes(text[..i + 2]).Some?
    ensures var (high, low) := (Nibble(text[i]), Nibble(text[i + 1]));
            HexBytes(text[..i + 2]) == if high.Some? && low.Some?
                                       then Some(HexBytes(text[..i]).value + [Joined(high.value, low.value)]) else None
  {
    hide Nibble, Joined, HexBytes;
    if HexBytes(text).Some? {
      HexBytesGrows(text, i + 2);
    }
    HexBytesStep(text[..i + 2]);
    assert text[..i + 2][..i] == text[..i];
  }

  lemma HexBytesStep(text: Text)
    ensures text == [] ==> HexBytes(text) == Some([])
    ensures |text| >= 2 ==>
              var (front, last) := (HexBytes(text[..|text| - 2]), PairValue(text[|text| - 2], text[|text| - 1]));
              HexBytes(text) == if front.Some? && last.Some? then Some(front.value + [last.value]) else None
  {
    hide PairValue;
  }

  /** A bad front makes a bad text. */
  lemma {:induction false} HexBytesGrows(text: Text, i: nat)
    requires i <= |text| && (|text| - i) % 2 == 0 && HexBytes(text).Some?
    ensures HexBytes(text[..i]).Some?
    decreases |text|
  {
    hide PairValue;
    if i < |text| {
      HexBytesGrows(text[..|text| - 2], i);
      assert text[..|text| - 2][..i] == text[..i];
    } else {
      assert text[..i] == text;
    }
  }

  lemma NibblesOf(b: Byte)
    ensures PairValue(Digit(High(b)), Digit(Low(b))) == Some(b)
  {
  }

  /** Decoding what was encoded gives it back. */
  lemma {:induction false} HexRoundTrips(bytes: seq<Byte>)
    ensures HexBytes(HexOf(bytes)) == Some(bytes)
  {
    hide PairValue, Digit, High, Low, HexBytes, HexOf;
    HexBytesStep(HexOf(bytes));
    if bytes == [] {
      HexOfStep(bytes, 0);
    } else {
      var n := |bytes| - 1;
      NibblesOf(bytes[n]);
      HexRoundTrips(bytes[..n]);
      HexOfStep(bytes, n);
      assert bytes[..n + 1] == bytes;
      assert HexOf(bytes)[..2 * n] == HexOf(bytes[..n]);
      assert bytes == bytes[..n] + [bytes[n]];
    }
  }

  /** Upper case for the six letter digits. */
  function Upper(c: Byte): Byte {
    if 0x61 <= c <= 0x66 then c - 0x20 else c
  }

  function UpperText(t: Text): (u: Text)
    ensures |u| == |t|
  {
    seq(|t|, (i: nat) requires i < |t| => Upper(t[i]))
  }

  lemma NibbleIsDigit(c: Byte, n: Byte)
    requires n < 16
    ensures Nibble(c) == Some(n) <==> Upper(c) == Digit(n)
  {
  }

  lemma JoinedParts(high: Byte, low: Byte, v: Byte)
    requires high < 16 && low < 16
    ensures Joined(high, low) == v <==> high == High(v) && low == Low(v)
  {
  }

  lemma PairIsDigits(a: Byte, b: Byte, v: Byte)
    ensures PairValue(a, b) == Some(v) <==> Upper(a) == Digit(High(v)) && Upper(b) == Digit(Low(v))
  {
    NibbleIsDigit(a, High(v));
    NibbleIsDigit(b, Low(v));
    if Nibble(a).Some? && Nibble(b).Some? {
      JoinedParts(Nibble(a).value, Nibble(b).value, v);
    }
    hide Nibble, Upper, Digit, High, Low, Joined;
  }

  /** A text spells given bytes exactly when it is their hex text in any mixture of cases. */
  lemma {:induction false} SpellsIffHex(text: Text, bytes: seq<Byte>)
    ensures HexBytes(text) == Some(bytes) <==> UpperText(text) == HexOf(bytes)
    decreases |bytes|
  {
    hide PairValue, Digit, High, Low, Upper;
    if bytes != [] && |text| >= 2 {
      var n, m := |bytes| - 1, |text| - 2;
      SpellsIffHex(text[..m], bytes[..n]);
      PairIsDigits(text[m], text[m + 1], bytes[n]);
      var u := UpperText(text);
      assert u[..m] == UpperText(text[..m]);
      assert u == u[..m] + [Upper(text[m]), Upper(text[m + 1])];
      assert bytes == bytes[..n] + [bytes[n]];
      LastTwo(u, HexOf(bytes), m);
    }
  }

  lemma LastTwo(u: Text, h: Text, m: nat)
    requires |u| == m + 2 && |h| >= 2
    ensures u == h <==> u[..m] == h[..|h| - 2] && u[m] == h[|h| - 2] && u[m + 1] == h[|h| - 1]
  {
    if u[..m] == h[..|h| - 2] && u[m] == h[|h| - 2] && u[m + 1] == h[|h| - 1] {
      assert m == |h| - 2;
      assert u == u[..m] + [u[m], u[m + 1]] && h == h[..m] + [h[m], h[m + 1]];
    }
  }

  /** Texts spell piece by piece, as long as no digit pair is cut. */
  lemma {:induction false} HexBytesSplits(a: Text, b: Text)
    requires |a| % 2 == 0
    ensures HexBytes(a + b) == if HexBytes(a).Some? && HexBytes(b).Some?
                               then Some(HexBytes(a).value + HexBytes(b).value) else None
    decreases |b|
  {
    hide PairValue, HexBytes;
    HexBytesStep(b);
    if b == [] {
      assert a + b == a;
      if HexBytes(a).Some? {
        assert HexBytes(a).value + [] == HexBytes(a).value;
      }
    } else if |b| > 1 {
      var c := b[..|b| - 2];
      HexBytesSplits(a, c);
      assert (a + b)[..|a + b| - 2] == a + c;
      assert (a + b)[|a + b| - 2] == b[|b| - 2] && (a + b)[|a + b| - 1] == b[|b| - 1];
      HexBytesStep(a + b);
      var (x, y, z) := (HexBytes(a), HexBytes(c), PairValue(b[|b| - 2], b[|b| - 1]));
      if x.Some? && y.Some? && z.Some? {
        assert x.value + y.value + [z.value] == x.value + (y.value + [z.value]);
      }
    } else {
      assert HexBytes(b).None? && HexBytes(a + b).None?;
    }
  }

  /** A byte is written as its two digits, the greater first, in upper case. */
  lemma GreaterDigitFirst(b: Byte)
    ensures var t := HexOf([b]);
            && IsUpperDigit(t[0]) && IsUpperDigit(t[1])
            && Nibble(t[0]).Some? && Nibble(t[1]).Some? && b == 16 * Nibble(t[0]).value + Nibble(t[1]).value
  {
    HexOfStep([b], 0);
    assert [b][..1] == [b];
    DigitsOfByte(b);
    hide HexOf, Digit, Nibble, High, Low;
  }

  predicate IsUpperDigit(c: Byte) { 0x30 <= c <= 0x39 || 0x41 <= c <= 0x46 }

  lemma DigitsOfByte(b: Byte)
    ensures var (h, l) := (Digit(High(b)), Digit(Low(b)));
            && IsUpperDigit(h) && IsUpperDigit(l)
            && Nibble(h).Some? && Nibble(l).Some? && b == 16 * Nibble(h).value + Nibble(l).value
  {
  }

  /** What a digit is worth. */
  lemma DigitsAreWorth()
    ensures forall k: Byte :: k <= 9 ==> Nibble(0x30 + k) == Some(k)
    ensures forall k: Byte :: 10 <= k <= 15 ==> Nibble(0x41 + (k - 10)) == Some(k) == Nibble(0x61 + (k - 10))
  {
  }
}

/** CRC-32 of IEEE 802.3, clause 3.2.9, reflected (storage_frame.rs:55-67). */
module Crc32 {

  type Byte = bv8

  const POLYNOMIAL: bv32 := 0xEDB8_8320
  const INITIAL: bv32 := 0xFFFF_FFFF
  const RESIDUE: bv32 := 0xDEBB_20E3

  /** One turn of the register. */
  function Turn(crc: bv32): bv32 { Xor(Half(crc), Fold(crc)) }

  function Half(x: bv32): bv32 { x >> 1 }

  predicate Odd(x: bv32) { x & 1 == 1 }

  /** What a turn adds for the bit that drops out. */
  function Fold(x: bv32): bv32 { if Odd(x) then POLYNOMIAL else 0 }

  function Turns(crc: bv32, n: nat): bv32 {
    if n == 0 then crc else Turn(Turns(crc, n - 1))
  }

  function Turn8(crc: bv32): bv32 {
    Turn(Turn(Turn(Turn(Turn(Turn(Turn(Turn(crc))))))))
  }

  function Turn32(crc: bv32): bv32 { Turn8(Turn8(Turn8(Turn8(crc)))) }

  function Xor(x: bv32, y: bv32): bv32 { x ^ y }

  /** A byte placed `bytes` bytes up in a word. */
  function Placed(b: Byte, bytes: nat): bv32
    requires bytes < 4
  {
    if bytes == 0 then b as bv32
    else if bytes == 1 then (b as bv32) << 8
    else if bytes == 2 then (b as bv32) << 16
    else (b as bv32) << 24
  }

  /** Taking in one byte. */
  function Feed(crc: bv32, b: Byte): bv32 {
    Turn8(Xor(crc, Placed(b, 0)))
  }

  /** The register after a run of bytes. */
  function FeedAll(crc: bv32, data: seq<Byte>): bv32 {
    if data == [] then crc else Feed(FeedAll(crc, data[..|data| - 1]), data[|data| - 1])
  }

  function Complement(x: bv32): bv32 { !x }

  /** The checksum: the register, complemented. */
  function Checksum(data: seq<Byte>): bv32 {
    Complement(FeedAll(INITIAL, data))
  }

  /** `(crc & 1).wrapping_neg()` */
  function MaskOf(crc: bv32): bv32 { 0 - (crc & 1) }

  function Masked(crc: bv32, mask: bv32): bv32 { (crc >> 1) ^ (POLYNOMIAL & mask) }

  lemma MaskedTurn(crc: bv32)
    ensures Masked(crc, MaskOf(crc)) == Turn(crc)
  {
    LowBit(crc);
    MaskOfBit(crc & 1);
  }

  lemma LowBit(x: bv32)
    ensures x & 1 == 0 || x & 1 == 1
  {
  }

  lemma MaskOfBit(bit: bv32)
    requires bit == 0 || bit == 1
    ensures POLYNOMIAL & (0 - bit) == if bit == 1 then POLYNOMIAL else 0
  {
    if bit == 1 {
      assert POLYNOMIAL & (0 - 1) == POLYNOMIAL;
    } else {
      assert POLYNOMIAL & (0 - 0) == 0;
    }
  }

  lemma TurnsIsTurn8(crc: bv32)
    ensures Turns(crc, 8) == Turn8(crc)
  {
    hide Turn;
    assert Turns(crc, 1) == Turn(crc);
    assert Turns(crc, 2) == Turn(Turn(crc));
    assert Turns(crc, 3) == Turn(Turn(Turn(crc)));
    assert Turns(crc, 4) == Turn(Turn(Turn(Turn(crc))));
    assert Turns(crc, 5) == Turn(Turn(Turn(Turn(Turn(crc)))));
    assert Turns(crc, 6) == Turn(Turn(Turn(Turn(Turn(Turn(crc))))));
    assert Turns(crc, 7) == Turn(Turn(Turn(Turn(Turn(Turn(Turn(crc)))))));
  }

  /** The inner loop of `crc32`. */
  method FeedByte(register: bv32, b: Byte) returns (crc: bv32)
    ensures crc == Feed(register, b)
  {
    crc := register ^ (b as bv32);
    XorOfByte(register, b);
    ghost var start := crc;
    hide Turn, Turn8, Xor, Placed, MaskOf, Masked;
    var k: nat := 0;
    while k < 8
      invariant k <= 8 && crc == Turns(start, k)
    {
      MaskedTurn(crc);
      var mask := MaskOf(crc);
      crc := Masked(crc, mask);
      k := k + 1;
    }
    TurnsIsTurn8(start);
  }

  lemma FeedAllStep(crc: bv32, data: seq<Byte>)
    ensures data != [] ==> FeedAll(crc, data) == Feed(FeedAll(crc, data[..|data| - 1]), data[|data| - 1])
    ensures FeedAll(crc, []) == crc
  {
    hide Feed;
  }

  /** `crc32`: the bytes in order. */
  method ComputeCrc(data: seq<Byte>) returns (r: bv32)
    ensures r == Checksum(data)
  {
    hide Feed;
    var crc := INITIAL;
    for i := 0 to |data|
      invariant crc == FeedAll(INITIAL, data[..i])
    {
      FeedAllStep(INITIAL, data[..i + 1]);
      assert data[..i + 1][..i] == data[..i];
      crc := FeedByte(crc, data[i]);
    }
    assert data[..|data|] == data;
    r := !crc;
  }

  lemma TurnInjective(x: bv32, y: bv32)
    requires Turn(x) == Turn(y)
    ensures x == y
  {
  }

  lemma Turn8Injective(x: bv32, y: bv32)
    requires Turn8(x) == Turn8(y)
    ensures x == y
  {
    hide Turn;
    TurnsInjective(x, y, 8);
  }

  lemma {:induction false} TurnsInjective(x: bv32, y: bv32, n: nat)
    requires n <= 8 && (Turns(x, n) == Turns(y, n) || (n == 8 && Turn8(x) == Turn8(y)))
    ensures x == y
    decreases n
  {
    hide Turn;
    if n == 8 {
      TurnsIsTurn8(x);
      TurnsIsTurn8(y);
    }
    hide Turn8;
    if n > 0 {
      TurnInjective(Turns(x, n - 1), Turns(y, n - 1));
      TurnsInjective(x, y, n - 1);
    }
  }

  lemma XorOfByte(crc: bv32, b: Byte)
    ensures crc ^ (b as bv32) == Xor(crc, Placed(b, 0))
  {
  }

  lemma XorCancels(p: bv32, q: bv32, b: bv32)
    requires Xor(p, b) == Xor(q, b) || Xor(b, p) == Xor(b, q)
    ensures p == q
  {
  }

  lemma XorAssociates(a: bv32, b: bv32, c: bv32)
    ensures Xor(Xor(a, b), c) == Xor(a, Xor(b, c))
  {
  }

  lemma FeedInjective(p: bv32, q: bv32, b: Byte)
    requires Feed(p, b) == Feed(q, b)
    ensures p == q
  {
    hide Turn8, Xor, Placed;
    Turn8Injective(Xor(p, Placed(b, 0)), Xor(q, Placed(b, 0)));
    XorCancels(p, q, Placed(b, 0));
  }

  /** Once two registers differ, the same bytes never bring them together again. */
  lemma {:induction false} FeedAllInjective(x: bv32, y: bv32, data: seq<Byte>)
    requires FeedAll(x, data) == FeedAll(y, data)
    ensures x == y
  {
    hide Feed;
    if data != [] {
      var n := |data| - 1;
      FeedInjective(FeedAll(x, data[..n]), FeedAll(y, data[..n]), data[n]);
      FeedAllInjective(x, y, data[..n]);
    }
  }

  lemma {:induction false} FeedAllSplits(crc: bv32, a: seq<Byte>, b: seq<Byte>)
    ensures FeedAll(crc, a + b) == FeedAll(FeedAll(crc, a), b)
  {
    hide Feed;
    if b == [] {
      assert a + b == a;
    } else {
      var n := |b| - 1;
      assert (a + b)[..|a + b| - 1] == a + b[..n];
      FeedAllSplits(crc, a, b[..n]);
    }
  }

  function Up1(c: bv32): bv32 { c << 1 }

  function Up8(c: bv32): bv32 { c << 8 }

  predicate TopBitClear(c: bv32) { c & 0x8000_0000 == 0 }

  predicate TopByteClear(c: bv32) { c & 0xFF00_0000 == 0 }

  /** A word whose top bit is clear may be added before a turn instead of after it. */
  lemma Absorb(x: bv32, c: bv32)
    requires TopBitClear(c)
    ensures Xor(Turn(x), c) == Turn(Xor(x, Up1(c)))
  {
    HalfOfSum(x, Up1(c));
    HalfOfUp(c);
    UpIsEven(x, c);
    hide Half, Up1, Xor, Odd, Fold, TopBitClear;
    XorAssociates(Half(x), Fold(x), c);
    XorAssociates(Half(x), c, Fold(x));
    XorCommutes(Fold(x), c);
  }

  lemma HalfOfSum(x: bv32, y: bv32)
    ensures Half(Xor(x, y)) == Xor(Half(x), Half(y))
  {
  }

  lemma HalfOfUp(c: bv32)
    requires TopBitClear(c)
    ensures Half(Up1(c)) == c
  {
  }

  lemma UpIsEven(x: bv32, c: bv32)
    ensures Fold(Xor(x, Up1(c))) == Fold(x)
  {
    assert Odd(Xor(x, Up1(c))) == Odd(x);
    hide Odd, Up1, Xor;
  }

  lemma XorCommutes(a: bv32, b: bv32)
    ensures Xor(a, b) == Xor(b, a)
  {
  }

  lemma EightUps(c: bv32)
    requires TopByteClear(c)
    ensures var c1 := Up1(c);
            var c2 := Up1(c1);
            var c3 := Up1(c2);
            var c4 := Up1(c3);
            var c5 := Up1(c4);
            var c6 := Up1(c5);
            var c7 := Up1(c6);
            && TopBitClear(c) && TopBitClear(c1) && TopBitClear(c2) && TopBitClear(c3) && TopBitClear(c4)
            && TopBitClear(c5) && TopBitClear(c6) && TopBitClear(c7) && Up1(c7) == Up8(c)
  {
  }

  /** Adding a word with a clear top byte after eight turns is adding it a byte higher before them. */
  lemma Absorb8(x: bv32, c: bv32)
    requires TopByteClear(c)
    ensures Xor(Turn8(x), c) == Turn8(Xor(x, Up8(c)))
  {
    hide Turn, Xor, Up1, Up8, TopBitClear, TopByteClear;
    EightUps(c);
    var x1 := Turn(x);
    var x2 := Turn(x1);
    var x3 := Turn(x2);
    var x4 := Turn(x3);
    var x5 := Turn(x4);
    var x6 := Turn(x5);
    var x7 := Turn(x6);
    var c1 := Up1(c);
    var c2 := Up1(c1);
    var c3 := Up1(c2);
    var c4 := Up1(c3);
    var c5 := Up1(c4);
    var c6 := Up1(c5);
    var c7 := Up1(c6);
    Absorb(x7, c);
    Absorb(x6, c1);
    Absorb(x5, c2);
    Absorb(x4, c3);
    Absorb(x3, c4);
    Absorb(x2, c5);
    Absorb(x1, c6);
    Absorb(x, c7);
  }

  /** `to_le_bytes`. */
  function LeBytes(w: bv32): (b: seq<Byte>)
    ensures |b| == 4
  {
    [(w & 0xFF) as Byte, ((w >> 8) & 0xFF) as Byte, ((w >> 16) & 0xFF) as Byte, ((w >> 24) & 0xFF) as Byte]
  }

  lemma WordOfBytes(w: bv32)
    ensures Word(LeBytes(w)[0], LeBytes(w)[1], LeBytes(w)[2], LeBytes(w)[3]) == w
  {
  }

  /** Four bytes as one little-endian word. */
  function Word(b0: Byte, b1: Byte, b2: Byte, b3: Byte): bv32 {
    Xor(Xor(Xor(Placed(b0, 0), Placed(b1, 1)), Placed(b2, 2)), Placed(b3, 3))
  }

  lemma WordInjective(a0: Byte, a1: Byte, a2: Byte, a3: Byte, b0: Byte, b1: Byte, b2: Byte, b3: Byte)
    requires Word(a0, a1, a2, a3) == Word(b0, b1, b2, b3)
    ensures a0 == b0 && a1 == b1 && a2 == b2 && a3 == b3
  {
    BytesOfWord(a0, a1, a2, a3);
    BytesOfWord(b0, b1, b2, b3);
    hide Word;
  }

  lemma BytesOfWord(b0: Byte, b1: Byte, b2: Byte, b3: Byte)
    ensures LeBytes(Word(b0, b1, b2, b3)) == [b0, b1, b2, b3]
  {
  }

  lemma PlacedMovesUp(b: Byte, k: nat)
    requires k < 3
    ensures TopByteClear(Placed(b, k)) && Up8(Placed(b, k)) == Placed(b, k + 1)
  {
  }

  /** Four byte updates act as one 32-bit word. */
  lemma FourBytesAreAWord(r: bv32, b0: Byte, b1: Byte, b2: Byte, b3: Byte)
    ensures Feed(Feed(Feed(Feed(r, b0), b1), b2), b3) == Turn32(Xor(r, Word(b0, b1, b2, b3)))
  {
    PlacedMovesUp(b1, 0);
    PlacedMovesUp(b2, 0);
    PlacedMovesUp(b2, 1);
    PlacedMovesUp(b3, 0);
    PlacedMovesUp(b3, 1);
    PlacedMovesUp(b3, 2);
    hide Turn8, Xor, Placed, Up8, TopByteClear;
    var x0 := Xor(r, Placed(b0, 0));
    var x1 := Xor(x0, Placed(b1, 1));
    var x2 := Xor(x1, Placed(b2, 2));
    Absorb8(x0, Placed(b1, 0));
    Absorb8(Turn8(x1), Placed(b2, 0));
    Absorb8(x1, Placed(b2, 1));
    Absorb8(Turn8(Turn8(x2)), Placed(b3, 0));
    Absorb8(Turn8(x2), Placed(b3, 1));
    Absorb8(x2, Placed(b3, 2));
    XorAssociates(r, Placed(b0, 0), Placed(b1, 1));
    XorAssociates(r, Xor(Placed(b0, 0), Placed(b1, 1)), Placed(b2, 2));
    XorAssociates(r, Xor(Xor(Placed(b0, 0), Placed(b1, 1)), Placed(b2, 2)), Placed(b3, 3));
  }

  lemma Turn32Injective(x: bv32, y: bv32)
    requires Turn32(x) == Turn32(y)
    ensures x == y
  {
    hide Turn8;
    Turn8Injective(Turn8(Turn8(Turn8(x))), Turn8(Turn8(Turn8(y))));
    Turn8Injective(Turn8(Turn8(x)), Turn8(Turn8(y)));
    Turn8Injective(Turn8(x), Turn8(y));
    Turn8Injective(x, y);
  }

  lemma FeedFour(r: bv32, b: seq<Byte>)
    requires |b| == 4
    ensures FeedAll(r, b) == Turn32(Xor(r, Word(b[0], b[1], b[2], b[3])))
  {
    FourBytesAreAWord(r, b[0], b[1], b[2], b[3]);
    hide Feed, FeedAll, Turn32, Word, Xor;
    assert b[..3][..2] == b[..2] && b[..2][..1] == b[..1] && b[..1][..0] == [];
    FeedAllStep(r, b[..1]);
    FeedAllStep(r, b[..2]);
    FeedAllStep(r, b[..3]);
    FeedAllStep(r, b);
  }

  lemma ResidueValue()
    ensures Turn32(0xFFFF_FFFF) == RESIDUE
  {
    assert Turn8(0xFFFF_FFFF) == 0x2DFD_1072;
    assert Turn8(0x2DFD_1072) == 0xBE26_ED00;
    assert Turn8(0xBE26_ED00) == 0x00BE_26ED;
    assert Turn8(0x00BE_26ED) == RESIDUE;
  }

  /** Nothing has the checksum 0, and a zero byte put before any bytes shows. */
  lemma LeadingZeroShows(data: seq<Byte>)
    ensures Checksum([]) == 0
    ensures Checksum([0] + data) != Checksum(data)
  {
    assert Complement(0xFFFF_FFFF) == 0;
    ZeroByte();
    hide Feed, Complement;
    FeedAllStep(INITIAL, []);
    FeedAllStep(INITIAL, [0]);
    assert [0 as Byte][..0] == [];
    FeedAllSplits(INITIAL, [0], data);
    if FeedAll(INITIAL, [0] + data) == FeedAll(INITIAL, data) {
      FeedAllInjective(Feed(INITIAL, 0), INITIAL, data);
    }
    ComplementInjective(FeedAll(INITIAL, [0] + data), FeedAll(INITIAL, data));
  }

  lemma ComplementInjective(x: bv32, y: bv32)
    ensures Complement(x) == Complement(y) ==> x == y
  {
  }

  lemma ZeroByte()
    ensures Feed(0xFFFF_FFFF, 0) == 0x2DFD_1072
  {
    assert Xor(0xFFFF_FFFF, Placed(0, 0)) == 0xFFFF_FFFF;
    assert Turn8(0xFFFF_FFFF) == 0x2DFD_1072;
    hide Turn8, Xor, Placed;
  }

  lemma FirstDigits()
    ensures Feed(0xFFFF_FFFF, 0x31) == 0x7C23_1048
    ensures Feed(0x7C23_1048, 0x32) == 0xB0AC_BB32
    ensures Feed(0xB0AC_BB32, 0x33) == 0x77B7_9C2D
  {
  }

  lemma MiddleDigits()
    ensures Feed(0x77B7_9C2D, 0x34) == 0x641C_1F5C
    ensures Feed(0x641C_1F5C, 0x35) == 0x340A_C5E3
    ensures Feed(0x340A_C5E3, 0x36) == 0xF68D_2C9E
  {
  }

  lemma LastDigits()
    ensures Feed(0xF68D_2C9E, 0x37) == 0xAFFC_9660
    ensures Feed(0xAFFC_9660, 0x38) == 0x651F_2550
    ensures Feed(0x651F_2550, 0x39) == 0x340B_C6D9
  {
  }

  /** The check value of this checksum: that of the nine digits. */
  lemma CheckValue()
    ensures Checksum([0x31, 0x32, 0x33, 0x34, 0x35, 0x36, 0x37, 0x38, 0x39]) == 0xCBF4_3926
  {
    hide Feed, Complement, FeedAll;
    var d: seq<Byte> := [0x31, 0x32, 0x33, 0x34, 0x35, 0x36, 0x37, 0x38, 0x39];
    FirstDigits();
    MiddleDigits();
    LastDigits();
    FeedAllStep(INITIAL, []);
    Prefix(d, 0);
    Prefix(d, 1);
    Prefix(d, 2);
    Prefix(d, 3);
    Prefix(d, 4);
    Prefix(d, 5);
    Prefix(d, 6);
    Prefix(d, 7);
    Prefix(d, 8);
    assert d[..0] == [] && d[..9] == d;
    LastComplement();
  }

  lemma LastComplement()
    ensures Complement(0x340B_C6D9) == 0xCBF4_3926
  {
  }

  lemma Prefix(d: seq<Byte>, n: nat)
    requires n < |d|
    ensures FeedAll(INITIAL, d[..n + 1]) == Feed(FeedAll(INITIAL, d[..n]), d[n])
  {
    hide Feed;
    assert d[..n + 1][..n] == d[..n];
  }
}

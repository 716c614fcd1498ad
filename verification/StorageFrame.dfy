/** The versioned, checksummed frame both flash records use (storage_frame.rs:69-159). */
module StorageFrame {
  import opened Base
  import opened Crc32

  const FRAME_OVERHEAD := 11
  const HEADER_LEN := 7

  datatype CodecError = BufferFull | BadLength | BadMagic | BadVersion | BadCrc | BadPayload

  datatype FrameProgress = NeedMore | BadHeader | Total(length: nat)

  /** `(n as u16).to_le_bytes()` */
  function LengthBytes(n: nat): (b: seq<Byte>)
    requires n <= U16_MAX
    ensures |b| == 2
  {
    [ByteOf(n % 256), ByteOf(n / 256)]
  }

  function ByteOf(n: nat): Byte
    requires n < 256
  {
    n as Byte
  }

  function ValueOf(b: Byte): (n: nat)
    ensures n < 256
  {
    b as nat
  }

  function LengthOf(lo: Byte, hi: Byte): (n: nat)
    ensures n <= U16_MAX
  {
    ValueOf(lo) + 256 * ValueOf(hi)
  }

  function Header(magic: bv32, version: Byte, payloadLen: nat): (h: seq<Byte>)
    requires payloadLen <= U16_MAX
    ensures |h| == HEADER_LEN
  {
    LeBytes(magic) + [version] + LengthBytes(payloadLen)
  }

  /** A body followed by its own checksum. */
  function Sealed(body: seq<Byte>): (f: seq<Byte>)
    ensures |f| == |body| + 4
  {
    body + LeBytes(Checksum(body))
  }

  /** The frame of a payload whose length was declared as `declared`. */
  function FrameOf(magic: bv32, version: Byte, declared: nat, payload: seq<Byte>): (f: seq<Byte>)
    requires declared <= U16_MAX
    ensures |f| == FRAME_OVERHEAD + |payload|
  {
    Sealed(Header(magic, version, declared) + payload)
  }

  /** `push_slice` into a buffer of fixed capacity. */
  method PushSlice(out: seq<Byte>, bytes: seq<Byte>, capacity: nat) returns (r: Result<seq<Byte>, CodecError>)
    ensures r == if |out| + |bytes| <= capacity then Ok(out + bytes) else Err(BufferFull)
  {
    if |out| + |bytes| > capacity {
      return Err(BufferFull);
    }
    r := Ok(out + bytes);
  }

  /** `frame`: header, payload, checksum, in order. The declared length is checked before anything is written. */
  method WriteFrame(magic: bv32, version: Byte, declared: nat, payload: seq<Byte>, capacity: nat)
    returns (r: Result<seq<Byte>, CodecError>)
    ensures r == if declared > U16_MAX then Err(BadLength)
                 else if FRAME_OVERHEAD + |payload| > capacity then Err(BufferFull)
                 else Ok(FrameOf(magic, version, declared, payload))
  {
    if declared > U16_MAX {
      return Err(BadLength);
    }
    r := PushSlice([], LeBytes(magic), capacity);
    if r.Err? { return r; }
    r := PushSlice(r.value, [version], capacity);
    if r.Err? { return r; }
    r := PushSlice(r.value, LengthBytes(declared), capacity);
    if r.Err? { return r; }
    assert r.value == Header(magic, version, declared);
    r := PushSlice(r.value, payload, capacity);
    if r.Err? { return r; }
    var crc := ComputeCrc(r.value);
    r := PushSlice(r.value, LeBytes(crc), capacity);
  }

  function WordAt(f: seq<Byte>, i: nat): bv32
    requires i + 4 <= |f|
  {
    Word(f[i], f[i + 1], f[i + 2], f[i + 3])
  }

  /** `unframe`. */
  function Unframe(magic: bv32, version: Byte, f: seq<Byte>): Result<seq<Byte>, CodecError> {
    if |f| < FRAME_OVERHEAD then Err(BadLength)
    else if WordAt(f, 0) != magic then Err(BadMagic)
    else if f[4] != version then Err(BadVersion)
    else
      var payloadEnd := HEADER_LEN + LengthOf(f[5], f[6]);
      if |f| != payloadEnd + 4 then Err(BadLength)
      else if Checksum(f[..payloadEnd]) != WordAt(f, payloadEnd) then Err(BadCrc)
      else Ok(f[HEADER_LEN..payloadEnd])
  }

  /** `frame_progress`. */
  function Progress(magic: bv32, version: Byte, maxLen: nat, buf: seq<Byte>): FrameProgress {
    if |buf| < HEADER_LEN then NeedMore
    else if WordAt(buf, 0) != magic || buf[4] != version then BadHeader
    else
      var total := HEADER_LEN + LengthOf(buf[5], buf[6]) + 4;
      if total > maxLen then BadHeader else Total(total)
  }

  lemma LengthRoundTrips(n: nat)
    requires n <= U16_MAX
    ensures LengthOf(LengthBytes(n)[0], LengthBytes(n)[1]) == n
  {
    hide ByteOf, ValueOf;
    ByteOfSmall(n % 256);
    ByteOfSmall(n / 256);
  }

  lemma ValueOfNext(b: Byte)
    requires b != 0xFF
    ensures ValueOf(b + 1) == ValueOf(b) + 1
  {
  }

  lemma {:induction false} ByteOfSmall(n: nat)
    requires n < 256
    ensures ValueOf(ByteOf(n)) == n
  {
    ByteOfValue(0);
    ByteOfValue(0xFF);
    hide ByteOf;
    if n > 0 {
      ByteOfSmall(n - 1);
      var b := ByteOf(n - 1);
      hide ValueOf;
      ValueOfNext(b);
      ByteOfValue(b + 1);
    }
  }

  /** A length is written with its lower byte first. */
  lemma LengthIsLittleEndian(n: nat)
    requires n <= U16_MAX
    ensures ValueOf(LengthBytes(n)[0]) == n % 256 && ValueOf(LengthBytes(n)[1]) == n / 256
  {
    hide ByteOf, ValueOf;
    ByteOfSmall(n % 256);
    ByteOfSmall(n / 256);
  }

  lemma ByteOfValue(b: Byte)
    ensures ByteOf(ValueOf(b)) == b
  {
  }

  lemma BytesOfLength(lo: Byte, hi: Byte)
    ensures LengthBytes(LengthOf(lo, hi)) == [lo, hi]
  {
    hide ByteOf, ValueOf;
    var n := LengthOf(lo, hi);
    assert n % 256 == ValueOf(lo) && n / 256 == ValueOf(hi);
    ByteOfValue(lo);
    ByteOfValue(hi);
  }

  lemma WordAtIsBytes(f: seq<Byte>, i: nat, w: bv32)
    requires i + 4 <= |f|
    ensures WordAt(f, i) == w <==> f[i..i + 4] == LeBytes(w)
  {
    BytesOfWord(f[i], f[i + 1], f[i + 2], f[i + 3]);
    WordOfBytes(w);
    hide Word, LeBytes;
    assert f[i..i + 4] == [f[i], f[i + 1], f[i + 2], f[i + 3]];
  }

  lemma AcceptedIsFramed(magic: bv32, version: Byte, f: seq<Byte>)
    requires Unframe(magic, version, f).Ok?
    ensures var payload := Unframe(magic, version, f).value;
            |payload| <= U16_MAX && f == FrameOf(magic, version, |payload|, payload)
  {
    hide Word, LeBytes, Checksum, LengthBytes, LengthOf, WordAt;
    var n := LengthOf(f[5], f[6]);
    var body, payload := f[..HEADER_LEN + n], f[HEADER_LEN..HEADER_LEN + n];
    WordAtIsBytes(f, 0, magic);
    WordAtIsBytes(f, HEADER_LEN + n, Checksum(body));
    BytesOfLength(f[5], f[6]);
    assert f[0..4] == LeBytes(magic) && [f[5], f[6]] == LengthBytes(n) && |payload| == n;
    assert body == f[0..4] + [f[4]] + [f[5], f[6]] + payload;
    assert body == Header(magic, version, n) + payload;
    assert f[HEADER_LEN + n..HEADER_LEN + n + 4] == LeBytes(Checksum(body));
    assert f == body + f[HEADER_LEN + n..HEADER_LEN + n + 4];
  }

  /** A frame is accepted, as a given payload, exactly when it is that payload's frame. */
  lemma AcceptedIffFramed(magic: bv32, version: Byte, f: seq<Byte>, payload: seq<Byte>)
    ensures Unframe(magic, version, f) == Ok(payload) <==>
            |payload| <= U16_MAX && f == FrameOf(magic, version, |payload|, payload)
  {
    hide FrameOf, Unframe;
    if |payload| <= U16_MAX && f == FrameOf(magic, version, |payload|, payload) {
      FramedIsAccepted(magic, version, payload);
    }
    if Unframe(magic, version, f) == Ok(payload) {
      AcceptedIsFramed(magic, version, f);
    }
  }

  lemma FramedIsAccepted(magic: bv32, version: Byte, payload: seq<Byte>)
    requires |payload| <= U16_MAX
    ensures Unframe(magic, version, FrameOf(magic, version, |payload|, payload)) == Ok(payload)
  {
    hide Word, LeBytes, Checksum, LengthBytes, LengthOf;
    var header := Header(magic, version, |payload|);
    var body := header + payload;
    var f := FrameOf(magic, version, |payload|, payload);
    assert f[0..4] == LeBytes(magic);
    WordAtIsBytes(f, 0, magic);
    assert f[4] == version && f[5] == LengthBytes(|payload|)[0] && f[6] == LengthBytes(|payload|)[1];
    LengthRoundTrips(|payload|);
    assert f[..|body|] == body && f[|body|..|body| + 4] == LeBytes(Checksum(body));
    WordAtIsBytes(f, |body|, Checksum(body));
  }

  /** A payload encoder that breaks its promise about the length is caught, as a bad length rather than as the bad
      checksum the source's comment expects: the checksum of such a frame is right. */
  lemma WrongDeclaredLengthIsBadLength(magic: bv32, version: Byte, declared: nat, payload: seq<Byte>)
    requires declared <= U16_MAX && declared != |payload|
    ensures Unframe(magic, version, FrameOf(magic, version, declared, payload)) == Err(BadLength)
    ensures FeedAll(INITIAL, FrameOf(magic, version, declared, payload)) == RESIDUE
  {
    hide Word, LeBytes, Checksum, LengthBytes, LengthOf, FeedAll;
    var f := FrameOf(magic, version, declared, payload);
    assert f[0..4] == LeBytes(magic);
    WordAtIsBytes(f, 0, magic);
    assert f[4] == version && f[5] == LengthBytes(declared)[0] && f[6] == LengthBytes(declared)[1];
    LengthRoundTrips(declared);
    SealedIffResidue(f);
    assert f[..|f| - 4] == Header(magic, version, declared) + payload;
  }

  lemma ComplementFills(r: bv32)
    ensures Xor(r, Complement(r)) == 0xFFFF_FFFF
  {
  }

  /** A register takes in four bytes to the residue exactly when they are its own complement. */
  lemma ResidueIffComplement(r: bv32, w: bv32)
    ensures Turn32(Xor(r, w)) == RESIDUE <==> w == Complement(r)
  {
    ResidueValue();
    ComplementFills(r);
    hide Turn32, Xor, Complement;
    if Turn32(Xor(r, w)) == RESIDUE {
      Turn32Injective(Xor(r, w), 0xFFFF_FFFF);
      XorCancels(w, Complement(r), r);
    }
  }

  lemma ChecksumIsComplement(body: seq<Byte>)
    ensures Checksum(body) == Complement(FeedAll(INITIAL, body))
  {
    hide Complement, FeedAll;
  }

  lemma EndsWith(f: seq<Byte>, body: seq<Byte>, end: seq<Byte>)
    requires |f| >= |end| && body == f[..|f| - |end|]
    ensures f == body + end <==> f[|body|..] == end
  {
    assert f == body + f[|body|..];
    assert (body + end)[|body|..] == end;
  }

  lemma LastWordDecides(f: seq<Byte>)
    requires |f| >= 4
    ensures FeedAll(INITIAL, f) == Turn32(Xor(FeedAll(INITIAL, f[..|f| - 4]), WordAt(f, |f| - 4)))
  {
    hide Word, Turn32, Xor, FeedAll;
    var body, tail := f[..|f| - 4], f[|f| - 4..];
    assert f == body + tail;
    FeedAllSplits(INITIAL, body, tail);
    FeedFour(FeedAll(INITIAL, body), tail);
  }

  lemma SealedIffComplement(f: seq<Byte>)
    requires |f| >= 4
    ensures f == Sealed(f[..|f| - 4]) <==> WordAt(f, |f| - 4) == Complement(FeedAll(INITIAL, f[..|f| - 4]))
  {
    hide Word, LeBytes, Complement, FeedAll, Checksum, WordAt;
    var body := f[..|f| - 4];
    ChecksumIsComplement(body);
    WordAtIsBytes(f, |f| - 4, Checksum(body));
    EndsWith(f, body, LeBytes(Checksum(body)));
  }

  /** A run of bytes ends in its own checksum exactly when the register over all of it, checksum included, is one
      fixed constant. */
  lemma SealedIffResidue(f: seq<Byte>)
    requires |f| >= 4
    ensures FeedAll(INITIAL, f) == RESIDUE <==> f == Sealed(f[..|f| - 4])
  {
    hide Turn32, Xor, Complement, FeedAll, Checksum, WordAt, Sealed;
    LastWordDecides(f);
    SealedIffComplement(f);
    ResidueIffComplement(FeedAll(INITIAL, f[..|f| - 4]), WordAt(f, |f| - 4));
  }

  lemma AcceptedIsSealed(magic: bv32, version: Byte, f: seq<Byte>)
    requires Unframe(magic, version, f).Ok?
    ensures |f| >= FRAME_OVERHEAD && FeedAll(INITIAL, f) == RESIDUE
  {
    var payload := Unframe(magic, version, f).value;
    hide Checksum, FeedAll, LeBytes, Header;
    AcceptedIffFramed(magic, version, f, payload);
    var body := Header(magic, version, |payload|) + payload;
    assert f[..|f| - 4] == body;
    SealedIffResidue(f);
  }

  /** `f` and `g` agree outside the four bytes from `i`. */
  predicate SameBut(f: seq<Byte>, g: seq<Byte>, i: nat)
    requires i + 4 <= |f| == |g|
  {
    f[..i] == g[..i] && f[i + 4..] == g[i + 4..]
  }

  lemma FourBytesAreSettled(r: bv32, a: seq<Byte>, b: seq<Byte>)
    requires |a| == |b| == 4 && FeedAll(r, a) == FeedAll(r, b)
    ensures a == b
  {
    hide FeedAll, Word, Turn32, Xor;
    FeedFour(r, a);
    FeedFour(r, b);
    var x, y := Word(a[0], a[1], a[2], a[3]), Word(b[0], b[1], b[2], b[3]);
    Turn32Injective(Xor(r, x), Xor(r, y));
    XorCancels(x, y, r);
    WordInjective(a[0], a[1], a[2], a[3], b[0], b[1], b[2], b[3]);
  }

  /** Two runs with the same residue that agree outside four consecutive bytes are the same. */
  lemma BurstChangesResidue(f: seq<Byte>, g: seq<Byte>, i: nat)
    requires i + 4 <= |f| == |g| && SameBut(f, g, i)
    requires FeedAll(INITIAL, f) == FeedAll(INITIAL, g)
    ensures f == g
  {
    hide FeedAll;
    var r := FeedAll(INITIAL, f[..i]);
    var a, b, rest := f[i..i + 4], g[i..i + 4], f[i + 4..];
    assert f == f[..i] + (a + rest) && g == f[..i] + (b + rest);
    FeedAllSplits(INITIAL, f[..i], a + rest);
    FeedAllSplits(INITIAL, f[..i], b + rest);
    FeedAllSplits(r, a, rest);
    FeedAllSplits(r, b, rest);
    FeedAllInjective(FeedAll(r, a), FeedAll(r, b), rest);
    FourBytesAreSettled(r, a, b);
  }

  /** Any corruption of a valid frame that keeps its length and is confined to four consecutive bytes, anywhere in
      the frame, is rejected, whatever magic and version the reader expects. */
  lemma BurstsAreRejected(magic: bv32, version: Byte, f: seq<Byte>, g: seq<Byte>, i: nat, magic': bv32, version': Byte)
    requires Unframe(magic, version, f).Ok?
    requires i + 4 <= |f| == |g| && SameBut(f, g, i) && g != f
    ensures Unframe(magic', version', g).Err?
  {
    hide FeedAll, Unframe;
    AcceptedIsSealed(magic, version, f);
    if Unframe(magic', version', g).Ok? {
      AcceptedIsSealed(magic', version', g);
      BurstChangesResidue(f, g, i);
    }
  }
}

/** The reassembly of a framed record from hex chunks (settings.rs:1442-1501). */
module PbReceiver {
  import opened Base
  import opened Crc32
  import opened StorageFrame
  import opened HexCodec

  /** What a receiver expects; `parse` stands for the payload decoder. */
  datatype Record<!T> = Record(magic: bv32, version: Byte, maxLen: nat, parse: seq<Byte> -> Option<T>)

  datatype ChunkResult<+T> = NeedMore | Complete(value: T) | Error

  /** `wire::decode`. */
  function Decode<T>(rec: Record<T>, f: seq<Byte>): Result<T, CodecError> {
    var payload := Unframe(rec.magic, rec.version, f);
    if payload.Err? then Err(payload.error)
    else
      var value := rec.parse(payload.value);
      if value.Some? then Ok(value.value) else Err(BadPayload)
  }

  function ProgressOf<T>(rec: Record<T>, buf: seq<Byte>): FrameProgress {
    Progress(rec.magic, rec.version, rec.maxLen, buf)
  }

  /** Judging the buffer after a chunk was appended: what it becomes, and the answer. */
  function Judge<T>(rec: Record<T>, buf: seq<Byte>): (seq<Byte>, ChunkResult<T>) {
    var progress := ProgressOf(rec, buf);
    if progress.NeedMore? then (buf, ChunkResult.NeedMore)
    else if progress.BadHeader? then ([], Error)
    else if |buf| < progress.length then (buf, ChunkResult.NeedMore)
    else if |buf| > progress.length then ([], Error)
    else
      var value := Decode(rec, buf);
      ([], if value.Ok? then Complete(value.value) else Error)
  }

  /** One chunk. */
  function Accept<T>(rec: Record<T>, buf: seq<Byte>, hex: Text): (seq<Byte>, ChunkResult<T>) {
    var bytes := HexBytes(hex);
    if bytes.None? || |buf| + |bytes.value| > rec.maxLen then ([], Error)
    else Judge(rec, buf + bytes.value)
  }

  /** Less than a header, or a strict front of a frame whose header is good. */
  predicate Partial<T>(rec: Record<T>, buf: seq<Byte>) {
    && |buf| <= rec.maxLen
    && var progress := ProgressOf(rec, buf);
       progress == FrameProgress.NeedMore || (progress.Total? && |buf| < progress.length)
  }

  class Receiver<T> {
    const rec: Record<T>
    var buf: seq<Byte>

    ghost predicate Valid() reads this { Partial(rec, buf) }

    constructor (rec: Record<T>)
      ensures this.rec == rec && buf == [] && Valid()
    {
      this.rec := rec;
      buf := [];
    }

    method Reset()
      modifies this
      ensures buf == [] && Valid()
    {
      buf := [];
    }

    /** `accept_hex`. */
    method AcceptHex(hex: Text) returns (r: ChunkResult<T>)
      requires Valid()
      modifies this
      ensures (buf, r) == Accept(rec, old(buf), hex) && Valid()
    {
      BufferStaysPartial(rec, buf, hex);
      hide Partial, HexBytes, Decode;
      assert |buf| <= rec.maxLen by { PartialFits(rec, buf); }
      var ok, out := DecodeHex(hex, buf, rec.maxLen);
      buf := out;
      if !ok {
        buf := [];
        return Error;
      }
      var progress := Progress(rec.magic, rec.version, rec.maxLen, buf);
      match progress {
        case NeedMore =>
          r := ChunkResult.NeedMore;
        case BadHeader =>
          buf := [];
          r := Error;
        case Total(total) =>
          if |buf| < total {
            r := ChunkResult.NeedMore;
          } else {
            var result := if |buf| == total then Decode(rec, buf) else Err(BadLength);
            buf := [];
            r := match result case Ok(value) => Complete(value) case Err(_) => Error;
          }
      }
    }
  }

  lemma PartialFits<T>(rec: Record<T>, buf: seq<Byte>)
    requires Partial(rec, buf)
    ensures |buf| <= rec.maxLen
  {
  }

  /** Whatever arrives, what is kept is a partial frame, and an answer other than "need more" keeps nothing. */
  lemma BufferStaysPartial<T>(rec: Record<T>, buf: seq<Byte>, hex: Text)
    ensures var (after, r) := Accept(rec, buf, hex);
            Partial(rec, after) && (r != ChunkResult.NeedMore ==> after == [])
  {
    hide HexBytes;
  }

  /** The kept buffers are exactly the partial frames: each can also be reached. */
  lemma EveryPartialIsReached<T>(rec: Record<T>, buf: seq<Byte>)
    ensures Accept(rec, [], HexOf(buf)) == (buf, ChunkResult.NeedMore) <==> Partial(rec, buf)
  {
    HexRoundTrips(buf);
    hide HexBytes, HexOf;
    assert [] + buf == buf;
  }

  /** A chunk completes a record exactly when it brings the buffer to that record's frame. */
  lemma CompletesIffFramed<T(!new)>(rec: Record<T>, buf: seq<Byte>, hex: Text, value: T)
    ensures Accept(rec, buf, hex).1 == Complete(value) <==>
            && HexBytes(hex).Some?
            && exists payload :: Delivers(rec, buf + HexBytes(hex).value, payload, value)
  {
    hide HexBytes, Delivers, Unframe;
    if HexBytes(hex).Some? {
      var f := buf + HexBytes(hex).value;
      if Accept(rec, buf, hex).1 == Complete(value) {
        DeliveryIsAccepted(rec, f, Unframe(rec.magic, rec.version, f).value, value);
      }
      forall payload | Delivers(rec, f, payload, value) ensures Accept(rec, buf, hex).1 == Complete(value) {
        DeliveryIsAccepted(rec, f, payload, value);
        AcceptedSaysItsLength(rec.magic, rec.version, rec.maxLen, f);
      }
    }
  }

  /** `f` is the frame of a payload that fits and parses to `value`. */
  ghost predicate Delivers<T(!new)>(rec: Record<T>, f: seq<Byte>, payload: seq<Byte>, value: T) {
    && |payload| <= U16_MAX && |f| <= rec.maxLen
    && f == FrameOf(rec.magic, rec.version, |payload|, payload)
    && rec.parse(payload) == Some(value)
  }

  lemma DeliveryIsAccepted<T(!new)>(rec: Record<T>, f: seq<Byte>, payload: seq<Byte>, value: T)
    ensures Delivers(rec, f, payload, value) <==>
            |f| <= rec.maxLen && Unframe(rec.magic, rec.version, f) == Ok(payload) && rec.parse(payload) == Some(value)
  {
    hide FrameOf, Unframe;
    AcceptedIffFramed(rec.magic, rec.version, f, payload);
  }

  lemma AcceptedSaysItsLength(magic: bv32, version: Byte, maxLen: nat, f: seq<Byte>)
    requires Unframe(magic, version, f).Ok? && |f| <= maxLen
    ensures Progress(magic, version, maxLen, f) == Total(|f|)
  {
    hide WordAt, Checksum, LengthOf;
  }

  /** A run of bytes whose header announces exactly that run. */
  predicate Announced<T>(rec: Record<T>, f: seq<Byte>) {
    |f| >= HEADER_LEN && |f| <= rec.maxLen && ProgressOf(rec, f) == Total(|f|)
  }

  lemma FrontIsPartial<T>(rec: Record<T>, f: seq<Byte>, n: nat)
    requires Announced(rec, f) && n < |f|
    ensures Partial(rec, f[..n])
  {
    hide LengthOf;
    if n >= HEADER_LEN {
      assert WordAt(f[..n], 0) == WordAt(f, 0);
    }
  }

  function Joined(chunks: seq<Text>): Text {
    if chunks == [] then [] else Joined(chunks[..|chunks| - 1]) + chunks[|chunks| - 1]
  }

  /** The buffer and the answers after a run of chunks. */
  function AcceptAll<T>(rec: Record<T>, buf: seq<Byte>, chunks: seq<Text>): (r: (seq<Byte>, seq<ChunkResult<T>>))
    ensures |r.1| == |chunks|
  {
    if chunks == [] then (buf, [])
    else
      var n := |chunks| - 1;
      var (before, answers) := AcceptAll(rec, buf, chunks[..n]);
      var (after, answer) := Accept(rec, before, chunks[n]);
      (after, answers + [answer])
  }

  function Waits<T>(n: nat): (r: seq<ChunkResult<T>>)
    ensures |r| == n
  {
    seq(n, (k: nat) => ChunkResult.NeedMore)
  }

  predicate WholePairs(chunks: seq<Text>) { forall k :: 0 <= k < |chunks| ==> |chunks[k]| % 2 == 0 }

  lemma {:induction false} JoinedIsEven(chunks: seq<Text>)
    requires WholePairs(chunks)
    ensures |Joined(chunks)| % 2 == 0
  {
    if chunks != [] {
      JoinedIsEven(chunks[..|chunks| - 1]);
    }
  }

  /** Until the announced run is whole, every chunk is kept and answered with "need more". */
  lemma {:induction false} ShortRunsWait<T>(rec: Record<T>, f: seq<Byte>, chunks: seq<Text>, n: nat)
    requires Announced(rec, f) && n < |f| && WholePairs(chunks)
    requires HexBytes(Joined(chunks)) == Some(f[..n])
    ensures AcceptAll(rec, [], chunks) == (f[..n], Waits(|chunks|))
  {
    hide HexBytes, Announced;
    if chunks == [] {
      assert f[..n] == [] by { EmptySpellsNothing(); }
    } else {
      var last := |chunks| - 1;
      var front := chunks[..last];
      JoinedIsEven(front);
      HexBytesSplits(Joined(front), chunks[last]);
      var (a, b) := (HexBytes(Joined(front)).value, HexBytes(chunks[last]).value);
      var m := |a|;
      assert f[..n][..m] == a && f[..n][..m] == f[..m];
      ShortRunsWait(rec, f, front, m);
      assert f[..m] + b == f[..n];
      FrontIsPartial(rec, f, n);
      assert Accept(rec, f[..m], chunks[last]) == (f[..n], ChunkResult.NeedMore);
      assert Waits<T>(|chunks|) == Waits<T>(last) + [ChunkResult.NeedMore];
    }
  }

  lemma EmptySpellsNothing()
    ensures HexBytes([]) == Some([])
  {
  }

  /** However the text of an announced run is cut between bytes, every chunk but the last is answered with "need
      more", the last with the verdict on the whole run, and nothing is kept. */
  lemma CuttingDoesNotMatter<T>(rec: Record<T>, f: seq<Byte>, chunks: seq<Text>)
    requires Announced(rec, f) && WholePairs(chunks) && HexBytes(Joined(chunks)) == Some(f)
    requires chunks != [] && chunks[|chunks| - 1] != []
    ensures AcceptAll(rec, [], chunks) ==
            ([], Waits(|chunks| - 1) +
                 [if Decode(rec, f).Ok? then Complete(Decode(rec, f).value) else Error])
  {
    var last := |chunks| - 1;
    var front := chunks[..last];
    JoinedIsEven(front);
    HexBytesSplits(Joined(front), chunks[last]);
    var (a, b) := (HexBytes(Joined(front)).value, HexBytes(chunks[last]).value);
    hide HexBytes, Decode;
    assert a == f[..|a|] && a + b == f;
    ShortRunsWait(rec, f, front, |a|);
    assert Accept(rec, a, chunks[last]) == Judge(rec, f);
  }

  /** The hex text of a frame, cut anywhere between bytes, delivers its payload. */
  lemma AnyCutDelivers<T>(rec: Record<T>, payload: seq<Byte>, chunks: seq<Text>)
    requires |payload| <= U16_MAX && FRAME_OVERHEAD + |payload| <= rec.maxLen
    requires UpperText(Joined(chunks)) == HexOf(FrameOf(rec.magic, rec.version, |payload|, payload))
    requires WholePairs(chunks) && chunks != [] && chunks[|chunks| - 1] != []
    ensures AcceptAll(rec, [], chunks) ==
            ([], Waits(|chunks| - 1) +
                 [if rec.parse(payload).Some? then Complete(rec.parse(payload).value) else Error])
  {
    var f := FrameOf(rec.magic, rec.version, |payload|, payload);
    SpellsIffHex(Joined(chunks), f);
    FramedIsAccepted(rec.magic, rec.version, payload);
    AcceptedSaysItsLength(rec.magic, rec.version, rec.maxLen, f);
    hide HexOf, FrameOf, Unframe;
    CuttingDoesNotMatter(rec, f, chunks);
  }

  /** A frame damaged within four consecutive bytes after its header is refused at its last chunk, however it was cut. */
  lemma DamagedIsRefused<T>(rec: Record<T>, f: seq<Byte>, g: seq<Byte>, i: nat, chunks: seq<Text>)
    requires Unframe(rec.magic, rec.version, f).Ok? && |f| <= rec.maxLen
    requires HEADER_LEN <= i && i + 4 <= |f| == |g| && SameBut(f, g, i) && f != g
    requires HexBytes(Joined(chunks)) == Some(g)
    requires WholePairs(chunks) && chunks != [] && chunks[|chunks| - 1] != []
    ensures AcceptAll(rec, [], chunks) == ([], Waits(|chunks| - 1) + [Error])
  {
    AcceptedSaysItsLength(rec.magic, rec.version, rec.maxLen, f);
    BurstsAreRejected(rec.magic, rec.version, f, g, i, rec.magic, rec.version);
    hide HexBytes, Unframe, LengthOf;
    forall k | 0 <= k < HEADER_LEN ensures f[k] == g[k] {
      assert f[..i][k] == g[..i][k];
    }
    assert WordAt(f, 0) == WordAt(g, 0);
    CuttingDoesNotMatter(rec, g, chunks);
  }

  /** As long as every answer is "need more", the buffer holds what the chunks spell. */
  lemma {:induction false} WaitingKeepsAll<T>(rec: Record<T>, chunks: seq<Text>)
    requires WholePairs(chunks) && AcceptAll(rec, [], chunks).1 == Waits<T>(|chunks|)
    ensures HexBytes(Joined(chunks)) == Some(AcceptAll(rec, [], chunks).0)
  {
    EmptySpellsNothing();
    if chunks != [] {
      var last := |chunks| - 1;
      var front := chunks[..last];
      var (before, answers) := AcceptAll(rec, [], front);
      var all := AcceptAll(rec, [], chunks).1;
      assert answers == all[..last] && all[last] == Accept(rec, before, chunks[last]).1;
      assert answers == Waits<T>(last);
      WaitingKeepsAll(rec, front);
      JoinedIsEven(front);
      HexBytesSplits(Joined(front), chunks[last]);
      hide HexBytes;
    }
  }

  /** A frame damaged within any four consecutive bytes, its header included, is never delivered: if the receiver waits
      through all the chunks before the last, the last does not complete. */
  lemma DamagedIsNeverDelivered<T(!new)>(rec: Record<T>, f: seq<Byte>, g: seq<Byte>, i: nat, chunks: seq<Text>)
    requires Unframe(rec.magic, rec.version, f).Ok?
    requires i + 4 <= |f| == |g| && SameBut(f, g, i) && f != g
    requires WholePairs(chunks) && chunks != [] && HexBytes(Joined(chunks)) == Some(g)
    requires AcceptAll(rec, [], chunks[..|chunks| - 1]).1 == Waits<T>(|chunks| - 1)
    ensures !AcceptAll(rec, [], chunks).1[|chunks| - 1].Complete?
  {
    BurstsAreRejected(rec.magic, rec.version, f, g, i, rec.magic, rec.version);
    hide HexBytes, Unframe, AcceptAll;
    var last := |chunks| - 1;
    var front := chunks[..last];
    WaitingKeepsAll(rec, front);
    JoinedIsEven(front);
    HexBytesSplits(Joined(front), chunks[last]);
    LastAnswer(rec, chunks);
    RejectedIsNotDelivered(rec, AcceptAll(rec, [], front).0, chunks[last]);
  }

  lemma LastAnswer<T>(rec: Record<T>, chunks: seq<Text>)
    requires chunks != []
    ensures var last := |chunks| - 1;
            AcceptAll(rec, [], chunks).1[last] == Accept(rec, AcceptAll(rec, [], chunks[..last]).0, chunks[last]).1
  {
    hide Accept;
  }

  lemma RejectedIsNotDelivered<T>(rec: Record<T>, buf: seq<Byte>, hex: Text)
    requires HexBytes(hex).Some? ==> Unframe(rec.magic, rec.version, buf + HexBytes(hex).value).Err?
    ensures !Accept(rec, buf, hex).1.Complete?
  {
    hide HexBytes, Unframe;
  }
}

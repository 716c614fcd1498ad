/** The history counters behind the stall escapes (diag.rs:27-56, 480-606). */
module Diag {
  import opened Base

  const ESCAPE_K := 3
  const WINDOW := 16

  function SaturatingNext(n: nat, max: nat): nat { if n < max then n + 1 else max }

  /** Samples that hold at the end of a history, without a gap. */
  function Run(held: seq<bool>): (n: nat)
    ensures n <= |held|
  {
    if held == [] || !held[|held| - 1] then 0 else 1 + Run(held[..|held| - 1])
  }

  predicate LastHold(held: seq<bool>, n: nat) {
    n <= |held| && forall k :: |held| - n <= k < |held| ==> held[k]
  }

  /** A run is at least n long exactly when the last n samples hold. */
  lemma {:induction false} RunCountsTheEnd(held: seq<bool>, n: nat)
    ensures Run(held) >= n <==> LastHold(held, n)
  {
    if n > 0 && held != [] {
      var front := held[..|held| - 1];
      RunCountsTheEnd(front, n - 1);
      if LastHold(front, n - 1) && held[|front|] {
        forall k | |held| - n <= k < |held| ensures held[k] {
          if k < |front| { assert front[k]; }
        }
      }
      if LastHold(held, n) {
        forall k | |front| - (n - 1) <= k < |front| ensures front[k] {
          assert held[k];
        }
      }
    }
  }

  /** One saturating count of consecutive samples follows the run of its history. */
  lemma SaturatingRun(held: seq<bool>, sample: bool, max: nat, n: nat)
    requires n == if Run(held) < max then Run(held) else max
    ensures var next := if sample then SaturatingNext(n, max) else 0;
            next == if Run(held + [sample]) < max then Run(held + [sample]) else max
  {
    assert (held + [sample])[..|held|] == held;
  }

  /** Consecutive write timeouts, with the history they count. */
  class UsbTxStallCounter {
    var consecutiveTimeouts: nat
    ghost var history: seq<bool>

    ghost predicate Valid() reads this {
      consecutiveTimeouts == if Run(history) < U16_MAX then Run(history) else U16_MAX
    }

    constructor ()
      ensures Valid() && history == []
    {
      consecutiveTimeouts := 0;
      history := [];
    }

    /** `record`: fires exactly when the last three writes all timed out. */
    method Record(timedOut: bool) returns (fire: bool)
      requires Valid()
      modifies this
      ensures Valid() && history == old(history) + [timedOut]
      ensures fire <==> LastHold(history, ESCAPE_K)
    {
      SaturatingRun(history, timedOut, U16_MAX, consecutiveTimeouts);
      if timedOut {
        consecutiveTimeouts := SaturatingNext(consecutiveTimeouts, U16_MAX);
      } else {
        consecutiveTimeouts := 0;
      }
      history := history + [timedOut];
      RunCountsTheEnd(history, ESCAPE_K);
      fire := consecutiveTimeouts >= ESCAPE_K;
    }
  }

  /** The bits of a window, oldest first. */
  function Bits(w: bv16): (b: seq<bool>)
    ensures |b| == WINDOW
  {
    [w & 0x8000 != 0, w & 0x4000 != 0, w & 0x2000 != 0, w & 0x1000 != 0,
     w & 0x0800 != 0, w & 0x0400 != 0, w & 0x0200 != 0, w & 0x0100 != 0,
     w & 0x0080 != 0, w & 0x0040 != 0, w & 0x0020 != 0, w & 0x0010 != 0,
     w & 0x0008 != 0, w & 0x0004 != 0, w & 0x0002 != 0, w & 0x0001 != 0]
  }

  function Timeouts(samples: seq<bool>): (n: nat)
    ensures n <= |samples|
  {
    if samples == [] then 0
    else Timeouts(samples[..|samples| - 1]) + (if samples[|samples| - 1] then 1 else 0)
  }

  /** `count_ones` */
  function CountOnes(w: bv16): nat { Timeouts(Bits(w)) }

  function Shifted(w: bv16, timedOut: bool): bv16 {
    ((w << 1) & 0xFFFF) | (if timedOut then 1 else 0)
  }

  /** Shifting drops the oldest sample and takes in the newest. */
  lemma ShiftSlidesTheWindow(w: bv16, timedOut: bool)
    ensures Bits(Shifted(w, timedOut)) == Bits(w)[1..] + [timedOut]
  {
  }

  /** The last sixteen samples, with a quiet past before the first. */
  function Recent(history: seq<bool>): (r: seq<bool>)
    ensures |r| == WINDOW
  {
    if |history| >= WINDOW then history[|history| - WINDOW..]
    else seq(WINDOW - |history|, (k: nat) => false) + history
  }

  lemma RecentSlides(history: seq<bool>, sample: bool)
    ensures Recent(history + [sample]) == Recent(history)[1..] + [sample]
  {
  }

  lemma {:induction false} TimeoutsAdd(a: seq<bool>, b: seq<bool>)
    ensures Timeouts(a + b) == Timeouts(a) + Timeouts(b)
  {
    if b == [] {
      assert a + b == a;
    } else {
      assert (a + b)[..|a + b| - 1] == a + b[..|b| - 1];
      TimeoutsAdd(a, b[..|b| - 1]);
    }
  }

  lemma {:induction false} AllOrNothing(samples: seq<bool>)
    ensures Timeouts(samples) == 0 <==> forall k :: 0 <= k < |samples| ==> !samples[k]
    ensures Timeouts(samples) == |samples| <==> forall k :: 0 <= k < |samples| ==> samples[k]
  {
    if samples != [] {
      var front := samples[..|samples| - 1];
      AllOrNothing(front);
      assert forall k :: 0 <= k < |front| ==> samples[k] == front[k];
    }
  }

  /** The quiet past adds nothing. */
  lemma RecentCounts(history: seq<bool>)
    ensures Timeouts(Recent(history)) ==
            Timeouts(if |history| >= WINDOW then history[|history| - WINDOW..] else history)
  {
    if |history| < WINDOW {
      var past := seq(WINDOW - |history|, (k: nat) => false);
      AllOrNothing(past);
      TimeoutsAdd(past, history);
    }
  }

  /** Timeouts within a sliding window, with the history it slides over. */
  class WindowedStallCounter {
    var window: bv16
    ghost var history: seq<bool>

    ghost predicate Valid() reads this { Bits(window) == Recent(history) }

    constructor ()
      ensures Valid() && history == []
    {
      window := 0;
      history := [];
      assert Bits(0) == Recent([]);
    }

    /** `record`: the answer is the number of timeouts among the last sixteen samples. */
    method Record(timedOut: bool) returns (count: nat)
      requires Valid()
      modifies this
      ensures Valid() && history == old(history) + [timedOut]
      ensures count == Timeouts(if |history| >= WINDOW then history[|history| - WINDOW..] else history)
    {
      ShiftSlidesTheWindow(window, timedOut);
      RecentSlides(history, timedOut);
      window := Shifted(window, timedOut);
      hide Shifted, Bits, Recent, Timeouts;
      history := history + [timedOut];
      RecentCounts(history);
      count := CountOnes(window);
    }
  }

  predicate Alternates(history: seq<bool>) {
    forall k :: 0 < k < |history| ==> history[k] != history[k - 1]
  }

  lemma {:induction false} AlternatingIsHalf(samples: seq<bool>)
    requires Alternates(samples) && |samples| % 2 == 0
    ensures Timeouts(samples) == |samples| / 2
  {
    if samples != [] {
      var n := |samples| - 2;
      var front, last := samples[..n], samples[n..];
      AlternatingIsHalf(front);
      TimeoutsAdd(front, last);
      assert samples == front + last && last[..1][..0] == [];
      assert Timeouts(last) == Timeouts(last[..1]) + (if last[1] then 1 else 0);
      assert last[1] == samples[n + 1] && last[0] == samples[n];
    }
  }

  /** The pattern the window exists for: alternating timeouts and recoveries never reach the escape, while the
      window reads exactly half. */
  lemma AlternatingIsSeenByTheWindowOnly(history: seq<bool>)
    requires Alternates(history)
    ensures !LastHold(history, ESCAPE_K)
    ensures |history| >= WINDOW ==> Timeouts(history[|history| - WINDOW..]) == WINDOW / 2
  {
    var n := |history|;
    assert n > 1 ==> history[n - 1] != history[n - 2];
    if n >= WINDOW {
      var last := history[n - WINDOW..];
      forall k | 0 < k < |last| ensures last[k] != last[k - 1] {
        assert last[k] == history[n - WINDOW + k] && last[k - 1] == history[n - WINDOW + k - 1];
      }
      AlternatingIsHalf(last);
    }
  }

  /** Whether sample k counts as frozen: it repeats the one before, or has none to compare with. */
  predicate Frozen(beats: seq<nat>, k: nat)
    requires k < |beats|
  {
    beats[k] != 0 && (k == 0 || beats[k - 1] == U32_MAX || beats[k] == beats[k - 1])
  }

  function FrozenAt(beats: seq<nat>): (f: seq<bool>)
    ensures |f| == |beats| && forall k :: 0 <= k < |f| ==> f[k] == Frozen(beats, k)
  {
    seq(|beats|, (k: nat) requires k < |beats| => Frozen(beats, k))
  }

  lemma FrozenAppends(beats: seq<nat>, alive: nat)
    ensures FrozenAt(beats + [alive]) == FrozenAt(beats) + [Frozen(beats + [alive], |beats|)]
  {
  }

  lemma TicksFollow(beats: seq<nat>, alive: nat, n: nat, stallTicks: nat)
    requires stallTicks <= U32_MAX
    requires n == if Run(FrozenAt(beats)) < U32_MAX then Run(FrozenAt(beats)) else U32_MAX
    ensures var now := beats + [alive];
            var run := Run(FrozenAt(now));
            var next := if Frozen(now, |beats|) then SaturatingNext(n, U32_MAX) else 0;
            && next == (if run < U32_MAX then run else U32_MAX)
            && (next >= stallTicks <==> LastHold(FrozenAt(now), stallTicks))
  {
    FrozenAppends(beats, alive);
    SaturatingRun(FrozenAt(beats), Frozen(beats + [alive], |beats|), U32_MAX, n);
    RunCountsTheEnd(FrozenAt(beats + [alive]), stallTicks);
    hide FrozenAt, Run, LastHold, SaturatingNext;
  }

  datatype FreezeSample = FreezeSample(frozen: bool, frozenTicks: nat, crossed: bool)

  /** Consecutive samples of a heartbeat that did not move, with the samples seen. */
  class ExecutorFreezeTracker {
    var last: nat
    var frozenTicks: nat
    ghost var beats: seq<nat>

    ghost predicate Valid() reads this {
      && last == (if beats == [] then U32_MAX else beats[|beats| - 1])
      && var run := Run(FrozenAt(beats));
         frozenTicks == if run < U32_MAX then run else U32_MAX
    }

    constructor ()
      ensures Valid() && beats == []
    {
      last := U32_MAX;
      frozenTicks := 0;
      beats := [];
    }

    /** `observe`: crosses exactly when the last `stallTicks` samples were all frozen. */
    method Observe(alive: nat, stallTicks: nat) returns (r: FreezeSample)
      requires Valid() && alive <= U32_MAX && stallTicks <= U32_MAX
      modifies this
      ensures Valid() && beats == old(beats) + [alive]
      ensures r.frozen == Frozen(beats, |beats| - 1) && r.frozenTicks == frozenTicks
      ensures r.crossed <==> stallTicks > 0 && LastHold(FrozenAt(beats), stallTicks)
    {
      var seeded := if last == U32_MAX then alive else last;
      last := alive;
      var frozen := alive != 0 && alive == seeded;
      TicksFollow(beats, alive, frozenTicks, stallTicks);
      hide FrozenAt, Run, LastHold, SaturatingNext;
      frozenTicks := if frozen then SaturatingNext(frozenTicks, U32_MAX) else 0;
      beats := beats + [alive];
      var crossed := stallTicks > 0 && frozenTicks >= stallTicks;
      r := FreezeSample(frozen, frozenTicks, crossed);
    }
  }

  /** While no sample is the sentinel, n frozen samples in a row are one nonzero beat, seen n times by a tracker that
      had seen nothing else, or n + 1 times. */
  lemma FrozenRunIsOneBeat(beats: seq<nat>, n: nat)
    requires 0 < n <= |beats| && forall k :: 0 <= k < |beats| ==> beats[k] < U32_MAX
    ensures LastHold(FrozenAt(beats), n) <==>
            var beat, seen := beats[|beats| - 1], if n < |beats| then n + 1 else n;
            beat != 0 && forall k :: |beats| - seen <= k < |beats| ==> beats[k] == beat
  {
    if LastHold(FrozenAt(beats), n) {
      EqualBackwards(beats, n);
    }
  }

  lemma {:induction false} EqualBackwards(beats: seq<nat>, n: nat)
    requires 0 < n <= |beats| && LastHold(FrozenAt(beats), n)
    requires forall k :: 0 <= k < |beats| ==> beats[k] < U32_MAX
    ensures var seen := if n < |beats| then n + 1 else n;
            forall k :: |beats| - seen <= k < |beats| ==> beats[k] == beats[|beats| - 1]
    ensures beats[|beats| - 1] != 0
  {
    assert Frozen(beats, |beats| - n);
    if n > 1 {
      EqualBackwards(beats, n - 1);
    }
  }
}

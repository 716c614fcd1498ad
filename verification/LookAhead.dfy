/** The planner's reverse and forward passes over squared entry speeds, as functions of the queue, and the
    sense in which their result is the best possible (planner.rs:1189-1247). */
module LookAhead {
  import opened Base
  import opened Blocks

  /** What the passes read of a block: the cap on its entry, and how far its travel can change the speed. */
  datatype Span = Span(cap: real, reach: real)

  function Spans(q: seq<Block>): (s: seq<Span>)
    ensures |s| == |q|
  {
    seq(|q|, i requires 0 <= i < |q| => Span(q[i].maxEntrySq, q[i].Reach()))
  }

  function Entries(q: seq<Block>): (p: seq<real>)
    ensures |p| == |q|
  {
    seq(|q|, i requires 0 <= i < |q| => q[i].entrySq)
  }

  function WithEntries(q: seq<Block>, p: seq<real>): (r: seq<Block>)
    requires |p| == |q|
    ensures |r| == |q|
  {
    seq(|q|, i requires 0 <= i < |q| => q[i].(entrySq := p[i]))
  }

  /** Entry speed the reverse pass gives block `i`; the exit of the newest block is a stop. A committed head
      keeps the entry the executor has already read. */
  function Backward(s: seq<Span>, committed: Option<real>, i: nat): real
    requires i <= |s|
    decreases |s| - i
  {
    if i == |s| then 0.0
    else if committed.Some? && i == 0 then committed.value
    else MinR(s[i].cap, Backward(s, committed, i + 1) + s[i].reach)
  }

  function BackwardAll(s: seq<Span>, committed: Option<real>): (b: seq<real>)
    ensures |b| == |s|
  {
    seq(|s|, i requires 0 <= i < |s| => Backward(s, committed, i))
  }

  /** Entry speed the forward pass leaves block `i`, given the entries `b` it starts from. */
  function Forward(s: seq<Span>, b: seq<real>, i: nat): real
    requires |b| == |s| && i < |s|
  {
    if i == 0 then b[0] else MinR(b[i], Forward(s, b, i - 1) + s[i - 1].reach)
  }

  function ForwardAll(s: seq<Span>, b: seq<real>): (p: seq<real>)
    requires |b| == |s|
    ensures |p| == |s|
  {
    seq(|s|, i requires 0 <= i < |s| => Forward(s, b, i))
  }

  /** The speeds `Planner::recalculate` assigns. */
  function Plan(s: seq<Span>, committed: Option<real>): (p: seq<real>)
    ensures |p| == |s|
  {
    ForwardAll(s, BackwardAll(s, committed))
  }

  function Committed(q: seq<Block>, busy: bool): Option<real> {
    if busy && |q| > 0 then Some(q[0].entrySq) else None
  }

  /** `Planner::recalculate` on a queue. */
  function Replanned(q: seq<Block>, busy: bool): (r: seq<Block>)
    ensures |r| == |q|
  {
    WithEntries(q, Plan(Spans(q), Committed(q, busy)))
  }

  /** Entry of block `i` of `b`, or a stop past the newest. */
  function EntryOrStop(b: seq<real>, i: nat): real
    requires i <= |b|
  {
    if i == |b| then 0.0 else b[i]
  }

  lemma {:induction false} BackwardUnique(s: seq<Span>, committed: Option<real>, b: seq<real>, i: nat)
    requires |b| == |s| && i <= |s|
    requires forall k :: i <= k < |s| ==>
               b[k] == if committed.Some? && k == 0 then committed.value
                       else MinR(s[k].cap, EntryOrStop(b, k + 1) + s[k].reach)
    ensures EntryOrStop(b, i) == Backward(s, committed, i)
    decreases |s| - i
  {
    if i < |s| {
      BackwardUnique(s, committed, b, i + 1);
    }
  }

  /** Block `k` of `r` is block `k` of `q` after an in-place reverse pass. */
  predicate ReversedAt(q: seq<Block>, r: seq<Block>, busy: bool, k: nat)
    requires |r| == |q| && k < |q|
  {
    r[k] == if busy && k == 0 then q[0]
            else q[k].(entrySq := MinR(q[k].maxEntrySq, EntryOfNext(r, k) + q[k].Reach()))
  }

  function EntryOfNext(r: seq<Block>, k: nat): real
    requires k < |r|
  {
    if k + 1 < |r| then r[k + 1].entrySq else 0.0
  }

  lemma ReverseInPlace(q: seq<Block>, busy: bool, r: seq<Block>)
    requires |r| == |q| && forall k: nat :: k < |q| ==> ReversedAt(q, r, busy, k)
    ensures r == WithEntries(q, BackwardAll(Spans(q), Committed(q, busy)))
  {
    var s, c, b := Spans(q), Committed(q, busy), Entries(r);
    forall i: nat | i < |q|
      ensures b[i] == if c.Some? && i == 0 then c.value else MinR(s[i].cap, EntryOrStop(b, i + 1) + s[i].reach)
      ensures r[i] == q[i].(entrySq := b[i])
    {
      assert ReversedAt(q, r, busy, i);
    }
    forall i: nat | i < |q|
      ensures b[i] == Backward(s, c, i)
    {
      BackwardUnique(s, c, b, i);
    }
  }

  lemma {:induction false} ForwardUnique(s: seq<Span>, b: seq<real>, p: seq<real>, i: nat)
    requires |p| == |b| == |s| && i < |s|
    requires forall k :: 0 <= k <= i ==> p[k] == if k == 0 then b[0] else MinR(b[k], p[k - 1] + s[k - 1].reach)
    ensures p[i] == Forward(s, b, i)
  {
    if i > 0 {
      ForwardUnique(s, b, p, i - 1);
    }
  }

  /** Block `k` of `r` is block `k` of `q` after an in-place forward pass. */
  predicate ForwardedAt(q: seq<Block>, r: seq<Block>, k: nat)
    requires |r| == |q| && k < |q|
  {
    r[k] == if k == 0 then q[0] else q[k].(entrySq := MinR(q[k].entrySq, r[k - 1].entrySq + q[k - 1].Reach()))
  }

  lemma ForwardInPlace(q: seq<Block>, r: seq<Block>)
    requires |r| == |q| && forall k: nat :: k < |q| ==> ForwardedAt(q, r, k)
    ensures r == WithEntries(q, ForwardAll(Spans(q), Entries(q)))
  {
    var s, b, p := Spans(q), Entries(q), Entries(r);
    forall i: nat | i < |q|
      ensures p[i] == if i == 0 then b[0] else MinR(b[i], p[i - 1] + s[i - 1].reach)
      ensures r[i] == q[i].(entrySq := p[i])
    {
      assert ForwardedAt(q, r, i);
    }
    forall i: nat | i < |q|
      ensures p[i] == Forward(s, b, i)
    {
      ForwardUnique(s, b, p, i);
    }
  }

  /** A schedule of squared entry speeds the machine can follow: within every cap, reachable from block to
      block both ways, and able to stop at the end of the newest block. */
  predicate Feasible(s: seq<Span>, p: seq<real>) {
    && |p| == |s|
    && (forall i :: 0 <= i < |s| ==> 0.0 <= p[i] <= s[i].cap)
    && (forall i: nat :: i + 1 < |s| ==> FeasiblePair(s, p, i))
    && (|s| > 0 ==> p[|s| - 1] <= s[|s| - 1].reach)
  }

  predicate FeasiblePair(s: seq<Span>, p: seq<real>, i: nat)
    requires |p| == |s| && i + 1 < |s|
  {
    p[i] <= p[i + 1] + s[i].reach && p[i + 1] <= p[i] + s[i].reach
  }

  lemma FeasibleTail(s: seq<Span>, e: seq<real>)
    requires Feasible(s, e) && |s| > 0
    ensures Feasible(s[1..], e[1..])
  {
    forall i: nat | i + 1 < |s[1..]|
      ensures FeasiblePair(s[1..], e[1..], i)
    {
      assert FeasiblePair(s, e, i + 1);
    }
  }

  lemma FeasiblePrepend(s: seq<Span>, e: seq<real>, p: seq<real>)
    requires Feasible(s, e) && |s| > 0 && Feasible(s[1..], p)
    requires |s| > 1 ==> p[0] == e[1]
    ensures Feasible(s, [e[0]] + p)
  {
    forall i: nat | i + 1 < |s|
      ensures FeasiblePair(s, [e[0]] + p, i)
    {
      assert i > 0 ==> FeasiblePair(s[1..], p, i - 1);
      assert FeasiblePair(s, e, i);
    }
  }

  lemma FeasiblePrefix(s: seq<Span>, e: seq<real>, n: nat)
    requires Feasible(s, e) && n <= |s|
    ensures Feasible(s[..n], e[..n]) <==> n == 0 || e[n - 1] <= s[n - 1].reach
  {
    forall i: nat | i + 1 < n
      ensures FeasiblePair(s[..n], e[..n], i)
    {
      assert FeasiblePair(s, e, i);
    }
  }

  /** The head's committed speed, if any, is the one `p` starts with. */
  predicate Keeps(committed: Option<real>, p: seq<real>) {
    committed.Some? ==> |p| > 0 && p[0] == committed.value
  }

  lemma {:induction false} BackwardBound(s: seq<Span>, committed: Option<real>, p: seq<real>, i: nat)
    requires Feasible(s, p) && Keeps(committed, p) && i < |s|
    ensures p[i] <= Backward(s, committed, i) <= s[i].cap
    ensures Backward(s, committed, i) <= Backward(s, committed, i + 1) + s[i].reach
    decreases |s| - i
  {
    if i + 1 < |s| {
      assert FeasiblePair(s, p, i);
      BackwardBound(s, committed, p, i + 1);
    }
  }

  lemma {:induction false} ForwardBound(s: seq<Span>, b: seq<real>, p: seq<real>, i: nat)
    requires Feasible(s, p) && |b| == |s| && i < |s|
    requires forall k :: 0 <= k < |s| ==> p[k] <= b[k]
    ensures p[i] <= Forward(s, b, i) <= b[i]
  {
    if i > 0 {
      assert FeasiblePair(s, p, i - 1);
      ForwardBound(s, b, p, i - 1);
    }
  }

  lemma PlanWithinReverse(s: seq<Span>, committed: Option<real>, p: seq<real>, i: nat)
    requires Feasible(s, p) && Keeps(committed, p) && i < |s|
    ensures p[i] <= Plan(s, committed)[i] <= Backward(s, committed, i) <= s[i].cap
    ensures i + 1 < |s| ==> Plan(s, committed)[i + 1] ==
                            MinR(Backward(s, committed, i + 1), Plan(s, committed)[i] + s[i].reach)
    ensures i + 1 == |s| ==> Backward(s, committed, i) <= s[i].reach
    ensures i == 0 ==> Plan(s, committed)[i] == Backward(s, committed, 0)
  {
    var b := BackwardAll(s, committed);
    forall k: nat | k < |s|
      ensures p[k] <= b[k]
    {
      BackwardBound(s, committed, p, k);
    }
    BackwardBound(s, committed, p, i);
    ForwardBound(s, b, p, i);
  }

  /** The passes compute the pointwise greatest feasible schedule; with a committed head, the greatest among
      those that keep its speed. */
  lemma PlanIsGreatest(s: seq<Span>, committed: Option<real>, p: seq<real>)
    requires Feasible(s, p) && Keeps(committed, p)
    requires forall i :: 0 <= i < |s| ==> s[i].reach >= 0.0
    ensures Feasible(s, Plan(s, committed)) && Keeps(committed, Plan(s, committed))
    ensures forall i :: 0 <= i < |s| ==> p[i] <= Plan(s, committed)[i]
  {
    var r := Plan(s, committed);
    forall i: nat | i < |s|
      ensures p[i] <= r[i] <= s[i].cap
      ensures i + 1 == |s| ==> r[i] <= s[i].reach
      ensures i == 0 ==> r[i] == Backward(s, committed, 0)
    {
      PlanWithinReverse(s, committed, p, i);
    }
    forall i: nat | i < |s| - 1
      ensures FeasiblePair(s, r, i)
    {
      PlanWithinReverse(s, committed, p, i);
      PlanWithinReverse(s, committed, p, i + 1);
      BackwardBound(s, committed, p, i);
    }
  }

  /** With a free head some schedule is feasible, so the greatest one exists. */
  lemma RestIsFeasible(s: seq<Span>)
    requires forall i :: 0 <= i < |s| ==> s[i].cap >= 0.0 && s[i].reach >= 0.0
    ensures Feasible(s, seq(|s|, i => 0.0))
  {
  }

  /** A free head always has a greatest schedule, and the passes compute it. */
  lemma FreePlanIsGreatest(s: seq<Span>)
    requires forall i :: 0 <= i < |s| ==> s[i].cap >= 0.0 && s[i].reach >= 0.0
    ensures Feasible(s, Plan(s, None))
    ensures forall p :: Feasible(s, p) ==> forall i :: 0 <= i < |s| ==> p[i] <= Plan(s, None)[i]
  {
    RestIsFeasible(s);
    PlanIsGreatest(s, None, seq(|s|, i => 0.0));
    hide Feasible, Plan;
    forall p | Feasible(s, p)
      ensures forall i :: 0 <= i < |s| ==> p[i] <= Plan(s, None)[i]
    {
      PlanIsGreatest(s, None, p);
    }
  }

  predicate Roomy(q: seq<Block>) {
    forall i :: 0 <= i < |q| ==> q[i].Reach() >= 0.0
  }

  /** The planned speeds stored in `q` can be followed. */
  predicate WellPlanned(q: seq<Block>) {
    Feasible(Spans(q), Entries(q))
  }

  /** Everything a block carries except the one value the passes solve for. */
  function Shape(b: Block): Block { b.(entrySq := 0.0) }

  function Shapes(q: seq<Block>): (s: seq<Block>)
    ensures |s| == |q|
  {
    seq(|q|, i requires 0 <= i < |q| => Shape(q[i]))
  }

  lemma SameShapeSameSpans(q: seq<Block>, r: seq<Block>)
    requires Shapes(q) == Shapes(r)
    ensures |q| == |r| && Spans(q) == Spans(r)
    ensures forall i :: 0 <= i < |q| ==> q[i].Reach() == r[i].Reach()
  {
    forall i | 0 <= i < |q|
      ensures Spans(q)[i] == Spans(r)[i] && q[i].Reach() == r[i].Reach()
    {
      assert Shapes(q)[i] == Shapes(r)[i];
    }
  }

  lemma SameShapeSameResult(q: seq<Block>, r: seq<Block>, p: seq<real>)
    requires Shapes(q) == Shapes(r) && |p| == |q| == |r|
    ensures WithEntries(q, p) == WithEntries(r, p)
  {
    forall i | 0 <= i < |q|
      ensures WithEntries(q, p)[i] == WithEntries(r, p)[i]
    {
      assert Shapes(q)[i] == Shapes(r)[i];
    }
  }

  lemma ReplanKeepsShapes(q: seq<Block>, busy: bool)
    ensures Shapes(Replanned(q, busy)) == Shapes(q)
    ensures Entries(Replanned(q, busy)) == Plan(Spans(q), Committed(q, busy))
  {
    var r := Replanned(q, busy);
    forall i | 0 <= i < |q|
      ensures Shapes(r)[i] == Shapes(q)[i]
    {
      assert r[i] == q[i].(entrySq := Plan(Spans(q), Committed(q, busy))[i]);
    }
  }

  /** What `recalculate` leaves alone, and what it makes of any feasible schedule that keeps a busy head. */
  lemma ReplanImproves(q: seq<Block>, busy: bool, p: seq<real>)
    requires Roomy(q) && Feasible(Spans(q), p) && Keeps(Committed(q, busy), p)
    ensures WellPlanned(Replanned(q, busy)) && Roomy(Replanned(q, busy))
    ensures Shapes(Replanned(q, busy)) == Shapes(q)
    ensures forall i :: 0 <= i < |q| ==> p[i] <= Replanned(q, busy)[i].entrySq
    ensures busy && |q| > 0 ==> Replanned(q, busy)[0] == q[0]
  {
    var r := Replanned(q, busy);
    ReplanKeepsShapes(q, busy);
    SameShapeSameSpans(q, r);
    forall i | 0 <= i < |q|
      ensures Spans(q)[i].reach >= 0.0
    {
      assert q[i].Reach() >= 0.0;
    }
    PlanIsGreatest(Spans(q), Committed(q, busy), p);
    forall i | 0 <= i < |q|
      ensures r[i].entrySq == Entries(r)[i]
    {
    }
    if busy && |q| > 0 {
      assert r[0] == q[0].(entrySq := Plan(Spans(q), Committed(q, busy))[0]);
    }
  }

  /** Enqueueing a block and replanning: no queued block is slowed down, the busy head keeps its entry, and the
      whole queue can be followed to a stop. An empty queue with a busy head needs the newcomer to start at rest. */
  lemma AppendKeepsPlan(q: seq<Block>, b: Block, busy: bool)
    requires WellPlanned(q) && Roomy(q + [b]) && b.maxEntrySq >= 0.0
    requires busy && q == [] ==> b.entrySq == 0.0
    ensures var r := Replanned(q + [b], busy);
            && WellPlanned(r) && Roomy(r) && Shapes(r) == Shapes(q + [b])
            && (forall i :: 0 <= i < |q| ==> q[i].entrySq <= r[i].entrySq)
            && (busy && q != [] ==> r[0] == q[0])
  {
    var q' := q + [b];
    var p := Entries(q) + [0.0];
    forall i | 0 <= i < |q|
      ensures q'[i] == q[i] && Spans(q')[i] == Spans(q)[i] && p[i] == q[i].entrySq
    {
    }
    assert Spans(q')[|q|].reach == q'[|q|].Reach();
    forall i: nat | i + 1 < |q'|
      ensures FeasiblePair(Spans(q'), p, i)
    {
      assert q'[i].Reach() >= 0.0;
      assert i + 1 < |q| ==> FeasiblePair(Spans(q), Entries(q), i);
    }
    ReplanImproves(q', busy, p);
  }

  /** A recalculate that follows another over a prefix of the queue forgets the first. */
  lemma ReplanningIsIncremental(q: seq<Block>, more: seq<Block>, busy: bool)
    requires busy && |q| > 0 ==> Replanned(q, busy)[0].entrySq == q[0].entrySq
    ensures Replanned(Replanned(q, busy) + more, busy) == Replanned(q + more, busy)
  {
    var q1 := Replanned(q, busy) + more;
    var q2 := q + more;
    ReplanKeepsShapes(q, busy);
    assert Shapes(q1) == Shapes(q2) by {
      assert Shapes(q1) == Shapes(Replanned(q, busy)) + Shapes(more);
      assert Shapes(q2) == Shapes(q) + Shapes(more);
    }
    SameShapeSameSpans(q1, q2);
    assert Committed(q1, busy) == Committed(q2, busy);
    SameShapeSameResult(q1, q2, Plan(Spans(q2), Committed(q2, busy)));
  }

  /** Enqueue `blocks` one at a time, recalculating after each. */
  function EnqueueEach(q: seq<Block>, blocks: seq<Block>, busy: bool): seq<Block>
    decreases |blocks|
  {
    if blocks == [] then q else EnqueueEach(Replanned(q + [blocks[0]], busy), blocks[1..], busy)
  }

  lemma CommittedHeadStays(q: seq<Block>, busy: bool)
    requires busy && |q| > 0
    ensures Replanned(q, busy)[0].entrySq == q[0].entrySq
  {
    assert Plan(Spans(q), Committed(q, busy))[0] == BackwardAll(Spans(q), Committed(q, busy))[0];
  }

  /** One recalculate after any number of enqueues equals one recalculate per enqueue. */
  lemma {:induction false} OneRecalculateSuffices(q: seq<Block>, blocks: seq<Block>, busy: bool)
    requires blocks != []
    ensures EnqueueEach(q, blocks, busy) == Replanned(q + blocks, busy)
    decreases |blocks|
  {
    var q' := q + [blocks[0]];
    if |blocks| == 1 {
      assert q' == q + blocks;
      assert EnqueueEach(Replanned(q', busy), blocks[1..], busy) == Replanned(q', busy);
    } else {
      OneRecalculateSuffices(Replanned(q', busy), blocks[1..], busy);
      if busy {
        CommittedHeadStays(q', busy);
      }
      ReplanningIsIncremental(q', blocks[1..], busy);
      assert q' + blocks[1..] == q + blocks;
    }
  }
}

/** Planning through a window of bounded length that slides over a program (sim.rs:79-140). */
module Windows {
  import opened Base
  import opened Blocks
  import opened LookAhead
  import opened PlannerState
  import opened PlannerRuns

  /** What can be seen from block `i`: it and those behind it, as many as the queue holds. */
  function Ahead(s: seq<Span>, i: nat): (w: seq<Span>)
    requires i <= |s|
    ensures |w| == if i + BLOCK_QUEUE_LEN <= |s| then BLOCK_QUEUE_LEN else |s| - i
  {
    if i + BLOCK_QUEUE_LEN <= |s| then s[i..i + BLOCK_QUEUE_LEN] else s[i..]
  }

  /** The entry speed a block gets when every block is planned with the window ahead of the one before it, whose own entry
      is already committed unless it is the first. */
  function WindowEntry(s: seq<Span>, i: nat): real
    requires i < |s|
  {
    if i == 0 then Plan(Ahead(s, 0), None)[0]
    else Plan(Ahead(s, i - 1), if i == 1 then None else Some(WindowEntry(s, i - 1)))[1]
  }

  /** The stored speeds of a queue are the plan of what it holds. */
  lemma StoredIsPlan(st: State)
    requires Inv(st)
    ensures Entries(st.queue) == Plan(Spans(st.queue), Committed(st.queue, st.headBusy))
  {
    var q, s, e, c := st.queue, Spans(st.queue), Entries(st.queue), Committed(st.queue, st.headBusy);
    GoodQueueIsRoomy(st.cfg, q);
    forall i | 0 <= i < |s| ensures s[i].reach >= 0.0 {
      assert q[i].Reach() >= 0.0;
    }
    PlanIsGreatest(s, c, e);
    assert CanFollow(q, st.headBusy, Plan(s, c));
    assert AtMost(Plan(s, c), e);
    hide Plan, Feasible, GoodQueue;
    assert forall i :: 0 <= i < |e| ==> e[i] == Plan(s, c)[i];
  }

  /** Every block taken so far was entered as the window of its time had it, and so is the next. */
  ghost predicate Slides(popped: seq<Block>, queue: seq<Block>) {
    var s := Spans(popped + queue);
    && (forall i: nat :: i < |popped| ==> popped[i].entrySq == WindowEntry(s, i))
    && (popped != [] && queue != [] ==> queue[0].entrySq == WindowEntry(s, |popped|))
  }

  /** Blocks are only ever taken from a full window. */
  predicate Full(popped: seq<Block>, queue: seq<Block>) { popped != [] ==> |queue| >= BLOCK_QUEUE_LEN - 1 }

  lemma AheadOfQueue(popped: seq<Block>, queue: seq<Block>)
    requires |queue| <= BLOCK_QUEUE_LEN
    ensures Ahead(Spans(popped + queue), |popped|) == Spans(queue)
  {
    var s := Spans(popped + queue);
    assert s[|popped|..] == Spans(queue);
  }

  lemma NextWindow(s: seq<Span>, i: nat)
    requires i + 1 < |s|
    ensures WindowEntry(s, i + 1) == Plan(Ahead(s, i), if i == 0 then None else Some(WindowEntry(s, i)))[1]
    ensures i == 0 ==> WindowEntry(s, i) == Plan(Ahead(s, i), None)[i]
  {
    hide Plan, Ahead;
  }

  lemma FirstWindow(s: seq<Span>)
    requires s != []
    ensures WindowEntry(s, 0) == Plan(Ahead(s, 0), None)[0]
  {
    hide Plan, Ahead;
  }

  /** The first two blocks of a planned queue are entered as their windows have it. */
  lemma FrontIsWindowed(st: State, popped: seq<Block>)
    requires Inv(st) && st.queue != [] && (st.headBusy <==> popped != [])
    requires popped != [] ==> st.queue[0].entrySq == WindowEntry(Spans(popped + st.queue), |popped|)
    ensures var s := Spans(popped + st.queue);
            && st.queue[0].entrySq == WindowEntry(s, |popped|)
            && (|st.queue| > 1 ==> st.queue[1].entrySq == WindowEntry(s, |popped| + 1))
  {
    hide Inv, Plan, Ahead, WindowEntry, Spans, Entries, Committed;
    var (q, n) := (st.queue, |popped|);
    var s := Spans(popped + q);
    StoredIsPlan(st);
    QueueFits(st);
    AheadOfQueue(popped, q);
    CommittedTo(q, st.headBusy);
    EntryAt(q, 0);
    assert |s| == n + |q| by { SpanCount(popped + q); }
    if n == 0 {
      FirstWindow(s);
    }
    if |q| > 1 {
      NextWindow(s, n);
      EntryAt(q, 1);
    }
  }

  lemma SpanCount(q: seq<Block>)
    ensures |Spans(q)| == |q|
  {
  }

  lemma CommittedTo(q: seq<Block>, busy: bool)
    requires q != []
    ensures Committed(q, busy) == if busy then Some(q[0].entrySq) else None
  {
  }

  lemma EntryAt(q: seq<Block>, i: nat)
    requires i < |q|
    ensures |Entries(q)| == |q| && Entries(q)[i] == q[i].entrySq
  {
  }

  lemma QueueFits(st: State)
    requires Inv(st)
    ensures |st.queue| <= BLOCK_QUEUE_LEN
  {
  }

  /** Taking the head of a planned queue. */
  lemma SlidesPops(st: State, popped: seq<Block>)
    requires Inv(st) && st.queue != [] && Slides(popped, st.queue) && (st.headBusy <==> popped != [])
    ensures Slides(popped + [st.queue[0]], st.queue[1..])
  {
    hide Inv, WindowEntry, Spans;
    FrontIsWindowed(st, popped);
    assert popped + [st.queue[0]] + st.queue[1..] == popped + st.queue;
  }

  /** A window that lay wholly within the blocks seen so far does not change when more arrive. */
  lemma {:induction false} WindowEntryStays(s: seq<Span>, more: seq<Span>, i: nat)
    requires i < |s| && (i > 0 ==> i - 1 + BLOCK_QUEUE_LEN <= |s|) && (i == 0 ==> BLOCK_QUEUE_LEN <= |s|)
    ensures WindowEntry(s + more, i) == WindowEntry(s, i)
  {
    hide Plan;
    if i == 0 {
      assert Ahead(s + more, 0) == Ahead(s, 0);
    } else {
      assert Ahead(s + more, i - 1) == Ahead(s, i - 1);
      if i > 1 {
        WindowEntryStays(s, more, i - 1);
      }
    }
  }

  /** Planning behind a full window. */
  lemma SlidesGrows(popped: seq<Block>, queue: seq<Block>, queue': seq<Block>, more: seq<Block>)
    requires Slides(popped, queue) && Full(popped, queue) && Shapes(queue') == Shapes(queue) + more
    requires popped != [] ==> queue' != [] && queue'[0] == queue[0]
    ensures Slides(popped, queue') && Full(popped, queue')
  {
    hide WindowEntry;
    assert |queue'| == |Shapes(queue')| == |queue| + |more|;
    if popped != [] {
      var s, s' := Spans(popped + queue), Spans(popped + queue');
      SpansOfShapes(popped, queue, queue', more);
      var tail := s'[|s|..];
      assert s' == s + tail;
      forall i: nat | i <= |popped| ensures WindowEntry(s', i) == WindowEntry(s, i) {
        WindowEntryStays(s, tail, i);
      }
    }
  }

  lemma SpansOfShapes(popped: seq<Block>, queue: seq<Block>, queue': seq<Block>, more: seq<Block>)
    requires Shapes(queue') == Shapes(queue) + more
    ensures |queue| <= |queue'| && Spans(popped + queue) <= Spans(popped + queue')
  {
    assert |queue'| == |Shapes(queue')|;
    forall i: nat | i < |popped + queue|
      ensures Spans(popped + queue)[i] == Spans(popped + queue')[i]
    {
      if i >= |popped| {
        assert Shapes(queue')[i - |popped|] == Shapes(queue)[i - |popped|];
      }
    }
  }

  lemma SlidesStart(queue: seq<Block>)
    ensures Slides([], queue) && Full([], queue)
  {
  }

  // ---- Programs no longer than the window ---------------------------------------------------------------------

  predicate Sound(s: seq<Span>) { forall i :: 0 <= i < |s| ==> s[i].cap >= 0.0 && s[i].reach >= 0.0 }

  lemma FeasibleSplice(s: seq<Span>, p: seq<real>, k: nat, r: seq<real>)
    requires Feasible(s, p) && k < |s| && Feasible(s[k..], r) && r[0] == p[k]
    ensures Feasible(s, p[..k] + r)
  {
    var q := p[..k] + r;
    forall i: nat | i + 1 < |s| ensures FeasiblePair(s, q, i) {
      assert FeasiblePair(s, p, i);
      assert i >= k ==> FeasiblePair(s[k..], r, i - k);
    }
  }

  lemma {:induction false} FeasibleFrom(s: seq<Span>, p: seq<real>, k: nat)
    requires Feasible(s, p) && k < |s|
    ensures Feasible(s[k..], p[k..])
  {
    if k > 0 {
      FeasibleFrom(s, p, k - 1);
      FeasibleTail(s[k - 1..], p[k - 1..]);
      assert s[k - 1..][1..] == s[k..] && p[k - 1..][1..] == p[k..];
    }
  }

  /** The rest of a greatest schedule is the greatest that keeps the speed it begins with. */
  lemma PlanOfTheRest(s: seq<Span>, k: nat)
    requires Sound(s) && k < |s|
    ensures Plan(s[k..], Some(Plan(s, None)[k])) == Plan(s, None)[k..]
  {
    hide Plan;
    var p := Plan(s, None);
    FreePlanIsGreatest(s);
    FeasibleFrom(s, p, k);
    var rest := Plan(s[k..], Some(p[k]));
    PlanIsGreatest(s[k..], Some(p[k]), p[k..]);
    FeasibleSplice(s, p, k, rest);
    hide Feasible;
    forall i | 0 <= i < |rest| ensures rest[i] == p[k..][i] {
      assert (p[..k] + rest)[k + i] <= p[k + i];
    }
  }

  /** A program that fits the window is planned as a whole. */
  lemma {:induction false} ShortWindow(s: seq<Span>, i: nat)
    requires Sound(s) && i < |s| <= BLOCK_QUEUE_LEN
    ensures WindowEntry(s, i) == Plan(s, None)[i]
  {
    hide Plan, Sound;
    assert Ahead(s, 0) == s;
    if i > 1 {
      ShortWindow(s, i - 1);
      PlanOfTheRest(s, i - 1);
      assert Ahead(s, i - 1) == s[i - 1..];
      assert Plan(s, None)[i - 1..][1] == Plan(s, None)[i];
    }
  }
}

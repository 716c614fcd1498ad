/** Exact-integer step distribution: which axes step on which tick of a block (motion.rs:185-243, 602-613), and the
    live position that follows the ticks (motion.rs:483-543). */
module Dda {
  import opened Base
  import opened Kinematics

  /** Lowest-numbered axis with the largest step count. */
  function DominantAxis(s: Steps): (d: nat)
    ensures d < AXES
    ensures forall a :: 0 <= a < AXES ==> AbsI(s[a]) <= AbsI(s[d])
    ensures AbsI(s[d]) == DominantCount(s)
    ensures forall a :: 0 <= a < d ==> AbsI(s[a]) < AbsI(s[d])
  {
    var b1 := if AbsI(s[1]) > AbsI(s[0]) then 1 else 0;
    var b2 := if AbsI(s[2]) > AbsI(s[b1]) then 2 else b1;
    if AbsI(s[3]) > AbsI(s[b2]) then 3 else b2
  }

  /** Steps an axis that makes `n` of them per `dom` ticks has made after `t` ticks. */
  function Made(n: nat, dom: nat, t: nat): nat
    requires dom > 0
  {
    t * n / dom
  }

  /** The Bresenham remainder after `t` ticks. */
  function Error(n: nat, dom: nat, t: nat): nat
    requires dom > 0
  {
    t * n % dom
  }

  /** Whether that axis steps on tick `t`. */
  predicate StepsOn(n: nat, dom: nat, t: nat)
    requires dom > 0
  {
    Made(n, dom, t + 1) > Made(n, dom, t)
  }

  lemma DivModUnique(q: int, r: int, dom: nat)
    requires dom > 0 && 0 <= r < dom
    ensures (q * dom + r) / dom == q && (q * dom + r) % dom == r
  {
    var x := q * dom + r;
    assert x == dom * (x / dom) + x % dom;
    if x / dom > q {
      assert dom * (x / dom - q) >= dom * 1 by { MulLe(1, x / dom - q, dom); }
    } else if x / dom < q {
      assert dom * (q - x / dom) >= dom * 1 by { MulLe(1, q - x / dom, dom); }
    }
  }

  lemma MulLe(a: int, b: int, k: nat)
    requires a <= b
    ensures k * a <= k * b
  {
    assert k * (b - a) >= 0;
  }

  /** Adding the axis count to the error and stepping when it reaches the dominant count is exact division. */
  lemma BresenhamStep(n: nat, dom: nat, t: nat)
    requires 0 < dom && n <= dom
    ensures var e := Error(n, dom, t) + n;
            if e >= dom
            then Made(n, dom, t + 1) == Made(n, dom, t) + 1 && Error(n, dom, t + 1) == e - dom
            else Made(n, dom, t + 1) == Made(n, dom, t) && Error(n, dom, t + 1) == e
  {
    var x := t * n;
    var q, r := x / dom, x % dom;
    assert x == q * dom + r;
    assert (t + 1) * n == x + n;
    if r + n >= dom {
      assert (q + 1) * dom == q * dom + dom;
      DivModUnique(q + 1, r + n - dom, dom);
    } else {
      DivModUnique(q, r + n, dom);
    }
  }

  lemma MulDiv(a: nat, k: nat)
    requires k > 0
    ensures (a * k) / k == a && (a * k) % k == 0
  {
    DivModUnique(a, 0, k);
  }

  lemma MadeBounds(n: nat, dom: nat, t: nat)
    requires 0 < dom && n <= dom && t <= dom
    ensures Made(n, dom, 0) == 0 && Error(n, dom, 0) == 0 && Made(n, dom, dom) == n && Made(n, dom, t) <= n
    ensures n == dom ==> Made(n, dom, t) == t
  {
    MulDiv(n, dom);
    MulDiv(0, dom);
    MulDiv(t, dom);
    assert dom * n == n * dom;
    MulLe(t, dom, n);
    assert n * t == t * n;
    DivMono(t * n, n * dom, dom);
  }

  lemma DivMono(a: nat, b: nat, k: nat)
    requires a <= b && k > 0
    ensures a / k <= b / k
  {
    if a / k > b / k {
      assert a >= k * (a / k) && b < k * (b / k) + k;
      MulLe(b / k + 1, a / k, k);
    }
  }

  type Mask = m: seq<bool> | |m| == AXES witness [false, false, false, false]

  /** The axes that step on tick `t` of a block. */
  function MaskAt(s: Steps, t: nat): Mask
    requires DominantCount(s) > 0
  {
    var d := DominantCount(s);
    [StepsOn(AbsI(s[0]), d, t), StepsOn(AbsI(s[1]), d, t), StepsOn(AbsI(s[2]), d, t), StepsOn(AbsI(s[3]), d, t)]
  }

  /** The axis with the most steps makes one on every tick. */
  lemma DominantStepsEveryTick(s: Steps, t: nat)
    requires t < DominantCount(s)
    ensures MaskAt(s, t)[DominantAxis(s)]
  {
    var d := DominantAxis(s);
    MadeBounds(AbsI(s[d]), DominantCount(s), t);
    MadeBounds(AbsI(s[d]), DominantCount(s), t + 1);
    BresenhamStep(AbsI(s[d]), DominantCount(s), t);
  }

  /** Direction per axis; an axis that does not move counts as positive. */
  function DirOf(s: Steps): Mask {
    [s[0] >= 0, s[1] >= 0, s[2] >= 0, s[3] >= 0]
  }

  /** One axis of `StepCounter::advance`, saturating at the ends of `i32`. */
  function AdvanceAxis(p: int, positive: bool, step: bool): int {
    if !step then p else Clamp(if positive then p + 1 else p - 1, I32_MIN, I32_MAX)
  }

  function Advance(p: Steps, dir: Mask, step: Mask): Steps {
    [AdvanceAxis(p[0], dir[0], step[0]), AdvanceAxis(p[1], dir[1], step[1]),
     AdvanceAxis(p[2], dir[2], step[2]), AdvanceAxis(p[3], dir[3], step[3])]
  }

  /** The live position after the first `t` ticks of a block started at `from`. */
  function LiveAfter(from: Steps, s: Steps, t: nat): Steps
    requires DominantCount(s) > 0
  {
    if t == 0 then from else Advance(LiveAfter(from, s, t - 1), DirOf(s), MaskAt(s, t - 1))
  }

  function Signed(direction: int, n: nat): int {
    var m: int := n;
    if direction >= 0 then m else -m
  }

  /** Signed travel of one axis after `t` ticks. */
  function Travelled(s: Steps, a: nat, t: nat): int
    requires a < AXES && DominantCount(s) > 0
  {
    Signed(s[a], Made(AbsI(s[a]), DominantCount(s), t))
  }

  lemma AdvanceOne(from: int, s: int, made: nat, step: bool)
    requires I32_MIN <= from <= I32_MAX && I32_MIN <= from + s <= I32_MAX
    requires made + (if step then 1 else 0) <= AbsI(s)
    ensures AdvanceAxis(from + Signed(s, made), s >= 0, step) == from + Signed(s, made + if step then 1 else 0)
  {
  }

  /** After `t` ticks each axis has moved exactly `floor(t * |s| / dom)` steps its own way, at most all of them. */
  lemma {:induction false} LiveIsExact(from: Steps, s: Steps, t: nat, a: nat)
    requires 0 < DominantCount(s) && t <= DominantCount(s) && a < AXES
    requires InI32(from) && InI32(AddSteps(from, s))
    ensures LiveAfter(from, s, t)[a] == from[a] + Travelled(s, a, t)
    ensures Made(AbsI(s[a]), DominantCount(s), t) <= AbsI(s[a])
    decreases t
  {
    var n, d := AbsI(s[a]), DominantCount(s);
    MadeBounds(n, d, t);
    if t > 0 {
      LiveIsExact(from, s, t - 1, a);
      BresenhamStep(n, d, t - 1);
      AxisAdvances(LiveAfter(from, s, t - 1), s, t - 1, a);
      assert I32_MIN <= AddSteps(from, s)[a] <= I32_MAX && AddSteps(from, s)[a] == from[a] + s[a];
      hide Made, Error, Advance, DominantCount, MaskAt, AdvanceAxis;
      AdvanceOne(from[a], s[a], Made(n, d, t - 1), StepsOn(n, d, t - 1));
    }
  }

  lemma AxisAdvances(p: Steps, s: Steps, t: nat, a: nat)
    requires 0 < DominantCount(s) && a < AXES
    ensures Advance(p, DirOf(s), MaskAt(s, t))[a] ==
            AdvanceAxis(p[a], s[a] >= 0, StepsOn(AbsI(s[a]), DominantCount(s), t))
  {
    hide StepsOn, AdvanceAxis;
  }

  /** Running a whole block moves the live position by exactly the block's steps. */
  lemma BlockMovesLive(from: Steps, s: Steps)
    requires 0 < DominantCount(s) && InI32(from) && InI32(AddSteps(from, s))
    ensures LiveAfter(from, s, DominantCount(s)) == AddSteps(from, s)
  {
    var d := DominantCount(s);
    forall a: nat | a < AXES
      ensures LiveAfter(from, s, d)[a] == AddSteps(from, s)[a]
    {
      LiveIsExact(from, s, d, a);
      MadeBounds(AbsI(s[a]), d, d);
    }
  }

  /** Every position on the way lies, axis by axis, between the two ends. */
  lemma LiveStaysBetween(from: Steps, s: Steps, t: nat, a: nat)
    requires 0 < DominantCount(s) && t <= DominantCount(s) && a < AXES
    requires InI32(from) && InI32(AddSteps(from, s))
    ensures var (x, y) := (from[a], AddSteps(from, s)[a]);
            if x <= y then x <= LiveAfter(from, s, t)[a] <= y else y <= LiveAfter(from, s, t)[a] <= x
  {
    LiveIsExact(from, s, t, a);
  }
}

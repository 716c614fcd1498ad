/** Values shared by every component: results, four-axis vectors, rounding, and the maths library. */
module Base {

  datatype Option<+T> = None | Some(value: T)

  datatype Result<+T, +E> = Ok(value: T) | Err(error: E)

  /** X, Y, Z (linear) and A (rotary); planner.rs:39-51. */
  const AXES := 4
  const X_AXIS := 0
  const Y_AXIS := 1
  const Z_AXIS := 2
  const A_AXIS := 3

  type Steps = s: seq<int> | |s| == AXES witness [0, 0, 0, 0]
  type Vec = v: seq<real> | |v| == AXES witness [0.0, 0.0, 0.0, 0.0]

  const ORIGIN: Steps := [0, 0, 0, 0]
  const ZERO_VEC: Vec := [0.0, 0.0, 0.0, 0.0]

  const I32_MIN := -0x8000_0000
  const I32_MAX := 0x7FFF_FFFF
  const U16_MAX := 0xFFFF
  const U32_MAX := 0xFFFF_FFFF

  function MinR(a: real, b: real): real { if a <= b then a else b }

  function MaxR(a: real, b: real): real { if a >= b then a else b }

  function AbsR(x: real): real { if x < 0.0 then -x else x }

  function AbsI(x: int): nat { if x < 0 then -x else x }

  function MaxI(a: int, b: int): int { if a >= b then a else b }

  function Clamp(x: int, lo: int, hi: int): int { if x < lo then lo else if x > hi then hi else x }

  /** `libm::roundf`: nearest whole number, halves away from zero. */
  function Round(x: real): int {
    if x >= 0.0 then (x + 0.5).Floor else -((-x + 0.5).Floor)
  }

  function AddSteps(a: Steps, b: Steps): Steps {
    [a[0] + b[0], a[1] + b[1], a[2] + b[2], a[3] + b[3]]
  }

  predicate InI32(p: Steps) {
    forall a :: 0 <= a < AXES ==> I32_MIN <= p[a] <= I32_MAX
  }

  /** The `libm` calls. Only the square root's two defining facts are ever used; trigonometry is arbitrary. */
  datatype Libm = Libm(
    sqrt: real -> real,
    cos: real -> real,
    sin: real -> real,
    acos: real -> real,
    atan2: (real, real) -> real)
  {
    ghost predicate Valid() {
      forall x: real :: x >= 0.0 ==> sqrt(x) >= 0.0 && sqrt(x) * sqrt(x) == x
    }
  }

  lemma MulMono(x: real, y: real, z: real)
    requires x <= y && z >= 0.0
    ensures x * z <= y * z
  {
  }

  lemma SquareMono(x: real, y: real)
    requires 0.0 <= x <= y
    ensures x * x <= y * y
  {
    MulMono(x, y, x);
    MulMono(x, y, y);
  }

  lemma SquareStrict(x: real, y: real)
    requires 0.0 <= y < x
    ensures y * y < x * x
  {
    var d := x - y;
    assert x * x == y * y + 2.0 * (y * d) + d * d;
    assert y * d >= 0.0 && d * d > 0.0;
  }

  lemma SquareMonoBack(x: real, y: real)
    requires 0.0 <= x && 0.0 <= y && x * x <= y * y
    ensures x <= y
  {
    if x > y {
      SquareStrict(x, y);
    }
  }

  function Square(v: real): real { v * v }

  lemma SqrtOfSquare(math: Libm, x: real)
    requires math.Valid() && x >= 0.0
    ensures math.sqrt(Square(x)) == x
  {
    var s := math.sqrt(x * x);
    assert x * x >= 0.0;
    SquareMonoBack(s, x);
    SquareMonoBack(x, s);
  }

  lemma SqrtMono(math: Libm, x: real, y: real)
    requires math.Valid() && 0.0 <= x <= y
    ensures 0.0 <= math.sqrt(x) <= math.sqrt(y)
  {
    SquareMonoBack(math.sqrt(x), math.sqrt(y));
  }

  lemma SquareNonNegative(x: real)
    ensures x * x >= 0.0
  {
  }
}

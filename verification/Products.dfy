/** Products and quotients of reals, named so that a proof can hide them and reason linearly from their laws. */
module Products {

  function Mul(x: real, y: real): real { x * y }

  function Quot(n: real, k: real): real
    requires k > 0.0
  {
    n / k
  }

  lemma MulSplits(k: real, a: real, b: real)
    ensures Mul(k, a + b) == Mul(k, a) + Mul(k, b)
    ensures Mul(k, a - b) == Mul(k, a) - Mul(k, b)
  {
  }

  lemma MulHalves(k: real, a: real)
    ensures Mul(k, 0.5 * a) == 0.5 * Mul(k, a)
  {
  }

  lemma MulByZero(k: real)
    ensures Mul(k, 0.0) == 0.0 && Mul(0.0, k) == 0.0 && Mul(k, 1.0) == k && Mul(1.0, k) == k
  {
  }

  lemma MulCommutes(a: real, b: real)
    ensures Mul(a, b) == Mul(b, a)
  {
  }

  lemma MulOrder(k: real, a: real, b: real)
    requires k > 0.0
    ensures a <= b <==> Mul(k, a) <= Mul(k, b)
  {
    if a < b {
      assert k * (b - a) > 0.0;
    } else if b < a {
      assert k * (a - b) > 0.0;
    }
  }

  lemma MulGrows(k: real, a: real, b: real)
    requires k >= 0.0 && a <= b
    ensures Mul(k, a) <= Mul(k, b)
  {
    assert k * (b - a) >= 0.0;
  }

  lemma MulQuot(n: real, k: real)
    requires k > 0.0
    ensures Mul(k, Quot(n, k)) == n
    ensures n >= 0.0 <==> Quot(n, k) >= 0.0
  {
    var d := n / k;
    assert k * d == n;
    MulOrder(k, 0.0, d);
    MulByZero(k);
  }
}

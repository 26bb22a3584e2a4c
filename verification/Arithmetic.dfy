// Order facts about products, stated once so that no other proof reasons about
// nonlinear arithmetic.
module Arithmetic {

  lemma MulPositive(x: real, y: real)
    requires x > 0.0 && y > 0.0
    ensures x * y > 0.0
  {
  }

  lemma MulOrder(k: real, a: real, b: real)
    requires k > 0.0
    ensures a <= b <==> k * a <= k * b
  {
    assert k * (b - a) == k * b - k * a;
    if a < b { MulPositive(k, b - a); } else if b < a { MulPositive(k, a - b); }
  }

  lemma MulNonNegative(x: real, y: real)
    requires x >= 0.0 && y >= 0.0
    ensures x * y >= 0.0
  {
  }

  lemma MulMonotone(k: real, a: real, b: real)
    requires k >= 0.0 && a <= b
    ensures k * a <= k * b
  {
    assert k * (b - a) == k * b - k * a;
    MulNonNegative(k, b - a);
  }

  lemma ProductOrder(a: real, b: real, x: real, y: real)
    requires 0.0 <= a <= b && 0.0 <= x <= y
    ensures 0.0 <= a * x <= b * y
  {
    MulNonNegative(a, x);
    MulMonotone(a, x, y);
    MulMonotone(y, a, b);
  }

  // A larger divisor gives a smaller quotient.
  lemma DivAntitone(w: real, x: real, y: real)
    requires w >= 0.0 && 0.0 < x <= y
    ensures 0.0 <= w / y <= w / x
  {
    var p, q := w / x, w / y;
    assert x * p == w && y * q == w;
    MulOrder(y, 0.0, q);
    MulMonotone(q, x, y);
    MulOrder(x, q, p);
  }

  // ---- powers ----

  function Power(b: real, n: nat): real { if n == 0 then 1.0 else b * Power(b, n - 1) }

  lemma {:induction false} PowerAtLeastOne(b: real, n: nat)
    requires b >= 1.0
    ensures Power(b, n) >= 1.0
  {
    if n > 0 {
      PowerAtLeastOne(b, n - 1);
      MulOrder(b, 1.0, Power(b, n - 1));
    }
  }

  lemma {:induction false} PowerIsNonNegative(x: real, n: nat)
    requires x >= 0.0
    ensures Power(x, n) >= 0.0
  {
    if n > 0 {
      PowerIsNonNegative(x, n - 1);
      MulNonNegative(x, Power(x, n - 1));
    }
  }

  lemma {:induction false} PowerInUnit(x: real, n: nat)
    requires 0.0 <= x <= 1.0
    ensures 0.0 <= Power(x, n) <= 1.0
  {
    if n > 0 {
      PowerInUnit(x, n - 1);
      MulNonNegative(x, Power(x, n - 1));
      MulMonotone(x, Power(x, n - 1), 1.0);
      assert Power(x, n) == x * Power(x, n - 1);
      assert x * Power(x, n - 1) <= x * 1.0;
      assert x * 1.0 <= 1.0;
    }
  }

  lemma {:induction false} PowerFalls(x: real, n: nat, m: nat)
    requires 0.0 <= x <= 1.0 && n <= m
    ensures 0.0 <= Power(x, m) <= Power(x, n)
  {
    PowerInUnit(x, m);
    if n < m {
      PowerFalls(x, n, m - 1);
      MulMonotone(Power(x, m - 1), x, 1.0);
    }
  }
}

// The read-time decay curve, confidence(t) = (1 + t/S)^(-1/2), in exact
// arithmetic: no power is ever computed, only squares are compared.
module Curve {
  import opened Arithmetic

  const FRESH_STABILITY: real := 14.0
  const STABILITY_GROWTH: real := 1.9
  const STABLE_FACTOR: real := 4.0

  // c is the curve's value t days after the anchor at stability s.
  predicate IsValue(c: real, t: real, s: real) {
    c > 0.0 && c * c * (s + t) == s
  }

  // decayConfidence's guards: no negative age, no non-positive stability.
  function ClampAge(t: real): real { if t < 0.0 then 0.0 else t }
  function ClampStability(s: real): real { if s <= 0.0 then FRESH_STABILITY else s }

  // 10c >= k - 1/2, squared.
  predicate AtLeast(k: nat, t: real, s: real) {
    k == 0 || ((2 * k - 1) * (2 * k - 1)) as real * (s + t) <= 400.0 * s
  }

  // The curve rounded to tenths: the largest k with 10c >= k - 1/2.
  function TenthsBelow(k: nat, t: real, s: real): nat {
    if AtLeast(k, t, s) then k else TenthsBelow(k - 1, t, s)
  }

  function Tenths(t: real, s: real): nat { TenthsBelow(10, t, s) }

  // Below the archival floor of 0.2.
  predicate Faded(t: real, s: real) { t > 24.0 * s }

  lemma SmallerSquare(a: real, b: real)
    requires 0.0 <= a < b
    ensures a * a < b * b
  {
    assert (b - a) * (b + a) == b * b - a * a;
    MulPositive(b - a, b + a);
  }

  lemma SquaresOrder(a: real, b: real)
    requires a >= 0.0 && b >= 0.0
    ensures a * a <= b * b <==> a <= b
  {
    if a < b { SmallerSquare(a, b); } else if b < a { SmallerSquare(b, a); }
  }

  // c compared with m / 20 is S compared with (m / 20)^2 (S + t).
  lemma CompareSquared(m: real, c: real, t: real, s: real)
    requires m >= 0.0 && s > 0.0 && t >= 0.0 && IsValue(c, t, s)
    ensures m * m * (s + t) <= 400.0 * s <==> m <= 20.0 * c
  {
    var d, e := s + t, 20.0 * c;
    assert d * (e * e) == 400.0 * s by {
      assert e * e == 400.0 * (c * c);
      assert d * (400.0 * (c * c)) == 400.0 * (c * c * d);
    }
    assert m * m * d == d * (m * m);
    MulOrder(d, m * m, e * e);
    SquaresOrder(m, e);
  }

  // The squared comparison is the comparison.
  lemma AtLeastMeans(k: nat, c: real, t: real, s: real)
    requires k > 0 && s > 0.0 && t >= 0.0 && IsValue(c, t, s)
    ensures AtLeast(k, t, s) <==> 10.0 * c >= k as real - 0.5
  {
    var m := (2 * k - 1) as real;
    assert ((2 * k - 1) * (2 * k - 1)) as real == m * m;
    CompareSquared(m, c, t, s);
  }

  lemma {:induction false} TenthsBelowIsLargest(k: nat, t: real, s: real)
    ensures var r := TenthsBelow(k, t, s); r <= k && AtLeast(r, t, s) && forall j: nat | r < j <= k :: !AtLeast(j, t, s)
  {
    if !AtLeast(k, t, s) {
      TenthsBelowIsLargest(k - 1, t, s);
    }
  }

  // Tenths is round-half-up of ten times the curve, and Faded is curve < 0.2.
  lemma TenthsRounds(c: real, t: real, s: real)
    requires s > 0.0 && t >= 0.0 && IsValue(c, t, s)
    ensures Tenths(t, s) as real - 0.5 <= 10.0 * c < Tenths(t, s) as real + 0.5
    ensures Faded(t, s) <==> c < 0.2
  {
    var r := Tenths(t, s);
    TenthsBelowIsLargest(10, t, s);
    if r > 0 {
      AtLeastMeans(r, c, t, s);
    }
    if r < 10 {
      AtLeastMeans(r + 1, c, t, s);
    } else {
      NeverAboveOne(c, t, s);
    }
    CompareSquared(4.0, c, t, s);
  }

  lemma NeverAboveOne(c: real, t: real, s: real)
    requires s > 0.0 && t >= 0.0 && IsValue(c, t, s)
    ensures c <= 1.0
  {
    assert (s + t) * (c * c) == c * c * (s + t);
    MulOrder(s + t, c * c, 1.0);
    SquaresOrder(c, 1.0);
  }

  lemma AtLeastMonotone(k: nat, t: real, t': real, s: real, s': real)
    requires 0.0 <= t <= t' && 0.0 < s' <= s && k <= 10 && AtLeast(k, t', s')
    ensures AtLeast(k, t, s)
  {
    if k > 0 {
      assert 1 <= (2 * k - 1) * (2 * k - 1) <= 361 by {
        assert 1 <= 2 * k - 1 <= 19;
        assert (2 * k - 1) * (2 * k - 1) <= 19 * (2 * k - 1);
      }
      var m := ((2 * k - 1) * (2 * k - 1)) as real;
      MulOrder(m, t, t');
      MulOrder(400.0 - m, s', s);
    }
  }

  // Belief only fades with time, and fades slower the more stable the note.
  lemma TenthsMonotone(t: real, t': real, s: real, s': real)
    requires 0.0 <= t <= t' && 0.0 < s' <= s
    ensures Tenths(t', s') <= Tenths(t, s)
    ensures Faded(t, s) ==> Faded(t', s')
  {
    TenthsBelowIsLargest(10, t', s');
    TenthsBelowIsLargest(10, t, s);
    AtLeastMonotone(Tenths(t', s'), t, t', s, s');
  }
}

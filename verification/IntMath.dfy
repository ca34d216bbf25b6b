/** Products and quotients of integers. */
module IntMath {

  lemma MulAtLeast(m: int, d: nat)
    requires m >= 1
    ensures m * d >= d
  {
  }

  lemma MulNonNegative(m: int, d: nat)
    requires m >= 0
    ensures m * d >= 0
  {
  }

  lemma PositiveFactor(m: int, d: nat)
    requires m * d > 0
    ensures m > 0
  {
  }

  lemma MulSwap(x: int, y: int, z: int)
    ensures (x * y) * z == (x * z) * y
  {
  }

  lemma DivModUnique(x: int, d: nat, q: int, r: int)
    requires d > 0 && x == q * d + r && 0 <= r < d
    ensures x % d == r && x / d == q
  {
    var p, s := x / d, x % d;
    assert x == p * d + s;
    assert (p - q) * d == r - s && (q - p) * d == s - r;
    if p - q >= 1 { MulAtLeast(p - q, d); }
    if q - p >= 1 { MulAtLeast(q - p, d); }
  }

  lemma DivMonotone(x: nat, y: nat, d: nat)
    requires x <= y && d > 0
    ensures x / d <= y / d
  {
    var p, q := x / d, y / d;
    if p > q { MulAtLeast(p - q, d); }
  }

  lemma DivAtLeast(x: nat, d: nat, q: nat)
    requires d > 0 && q * d <= x
    ensures q <= x / d
  {
    var slack := x / d + 1 - q;
    assert slack * d == (x / d) * d + d - q * d > 0;
    PositiveFactor(slack, d);
  }

  lemma DivShift(x: nat, d: nat)
    requires d > 0
    ensures (x + d) / d == x / d + 1
  {
    assert x + d == (x / d + 1) * d + x % d;
    DivModUnique(x + d, d, x / d + 1, x % d);
  }

  /** A larger divisor gives a smaller quotient. */
  lemma DivAntitone(x: nat, d: nat, q: nat)
    requires d > 0 && q > 0
    ensures d * q > 0 && x / (q * d) <= x / d
  {
    MulAtLeast(q, d);
    var r := x / (q * d);
    assert r * (q * d) <= x;
    assert r * (q * d) == (r * q) * d;
    MulAtLeast(q, r);
    MulNonNegative(r * q - r, d);
    assert (r * q) * d - r * d == (r * q - r) * d;
    DivAtLeast(x, d, r);
  }
}

/** Exact real arithmetic shared by every component: optional values, clamping, powers and sums. */
module RealMath {

  datatype Option<+T> = None | Some(value: T) {
    function GetOr(default: T): T {
      match this
      case Some(v) => v
      case None => default
    }
  }

  function Abs(x: real): real {
    if x < 0.0 then -x else x
  }

  function Min(x: real, y: real): real {
    if x <= y then x else y
  }

  function Max(x: real, y: real): real {
    if x >= y then x else y
  }

  /** `f64::clamp`, which panics when the limits are out of order. */
  function Clamp(x: real, lo: real, hi: real): (r: real)
    requires lo <= hi
    ensures lo <= r <= hi
    ensures lo <= x <= hi ==> r == x
  {
    if x < lo then lo else if x > hi then hi else x
  }

  /** Output limits; `None` stands for the infinite limit on its side. */
  datatype Limits = Limits(lo: Option<real>, hi: Option<real>) {
    predicate Ordered() {
      lo.Some? && hi.Some? ==> lo.value <= hi.value
    }

    predicate Below(x: real) {
      lo.Some? && x < lo.value
    }

    predicate Above(x: real) {
      hi.Some? && x > hi.value
    }

    predicate Contains(x: real) {
      !Below(x) && !Above(x)
    }

    /** How far `x` lies outside the limits; 0 inside. */
    function Distance(x: real): (d: real)
      ensures d >= 0.0
      ensures d == 0.0 <==> Contains(x)
    {
      if Below(x) then lo.value - x else if Above(x) then x - hi.value else 0.0
    }

    function Clamp(x: real): (r: real)
      requires Ordered()
      ensures Contains(r)
      ensures Contains(x) ==> r == x
    {
      if Below(x) then lo.value else if Above(x) then hi.value else x
    }

    /** Of all values inside the limits `g` is the nearest to `u`. */
    ghost predicate Nearest(u: real, g: real) {
      Contains(g) && forall x :: Contains(x) ==> Abs(u - g) <= Abs(u - x)
    }

    function Shift(delta: real): Limits {
      Limits(if lo.Some? then Some(lo.value + delta) else None,
             if hi.Some? then Some(hi.value + delta) else None)
    }
  }

  /** `x` lies on the way from `start` to `target`, `most` further on or at the target. */
  predicate MovedTowards(start: real, target: real, most: real, x: real) {
    && Min(start, target) <= x <= Max(start, target)
    && Abs(target - x) == Max(0.0, Abs(target - start) - most)
  }

  lemma ClampIsNearest(l: Limits, u: real)
    requires l.Ordered()
    ensures l.Nearest(u, l.Clamp(u))
  {
  }

  function Square(x: real): real {
    x * x
  }

  function Pow(base: real, n: nat): real {
    if n == 0 then 1.0 else base * Pow(base, n - 1)
  }

  function Sum(xs: seq<real>): real {
    if xs == [] then 0.0 else Sum(xs[..|xs| - 1]) + xs[|xs| - 1]
  }

  lemma MulNonNegative(x: real, y: real)
    requires x >= 0.0 && y >= 0.0
    ensures x * y >= 0.0
  {
  }

  lemma MulPositive(x: real, y: real)
    requires x > 0.0 && y > 0.0
    ensures x * y > 0.0
  {
  }

  lemma SquareOrder(x: real, y: real)
    requires x >= 0.0 && y >= 0.0
    ensures x >= y <==> Square(x) >= Square(y)
  {
    if x >= y {
      MulNonNegative(x - y, x + y);
    } else {
      MulPositive(y - x, x + y);
    }
  }

  /** Moving from `x` towards `y` by a fraction of the way stays between bounds of both. */
  lemma Towards(a: real, x: real, y: real, lo: real, hi: real)
    requires 0.0 <= a <= 1.0
    requires lo <= x <= hi && lo <= y <= hi
    ensures lo <= x + a * (y - x) <= hi
    ensures lo <= (1.0 - a) * x + a * y <= hi
  {
    MulNonNegative(1.0 - a, hi - x);
    MulNonNegative(1.0 - a, x - lo);
    MulNonNegative(a, hi - y);
    MulNonNegative(a, y - lo);
  }

  lemma ScaleOrder(x: real, y: real, k: real)
    requires k > 0.0
    ensures x >= y <==> x * k >= y * k
  {
    if x >= y {
      MulNonNegative(x - y, k);
    } else {
      MulPositive(y - x, k);
    }
  }

  lemma DivOrder(x: real, y: real, k: real)
    requires x <= y && k > 0.0
    ensures x / k <= y / k
  {
    var p, q := x / k, y / k;
    assert p * k == x && q * k == y;
    if p > q { MulPositive(p - q, k); }
  }

  lemma DivNonNegative(x: real, k: real)
    requires x >= 0.0 && k > 0.0
    ensures x / k >= 0.0 && (x / k) * k == x
  {
    var q := x / k;
    assert q * k == x;
    if q < 0.0 { MulPositive(-q, k); }
  }

  lemma DivBetween(x: real, y: real)
    requires 0.0 < x <= y
    ensures 0.0 < x / y <= 1.0
    ensures (x / y) * y == x
  {
    var q := x / y;
    assert q * y == x;
    if q <= 0.0 { MulNonNegative(-q, y); }
    if q > 1.0 { MulPositive(q - 1.0, y); }
  }

  /** Comparing with a quotient is comparing products, the other way round for a negative divisor. */
  lemma QuotientOrder(p: real, k: real, x: real)
    requires k != 0.0
    ensures (p / k) * k == p
    ensures k > 0.0 ==> (x >= p / k <==> x * k >= p) && (x <= p / k <==> x * k <= p)
    ensures k < 0.0 ==> (x >= p / k <==> x * k <= p) && (x <= p / k <==> x * k >= p)
  {
    var q := p / k;
    assert q * k == p;
    if k > 0.0 {
      ScaleOrder(x, q, k);
      ScaleOrder(q, x, k);
    } else {
      ScaleOrder(x, q, -k);
      ScaleOrder(q, x, -k);
      assert x * -k == -(x * k) && q * -k == -(q * k);
    }
  }
}

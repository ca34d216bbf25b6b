/** The tick ruler beside the tuner's chart: which grid lines it draws, how many, and what happens to
    them when the view zooms. */
module ScaleTicks {
  import opened RealMath
  import IntMath

  datatype Symbol = TenUnits | FiveUnits | OneUnit | HalfUnit | TenthUnit

  /** A grid line's symbol depends on its distance from the setpoint's line alone. */
  function SymbolAt(offset: int): Symbol {
    if offset % 100 == 0 then TenUnits
    else if offset % 50 == 0 then FiveUnits
    else if offset % 10 == 0 then OneUnit
    else if offset % 5 == 0 then HalfUnit
    else TenthUnit
  }

  /** The number of sub-steps a symbol stands for. */
  function Weight(symbol: Symbol): nat {
    match symbol
    case TenUnits => 100
    case FiveUnits => 50
    case OneUnit => 10
    case HalfUnit => 5
    case TenthUnit => 1
  }

  /** A line's symbol is the heaviest whose multiple its distance is. */
  lemma SymbolIsHeaviest(offset: int, other: Symbol)
    ensures Aligned(offset, Weight(SymbolAt(offset)))
    ensures Weight(other) > Weight(SymbolAt(offset)) ==> !Aligned(offset, Weight(other))
  {
  }

  datatype Tick = Tick(y: real, symbol: Symbol)

  /** Half away from zero, as the floating-point `round` does. */
  function Round(x: real): int {
    if x >= 0.0 then (x + 0.5).Floor else -((-x + 0.5).Floor)
  }

  /** The number of sub-steps in a span. */
  function SubSteps(span: real, sub: real): nat
    requires span >= 0.0 && sub > 0.0
  {
    DivNonNegative(span, sub);
    Round(span / sub)
  }

  function Ceil(x: real): int {
    -((-x).Floor)
  }

  // ---------- the setpoint's own scale ----------

  function PowerOfTen(e: int): (p: real)
    ensures p > 0.0
    decreases if e >= 0 then e else -e
  {
    if e == 0 then 1.0 else if e > 0 then 10.0 * PowerOfTen(e - 1) else PowerOfTen(e + 1) / 10.0
  }

  lemma {:induction false} PowerExceeds(n: nat)
    ensures PowerOfTen(n) >= n as real + 1.0
  {
    if n > 0 {
      PowerExceeds(n - 1);
    }
  }

  /** The integer part of the decimal logarithm of `x`, found from `e` upwards. */
  function Decade(x: real, e: int): (d: int)
    requires PowerOfTen(e) <= x
    ensures PowerOfTen(d) <= x < PowerOfTen(d + 1)
    decreases x.Floor - e
  {
    if x < PowerOfTen(e + 1) then e
    else
      assert e >= 0 ==> x >= e as real + 2.0 by { if e >= 0 { PowerExceeds(e + 1); } }
      Decade(x, e + 1)
  }

  const SMALLEST_DECADE := -9

  /** The setpoint's magnitude, never below a billionth. */
  function Magnitude(setpoint: real): real {
    Max(Abs(setpoint), PowerOfTen(SMALLEST_DECADE))
  }

  /** The ruler's finest step: a hundredth of the setpoint's decade. It does not depend on the zoom. */
  function SubStep(setpoint: real): (sub: real)
    ensures sub > 0.0
  {
    PowerOfTen(Decade(Magnitude(setpoint), SMALLEST_DECADE) - 2)
  }

  /** Strides between drawn grid lines; each is a multiple of the one before. */
  function Ratio(i: nat): nat {
    if i % 2 == 0 then 5 else 2
  }

  const LAST_STRIDE := 8

  function Stride(i: nat): (s: nat)
    ensures s > 0
  {
    if i == 0 then 1 else Stride(i - 1) * Ratio(i - 1)
  }

  /** The index of the first listed stride that keeps the count within `maxTicks`, or of the last one. */
  function FirstFit(count: nat, maxTicks: nat, i: nat): (k: nat)
    requires i <= LAST_STRIDE
    ensures i <= k <= LAST_STRIDE
    decreases LAST_STRIDE - i
  {
    if count / Stride(i) <= maxTicks || i == LAST_STRIDE then i else FirstFit(count, maxTicks, i + 1)
  }

  /** The table the code writes out. */
  lemma StrideTable()
    ensures Stride(0) == 1 && Stride(1) == 5 && Stride(2) == 10 && Stride(3) == 50 && Stride(4) == 100
    ensures Stride(5) == 500 && Stride(6) == 1_000 && Stride(7) == 5_000 && Stride(8) == 10_000
  {
  }

  /** The first index from `raw` on that lies a multiple of `stride` from `origin`. */
  function NextAligned(raw: int, origin: int, stride: nat): int
    requires stride > 0
  {
    var offset := (raw - origin) % stride;
    raw + if offset == 0 then 0 else stride - offset
  }

  predicate Aligned(offset: int, stride: nat)
    requires stride > 0
  {
    offset % stride == 0
  }

  /** The view: a window, the grid step `sub`, the setpoint's grid index and the canvas height. */
  datatype View = View(lo: real, hi: real, sub: real, setpointIndex: int, rows: nat) {
    predicate Valid() { sub > 0.0 && lo < hi }

    function SubCount(): nat
      requires Valid()
    {
      SubSteps(hi - lo, sub)
    }

    function MaxTicks(): nat { if rows >= 1 then rows else 1 }

    function StrideIndex(): nat
      requires Valid()
    {
      FirstFit(SubCount(), MaxTicks(), 0)
    }

    function FirstInView(): int
      requires Valid()
    {
      Ceil(lo / sub)
    }

    function LastInView(): int
      requires Valid()
    {
      (hi / sub).Floor
    }

    /** The first grid index in view on a stride boundary relative to the setpoint. */
    function FirstTick(): int
      requires Valid()
    {
      NextAligned(FirstInView(), setpointIndex, Stride(StrideIndex()))
    }
  }

  /** Every `stride`-th index from `first` to `last`. */
  function Grid(first: int, last: int, stride: nat): seq<int>
    requires stride > 0
    decreases last - first
  {
    if first > last then [] else [first] + Grid(first + stride, last, stride)
  }

  function TickY(v: View, k: int): real {
    k as real * v.sub
  }

  /** The tick of one grid line. */
  function TickAt(v: View, k: int): Tick {
    Tick(TickY(v, k), SymbolAt(k - v.setpointIndex))
  }

  function Drawn(ks: seq<int>, v: View): seq<Tick> {
    seq(|ks|, i requires 0 <= i < |ks| => TickAt(v, ks[i]))
  }

  function Ticks(v: View): seq<Tick>
    requires v.sub > 0.0
  {
    if !v.Valid() then [] else Drawn(Grid(v.FirstTick(), v.LastInView(), Stride(v.StrideIndex())), v)
  }

  /** The view the tuner asks for. */
  function ViewOf(lo: real, hi: real, setpoint: real, rows: nat): View {
    View(lo, hi, SubStep(setpoint), Round(setpoint / SubStep(setpoint)), rows)
  }

  method ScaleTicks(lo: real, hi: real, setpoint: real, canvasRows: nat) returns (ticks: seq<Tick>)
    ensures ticks == Ticks(ViewOf(lo, hi, setpoint, canvasRows))
  {
    hide Stride, Round, Ceil, SymbolAt, FirstFit, SubStep;
    var span := hi - lo;
    if span <= 0.0 {
      return [];
    }
    var sub := SubStep(setpoint);
    var kSp := Round(setpoint / sub);
    ghost var v := View(lo, hi, sub, kSp, canvasRows);
    var subCount := SubSteps(span, sub);
    var maxTicks := if canvasRows >= 1 then canvasRows else 1;
    var stride := Stride(FirstFit(subCount, maxTicks, 0));
    var firstRaw := Ceil(lo / sub);
    var offset := (firstRaw - kSp) % stride;
    var firstK := firstRaw + if offset == 0 then 0 else stride - offset;
    var lastK := (hi / sub).Floor;
    assert firstK == v.FirstTick() && lastK == v.LastInView() && stride == Stride(v.StrideIndex());
    ticks := DrawTicks(firstK, lastK, stride, v, sub, kSp);
  }

  /** The drawing loop. */
  method DrawTicks(firstK: int, lastK: int, stride: nat, ghost v: View, sub: real, kSp: int) returns (ticks: seq<Tick>)
    requires stride > 0 && v.sub == sub && v.setpointIndex == kSp
    ensures ticks == Drawn(Grid(firstK, lastK, stride), v)
  {
    hide SymbolAt;
    if firstK > lastK {
      return [];
    }
    ghost var all := Grid(firstK, lastK, stride);
    ticks := [];
    var k := firstK;
    while k <= lastK
      invariant |ticks| <= |all| && Grid(k, lastK, stride) == all[|ticks|..]
      invariant ticks == Drawn(all[..|ticks|], v)
      decreases lastK - k
    {
      var y := k as real * sub;
      assert all[|ticks|] == k && all[..|ticks| + 1] == all[..|ticks|] + [k];
      var tick := Tick(y, SymbolAt(k - kSp));
      assert tick == TickAt(v, k);
      DrawnAppends(all[..|ticks|], k, v);
      ticks := ticks + [tick];
      k := k + stride;
    }
    assert all[..|ticks|] == all;
  }

  lemma DrawnAppends(ks: seq<int>, k: int, v: View)
    ensures Drawn(ks + [k], v) == Drawn(ks, v) + [TickAt(v, k)]
  {
  }

  // ---------- which lines ----------

  lemma FloorBounds(x: real, k: int)
    ensures k <= x.Floor <==> k as real <= x
    ensures k >= Ceil(x) <==> k as real >= x
  {
  }

  lemma NotAfter(v: View, k: int)
    requires v.Valid()
    ensures k <= v.LastInView() <==> TickY(v, k) <= v.hi
  {
    FloorBounds(v.hi / v.sub, k);
    QuotientOrder(v.hi, v.sub, k as real);
  }

  lemma NotBefore(v: View, k: int)
    requires v.Valid()
    ensures v.FirstInView() <= k <==> v.lo <= TickY(v, k)
  {
    FloorBounds(v.lo / v.sub, k);
    QuotientOrder(v.lo, v.sub, k as real);
  }

  /** An index is in view exactly when its line is. */
  lemma InView(v: View, k: int)
    requires v.Valid()
    ensures v.FirstInView() <= k <= v.LastInView() <==> v.lo <= TickY(v, k) <= v.hi
  {
    hide TickY, View.FirstInView, View.LastInView;
    NotAfter(v, k);
    NotBefore(v, k);
  }

  lemma AlignedOnce(a: int, b: int, stride: nat)
    requires stride > 0 && 0 <= b - a < stride && Aligned(a, stride) && Aligned(b, stride)
    ensures a == b
  {
    MultiplesApart(a / stride, b / stride, stride);
  }

  lemma MultiplesApart(m: int, n: int, d: nat)
    requires 0 <= n * d - m * d < d
    ensures m == n
  {
    assert (n - m) * d == n * d - m * d;
    if n - m >= 1 { IntMath.MulAtLeast(n - m, d); }
    if m - n >= 1 { IntMath.MulAtLeast(m - n, d); }
  }

  lemma AlignedShift(a: int, stride: nat)
    requires stride > 0
    ensures Aligned(a + stride, stride) <==> Aligned(a, stride)
  {
    var q, r := a / stride, a % stride;
    assert a + stride == (q + 1) * stride + r;
    IntMath.DivModUnique(a + stride, stride, q + 1, r);
  }

  lemma NextAlignedIs(raw: int, origin: int, stride: nat)
    requires stride > 0
    ensures var k := NextAligned(raw, origin, stride); Aligned(k - origin, stride) && raw <= k < raw + stride
  {
    var a := raw - origin;
    var q, r := a / stride, a % stride;
    if r != 0 {
      assert a + (stride - r) == (q + 1) * stride + 0;
      IntMath.DivModUnique(a + (stride - r), stride, q + 1, 0);
    }
  }

  /** The grid from a line on the setpoint's stride holds exactly the lines of the window on that
      stride. */
  lemma {:induction false} GridIsResidueClass(first: int, last: int, stride: nat, origin: int, k: int)
    requires stride > 0 && Aligned(first - origin, stride)
    ensures k in Grid(first, last, stride) <==> first <= k <= last && Aligned(k - origin, stride)
    decreases last - first
  {
    hide Aligned;
    if first <= last {
      AlignedShift(first - origin, stride);
      GridIsResidueClass(first + stride, last, stride, origin, k);
      if first <= k < first + stride && Aligned(k - origin, stride) {
        AlignedOnce(first - origin, k - origin, stride);
      }
    }
  }

  /** The indices a view draws: in view, and a multiple of the stride from the setpoint. */
  predicate Shows(v: View, k: int)
    requires v.Valid()
  {
    v.lo <= TickY(v, k) <= v.hi && Aligned(k - v.setpointIndex, Stride(v.StrideIndex()))
  }

  lemma GridShows(v: View, k: int)
    requires v.Valid()
    ensures k in Grid(v.FirstTick(), v.LastInView(), Stride(v.StrideIndex())) <==> Shows(v, k)
  {
    hide Stride, View.StrideIndex, View.FirstInView, View.LastInView, Aligned, NextAligned;
    var stride := Stride(v.StrideIndex());
    NextAlignedIs(v.FirstInView(), v.setpointIndex, stride);
    GridIsResidueClass(v.FirstTick(), v.LastInView(), stride, v.setpointIndex, k);
    InView(v, k);
    if v.FirstInView() <= k < v.FirstTick() && Aligned(k - v.setpointIndex, stride) {
      AlignedOnce(k - v.setpointIndex, v.FirstTick() - v.setpointIndex, stride);
    }
  }

  /** A tick is drawn for exactly the grid lines in the window that lie a multiple of the stride from
      the setpoint, each with the symbol of its distance from the setpoint. */
  lemma TicksAreTheStride(v: View, t: Tick)
    requires v.Valid()
    ensures t in Ticks(v) <==> exists k: int :: t == TickAt(v, k) && Shows(v, k)
  {
    hide Stride, View.StrideIndex, View.FirstTick, View.LastInView, Shows, TickAt;
    var ks := Grid(v.FirstTick(), v.LastInView(), Stride(v.StrideIndex()));
    if t in Ticks(v) {
      var i :| 0 <= i < |Ticks(v)| && Ticks(v)[i] == t;
      GridShows(v, ks[i]);
      assert t == TickAt(v, ks[i]) && Shows(v, ks[i]);
    }
    if k: int :| t == TickAt(v, k) && Shows(v, k) {
      GridShows(v, k);
      var i :| 0 <= i < |ks| && ks[i] == k;
      assert Ticks(v)[i] == t;
    }
  }

  /** The lines come in increasing order, one stride apart. */
  lemma {:induction false} GridAt(first: int, last: int, stride: nat, i: nat)
    requires stride > 0 && i < |Grid(first, last, stride)|
    ensures Grid(first, last, stride)[i] == first + i * stride
    decreases i
  {
    if i > 0 {
      GridAt(first + stride, last, stride, i - 1);
      assert i * stride == (i - 1) * stride + stride;
    }
  }

  // ---------- how many ----------

  lemma {:induction false} GridCount(first: int, last: int, stride: nat)
    requires stride > 0
    ensures |Grid(first, last, stride)| == if first > last then 0 else (last - first) / stride + 1
    decreases last - first
  {
    if first <= last {
      GridCount(first + stride, last, stride);
      var x := last - first;
      if x >= stride {
        var q, r := (x - stride) / stride, (x - stride) % stride;
        assert x == (q + 1) * stride + r;
        IntMath.DivModUnique(x, stride, q + 1, r);
      } else {
        IntMath.DivModUnique(x, stride, 0, x);
      }
    }
  }

  lemma {:induction false} FitsAt(count: nat, maxTicks: nat, i: nat)
    requires i <= LAST_STRIDE
    requires exists k :: i <= k <= LAST_STRIDE && count / Stride(k) <= maxTicks
    ensures count / Stride(FirstFit(count, maxTicks, i)) <= maxTicks
    decreases LAST_STRIDE - i
  {
    if !(count / Stride(i) <= maxTicks) && i < LAST_STRIDE {
      FitsAt(count, maxTicks, i + 1);
    }
  }

  /** The lines in view span the rounded count of sub-steps, or at most two fewer. */
  lemma SpanCovers(v: View)
    requires v.Valid()
    ensures v.SubCount() - 2 <= v.LastInView() - v.FirstInView() <= v.SubCount()
  {
    var a, b, c := v.lo / v.sub, v.hi / v.sub, (v.hi - v.lo) / v.sub;
    assert a * v.sub == v.lo && b * v.sub == v.hi && c * v.sub == v.hi - v.lo;
    assert c == b - a;
    DivNonNegative(v.hi - v.lo, v.sub);
  }

  /** The coarsest listed stride keeps the count within the rows. */
  predicate CoarsestFits(v: View)
    requires v.Valid()
  {
    v.SubCount() / 10_000 <= v.MaxTicks()
  }

  /** A listed stride fits exactly when the coarsest does. */
  lemma SomeStrideFitsIff(v: View)
    requires v.Valid()
    ensures (exists k :: 0 <= k <= LAST_STRIDE && v.SubCount() / Stride(k) <= v.MaxTicks()) <==> CoarsestFits(v)
  {
    hide View.SubCount;
    StrideTable();
    if k :| 0 <= k <= LAST_STRIDE && v.SubCount() / Stride(k) <= v.MaxTicks() {
      var q := StridesDivide(k, LAST_STRIDE);
      IntMath.DivAntitone(v.SubCount(), Stride(k), q);
    }
  }

  /** How many ticks are drawn, for every view: the number of strides in the span, give or take one; and
      no more than there are rows exactly when the window ends before `rows` strides past the first
      tick. */
  lemma TickCount(v: View)
    requires v.Valid()
    ensures var stride := Stride(v.StrideIndex());
            && (v.SubCount() - 1) / stride <= |Ticks(v)| <= v.SubCount() / stride + 1
            && (|Ticks(v)| <= v.MaxTicks() <==> v.LastInView() < v.FirstTick() + v.MaxTicks() * stride)
  {
    hide Stride, View.FirstTick, View.FirstInView, View.LastInView, View.SubCount;
    var stride := Stride(v.StrideIndex());
    NextAlignedIs(v.FirstInView(), v.setpointIndex, stride);
    FirstTickIsNext(v);
    SpanCovers(v);
    GridCount(v.FirstTick(), v.LastInView(), stride);
    var x := v.LastInView() - v.FirstTick();
    LatticeCount(x, v.SubCount(), stride);
    if x >= 0 {
      QuotientBelow(x, stride, v.MaxTicks());
    } else {
      IntMath.MulNonNegative(v.MaxTicks(), stride);
    }
  }

  /** On plain numbers: the multiples of `d` within `x`, when `x` is at most a stride short of `n`. */
  lemma LatticeCount(x: int, n: nat, d: nat)
    requires d > 0 && n - 1 - d <= x <= n
    ensures (n - 1) / d <= (if x < 0 then 0 else x / d + 1) <= n / d + 1
  {
    if x >= 0 {
      IntMath.DivMonotone(x, n, d);
    }
    if n > d {
      IntMath.DivMonotone(n - 1 - d, x, d);
      IntMath.DivShift(n - 1 - d, d);
    } else if n > 0 {
      IntMath.DivModUnique(n - 1, d, 0, n - 1);
    }
  }

  /** With a stride that fits there is at most one tick more than rows. Without one the ruler falls back
      to the coarsest stride and there are at least as many ticks as rows, growing with the span. */
  lemma TickBudget(v: View)
    requires v.Valid()
    ensures CoarsestFits(v) ==> |Ticks(v)| <= v.MaxTicks() + 1
    ensures !CoarsestFits(v) ==> |Ticks(v)| >= (v.SubCount() - 1) / 10_000 >= v.MaxTicks()
  {
    hide Stride, Ticks, View.SubCount;
    StrideTable();
    SomeStrideFitsIff(v);
    TickCount(v);
    if CoarsestFits(v) {
      FitsAt(v.SubCount(), v.MaxTicks(), 0);
    } else {
      NothingFits(v.SubCount(), v.MaxTicks(), 0);
    }
  }

  lemma {:induction false} NothingFits(count: nat, maxTicks: nat, i: nat)
    requires i <= LAST_STRIDE && forall k :: i <= k <= LAST_STRIDE ==> count / Stride(k) > maxTicks
    ensures FirstFit(count, maxTicks, i) == LAST_STRIDE
    decreases LAST_STRIDE - i
  {
    if i < LAST_STRIDE {
      NothingFits(count, maxTicks, i + 1);
    }
  }

  lemma {:induction false} FinerOverflow(count: nat, maxTicks: nat, i: nat, k: nat)
    requires i <= LAST_STRIDE && i <= k < FirstFit(count, maxTicks, i)
    ensures count / Stride(k) > maxTicks
    decreases LAST_STRIDE - i
  {
    if i < k {
      FinerOverflow(count, maxTicks, i + 1, k);
    }
  }

  /** One tick per row, and at least one. */
  function Budget(v: View): nat {
    if v.rows == 0 then 1 else v.rows
  }

  /** The stride is the finest listed one that keeps the count within the rows: every finer one exceeds them,
      and it does not unless it is the coarsest. */
  lemma StrideIsFinest(v: View)
    requires v.Valid()
    ensures v.StrideIndex() <= LAST_STRIDE
    ensures forall k: nat :: k < v.StrideIndex() ==> v.SubCount() / Stride(k) > Budget(v)
    ensures v.StrideIndex() < LAST_STRIDE ==> v.SubCount() / Stride(v.StrideIndex()) <= Budget(v)
  {
    hide Stride, View.SubCount;
    forall k: nat | k < v.StrideIndex() ensures v.SubCount() / Stride(k) > Budget(v) {
      FinerOverflow(v.SubCount(), v.MaxTicks(), 0, k);
    }
    FitsOrLast(v.SubCount(), v.MaxTicks(), 0);
  }

  lemma {:induction false} FitsOrLast(count: nat, maxTicks: nat, i: nat)
    requires i <= LAST_STRIDE
    ensures var k := FirstFit(count, maxTicks, i); k < LAST_STRIDE ==> count / Stride(k) <= maxTicks
    decreases LAST_STRIDE - i
  {
    if i < LAST_STRIDE {
      FitsOrLast(count, maxTicks, i + 1);
    }
  }

  /** ... and so a ruler that leaves lines out is never emptier than one tick for every five rows. */
  lemma RulerIsFull(v: View)
    requires v.Valid() && v.StrideIndex() > 0
    ensures |Ticks(v)| >= Budget(v) / 5
  {
    hide Ticks, View.SubCount, View.StrideIndex;
    StrideIsFinest(v);
    TickCount(v);
    var k := v.StrideIndex();
    CoarserKeepsAFifth(v.SubCount(), Budget(v), Stride(k - 1), Ratio(k - 1));
  }

  /** On plain numbers: a count above `n` strides of `d` is at least a fifth of `n` strides of `r * d`. */
  lemma CoarserKeepsAFifth(count: nat, n: nat, d: nat, r: nat)
    requires d > 0 && 0 < r <= 5 && count / d > n
    ensures d * r > 0 && (count - 1) / (d * r) >= n / 5
  {
    var q := n / 5;
    var a := q * r;
    FifthFits(n, r);
    IntMath.MulNonNegative(n - a, d);
    assert (n - a) * d == n * d - a * d;
    IntMath.MulSwap(q, d, r);
    MulAssoc(q, d, r);
    CountAbove(count, d, n);
    IntMath.MulAtLeast(r, d);
    MulCommutes(d, r);
    IntMath.DivAtLeast(count - 1, d * r, q);
  }

  lemma FifthFits(n: nat, r: nat)
    requires 0 < r <= 5
    ensures (n / 5) * r <= n
  {
    IntMath.MulNonNegative(5 - r, n / 5);
    assert (n / 5) * r == (n / 5) * 5 - (5 - r) * (n / 5);
  }

  lemma CountAbove(count: nat, d: nat, n: nat)
    requires d > 0 && count / d > n
    ensures count - 1 >= n * d
  {
    QuotientBelow(count, d, n + 1);
    assert (n + 1) * d == n * d + d;
  }

  lemma MulAssoc(x: int, y: int, z: int)
    ensures x * (y * z) == (x * y) * z
  {
  }

  lemma MulCommutes(x: int, y: int)
    ensures x * y == y * x
  {
  }

  lemma FirstTickIsNext(v: View)
    requires v.Valid()
    ensures v.FirstTick() == NextAligned(v.FirstInView(), v.setpointIndex, Stride(v.StrideIndex()))
  {
  }

  lemma QuotientBelow(x: nat, d: nat, n: nat)
    requires d > 0
    ensures x / d < n <==> x < n * d
  {
    if n <= x / d {
      IntMath.MulNonNegative(x / d - n, d);
    } else if n * d <= x {
      IntMath.DivAtLeast(x, d, n);
    }
  }

  /** The ruler promises at most one tick per row; a window that starts and ends on the grid gets one
      more: ten rows for the window from 0 to 10 at a setpoint of 100, whose sub-step is 1. */
  lemma RowsExceeded()
    ensures var v := ViewOf(0.0, 10.0, 100.0, 10); v.Valid() && |Ticks(v)| == 11
  {
    var v := ViewOf(0.0, 10.0, 100.0, 10);
    HundredSubStep();
    assert v == View(0.0, 10.0, 1.0, 100, 10);
    hide ViewOf, SubStep, Decade, PowerOfTen;
    StrideTable();
    assert (10.0 / 1.0) == 10.0 && (0.0 / 1.0) == 0.0;
    assert v.SubCount() == 10 && v.StrideIndex() == 0;
    assert v.FirstTick() == 0 && v.LastInView() == 10;
    GridCount(0, 10, 1);
  }

  lemma HundredSubStep()
    ensures SubStep(100.0) == 1.0 && Round(100.0 / 1.0) == 100
  {
    assert PowerOfTen(2) == 100.0;
    assert PowerOfTen(-3) == 0.001;
    assert PowerOfTen(-6) == 0.000_001;
    assert PowerOfTen(SMALLEST_DECADE) == 0.000_000_001;
    DecadeIs(100.0, 2);
  }

  /** The decade is the only one the value lies in. */
  lemma DecadeIs(x: real, d: int)
    requires PowerOfTen(SMALLEST_DECADE) <= x && PowerOfTen(d) <= x < PowerOfTen(d + 1)
    ensures Decade(x, SMALLEST_DECADE) == d
  {
    var e := Decade(x, SMALLEST_DECADE);
    if e < d {
      PowersGrow(e + 1, d);
    } else if d < e {
      PowersGrow(d + 1, e);
    }
  }

  lemma {:induction false} PowersGrow(d: int, e: int)
    requires d <= e
    ensures PowerOfTen(d) <= PowerOfTen(e)
    decreases e - d
  {
    if d < e {
      PowersGrow(d, e - 1);
      TenTimes(e - 1);
    }
  }

  /** And there is no bound at all: with a setpoint of 0, whose sub-step is `1e-11`, every window of
      width 1 gets at least `10_000_000 - 1` ticks, whatever the (16-bit) height of the canvas. */
  lemma ZeroSetpointFloods(lo: real, rows: nat)
    requires rows <= 0xFFFF
    ensures ViewOf(lo, lo + 1.0, 0.0, rows).Valid()
    ensures |Ticks(ViewOf(lo, lo + 1.0, 0.0, rows))| >= 10_000_000 - 1
  {
    var v := ViewOf(lo, lo + 1.0, 0.0, rows);
    ZeroSubStep();
    assert v.sub == 1.0e-11;
    hide ViewOf, PowerOfTen;
    assert 1.0 / v.sub == 100_000_000_000.0;
    hide Ticks;
    assert v.SubCount() == 100_000_000_000;
    TickBudget(v);
  }

  lemma ZeroSubStep()
    ensures SubStep(0.0) == 1.0e-11
  {
    assert PowerOfTen(-3) == 0.001;
    assert PowerOfTen(-6) == 0.000_001;
    assert PowerOfTen(-9) == 0.000_000_001;
    assert PowerOfTen(-8) == 0.000_000_01;
    assert PowerOfTen(-11) == 1.0e-11;
    assert Decade(PowerOfTen(-9), -9) == -9;
  }

  /** The nearest grid line is at most half a sub-step off. */
  predicate NearItsLine(x: real, sub: real)
    requires sub > 0.0
  {
    -sub / 2.0 <= x - Round(x / sub) as real * sub <= sub / 2.0
  }

  predicate ThreeDigits(k: int) {
    100 <= (if k >= 0 then k else -k) <= 1000
  }

  /** The setpoint's own line is the nearest, and its index has three digits: the ruler resolves the
      setpoint to three significant digits. */
  lemma SetpointOnGrid(setpoint: real)
    ensures NearItsLine(setpoint, SubStep(setpoint))
    ensures Abs(setpoint) >= PowerOfTen(SMALLEST_DECADE) ==> ThreeDigits(Round(setpoint / SubStep(setpoint)))
  {
    var d := Decade(Magnitude(setpoint), SMALLEST_DECADE);
    ThreeDecades(d);
    hide PowerOfTen, Round, Decade, NearItsLine, ThreeDigits;
    NearestLine(setpoint, PowerOfTen(d - 2));
  }

  lemma NearestLine(x: real, sub: real)
    requires sub > 0.0
    ensures NearItsLine(x, sub)
    ensures 100.0 * sub <= Abs(x) < 1000.0 * sub ==> ThreeDigits(Round(x / sub))
  {
    var q := x / sub;
    assert q * sub == x;
    RoundNear(q);
    hide Round;
    Offset(x, sub, q, Round(q) as real);
    Digits(x, sub, q);
    assert (-q) * sub == -x;
    Digits(-x, sub, -q);
  }

  /** On plain numbers: `q` is `x / sub`, and `r` the nearest integer. */
  lemma Offset(x: real, sub: real, q: real, r: real)
    requires sub > 0.0 && q * sub == x && Abs(q - r) <= 0.5
    ensures -sub / 2.0 <= x - r * sub <= sub / 2.0
  {
    MulNonNegative(0.5 - q + r, sub);
    MulNonNegative(0.5 + q - r, sub);
    assert (0.5 - q + r) * sub == sub / 2.0 - q * sub + r * sub;
    assert (0.5 + q - r) * sub == sub / 2.0 + q * sub - r * sub;
  }

  lemma Digits(x: real, sub: real, q: real)
    requires sub > 0.0 && q * sub == x
    ensures 100.0 * sub <= x < 1000.0 * sub ==> 100.0 <= q < 1000.0
  {
    ScaleOrder(q, 100.0, sub);
    ScaleOrder(q, 1000.0, sub);
  }

  /** The count of sub-steps is the nearest whole number to what the window holds. */
  lemma SubCountIsNearest(v: View)
    requires v.Valid()
    ensures -v.sub / 2.0 <= (v.hi - v.lo) - v.SubCount() as real * v.sub <= v.sub / 2.0
  {
    var q := (v.hi - v.lo) / v.sub;
    assert q * v.sub == v.hi - v.lo;
    RoundNear(q);
    hide Round;
    Offset(v.hi - v.lo, v.sub, q, Round(q) as real);
  }

  lemma ThreeDecades(d: int)
    ensures PowerOfTen(d) == 100.0 * PowerOfTen(d - 2) && PowerOfTen(d + 1) == 1000.0 * PowerOfTen(d - 2)
  {
    TenTimes(d - 2);
    TenTimes(d - 1);
    TenTimes(d);
  }

  lemma TenTimes(e: int)
    ensures PowerOfTen(e + 1) == 10.0 * PowerOfTen(e)
  {
  }

  /** The nearest whole number, and of two equally near the one further from 0. */
  lemma RoundNear(x: real)
    ensures Abs(x - Round(x) as real) <= 0.5
    ensures Abs(x - Round(x) as real) == 0.5 ==> Abs(Round(x) as real) > Abs(x)
    ensures 100.0 <= x < 1000.0 ==> 100 <= Round(x) <= 1000
    ensures 100.0 <= -x < 1000.0 ==> -1000 <= Round(x) <= -100
  {
  }

  // ---------- zooming ----------

  lemma {:induction false} StridesDivide(i: nat, j: nat) returns (q: nat)
    requires i <= j
    ensures Stride(j) == q * Stride(i)
    decreases j
  {
    if i == j {
      q := 1;
    } else {
      var p := StridesDivide(i, j - 1);
      q := p * Ratio(j - 1);
      hide Ratio;
      IntMath.MulSwap(p, Stride(i), Ratio(j - 1));
    }
  }

  lemma {:induction false} SmallerCountFitsEarlier(small: nat, large: nat, maxTicks: nat, i: nat)
    requires small <= large && i <= LAST_STRIDE
    ensures FirstFit(small, maxTicks, i) <= FirstFit(large, maxTicks, i)
    decreases LAST_STRIDE - i
  {
    if i < LAST_STRIDE {
      IntMath.DivMonotone(small, large, Stride(i));
      SmallerCountFitsEarlier(small, large, maxTicks, i + 1);
    }
  }

  lemma MultipleOfMultiple(x: int, large: nat, small: nat, q: nat)
    requires small > 0 && large > 0 && large == q * small && Aligned(x, large)
    ensures Aligned(x, small)
  {
    var m := x / large;
    assert x == m * large == m * (q * small) == (m * q) * small + 0;
    IntMath.DivModUnique(x, small, m * q, 0);
  }

  lemma RoundMonotone(x: real, y: real)
    requires x <= y
    ensures Round(x) <= Round(y)
  {
  }

  lemma NarrowerView(wide: View, narrow: View)
    requires wide.Valid() && narrow.Valid() && narrow.sub == wide.sub && narrow.rows == wide.rows
    requires wide.lo <= narrow.lo && narrow.hi <= wide.hi
    ensures narrow.StrideIndex() <= wide.StrideIndex()
  {
    DivOrder(narrow.hi - narrow.lo, wide.hi - wide.lo, wide.sub);
    RoundMonotone((narrow.hi - narrow.lo) / narrow.sub, (wide.hi - wide.lo) / wide.sub);
    SmallerCountFitsEarlier(narrow.SubCount(), wide.SubCount(), wide.MaxTicks(), 0);
  }

  /** Zooming in never loses or changes a tick that is still in view. */
  lemma ZoomKeepsTicks(wide: View, narrow: View, t: Tick)
    requires wide.Valid() && narrow.Valid()
    requires narrow.sub == wide.sub && narrow.setpointIndex == wide.setpointIndex && narrow.rows == wide.rows
    requires wide.lo <= narrow.lo && narrow.hi <= wide.hi
    requires t in Ticks(wide) && narrow.lo <= t.y <= narrow.hi
    ensures t in Ticks(narrow)
  {
    hide Ticks, Stride, View.StrideIndex, Aligned, SymbolAt;
    TicksAreTheStride(wide, t);
    TicksAreTheStride(narrow, t);
    var k: int :| t == TickAt(wide, k) && Shows(wide, k);
    NarrowerView(wide, narrow);
    var q := StridesDivide(narrow.StrideIndex(), wide.StrideIndex());
    MultipleOfMultiple(k - wide.setpointIndex, Stride(wide.StrideIndex()), Stride(narrow.StrideIndex()), q);
    assert t == TickAt(narrow, k) && Shows(narrow, k);
  }
}

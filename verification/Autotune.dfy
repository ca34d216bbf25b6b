/** The relay-feedback autotune engine. */
module Autotune {
  import opened RealMath

  const MIN_CYCLES := 3
  const SETTLED_PERIOD_CV := 0.20
  /** The binary double nearest to pi. */
  const PI := 3.141592653589793115997963468544185161590576171875

  datatype TuningRule = Pi | Pid | Tl {
    function Gains(ku: real, tu: real): (real, real, real)
      requires tu != 0.0
    {
      match this
      case Pi =>
        var kp := 0.45 * ku;
        (kp, kp * 1.2 / tu, 0.0)
      case Pid =>
        var kp := 0.6 * ku;
        (kp, kp * 2.0 / tu, kp * tu / 8.0)
      case Tl =>
        var kp := ku / 3.2;
        (kp, kp / (2.2 * tu), kp * tu / 6.3)
    }
  }

  datatype AutotuneConfig = AutotuneConfig(bias: real, amp: real, limits: Limits)

  datatype ConfigProblem = AmpNotPositive | BiasOutside | RelayLowOutside | RelayHighOutside

  /** The first problem found; none exactly when the relay swings and both its levels are allowed. */
  function Validate(c: AutotuneConfig): (problem: Option<ConfigProblem>)
    ensures problem.None? <==>
            c.amp > 0.0 && c.limits.Contains(c.bias - c.amp) && c.limits.Contains(c.bias + c.amp)
    ensures problem == Some(AmpNotPositive) <==> c.amp <= 0.0
    ensures problem == Some(BiasOutside) <==> c.amp > 0.0 && !c.limits.Contains(c.bias)
    ensures problem == Some(RelayLowOutside) <==>
            c.amp > 0.0 && c.limits.Contains(c.bias) && c.limits.Below(c.bias - c.amp)
  {
    if c.amp <= 0.0 then Some(AmpNotPositive)
    else if !c.limits.Contains(c.bias) then Some(BiasOutside)
    else if c.limits.Below(c.bias - c.amp) then Some(RelayLowOutside)
    else if c.limits.Above(c.bias + c.amp) then Some(RelayHighOutside)
    else None
  }

  datatype RelayEvent =
    | RelayFlip(cv: real, pv: real, elapsedSecs: real)
    | PeriodDetected(tu: real, amplitude: real)
    | Settled(ku: real, tu: real, amplitude: real, cycles: nat)

  datatype RelayPos = High | Low

  /** `phaseExtremum` is `None` while it holds the infinity a phase starts from. */
  datatype EngineState = EngineState(
    config: AutotuneConfig,
    relay: RelayPos,
    pvRef: Option<real>,
    phaseElapsed: real,
    phaseExtremum: Option<real>,
    highPeaks: seq<real>,
    lowTroughs: seq<real>,
    halfPeriods: seq<real>,
    elapsedSecs: real,
    samples: nat,
    settled: bool) {

    function CurrentCv(): real {
      if relay == High then config.bias + config.amp else config.bias - config.amp
    }

    function Cycles(): nat {
      if |highPeaks| <= |lowTroughs| then |highPeaks| else |lowTroughs|
    }
  }

  function NewEngine(config: AutotuneConfig): EngineState {
    EngineState(config, High, None, 0.0, None, [], [], [], 0.0, 0, false)
  }

  // ---------- estimates ----------

  function Mean(v: seq<real>): real {
    if v == [] then 0.0 else Sum(v) / |v| as real
  }

  function SquaredDeviations(v: seq<real>, mean: real): real {
    if v == [] then 0.0
    else SquaredDeviations(v[..|v| - 1], mean) + Square(v[|v| - 1] - mean)
  }

  /** The square of the code's standard deviation. */
  function Variance(v: seq<real>, mean: real): real {
    if |v| <= 1 then 0.0 else SquaredDeviations(v, mean) / |v| as real
  }

  /** `std / mean >= SETTLED_PERIOD_CV`, without taking the root (see `StdTestBySquares`). */
  predicate TooVaried(variance: real, mean: real) {
    variance >= Square(SETTLED_PERIOD_CV * mean)
  }

  function Amplitude(s: EngineState): real {
    (Mean(s.highPeaks) - Mean(s.lowTroughs)) / 2.0
  }

  function PeriodEstimate(s: EngineState): Option<(real, real)> {
    if s.highPeaks == [] || s.lowTroughs == [] || Amplitude(s) <= 0.0 then None
    else Some((2.0 * Mean(s.halfPeriods), Amplitude(s)))
  }

  function UltimateGain(amp: real, amplitude: real): real
    requires amplitude > 0.0
  {
    4.0 * amp / (PI * amplitude)
  }

  /** The last `2 * MIN_CYCLES` half-periods; mean and variance do not depend on their order. */
  function Window(halfPeriods: seq<real>): seq<real> {
    if |halfPeriods| <= 2 * MIN_CYCLES then halfPeriods else halfPeriods[|halfPeriods| - 2 * MIN_CYCLES..]
  }

  function SettlementCheck(s: EngineState): Option<(real, real, real)> {
    var window := Window(s.halfPeriods);
    var mean := Mean(window);
    if s.Cycles() < MIN_CYCLES || mean <= 0.0 || TooVaried(Variance(window, mean), mean) || Amplitude(s) <= 0.0 then
      None
    else Some((UltimateGain(s.config.amp, Amplitude(s)), 2.0 * mean, Amplitude(s)))
  }

  function BestEstimates(s: EngineState): Option<(real, real)> {
    var settled := SettlementCheck(s);
    var period := PeriodEstimate(s);
    if settled.Some? then Some((settled.value.0, settled.value.1))
    else if s.Cycles() < 2 || period.None? then None
    else Some((UltimateGain(s.config.amp, period.value.1), period.value.0))
  }

  datatype AutotuneResult = AutotuneResult(
    ku: real, tu: real, kp: real, ki: real, kd: real, rule: TuningRule, samples: nat, cycles: nat)

  function ResultOf(s: EngineState, rule: TuningRule): Option<AutotuneResult>
    requires BestEstimates(s).Some? ==> BestEstimates(s).value.1 != 0.0
  {
    var best := BestEstimates(s);
    if best.None? then None
    else
      var (ku, tu) := best.value;
      var (kp, ki, kd) := rule.Gains(ku, tu);
      Some(AutotuneResult(ku, tu, kp, ki, kd, rule, s.samples, s.Cycles()))
  }

  // ---------- transitions ----------

  function PhaseCompleted(s: EngineState, crossingPv: real): (EngineState, seq<RelayEvent>)
    requires s.phaseExtremum.Some?
  {
    var extremum := s.phaseExtremum.value;
    var t := s.(
      highPeaks := if s.relay == High then s.highPeaks + [extremum] else s.highPeaks,
      lowTroughs := if s.relay == High then s.lowTroughs else s.lowTroughs + [extremum],
      halfPeriods := s.halfPeriods + [s.phaseElapsed],
      relay := if s.relay == High then Low else High,
      phaseExtremum := None,
      phaseElapsed := 0.0);
    var flip := RelayFlip(t.CurrentCv(), crossingPv, t.elapsedSecs);
    if s.relay == High then
      var period := PeriodEstimate(t);
      (t, if period.Some? then [flip, PeriodDetected(period.value.0, period.value.1)] else [flip])
    else
      var check := SettlementCheck(t);
      if s.settled || check.None? then (t, [flip])
      else (t.(settled := true), [flip, Settled(check.value.0, check.value.1, check.value.2, t.Cycles())])
  }

  function Extended(extremum: Option<real>, pv: real, relay: RelayPos): real {
    if extremum.None? then pv
    else if relay == High then Max(extremum.value, pv) else Min(extremum.value, pv)
  }

  /** The state a tick works on: time and sample counted, reference taken from the first sample. */
  function Sampled(s: EngineState, pv: real, dt: real): EngineState {
    s.(elapsedSecs := s.elapsedSecs + dt,
       samples := s.samples + 1,
       phaseElapsed := s.phaseElapsed + dt,
       pvRef := Some(s.pvRef.GetOr(pv)),
       phaseExtremum := Some(Extended(s.phaseExtremum, pv, s.relay)))
  }

  predicate Crosses(relay: RelayPos, pv: real, pvRef: real) {
    if relay == High then pv > pvRef else pv < pvRef
  }

  function Ticked(s: EngineState, pv: real, dt: real): (EngineState, seq<RelayEvent>) {
    var t := Sampled(s, pv, dt);
    if Crosses(t.relay, pv, t.pvRef.value) then PhaseCompleted(t, pv) else (t, [])
  }

  class AutotuneEngine {
    const config: AutotuneConfig
    var relay: RelayPos
    var pvRef: Option<real>
    var phaseElapsed: real
    var phaseExtremum: Option<real>
    var highPeaks: seq<real>
    var lowTroughs: seq<real>
    var halfPeriods: seq<real>
    var elapsedSecs: real
    var samples: nat
    var settled: bool

    function State(): EngineState
      reads this
    {
      EngineState(config, relay, pvRef, phaseElapsed, phaseExtremum, highPeaks, lowTroughs, halfPeriods,
                  elapsedSecs, samples, settled)
    }

    constructor (config: AutotuneConfig)
      ensures State() == NewEngine(config)
    {
      this.config := config;
      relay, pvRef := High, None;
      phaseElapsed, phaseExtremum := 0.0, None;
      highPeaks, lowTroughs, halfPeriods := [], [], [];
      elapsedSecs, samples, settled := 0.0, 0, false;
    }

    /** Overrides the reference, even in the middle of a run. */
    method SetPvRef(pv: real)
      modifies this
      ensures State() == old(State()).(pvRef := Some(pv))
    {
      pvRef := Some(pv);
    }

    method Tick(pv: real, dt: real) returns (cv: real, events: seq<RelayEvent>)
      modifies this
      ensures (State(), events) == Ticked(old(State()), pv, dt)
      ensures cv == State().CurrentCv()
    {
      elapsedSecs := elapsedSecs + dt;
      samples := samples + 1;
      phaseElapsed := phaseElapsed + dt;
      if pvRef.None? {
        pvRef := Some(pv);
      }
      events := [];
      match relay {
        case High =>
          if phaseExtremum.None? || pv > phaseExtremum.value {
            phaseExtremum := Some(pv);
          }
          assert State() == Sampled(old(State()), pv, dt);
          if pv > pvRef.value {
            events := CompletePhase(pv);
          }
        case Low =>
          if phaseExtremum.None? || pv < phaseExtremum.value {
            phaseExtremum := Some(pv);
          }
          assert State() == Sampled(old(State()), pv, dt);
          if pv < pvRef.value {
            events := CompletePhase(pv);
          }
      }
      cv := State().CurrentCv();
    }

    method CompletePhase(crossingPv: real) returns (events: seq<RelayEvent>)
      requires phaseExtremum.Some?
      modifies this
      ensures (State(), events) == PhaseCompleted(old(State()), crossingPv)
    {
      var pos, extremum, duration := relay, phaseExtremum.value, phaseElapsed;
      match pos {
        case High =>
          highPeaks := highPeaks + [extremum];
          halfPeriods := halfPeriods + [duration];
          relay := Low;
          phaseExtremum := None;
        case Low =>
          lowTroughs := lowTroughs + [extremum];
          halfPeriods := halfPeriods + [duration];
          relay := High;
          phaseExtremum := None;
      }
      phaseElapsed := 0.0;
      events := [RelayFlip(State().CurrentCv(), crossingPv, elapsedSecs)];
      if pos == High {
        var period := PeriodEstimate(State());
        if period.Some? {
          events := [events[0], PeriodDetected(period.value.0, period.value.1)];
        }
      } else if !settled {
        var check := SettlementCheck(State());
        if check.Some? {
          settled := true;
          events := [events[0], Settled(check.value.0, check.value.1, check.value.2, State().Cycles())];
        }
      }
    }
  }

  // ---------- the statistics behind the settlement test ----------

  /** Comparing squares is the code's comparison of `std / mean` with the threshold. */
  lemma StdTestBySquares(std: real, variance: real, mean: real)
    requires std >= 0.0 && std * std == variance && mean > 0.0
    ensures std / mean >= SETTLED_PERIOD_CV <==> TooVaried(variance, mean)
  {
    var t, q := SETTLED_PERIOD_CV * mean, std / mean;
    assert q * mean == std;
    SquareOrder(std, t);
    ScaleOrder(q, SETTLED_PERIOD_CV, mean);
  }

  lemma {:induction false} SumSplit(v: seq<real>, w: seq<real>)
    ensures Sum(v + w) == Sum(v) + Sum(w)
  {
    if w == [] {
      assert v + w == v;
    } else {
      assert (v + w)[..|v + w| - 1] == v + w[..|w| - 1];
      SumSplit(v, w[..|w| - 1]);
    }
  }

  lemma {:induction false} SquaredDeviationsSplit(v: seq<real>, w: seq<real>, m: real)
    ensures SquaredDeviations(v + w, m) == SquaredDeviations(v, m) + SquaredDeviations(w, m)
  {
    if w == [] {
      assert v + w == v;
    } else {
      assert (v + w)[..|v + w| - 1] == v + w[..|w| - 1];
      SquaredDeviationsSplit(v, w[..|w| - 1], m);
    }
  }

  function SumOfDeviations(v: seq<real>, m: real): real {
    if v == [] then 0.0 else SumOfDeviations(v[..|v| - 1], m) + (v[|v| - 1] - m)
  }

  lemma {:induction false} SumOfDeviationsIs(v: seq<real>, m: real)
    ensures SumOfDeviations(v, m) == Sum(v) - |v| as real * m
  {
    if v != [] {
      SumOfDeviationsIs(v[..|v| - 1], m);
    }
  }

  lemma {:induction false} SumOfDeviationsSplit(v: seq<real>, w: seq<real>, m: real)
    ensures SumOfDeviations(v + w, m) == SumOfDeviations(v, m) + SumOfDeviations(w, m)
  {
    if w == [] {
      assert v + w == v;
    } else {
      assert (v + w)[..|v + w| - 1] == v + w[..|w| - 1];
      SumOfDeviationsSplit(v, w[..|w| - 1], m);
    }
  }

  /** `k` numbers with sum `s` and sum of squares `q`. */
  predicate Cauchy(s: real, k: real, q: real) {
    q >= 0.0 && k >= 0.0 && (k == 0.0 ==> s == 0.0) && Square(s) <= k * q
  }

  lemma CauchyStep(s: real, k: real, q: real, x: real)
    requires Cauchy(s, k, q)
    ensures Cauchy(s + x, k + 1.0, q + Square(x))
  {
    var rest := q + k * (x * x) - 2.0 * (s * x);
    assert (k + 1.0) * (q + x * x) - (s + x) * (s + x) == (k * q - s * s) + rest;
    assert x * x >= 0.0;
    if k > 0.0 {
      var y := s - k * x;
      assert y * y >= 0.0;
      assert k * rest == (k * q - s * s) + y * y;
      NonNegativeFactor(k, rest);
    }
  }

  lemma NonNegativeFactor(k: real, x: real)
    requires k > 0.0 && k * x >= 0.0
    ensures x >= 0.0
  {
    if x < 0.0 {
      MulPositive(k, -x);
    }
  }

  /** Cauchy-Schwarz: the square of the sum of the deviations is at most their number times the sum
      of their squares. */
  lemma {:induction false} DeviationsCauchy(v: seq<real>, m: real)
    ensures Cauchy(SumOfDeviations(v, m), |v| as real, SquaredDeviations(v, m))
  {
    if v != [] {
      hide Cauchy, Square;
      var w, x := v[..|v| - 1], v[|v| - 1] - m;
      DeviationsCauchy(w, m);
      CauchyStep(SumOfDeviations(w, m), |w| as real, SquaredDeviations(w, m), x);
      assert |v| as real == |w| as real + 1.0;
    }
  }

  lemma OneAgainstTheRest(d: real, n: real, q: real)
    requires Cauchy(-d, n - 1.0, q)
    ensures n * Square(d) <= (n - 1.0) * (q + Square(d))
  {
    assert (-d) * (-d) == d * d;
  }

  lemma Deviation(x: real, m: real)
    ensures SumOfDeviations([x], m) == x - m && SquaredDeviations([x], m) == Square(x - m)
  {
  }

  /** All values but one. */
  function Without(v: seq<real>, j: nat): seq<real>
    requires j < |v|
  {
    v[..j] + v[j + 1..]
  }

  lemma SetAside(v: seq<real>, j: nat, m: real)
    requires j < |v|
    ensures SumOfDeviations(v, m) == SumOfDeviations(Without(v, j), m) + (v[j] - m)
    ensures SquaredDeviations(v, m) == SquaredDeviations(Without(v, j), m) + Square(v[j] - m)
  {
    hide Square;
    var front, back := v[..j], v[j + 1..];
    assert v == front + ([v[j]] + back);
    SumOfDeviationsSplit(front, [v[j]] + back, m);
    SumOfDeviationsSplit([v[j]], back, m);
    SumOfDeviationsSplit(front, back, m);
    SquaredDeviationsSplit(front, [v[j]] + back, m);
    SquaredDeviationsSplit([v[j]], back, m);
    SquaredDeviationsSplit(front, back, m);
    Deviation(v[j], m);
  }

  lemma DeviationsFromMeanCancel(v: seq<real>)
    requires v != []
    ensures SumOfDeviations(v, Mean(v)) == 0.0
  {
    SumOfDeviationsIs(v, Mean(v));
  }

  /** Samuelson's inequality: no value is further from the mean than `sqrt(n - 1)` standard
      deviations. */
  lemma Samuelson(v: seq<real>, j: nat)
    requires j < |v|
    ensures var n := |v| as real; n * Square(v[j] - Mean(v)) <= (n - 1.0) * SquaredDeviations(v, Mean(v))
  {
    hide Mean, Cauchy, Square, SumOfDeviations, SquaredDeviations;
    var m, d, n := Mean(v), v[j] - Mean(v), |v| as real;
    DeviationsFromMeanCancel(v);
    SetAside(v, j, m);
    DeviationsCauchy(Without(v, j), m);
    assert |Without(v, j)| as real == n - 1.0;
    OneAgainstTheRest(d, n, SquaredDeviations(Without(v, j), m));
  }
}

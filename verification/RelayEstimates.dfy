/** What the relay engine reports and when it settles, told from the samples alone. */
module RelayEstimates {
  import opened RealMath
  import opened Autotune
  import opened RelayHistory
  import opened Settlement

  // ---------- the estimates ----------

  ghost predicate Within(flips: seq<nat>, ins: seq<Sample>) {
    forall k :: 0 <= k < |flips| ==> flips[k] < |ins|
  }

  /** The samples that ended the high phases, and those that ended the low ones. */
  ghost function Peaks(ins: seq<Sample>, f: seq<nat>): seq<real>
    requires Within(f, ins)
  {
    seq((|f| + 1) / 2, j requires 0 <= j < (|f| + 1) / 2 => ins[f[2 * j]].pv)
  }

  ghost function Troughs(ins: seq<Sample>, f: seq<nat>): seq<real>
    requires Within(f, ins)
  {
    seq(|f| / 2, j requires 0 <= j < |f| / 2 => ins[f[2 * j + 1]].pv)
  }

  /** From the average trough to the average peak. */
  ghost function Swing(ins: seq<Sample>, f: seq<nat>): real
    requires Within(f, ins) && |f| >= 2
  {
    Sum(Peaks(ins, f)) / ((|f| + 1) / 2) as real - Sum(Troughs(ins, f)) / (|f| / 2) as real
  }

  lemma FlipsWithin(s: EngineState, ins: seq<Sample>, f: seq<nat>)
    requires Durations(s, ins, f)
    ensures Within(f, ins)
  {
  }

  lemma ExtremaAre(s: EngineState, ins: seq<Sample>, f: seq<nat>)
    requires Within(f, ins) && Extrema(s, ins, f)
    ensures s.highPeaks == Peaks(ins, f) && s.lowTroughs == Troughs(ins, f)
  {
    forall j | 0 <= j < |s.highPeaks| ensures s.highPeaks[j] == Peaks(ins, f)[j] {
      assert Recorded(s, 2 * j) == Some(ins[f[2 * j]].pv);
    }
    forall j | 0 <= j < |s.lowTroughs| ensures s.lowTroughs[j] == Troughs(ins, f)[j] {
      assert Recorded(s, 2 * j + 1) == Some(ins[f[2 * j + 1]].pv);
    }
  }

  lemma AmplitudeIs(s: EngineState, ins: seq<Sample>, f: seq<nat>)
    requires Within(f, ins) && Extrema(s, ins, f) && |f| >= 2
    ensures 2.0 * Amplitude(s) == Swing(ins, f)
  {
    ExtremaAre(s, ins, f);
  }

  /** The gain `ku` of the relay's describing function: a relay of amplitude `amp` that makes the plant swing by
      `swing` from trough to peak. */
  predicate DescribingGain(ku: real, swing: real, amp: real) {
    (ku * swing) * PI == 8.0 * amp
  }

  /** On plain numbers: it is the one the engine computes from the amplitude. */
  lemma GainOfSwing(amp: real, amplitude: real, swing: real)
    requires amplitude > 0.0 && 2.0 * amplitude == swing
    ensures DescribingGain(UltimateGain(amp, amplitude), swing, amp)
  {
    GainTimesAmplitude(amp, amplitude);
    var ku := UltimateGain(amp, amplitude);
    assert (ku * swing) * PI == 2.0 * (ku * (PI * amplitude));
  }

  // ---------- the settlement test ----------

  function SumSquares(v: seq<real>): real {
    if v == [] then 0.0 else SumSquares(v[..|v| - 1]) + Square(v[|v| - 1])
  }

  /** Six durations whose standard deviation is below a fifth of their mean. */
  predicate Steady(v: seq<real>) {
    Sum(v) > 0.0 && 6.0 * SumSquares(v) < 1.04 * (Sum(v) * Sum(v))
  }

  /** The sum of squared deviations of `n` values with sum `s` and sum of squares `q` from `m`. */
  function Expanded(q: real, s: real, n: real, m: real): real {
    q - 2.0 * (m * s) + n * (m * m)
  }

  lemma ExpandStep(q: real, s: real, n: real, x: real, m: real)
    ensures Expanded(q, s, n, m) + Square(x - m) == Expanded(q + Square(x), s + x, n + 1.0, m)
  {
    assert Square(x - m) == x * x - 2.0 * (m * x) + m * m;
    assert m * (s + x) == m * s + m * x;
  }

  lemma ExpandNone(m: real)
    ensures Expanded(0.0, 0.0, 0.0, m) == 0.0
  {
  }

  lemma {:induction false} DeviationsExpand(v: seq<real>, m: real)
    ensures SquaredDeviations(v, m) == Expanded(SumSquares(v), Sum(v), |v| as real, m)
  {
    hide Square, Expanded;
    if v == [] {
      ExpandNone(m);
    } else {
      var w := v[..|v| - 1];
      DeviationsExpand(w, m);
      ExpandStep(SumSquares(w), Sum(w), |w| as real, v[|v| - 1], m);
      assert |v| as real == |w| as real + 1.0;
    }
  }

  lemma SteadyIff(v: seq<real>)
    requires |v| == 6
    ensures Steady(v) <==> Mean(v) > 0.0 && !TooVaried(Variance(v, Mean(v)), Mean(v))
  {
    DeviationsExpand(v, Mean(v));
    MeanOfSix(v);
    SteadySum(Mean(v), Sum(v), SumSquares(v), SquaredDeviations(v, Mean(v)));
    hide Mean, Sum, SumSquares, SquaredDeviations, TooVaried, Expanded;
  }

  /** On plain numbers: six values with mean `m`, sum `s`, sum of squares `q` and of squared deviations `d`. */
  lemma SteadySum(m: real, s: real, q: real, d: real)
    requires s == 6.0 * m && d == Expanded(q, s, 6.0, m)
    ensures s > 0.0 && 6.0 * q < 1.04 * (s * s) <==> m > 0.0 && !TooVaried(d / 6.0, m)
  {
    var mm := m * m;
    assert m * s == 6.0 * mm && s * s == 36.0 * mm;
    assert Square(SETTLED_PERIOD_CV * m) == 0.04 * mm;
  }

  /** The durations of the last six phases. */
  ghost function LastSix(ins: seq<Sample>, f: seq<nat>): (v: seq<real>)
    requires |f| >= 6
    ensures |v| == 6
  {
    seq(6, j requires 0 <= j < 6 => PhaseTime(ins, f, |f| - 6 + j + 1) - PhaseTime(ins, f, |f| - 6 + j))
  }

  lemma WindowIs(s: EngineState, ins: seq<Sample>, f: seq<nat>)
    requires Durations(s, ins, f) && |f| >= 6
    ensures Window(s.halfPeriods) == LastSix(ins, f)
  {
    hide PhaseTime, TimeUpTo;
  }

  /** Three full cycles have been seen and the last six phases took about the same time. */
  ghost predicate SteadyCycles(ins: seq<Sample>, f: seq<nat>) {
    |f| >= 6 && Steady(LastSix(ins, f))
  }

  lemma CheckIff(s: EngineState, pvRef: real, ins: seq<Sample>)
    requires Histories(s, pvRef, ins)
    ensures var f := Flips(pvRef, ins);
            && (SettlementCheck(s).Some? <==> SteadyCycles(ins, f))
            && (SettlementCheck(s).Some? ==>
                  Within(f, ins)
                  && var (ku, tu, amplitude) := SettlementCheck(s).value;
                     && 2.0 * amplitude == Swing(ins, f)
                     && DescribingGain(ku, Swing(ins, f), s.config.amp)
                     && tu * 3.0 == PhaseTime(ins, f, |f|) - PhaseTime(ins, f, |f| - 6))
  {
    hide Mean, Variance, TooVaried, Amplitude, UltimateGain, Swing, Steady, Flips, Sum, PhaseTime, LastSix, Window;
    hide Peaks, Troughs, TimeUpTo, SettlementCheck;
    var f := Flips(pvRef, ins);
    CyclesCountHalfPeriods(s, pvRef, ins);
    FlipsWithin(s, ins, f);
    CheckParts(s);
    if |f| >= 6 {
      AmplitudePositive(s, pvRef, ins);
      AmplitudeIs(s, ins, f);
      WindowIs(s, ins, f);
      SteadyIff(LastSix(ins, f));
      GainOfSwing(s.config.amp, Amplitude(s), Swing(ins, f));
      LastThreeCycles(s, ins, f);
    }
  }

  lemma CheckParts(s: EngineState)
    ensures var w := Window(s.halfPeriods);
            && (SettlementCheck(s).Some?
                <==> && s.Cycles() >= 3 && Mean(w) > 0.0 && !TooVaried(Variance(w, Mean(w)), Mean(w))
                     && Amplitude(s) > 0.0)
            && (SettlementCheck(s).Some? ==>
                  SettlementCheck(s).value == (UltimateGain(s.config.amp, Amplitude(s)), 2.0 * Mean(w), Amplitude(s)))
  {
    hide Mean, TooVaried, Variance, Amplitude, UltimateGain, Window;
  }

  lemma LastThreeCycles(s: EngineState, ins: seq<Sample>, f: seq<nat>)
    requires Durations(s, ins, f) && |f| >= 6
    ensures 2.0 * Mean(Window(s.halfPeriods)) * 3.0 == PhaseTime(ins, f, |f|) - PhaseTime(ins, f, |f| - 6)
  {
    hide PhaseTime, Mean, Sum, TimeUpTo;
    SumOfLast(s.halfPeriods, ins, f, |f| - 6);
    MeanOfSix(Window(s.halfPeriods));
  }

  // ---------- the events of a tick ----------

  lemma CheckIgnoresFlag(s: EngineState, settled: bool)
    ensures SettlementCheck(s.(settled := settled)) == SettlementCheck(s)
    ensures PeriodEstimate(s.(settled := settled)) == PeriodEstimate(s)
  {
    hide Mean, TooVaried, Variance, UltimateGain, Window;
  }

  lemma CrossingEvents(s: EngineState, pv: real, dt: real)
    requires Crosses(s.relay, pv, s.pvRef.GetOr(pv))
    ensures var (t, events) := Ticked(s, pv, dt);
            && 1 <= |events| <= 2 && events[0] == RelayFlip(t.CurrentCv(), pv, t.elapsedSecs)
            && (t.settled <==> s.settled || (s.relay == Low && SettlementCheck(t).Some?))
            && (|events| == 2 ==>
                  if s.relay == High then
                    PeriodEstimate(t).Some?
                    && events[1] == PeriodDetected(PeriodEstimate(t).value.0, PeriodEstimate(t).value.1)
                  else
                    SettlementCheck(t).Some?
                    && var (ku, tu, amplitude) := SettlementCheck(t).value;
                       events[1] == Settled(ku, tu, amplitude, t.Cycles()))
  {
    hide SettlementCheck, PeriodEstimate;
    var t := Ticked(s, pv, dt).0;
    CheckIgnoresFlag(t, s.settled);
  }

  lemma QuietEvents(s: EngineState, pv: real, dt: real)
    requires !Crosses(s.relay, pv, s.pvRef.GetOr(pv))
    ensures var (t, events) := Ticked(s, pv, dt); events == [] && t.settled == s.settled
  {
  }

  lemma MeanPeriod(s: EngineState, ins: seq<Sample>, f: seq<nat>)
    requires Durations(s, ins, f) && f != []
    ensures (2.0 * Mean(s.halfPeriods)) * |f| as real == 2.0 * PhaseTime(ins, f, |f|)
  {
    PhasesTelescope(s.halfPeriods, ins, f, |f|);
    hide PhaseTime, TimeUpTo, Sum;
    assert s.halfPeriods[..|f|] == s.halfPeriods;
    assert Mean(s.halfPeriods) * |f| as real == PhaseTime(ins, f, |f|);
  }

  /** A relay that has just flipped at the last sample. */
  ghost predicate JustFlipped(ins: seq<Sample>, f: seq<nat>) {
    f != [] && f[|f| - 1] == |ins| - 1
  }

  lemma FlippedIff(s: EngineState, pvRef: real, ins: seq<Sample>)
    requires ins != [] && Histories(s, pvRef, ins[..|ins| - 1])
    ensures JustFlipped(ins, Flips(pvRef, ins)) <==> Crosses(s.relay, ins[|ins| - 1].pv, pvRef)
    ensures JustFlipped(ins, Flips(pvRef, ins)) ==> (s.relay == Low <==> |Flips(pvRef, ins)| % 2 == 0)
  {
    hide Crosses, Flips, Durations, Extrema, RunningPhase, PhaseStart, JustFlipped, Within;
    var before := ins[..|ins| - 1];
    var f, g := Flips(pvRef, before), Flips(pvRef, ins);
    FlipsStep(pvRef, before, ins);
    FlipsWithin(s, before, f);
    ExtremaParity(s, before, f);
    LastFlip(ins, f, g, Crosses(s.relay, ins[|ins| - 1].pv, pvRef));
  }

  lemma LastFlip(ins: seq<Sample>, f: seq<nat>, g: seq<nat>, crosses: bool)
    requires ins != [] && Within(f, ins[..|ins| - 1]) && g == if crosses then f + [|ins| - 1] else f
    ensures JustFlipped(ins, g) <==> crosses
  {
  }

  /** The engine before its last sample, and after it. */
  lemma LastTick(s: EngineState, ins: seq<Sample>)
    requires Untouched(s) && ins != []
    ensures var before, r := ins[..|ins| - 1], Reference(s, ins);
            && Histories(Run(s, before), r, before) && Run(s, before).pvRef.GetOr(ins[|ins| - 1].pv) == r
            && Histories(Run(s, ins), r, ins) && Run(s, ins).config == s.config
  {
    hide Histories, Ticked;
    var before, r := ins[..|ins| - 1], Reference(s, ins);
    ReferenceIsKept(s, before);
    ReferenceIsKept(s, ins);
    RunHistories(s, ins);
    if before == [] && s.pvRef.None? {
      FreshHistories(s, r);
    } else {
      assert Reference(s, before) == r;
      RunHistories(s, before);
    }
  }

  lemma PeriodIs(s: EngineState, pvRef: real, ins: seq<Sample>)
    requires Histories(s, pvRef, ins) && PeriodEstimate(s).Some?
    ensures var f := Flips(pvRef, ins);
            && |f| >= 2 && Within(f, ins)
            && PeriodEstimate(s).value.1 > 0.0 && 2.0 * PeriodEstimate(s).value.1 == Swing(ins, f)
            && PeriodEstimate(s).value.0 * |f| as real == 2.0 * PhaseTime(ins, f, |f|)
  {
    hide Swing, Flips, PhaseTime, TimeUpTo, Mean, Amplitude, RunningPhase;
    var f := Flips(pvRef, ins);
    FlipsWithin(s, ins, f);
    AmplitudeIs(s, ins, f);
    MeanPeriod(s, ins, f);
  }

  lemma CountsOf(s: EngineState, pvRef: real, ins: seq<Sample>)
    requires Histories(s, pvRef, ins)
    ensures var f := Flips(pvRef, ins);
            && Within(f, ins)
            && s.Cycles() == |f| / 2 && s.elapsedSecs == TimeUpTo(ins, |ins|) && s.samples == |ins|
            && s.CurrentCv() == s.config.bias + if |f| % 2 == 1 then -s.config.amp else s.config.amp
  {
    hide TimeUpTo, Flips, PhaseTime, RunningPhase;
    FlipsWithin(s, ins, Flips(pvRef, ins));
  }

  /** What an event says about the samples up to it. A flip reports the crossing sample and the relay's new
      output; a period, from the first trough on at every peak, twice the mean duration of the phases and half
      the distance between average peak and average trough; and settlement, at the end of a steady cycle, the
      mean duration of the last three cycles and the gain that belongs to that distance. */
  ghost predicate Tells(c: AutotuneConfig, ins: seq<Sample>, f: seq<nat>, e: RelayEvent)
    requires ins != [] && Within(f, ins)
  {
    match e
    case RelayFlip(cv, pv, elapsedSecs) =>
      && pv == ins[|ins| - 1].pv && elapsedSecs == TimeUpTo(ins, |ins|)
      && cv == c.bias + if |f| % 2 == 1 then -c.amp else c.amp
    case PeriodDetected(tu, amplitude) =>
      && |f| >= 3 && |f| % 2 == 1
      && 2.0 * amplitude == Swing(ins, f)
      && tu * |f| as real == 2.0 * PhaseTime(ins, f, |f|)
    case Settled(ku, tu, amplitude, cycles) =>
      && SteadyCycles(ins, f) && |f| % 2 == 0 && cycles == |f| / 2
      && 2.0 * amplitude == Swing(ins, f)
      && DescribingGain(ku, Swing(ins, f), c.amp)
      && tu * 3.0 == PhaseTime(ins, f, |f|) - PhaseTime(ins, f, |f| - 6)
  }

  lemma FlipTells(s: EngineState, pvRef: real, ins: seq<Sample>)
    requires Histories(s, pvRef, ins) && ins != []
    ensures Within(Flips(pvRef, ins), ins)
    ensures Tells(s.config, ins, Flips(pvRef, ins), RelayFlip(s.CurrentCv(), ins[|ins| - 1].pv, s.elapsedSecs))
  {
    hide Flips, Histories, TimeUpTo, EngineState.CurrentCv, Within;
    CountsOf(s, pvRef, ins);
  }

  lemma PeriodTells(s: EngineState, pvRef: real, ins: seq<Sample>)
    requires Histories(s, pvRef, ins) && ins != [] && PeriodEstimate(s).Some? && |Flips(pvRef, ins)| % 2 == 1
    ensures Within(Flips(pvRef, ins), ins)
    ensures Tells(s.config, ins, Flips(pvRef, ins),
                  PeriodDetected(PeriodEstimate(s).value.0, PeriodEstimate(s).value.1))
  {
    hide Flips, Histories, PeriodEstimate, Swing, PhaseTime, Within;
    PeriodIs(s, pvRef, ins);
  }

  lemma SettlementTells(s: EngineState, pvRef: real, ins: seq<Sample>)
    requires Histories(s, pvRef, ins) && ins != [] && SettlementCheck(s).Some? && |Flips(pvRef, ins)| % 2 == 0
    ensures Within(Flips(pvRef, ins), ins)
    ensures var (ku, tu, amplitude) := SettlementCheck(s).value;
            Tells(s.config, ins, Flips(pvRef, ins), Settled(ku, tu, amplitude, s.Cycles()))
  {
    hide Flips, Histories, SettlementCheck, Swing, PhaseTime, Within, SteadyCycles, DescribingGain, EngineState.Cycles;
    CheckIff(s, pvRef, ins);
    CountsOf(s, pvRef, ins);
  }

  /** Every event of a run is sent with a flip, and tells the truth about the samples so far. */
  lemma EventMeans(s: EngineState, ins: seq<Sample>, e: RelayEvent)
    requires Untouched(s) && ins != []
    requires e in Ticked(Run(s, ins[..|ins| - 1]), ins[|ins| - 1].pv, ins[|ins| - 1].dt).1
    ensures var f := Flips(Reference(s, ins), ins);
            JustFlipped(ins, f) && Within(f, ins) && Tells(s.config, ins, f, e)
  {
    hide Ticked, Flips, SettlementCheck, PeriodEstimate, Crosses, Tells, Within, Histories, Run, JustFlipped;
    hide EngineState.Cycles, EngineState.CurrentCv;
    LastTick(s, ins);
    RunLast(s, ins);
    var b, t, r, x := Run(s, ins[..|ins| - 1]), Run(s, ins), Reference(s, ins), ins[|ins| - 1];
    FlippedIff(b, r, ins);
    if Crosses(b.relay, x.pv, r) {
      CrossingEvents(b, x.pv, x.dt);
      FlipTells(t, r, ins);
      if e == Ticked(b, x.pv, x.dt).1[0] {
      } else if b.relay == High {
        PeriodTells(t, r, ins);
      } else {
        SettlementTells(t, r, ins);
      }
    } else {
      QuietEvents(b, x.pv, x.dt);
    }
  }

  lemma RunLast(s: EngineState, ins: seq<Sample>)
    requires ins != []
    ensures Run(s, ins) == Ticked(Run(s, ins[..|ins| - 1]), ins[|ins| - 1].pv, ins[|ins| - 1].dt).0
  {
    hide Ticked;
  }

  // ---------- settlement and the result ----------

  /** The sample ends a cycle, and the cycles are steady. */
  ghost predicate EndsSteadyCycle(pvRef: real, ins: seq<Sample>) {
    var f := Flips(pvRef, ins);
    JustFlipped(ins, f) && |f| % 2 == 0 && SteadyCycles(ins, f)
  }

  /** The engine is settled exactly when some sample so far ended a steady cycle. */
  lemma {:induction false} SettledIff(s: EngineState, ins: seq<Sample>)
    requires Untouched(s) && (s.pvRef.Some? || ins != [])
    ensures Run(s, ins).settled
            <==> exists n :: 0 < n <= |ins| && EndsSteadyCycle(Reference(s, ins), ins[..n])
    decreases |ins|
  {
    if ins != [] {
      var before, r := ins[..|ins| - 1], Reference(s, ins);
      SettledTick(s, ins);
      assert ins[..|ins|] == ins;
      hide Run, EndsSteadyCycle;
      if before != [] || s.pvRef.Some? {
        SettledIff(s, before);
        assert Reference(s, before) == r;
        forall n | 0 < n <= |before|
          ensures before[..n] == ins[..n]
        {
        }
        if n :| 0 < n <= |before| && EndsSteadyCycle(r, before[..n]) {
          assert EndsSteadyCycle(r, ins[..n]);
        }
        if n :| 0 < n <= |ins| && EndsSteadyCycle(r, ins[..n]) {
          assert n < |ins| ==> EndsSteadyCycle(r, before[..n]);
        }
      } else {
        NotSettledAtFirst(s);
      }
    }
  }

  lemma NotSettledAtFirst(s: EngineState)
    requires Untouched(s)
    ensures !Run(s, []).settled
  {
  }

  lemma SettledTick(s: EngineState, ins: seq<Sample>)
    requires Untouched(s) && ins != []
    ensures Run(s, ins).settled
            <==> Run(s, ins[..|ins| - 1]).settled || EndsSteadyCycle(Reference(s, ins), ins)
  {
    hide Ticked, Flips, Swing, PhaseTime, TimeUpTo, SettlementCheck, Steady, LastSix, Crosses, Durations, RunningPhase;
    LastTick(s, ins);
    var b, r, x := Run(s, ins[..|ins| - 1]), Reference(s, ins), ins[|ins| - 1];
    FlippedIff(b, r, ins);
    CheckIff(Run(s, ins), r, ins);
    if Crosses(b.relay, x.pv, r) {
      CrossingEvents(b, x.pv, x.dt);
    } else {
      QuietEvents(b, x.pv, x.dt);
    }
  }

  /** The tuning rules: proportional gain as a part of the ultimate gain, integral and derivative time as parts
      of the ultimate period. */
  predicate TunedBy(rule: TuningRule, ku: real, tu: real, kp: real, ki: real, kd: real) {
    match rule
    case Pi => 20.0 * kp == 9.0 * ku && 5.0 * (ki * tu) == 6.0 * kp && kd == 0.0
    case Pid => 5.0 * kp == 3.0 * ku && ki * tu == 2.0 * kp && 8.0 * kd == kp * tu
    case Tl => 16.0 * kp == 5.0 * ku && 11.0 * (ki * tu) == 5.0 * kp && 63.0 * kd == 10.0 * (kp * tu)
  }

  lemma GainsTuned(rule: TuningRule, ku: real, tu: real)
    requires tu != 0.0
    ensures var (kp, ki, kd) := rule.Gains(ku, tu); TunedBy(rule, ku, tu, kp, ki, kd)
  {
    var (kp, ki, kd) := rule.Gains(ku, tu);
    match rule
    case Pi => assert ki * tu == kp * 1.2;
    case Pid => assert ki * tu == kp * 2.0;
    case Tl => assert ki * (2.2 * tu) == kp;
  }

  /** The mean duration of the last three cycles if they were steady, or else of all. */
  ghost predicate MeanCycle(ins: seq<Sample>, f: seq<nat>, tu: real)
    requires f != []
  {
    if SteadyCycles(ins, f) then tu * 3.0 == PhaseTime(ins, f, |f|) - PhaseTime(ins, f, |f| - 6)
    else tu * |f| as real == 2.0 * PhaseTime(ins, f, |f|)
  }

  lemma BestEstimatesMean(s: EngineState, pvRef: real, ins: seq<Sample>)
    requires Histories(s, pvRef, ins) && BestEstimates(s).Some?
    ensures var f := Flips(pvRef, ins);
            && |f| >= 2 && Within(f, ins)
            && DescribingGain(BestEstimates(s).value.0, Swing(ins, f), s.config.amp)
            && MeanCycle(ins, f, BestEstimates(s).value.1)
  {
    hide Flips, Swing, PhaseTime, SettlementCheck, PeriodEstimate, SteadyCycles, Histories, UltimateGain, Within;
    hide DescribingGain, EngineState.Cycles;
    CheckIff(s, pvRef, ins);
    if SettlementCheck(s).None? {
      PeriodIs(s, pvRef, ins);
      GainOfSwing(s.config.amp, PeriodEstimate(s).value.1, Swing(ins, Flips(pvRef, ins)));
    } else {
      CheckedFlips(ins, Flips(pvRef, ins));
    }
  }

  lemma CheckedFlips(ins: seq<Sample>, f: seq<nat>)
    requires SteadyCycles(ins, f)
    ensures |f| >= 6
  {
    hide Steady;
  }

  /** The result after any run: the gain that belongs to the distance between average peak and average trough,
      the mean duration of the last three cycles if they were steady or else of all phases so far, and the
      gains the tuning rule makes of these two. */
  lemma ResultMeans(s: EngineState, ins: seq<Sample>, rule: TuningRule)
    requires Untouched(s) && (s.pvRef.Some? || ins != []) && PositiveTime(ins) && s.config.amp > 0.0
    ensures var t, f := Run(s, ins), Flips(Reference(s, ins), ins);
            && Within(f, ins)
            && (BestEstimates(t).Some? ==> BestEstimates(t).value.1 > 0.0)
            && var result := ResultOf(t, rule);
               && (result.Some? <==> |f| >= 4)
               && (result.Some? ==>
                     var r := result.value;
                     && DescribingGain(r.ku, Swing(ins, f), s.config.amp) && 3.14159265358979 < PI < 3.14159265358980
                     && MeanCycle(ins, f, r.tu)
                     && TunedBy(rule, r.ku, r.tu, r.kp, r.ki, r.kd)
                     && r.rule == rule && r.cycles == |f| / 2 && r.samples == |ins|)
  {
    hide Run, Flips, Swing, BestEstimates, MeanCycle, DescribingGain, Histories, TunedBy, TuningRule.Gains;
    hide Within, EngineState.Cycles, PositiveTime;
    RunHistories(s, ins);
    ReferenceIsKept(s, ins);
    ResultIff(s, ins, rule);
    var t, r := Run(s, ins), Reference(s, ins);
    CountsOf(t, r, ins);
    if BestEstimates(t).Some? {
      BestEstimatesMean(t, r, ins);
      GainsTuned(rule, BestEstimates(t).value.0, BestEstimates(t).value.1);
    }
  }
}

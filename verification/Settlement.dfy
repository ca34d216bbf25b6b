/** What the settlement test guarantees, and when the engine has a result. */
module Settlement {
  import opened RealMath
  import opened Autotune
  import opened RelayHistory

  // ---------- the test ----------

  /** On plain numbers: Samuelson's bound for six values whose variance passed the test. */
  lemma SixValues(d2: real, squares: real, mean: real)
    requires 6.0 * d2 <= 5.0 * squares && !TooVaried(squares / 6.0, mean)
    ensures d2 < SETTLED_PERIOD_CV * Square(mean)
  {
    assert Square(SETTLED_PERIOD_CV * mean) == (SETTLED_PERIOD_CV * SETTLED_PERIOD_CV) * Square(mean);
  }

  /** When the test passes on six half-periods, each of them is within `sqrt(0.2)` of their mean. */
  lemma SteadyWindow(window: seq<real>, j: nat)
    requires |window| == 2 * MIN_CYCLES && j < |window|
    requires !TooVaried(Variance(window, Mean(window)), Mean(window))
    ensures Square(window[j] - Mean(window)) < SETTLED_PERIOD_CV * Square(Mean(window))
  {
    Samuelson(window, j);
    hide Mean, SquaredDeviations, Square, TooVaried;
    SixValues(Square(window[j] - Mean(window)), SquaredDeviations(window, Mean(window)), Mean(window));
  }

  /** ... and so it lies between 0.55 and 1.45 times the mean. */
  lemma WithinHalf(x: real, mean: real)
    requires mean > 0.0 && Square(x - mean) < SETTLED_PERIOD_CV * Square(mean)
    ensures 0.55 * mean < x < 1.45 * mean
  {
    var d, t := x - mean, 0.45 * mean;
    MulPositive(mean, mean);
    assert d * d < t * t;
    if d >= t { MulNonNegative(d - t, d + t); }
    if -d >= t { MulNonNegative(-d - t, t - d); }
  }

  lemma WindowIsLastSix(halfPeriods: seq<real>)
    requires |halfPeriods| >= 2 * MIN_CYCLES
    ensures |Window(halfPeriods)| == 2 * MIN_CYCLES
    ensures forall j :: 0 <= j < 2 * MIN_CYCLES
              ==> Window(halfPeriods)[j] == halfPeriods[|halfPeriods| - 2 * MIN_CYCLES + j]
  {
  }

  lemma CyclesCountHalfPeriods(s: EngineState, pvRef: real, ins: seq<Sample>)
    requires Histories(s, pvRef, ins)
    ensures |s.halfPeriods| >= 2 * s.Cycles()
    ensures s.Cycles() == |s.halfPeriods| / 2 == |s.lowTroughs|
  {
  }

  /** The tick that settles the engine. */
  ghost predicate Settles(s: EngineState, ins: seq<Sample>) {
    ins != [] && Run(s, ins).settled && !Run(s, ins[..|ins| - 1]).settled
  }

  lemma SettlingTick(s: EngineState, pv: real, dt: real)
    requires !s.settled && Ticked(s, pv, dt).0.settled
    ensures var t := Ticked(s, pv, dt).0;
            SettlementCheck(t.(settled := false)).Some? && t.Cycles() >= MIN_CYCLES
    ensures var (t, events) := Ticked(s, pv, dt);
            && |events| == 2 && events[1].Settled?
            && events[1].tu == 2.0 * Mean(Window(t.halfPeriods)) && Mean(Window(t.halfPeriods)) > 0.0
            && events[1].amplitude == Amplitude(t) > 0.0
            && events[1].ku == UltimateGain(t.config.amp, Amplitude(t)) && events[1].cycles == t.Cycles()
  {
  }

  lemma CheckPasses(s: EngineState)
    requires SettlementCheck(s).Some?
    ensures var w := Window(s.halfPeriods);
            Mean(w) > 0.0 && !TooVaried(Variance(w, Mean(w)), Mean(w)) && s.Cycles() >= MIN_CYCLES && Amplitude(s) > 0.0
  {
  }

  lemma CheckedHalfPeriods(s: EngineState, i: nat)
    requires SettlementCheck(s).Some? && |s.halfPeriods| >= 2 * MIN_CYCLES
    requires |s.halfPeriods| - 2 * MIN_CYCLES <= i < |s.halfPeriods|
    ensures var h, mean := s.halfPeriods, Mean(Window(s.halfPeriods));
            && mean > 0.0
            && Square(h[i] - mean) < SETTLED_PERIOD_CV * Square(mean)
            && 0.55 * mean < h[i] < 1.45 * mean
  {
    var h := s.halfPeriods;
    CheckPasses(s);
    WindowIsLastSix(h);
    hide Mean, Variance, TooVaried, Square, Window, SettlementCheck;
    SteadyWindow(Window(h), i - (|h| - 2 * MIN_CYCLES));
    WithinHalf(h[i], Mean(Window(h)));
  }

  /** When the engine settles, each of the last six half-periods is within `sqrt(0.2)` of the mean that
      is reported as half the period. */
  lemma SettledMeansSteady(s: EngineState, ins: seq<Sample>, i: nat)
    requires Untouched(s) && Settles(s, ins)
    requires var h := Run(s, ins).halfPeriods; |h| - 2 * MIN_CYCLES <= i < |h|
    ensures var h := Run(s, ins).halfPeriods;
            var mean := Mean(Window(h));
            && |h| >= 2 * MIN_CYCLES && mean > 0.0
            && Square(h[i] - mean) < SETTLED_PERIOD_CV * Square(mean)
            && 0.55 * mean < h[i] < 1.45 * mean
  {
    hide Mean, Square, Window, Histories, Ticked, SettlementCheck, Variance, TooVaried, Amplitude, UltimateGain;
    RunHistories(s, ins);
    var t := Run(s, ins);
    SettlingTick(Run(s, ins[..|ins| - 1]), ins[|ins| - 1].pv, ins[|ins| - 1].dt);
    CyclesCountHalfPeriods(t, Reference(s, ins), ins);
    CheckedHalfPeriods(t.(settled := false), i);
  }

  lemma SumOfLast(h: seq<real>, ins: seq<Sample>, f: seq<nat>, m: nat)
    requires m <= |h| == |f|
    requires forall k :: 0 <= k < |f| ==> h[k] == PhaseTime(ins, f, k + 1) - PhaseTime(ins, f, k)
    ensures Sum(h[m..]) == PhaseTime(ins, f, |f|) - PhaseTime(ins, f, m)
  {
    hide PhaseTime;
    PhasesTelescope(h, ins, f, m);
    PhasesTelescope(h, ins, f, |h|);
    assert h[..|h|] == h == h[..m] + h[m..];
    SumSplit(h[..m], h[m..]);
  }

  lemma MeanOfSix(w: seq<real>)
    requires |w| == 2 * MIN_CYCLES
    ensures Sum(w) == 6.0 * Mean(w)
  {
  }

  lemma AmplitudeOfHistories(s: EngineState)
    requires s.highPeaks != [] && s.lowTroughs != []
    ensures 2.0 * Amplitude(s)
            == Sum(s.highPeaks) / |s.highPeaks| as real - Sum(s.lowTroughs) / |s.lowTroughs| as real
  {
    hide Sum;
  }

  /** The period reported on settlement is the mean duration of the last three full cycles, the amplitude half
      the distance between average peak and average trough, and the gain the relay's describing-function gain
      at that amplitude. */
  lemma SettledPeriodIsCycleTime(s: EngineState, ins: seq<Sample>)
    requires Untouched(s) && Settles(s, ins)
    ensures var t, f := Run(s, ins), Flips(Reference(s, ins), ins);
            var events := Ticked(Run(s, ins[..|ins| - 1]), ins[|ins| - 1].pv, ins[|ins| - 1].dt).1;
            && |f| >= 2 * MIN_CYCLES && |events| == 2 && events[1].Settled?
            && events[1].tu * MIN_CYCLES as real == PhaseTime(ins, f, |f|) - PhaseTime(ins, f, |f| - 2 * MIN_CYCLES)
            && events[1].amplitude > 0.0
            && t.highPeaks != [] && t.lowTroughs != []
            && 2.0 * events[1].amplitude
               == Sum(t.highPeaks) / |t.highPeaks| as real - Sum(t.lowTroughs) / |t.lowTroughs| as real
            && events[1].ku * (PI * events[1].amplitude) == 4.0 * s.config.amp
  {
    hide Ticked, SettlementCheck, Mean, Sum, Variance, TooVaried, Amplitude, PhaseTime;
    RunHistories(s, ins);
    ReferenceIsKept(s, ins);
    var t, f := Run(s, ins), Flips(Reference(s, ins), ins);
    SettlingTick(Run(s, ins[..|ins| - 1]), ins[|ins| - 1].pv, ins[|ins| - 1].dt);
    CyclesCountHalfPeriods(t, Reference(s, ins), ins);
    var h := t.halfPeriods;
    SumOfLast(h, ins, f, |h| - 2 * MIN_CYCLES);
    MeanOfSix(Window(h));
    AmplitudeOfHistories(t);
    GainTimesAmplitude(s.config.amp, Amplitude(t));
  }

  lemma GainTimesAmplitude(amp: real, amplitude: real)
    requires amplitude > 0.0
    ensures UltimateGain(amp, amplitude) * (PI * amplitude) == 4.0 * amp
  {
  }

  // ---------- the result ----------

  ghost predicate PositiveTime(ins: seq<Sample>) {
    forall i :: 0 <= i < |ins| ==> ins[i].dt > 0.0
  }

  lemma {:induction false} TimeIncreases(ins: seq<Sample>, m: nat, n: nat)
    requires PositiveTime(ins) && m <= n <= |ins|
    ensures TimeUpTo(ins, m) <= TimeUpTo(ins, n)
    ensures m < n ==> TimeUpTo(ins, m) < TimeUpTo(ins, n)
  {
    if m < n {
      TimeIncreases(ins, m, n - 1);
    }
  }

  /** Every half-period is positive when every tick takes time. */
  lemma HalfPeriodsPositive(s: EngineState, pvRef: real, ins: seq<Sample>)
    requires Histories(s, pvRef, ins) && PositiveTime(ins)
    ensures forall k :: 0 <= k < |s.halfPeriods| ==> s.halfPeriods[k] > 0.0
  {
    FlipsAlternate(pvRef, ins);
    hide Flips, Extrema, RunningPhase, Quiet, TimeUpTo;
    var f := Flips(pvRef, ins);
    forall k | 0 <= k < |f| ensures s.halfPeriods[k] > 0.0 {
      assert FlipsAt(pvRef, ins, f, k);
      assert s.halfPeriods[k] == PhaseTime(ins, f, k + 1) - PhaseTime(ins, f, k);
      assert PhaseTime(ins, f, k + 1) == TimeUpTo(ins, f[k] + 1);
      if k > 0 {
        assert FlipsAt(pvRef, ins, f, k - 1);
        TimeIncreases(ins, f[k - 1] + 1, f[k] + 1);
      } else {
        TimeIncreases(ins, 0, f[k] + 1);
        NoTime(ins);
      }
    }
  }

  lemma NoTime(ins: seq<Sample>)
    ensures TimeUpTo(ins, 0) == 0.0
  {
  }

  lemma UltimateGainPositive(amp: real, amplitude: real)
    requires amp > 0.0 && amplitude > 0.0
    ensures UltimateGain(amp, amplitude) > 0.0
  {
    var d, k := PI * amplitude, UltimateGain(amp, amplitude);
    assert d > 0.0 && k * d == 4.0 * amp;
    if k <= 0.0 { MulNonNegative(-k, d); }
  }

  lemma GainsPositive(rule: TuningRule, ku: real, tu: real)
    requires ku > 0.0 && tu > 0.0
    ensures var (kp, ki, kd) := rule.Gains(ku, tu); kp > 0.0 && ki > 0.0 && kd >= 0.0
  {
    MulPositive(ku, tu);
    var (kp, ki, kd) := rule.Gains(ku, tu);
    assert ki * tu > 0.0;
    if ki <= 0.0 { MulNonNegative(-ki, tu); }
  }

  /** There is an estimate exactly when two full cycles have been seen, and then it is positive. */
  lemma EstimateIff(s: EngineState, pvRef: real, ins: seq<Sample>)
    requires Histories(s, pvRef, ins) && PositiveTime(ins) && s.config.amp > 0.0
    ensures BestEstimates(s).Some? <==> s.Cycles() >= 2
    ensures BestEstimates(s).Some? ==> BestEstimates(s).value.0 > 0.0 && BestEstimates(s).value.1 > 0.0
  {
    CyclesCountHalfPeriods(s, pvRef, ins);
    if s.Cycles() >= 2 {
      AmplitudePositive(s, pvRef, ins);
      HalfPeriodsPositive(s, pvRef, ins);
      MeanAbove(s.halfPeriods, 0.0);
      UltimateGainPositive(s.config.amp, Amplitude(s));
      hide Mean, TooVaried, Window, Amplitude, UltimateGain, Histories;
    } else {
      hide Mean, TooVaried, Window, Amplitude, UltimateGain, Histories;
    }
  }

  /** After any run with a valid relay and ticks that take time, a result is available exactly from the
      second full cycle on, with positive gain and period and usable PID gains. */
  lemma ResultIff(s: EngineState, ins: seq<Sample>, rule: TuningRule)
    requires Untouched(s) && (s.pvRef.Some? || ins != []) && PositiveTime(ins) && s.config.amp > 0.0
    ensures var t := Run(s, ins);
            && (BestEstimates(t).Some? ==> BestEstimates(t).value.1 > 0.0)
            && var r := ResultOf(t, rule);
               && (r.Some? <==> t.Cycles() >= 2)
               && (r.Some? ==>
                     && r.value.ku > 0.0 && r.value.tu > 0.0
                     && r.value.kp > 0.0 && r.value.ki > 0.0 && r.value.kd >= 0.0
                     && r.value.samples == |ins|)
  {
    RunHistories(s, ins);
    ReferenceIsKept(s, ins);
    var t := Run(s, ins);
    EstimateIff(t, Reference(s, ins), ins);
    SamplesCounted(t, Reference(s, ins), ins);
    hide BestEstimates, Histories, Run, TuningRule.Gains;
    if BestEstimates(t).Some? {
      GainsPositive(rule, BestEstimates(t).value.0, BestEstimates(t).value.1);
    }
  }

  lemma SamplesCounted(s: EngineState, pvRef: real, ins: seq<Sample>)
    requires Histories(s, pvRef, ins)
    ensures s.samples == |ins|
  {
  }

  lemma CyclesGrow(s: EngineState, pv: real, dt: real)
    ensures Ticked(s, pv, dt).0.Cycles() >= s.Cycles()
  {
  }

  /** Once settled, always settled, and the result never goes away. */
  lemma {:induction false} SettledForGood(s: EngineState, ins: seq<Sample>, n: nat)
    requires Untouched(s) && n <= |ins|
    ensures Run(s, ins[..n]).settled ==> Run(s, ins).settled
    ensures Run(s, ins).settled ==> Run(s, ins).Cycles() >= MIN_CYCLES
    decreases ins
  {
    hide Ticked;
    if ins != [] {
      var before, x := ins[..|ins| - 1], ins[|ins| - 1];
      SettledForGood(s, before, if n <= |before| then n else |before|);
      CyclesGrow(Run(s, before), x.pv, x.dt);
      if Run(s, before).settled {
        SettledStays(Run(s, before), x.pv, x.dt);
      }
      if !Run(s, before).settled && Run(s, ins).settled {
        SettlingTick(Run(s, before), x.pv, x.dt);
      }
      if n <= |before| {
        assert before[..n] == ins[..n];
      } else {
        assert ins[..n] == ins;
      }
    }
  }

  lemma SettledStays(s: EngineState, pv: real, dt: real)
    requires s.settled
    ensures Ticked(s, pv, dt).0.settled
  {
  }

  /** From the tick that settles the engine on, a result with positive gain and period is present. */
  lemma SettledHasResult(s: EngineState, ins: seq<Sample>, n: nat, rule: TuningRule)
    requires Untouched(s) && 0 < n <= |ins| && PositiveTime(ins) && s.config.amp > 0.0
    requires Run(s, ins[..n]).settled
    ensures var t := Run(s, ins);
            && BestEstimates(t).Some? && BestEstimates(t).value.1 > 0.0
            && var r := ResultOf(t, rule); r.Some? && r.value.ku > 0.0 && r.value.tu > 0.0
  {
    SettledForGood(s, ins, n);
    ResultIff(s, ins, rule);
    hide Run;
  }
}

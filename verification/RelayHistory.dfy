/** Whole runs of the relay engine: what its histories hold, told from the samples alone. */
module RelayHistory {
  import opened RealMath
  import opened Autotune

  datatype Sample = Sample(pv: real, dt: real)

  function Run(s: EngineState, ins: seq<Sample>): EngineState {
    if ins == [] then s else Ticked(Run(s, ins[..|ins| - 1]), ins[|ins| - 1].pv, ins[|ins| - 1].dt).0
  }

  function Events(s: EngineState, ins: seq<Sample>): seq<RelayEvent> {
    if ins == [] then []
    else
      var before := ins[..|ins| - 1];
      Events(s, before) + Ticked(Run(s, before), ins[|ins| - 1].pv, ins[|ins| - 1].dt).1
  }

  // ---------- the reference: flips of an alternating threshold ----------

  function PosAfter(flips: nat): RelayPos {
    if flips % 2 == 0 then High else Low
  }

  /** The indices of the samples that flip the relay: each is the first one beyond the reference on
      the side the relay currently pushes towards. */
  function Flips(pvRef: real, ins: seq<Sample>): seq<nat> {
    if ins == [] then []
    else
      var f := Flips(pvRef, ins[..|ins| - 1]);
      if Crosses(PosAfter(|f|), ins[|ins| - 1].pv, pvRef) then f + [|ins| - 1] else f
  }

  /** Time covered by the first `n` samples. */
  function TimeUpTo(ins: seq<Sample>, n: nat): real
    requires n <= |ins|
  {
    if n == 0 then 0.0 else TimeUpTo(ins, n - 1) + ins[n - 1].dt
  }

  /** The first sample of the k-th phase. */
  function PhaseStart(flips: seq<nat>, k: nat): nat
    requires k <= |flips|
  {
    if k == 0 then 0 else flips[k - 1] + 1
  }

  /** No sample in `from..to` would flip a relay at `pos`. */
  ghost predicate Quiet(pvRef: real, ins: seq<Sample>, pos: RelayPos, from: nat, to: nat) {
    forall i :: from <= i < to && i < |ins| ==> !Crosses(pos, ins[i].pv, pvRef)
  }

  function PhaseEnd(ins: seq<Sample>, flips: seq<nat>, k: nat): nat
    requires k <= |flips|
  {
    if k < |flips| then flips[k] else |ins|
  }

  ghost predicate FlipsAt(pvRef: real, ins: seq<Sample>, flips: seq<nat>, k: nat)
    requires k < |flips|
  {
    PhaseStart(flips, k) <= flips[k] < |ins| && Crosses(PosAfter(k), ins[flips[k]].pv, pvRef)
  }

  /** `Flips` says what it should: each index flips on its side, and no earlier sample of its phase, nor
      any of the phase still running, is beyond the reference on that side. */
  lemma {:induction false} FlipsAlternate(pvRef: real, ins: seq<Sample>)
    ensures var f := Flips(pvRef, ins);
            && (forall k :: 0 <= k < |f| ==> FlipsAt(pvRef, ins, f, k))
            && (forall k :: 0 <= k <= |f| ==> Quiet(pvRef, ins, PosAfter(k), PhaseStart(f, k), PhaseEnd(ins, f, k)))
            && PhaseStart(f, |f|) <= |ins|
  {
    hide Crosses, PosAfter;
    if ins != [] {
      var before := ins[..|ins| - 1];
      FlipsAlternate(pvRef, before);
      var f, g := Flips(pvRef, before), Flips(pvRef, ins);
      forall k | 0 <= k < |g| ensures FlipsAt(pvRef, ins, g, k) {
        if k < |f| {
          assert FlipsAt(pvRef, before, f, k) && before[f[k]] == ins[f[k]];
        }
      }
      forall k | 0 <= k <= |g| ensures Quiet(pvRef, ins, PosAfter(k), PhaseStart(g, k), PhaseEnd(ins, g, k)) {
        if k <= |f| {
          assert Quiet(pvRef, before, PosAfter(k), PhaseStart(f, k), PhaseEnd(before, f, k));
          if k < |f| {
            assert FlipsAt(pvRef, before, f, k);
          }
          forall i | PhaseStart(g, k) <= i < PhaseEnd(ins, g, k) ensures !Crosses(PosAfter(k), ins[i].pv, pvRef) {
            if i < |before| {
              assert before[i] == ins[i];
            }
          }
        }
      }
    }
  }

  lemma {:induction false} TimeOfPrefix(ins: seq<Sample>, m: nat, n: nat)
    requires n <= m <= |ins|
    ensures TimeUpTo(ins[..m], n) == TimeUpTo(ins, n)
  {
    if n > 0 {
      TimeOfPrefix(ins, m, n - 1);
    }
  }

  // ---------- the histories ----------

  /** The time at which the k-th phase starts: the end of the sample that flipped the relay. */
  function PhaseTime(ins: seq<Sample>, flips: seq<nat>, k: nat): real
    requires k <= |flips|
  {
    if k > 0 && flips[k - 1] < |ins| then TimeUpTo(ins, flips[k - 1] + 1) else 0.0
  }

  /** Half-periods are the durations of the completed phases. */
  ghost predicate Durations(s: EngineState, ins: seq<Sample>, f: seq<nat>) {
    && |s.halfPeriods| == |f|
    && (forall k :: 0 <= k < |f| ==> f[k] < |ins|)
    && (forall k :: 0 <= k < |f| ==>
          s.halfPeriods[k] == PhaseTime(ins, f, k + 1) - PhaseTime(ins, f, k))
    && s.phaseElapsed == TimeUpTo(ins, |ins|) - PhaseTime(ins, f, |f|)
    && s.elapsedSecs == TimeUpTo(ins, |ins|)
    && s.samples == |ins|
  }

  /** The extremum recorded for the k-th completed phase. */
  function Recorded(s: EngineState, k: nat): Option<real> {
    var history := if k % 2 == 0 then s.highPeaks else s.lowTroughs;
    if k / 2 < |history| then Some(history[k / 2]) else None
  }

  /** Peaks and troughs alternate, and each is the sample that ended its phase. */
  ghost predicate Extrema(s: EngineState, ins: seq<Sample>, f: seq<nat>) {
    && s.relay == PosAfter(|f|)
    && |s.highPeaks| == (|f| + 1) / 2 && |s.lowTroughs| == |f| / 2
    && (forall k :: 0 <= k < |f| ==> f[k] < |ins| && Recorded(s, k) == Some(ins[f[k]].pv))
  }

  /** The phase still running has seen samples on its own side only. */
  ghost predicate RunningPhase(s: EngineState, pvRef: real, ins: seq<Sample>, f: seq<nat>) {
    && (s.phaseExtremum.Some? <==> PhaseStart(f, |f|) < |ins|)
    && (s.phaseExtremum.Some? ==> !Crosses(s.relay, s.phaseExtremum.value, pvRef))
  }

  /** The histories of an engine that has seen `ins`, with the reference `pvRef`. */
  ghost predicate Histories(s: EngineState, pvRef: real, ins: seq<Sample>) {
    var f := Flips(pvRef, ins);
    Durations(s, ins, f) && Extrema(s, ins, f) && RunningPhase(s, pvRef, ins, f)
  }

  /** The reference in force: set beforehand, or else the first sample. */
  function Reference(s: EngineState, ins: seq<Sample>): real
    requires s.pvRef.Some? || ins != []
  {
    if s.pvRef.Some? then s.pvRef.value else ins[0].pv
  }

  /** An engine that has not ticked yet. */
  predicate Untouched(s: EngineState) {
    s == NewEngine(s.config).(pvRef := s.pvRef)
  }

  lemma {:induction false} ReferenceIsKept(s: EngineState, ins: seq<Sample>)
    ensures Run(s, ins).config == s.config
    ensures ins == [] ==> Run(s, ins).pvRef == s.pvRef
    ensures s.pvRef.Some? || ins != [] ==> (ins != [] ==> Run(s, ins).pvRef == Some(Reference(s, ins)))
  {
    if ins != [] {
      ReferenceIsKept(s, ins[..|ins| - 1]);
    }
  }

  /** What a tick that crosses does to everything but the settled flag. */
  lemma CrossingShape(s: EngineState, pv: real, dt: real)
    requires Crosses(s.relay, pv, s.pvRef.GetOr(pv))
    ensures var t := Ticked(s, pv, dt).0;
            && t.elapsedSecs == s.elapsedSecs + dt && t.samples == s.samples + 1
            && t.pvRef == Some(s.pvRef.GetOr(pv)) && t.config == s.config
            && t.relay == (if s.relay == High then Low else High)
            && t.phaseExtremum.None? && t.phaseElapsed == 0.0
            && t.halfPeriods == s.halfPeriods + [s.phaseElapsed + dt]
            && t.highPeaks
               == s.highPeaks + (if s.relay == High then [Extended(s.phaseExtremum, pv, s.relay)] else [])
            && t.lowTroughs
               == s.lowTroughs + (if s.relay == High then [] else [Extended(s.phaseExtremum, pv, s.relay)])
  {
  }

  lemma QuietShape(s: EngineState, pv: real, dt: real)
    requires !Crosses(s.relay, pv, s.pvRef.GetOr(pv))
    ensures Ticked(s, pv, dt).0 == Sampled(s, pv, dt)
  {
  }

  /** The parts of it that closed-loop arguments need. */
  lemma TickShape(s: EngineState, pv: real, dt: real)
    ensures var t, pvRef := Ticked(s, pv, dt).0, s.pvRef.GetOr(pv);
            && t.pvRef == Some(pvRef) && t.config == s.config
            && if Crosses(s.relay, pv, pvRef) then t.relay != s.relay && |t.halfPeriods| == |s.halfPeriods| + 1
               else t.relay == s.relay && t.halfPeriods == s.halfPeriods
  {
  }

  lemma HistoriesStep(s: EngineState, pvRef: real, before: seq<Sample>, ins: seq<Sample>)
    requires ins != [] && before == ins[..|ins| - 1] && Histories(s, pvRef, before)
    requires s.pvRef.GetOr(ins[|ins| - 1].pv) == pvRef
    ensures Histories(Ticked(s, ins[|ins| - 1].pv, ins[|ins| - 1].dt).0, pvRef, ins)
  {
    hide Ticked, Flips, Crosses, PosAfter, PhaseStart, Durations, Extrema, RunningPhase;
    var x, f, g := ins[|ins| - 1], Flips(pvRef, before), Flips(pvRef, ins);
    FlipsStep(pvRef, before, ins);
    ExtremaParity(s, before, f);
    RunningExtremum(s, pvRef, before, f);
    if Crosses(s.relay, x.pv, pvRef) {
      CrossingStep(s, pvRef, before, ins, f, g);
    } else {
      QuietStep(s, pvRef, before, ins, f);
    }
  }

  /** A tick that flips the relay ends a phase in all three parts. */
  lemma CrossingStep(s: EngineState, pvRef: real, before: seq<Sample>, ins: seq<Sample>, f: seq<nat>, g: seq<nat>)
    requires ins != [] && before == ins[..|ins| - 1] && s.pvRef.GetOr(ins[|ins| - 1].pv) == pvRef
    requires Durations(s, before, f) && Extrema(s, before, f) && g == f + [|before|] && PhaseStart(f, |f|) <= |before|
    requires Crosses(s.relay, ins[|ins| - 1].pv, pvRef)
    requires s.phaseExtremum.Some? ==> !Crosses(s.relay, s.phaseExtremum.value, pvRef)
    ensures var t := Ticked(s, ins[|ins| - 1].pv, ins[|ins| - 1].dt).0;
            Durations(t, ins, g) && Extrema(t, ins, g) && RunningPhase(t, pvRef, ins, g)
  {
    var x := ins[|ins| - 1];
    var t := Ticked(s, x.pv, x.dt).0;
    hide Ticked, Crosses, Extended, Durations, Extrema, RunningPhase, PhaseStart;
    CrossingSampleIsExtremum(s.relay, s.phaseExtremum, x.pv, pvRef);
    CrossingShape(s, x.pv, x.dt);
    RunningStep(s, t, pvRef, before, ins, f, g);
    ExtremaStep(s, t, before, ins, f, g);
    DurationsStep(s, t, before, ins, f, g);
  }

  /** A tick that does not flip it extends the running phase. */
  lemma QuietStep(s: EngineState, pvRef: real, before: seq<Sample>, ins: seq<Sample>, f: seq<nat>)
    requires ins != [] && before == ins[..|ins| - 1] && s.pvRef.GetOr(ins[|ins| - 1].pv) == pvRef
    requires Durations(s, before, f) && Extrema(s, before, f) && PhaseStart(f, |f|) <= |before|
    requires !Crosses(s.relay, ins[|ins| - 1].pv, pvRef)
    requires s.phaseExtremum.Some? ==> !Crosses(s.relay, s.phaseExtremum.value, pvRef)
    ensures var t := Ticked(s, ins[|ins| - 1].pv, ins[|ins| - 1].dt).0;
            Durations(t, ins, f) && Extrema(t, ins, f) && RunningPhase(t, pvRef, ins, f)
  {
    var x := ins[|ins| - 1];
    var t := Ticked(s, x.pv, x.dt).0;
    hide Ticked, Crosses, Extended, Durations, Extrema, RunningPhase, PhaseStart;
    CrossingSampleIsExtremum(s.relay, s.phaseExtremum, x.pv, pvRef);
    QuietShape(s, x.pv, x.dt);
    RunningStep(s, t, pvRef, before, ins, f, f);
    ExtremaStep(s, t, before, ins, f, f);
    DurationsStep(s, t, before, ins, f, f);
  }

  lemma RunningExtremum(s: EngineState, pvRef: real, ins: seq<Sample>, f: seq<nat>)
    requires RunningPhase(s, pvRef, ins, f)
    ensures s.phaseExtremum.Some? ==> !Crosses(s.relay, s.phaseExtremum.value, pvRef)
  {
  }

  lemma RunningStep(s: EngineState, t: EngineState, pvRef: real, before: seq<Sample>, ins: seq<Sample>,
                    f: seq<nat>, g: seq<nat>)
    requires ins != [] && before == ins[..|ins| - 1] && PhaseStart(f, |f|) <= |before|
    requires
      || (g == f && t.phaseExtremum.Some? && !Crosses(t.relay, t.phaseExtremum.value, pvRef))
      || (g == f + [|before|] && t.phaseExtremum.None?)
    ensures RunningPhase(t, pvRef, ins, g)
  {
  }

  lemma FlipsStep(pvRef: real, before: seq<Sample>, ins: seq<Sample>)
    requires ins != [] && before == ins[..|ins| - 1]
    ensures var f := Flips(pvRef, before);
            Flips(pvRef, ins) == if Crosses(PosAfter(|f|), ins[|before|].pv, pvRef) then f + [|before|] else f
    ensures PhaseStart(Flips(pvRef, before), |Flips(pvRef, before)|) <= |before|
  {
  }

  lemma ExtremaParity(s: EngineState, ins: seq<Sample>, f: seq<nat>)
    requires Extrema(s, ins, f)
    ensures s.relay == PosAfter(|f|)
  {
  }

  lemma DurationsStep(s: EngineState, t: EngineState, before: seq<Sample>, ins: seq<Sample>, f: seq<nat>, g: seq<nat>)
    requires ins != [] && before == ins[..|ins| - 1] && Durations(s, before, f)
    requires var dt := ins[|before|].dt;
      && t.elapsedSecs == s.elapsedSecs + dt && t.samples == s.samples + 1
      && ((g == f && t.halfPeriods == s.halfPeriods && t.phaseElapsed == s.phaseElapsed + dt)
          || (g == f + [|before|] && t.halfPeriods == s.halfPeriods + [s.phaseElapsed + dt] && t.phaseElapsed == 0.0))
    ensures Durations(t, ins, g)
  {
    PhaseTimes(before, ins, f, g);
    hide TimeUpTo, PhaseTime;
    forall k | 0 <= k < |g|
      ensures g[k] < |ins| && t.halfPeriods[k] == PhaseTime(ins, g, k + 1) - PhaseTime(ins, g, k)
    {
      if k < |f| {
        assert f[k] < |before|;
      }
    }
  }

  /** A new sample leaves the earlier phases' times where they are. */
  lemma PhaseTimes(before: seq<Sample>, ins: seq<Sample>, f: seq<nat>, g: seq<nat>)
    requires ins != [] && before == ins[..|ins| - 1] && (g == f || g == f + [|before|])
    requires forall k :: 0 <= k < |f| ==> f[k] < |before|
    ensures forall k :: 0 <= k <= |f| ==> PhaseTime(before, f, k) == PhaseTime(ins, g, k)
    ensures TimeUpTo(ins, |ins|) == TimeUpTo(before, |before|) + ins[|before|].dt
    ensures g != f ==> PhaseTime(ins, g, |g|) == TimeUpTo(ins, |ins|)
  {
    TimesOfPrefix(ins, before);
  }

  /** A sample that crosses is beyond everything its phase has seen. */
  lemma CrossingSampleIsExtremum(relay: RelayPos, extremum: Option<real>, pv: real, pvRef: real)
    requires extremum.Some? ==> !Crosses(relay, extremum.value, pvRef)
    ensures if Crosses(relay, pv, pvRef) then Extended(extremum, pv, relay) == pv
            else !Crosses(relay, Extended(extremum, pv, relay), pvRef)
  {
  }

  lemma ExtremaStep(s: EngineState, t: EngineState, before: seq<Sample>, ins: seq<Sample>, f: seq<nat>, g: seq<nat>)
    requires ins != [] && before == ins[..|ins| - 1] && Extrema(s, before, f)
    requires
      || (g == f && t.relay == s.relay && t.highPeaks == s.highPeaks && t.lowTroughs == s.lowTroughs)
      || (g == f + [|before|] && t.relay != s.relay &&
          if s.relay == High then t.highPeaks == s.highPeaks + [ins[|before|].pv] && t.lowTroughs == s.lowTroughs
          else t.highPeaks == s.highPeaks && t.lowTroughs == s.lowTroughs + [ins[|before|].pv])
    ensures Extrema(t, ins, g)
  {
  }

  lemma TimesOfPrefix(ins: seq<Sample>, before: seq<Sample>)
    requires ins != [] && before == ins[..|ins| - 1]
    ensures forall n :: 0 <= n <= |before| ==> TimeUpTo(before, n) == TimeUpTo(ins, n)
    ensures TimeUpTo(ins, |ins|) == TimeUpTo(ins, |before|) + ins[|before|].dt
  {
    forall n | 0 <= n <= |before| ensures TimeUpTo(before, n) == TimeUpTo(ins, n) {
      TimeOfPrefix(ins, |before|, n);
    }
  }

  lemma FreshHistories(s: EngineState, pvRef: real)
    requires Untouched(s)
    ensures Histories(s, pvRef, [])
  {
  }

  /** After any run from an untouched engine the histories are exactly what the samples say: the relay
      has the parity of the flips, half-periods are the phases' durations, and the recorded extrema are
      the crossing samples themselves. */
  lemma {:induction false} RunHistories(s: EngineState, ins: seq<Sample>)
    requires Untouched(s) && (s.pvRef.Some? || ins != [])
    ensures Histories(Run(s, ins), Reference(s, ins), ins)
  {
    hide Histories, Ticked;
    FreshHistories(s, Reference(s, ins));
    var r := Reference(s, ins);
    if ins != [] {
      var before := ins[..|ins| - 1];
      ReferenceIsKept(s, before);
      if before == [] && s.pvRef.None? {
        FreshHistories(s, r);
      } else {
        assert Reference(s, before) == r;
        RunHistories(s, before);
      }
      HistoriesStep(Run(s, before), r, before, ins);
    }
  }

  lemma PhaseBounds(pvRef: real, ins: seq<Sample>, k: nat)
    requires k < |Flips(pvRef, ins)|
    ensures var f := Flips(pvRef, ins);
            && PhaseStart(f, k) <= f[k] < |ins|
            && forall i :: PhaseStart(f, k) <= i <= f[k] ==>
                 if k % 2 == 0 then ins[i].pv <= ins[f[k]].pv else ins[i].pv >= ins[f[k]].pv
  {
    FlipsAlternate(pvRef, ins);
    hide Flips;
    var f := Flips(pvRef, ins);
    assert FlipsAt(pvRef, ins, f, k) && Quiet(pvRef, ins, PosAfter(k), PhaseStart(f, k), PhaseEnd(ins, f, k));
  }

  /** A recorded extremum is the extremum of its whole phase, and it is the sample that ended it. */
  lemma ExtremaEndTheirPhase(s: EngineState, ins: seq<Sample>, k: nat)
    requires Untouched(s) && (s.pvRef.Some? || ins != []) && k < |Flips(Reference(s, ins), ins)|
    ensures var f := Flips(Reference(s, ins), ins);
            && PhaseStart(f, k) <= f[k] < |ins|
            && Recorded(Run(s, ins), k) == Some(ins[f[k]].pv)
            && forall i :: PhaseStart(f, k) <= i <= f[k] ==>
                 if k % 2 == 0 then ins[i].pv <= ins[f[k]].pv else ins[i].pv >= ins[f[k]].pv
  {
    RunHistories(s, ins);
    PhaseBounds(Reference(s, ins), ins, k);
    hide Run, Flips, Recorded, Durations, RunningPhase, PhaseStart;
  }

  lemma {:induction false} PhasesTelescope(halfPeriods: seq<real>, ins: seq<Sample>, f: seq<nat>, n: nat)
    requires n <= |halfPeriods| == |f|
    requires forall k :: 0 <= k < |f| ==> halfPeriods[k] == PhaseTime(ins, f, k + 1) - PhaseTime(ins, f, k)
    ensures Sum(halfPeriods[..n]) == PhaseTime(ins, f, n)
  {
    hide TimeUpTo;
    if n > 0 {
      PhasesTelescope(halfPeriods, ins, f, n - 1);
      assert halfPeriods[..n][..n - 1] == halfPeriods[..n - 1];
    }
  }

  /** No time is lost or counted twice: the half-periods and the running phase add up to the elapsed
      time. */
  lemma TimeIsConserved(s: EngineState, ins: seq<Sample>)
    requires Untouched(s) && (s.pvRef.Some? || ins != [])
    ensures Sum(Run(s, ins).halfPeriods) + Run(s, ins).phaseElapsed == Run(s, ins).elapsedSecs
  {
  }

  // ---------- amplitudes and events ----------

  lemma {:induction false} SumAbove(v: seq<real>, bound: real)
    requires forall i :: 0 <= i < |v| ==> v[i] > bound
    ensures Sum(v) >= |v| as real * bound
    ensures v != [] ==> Sum(v) > |v| as real * bound
  {
    if v != [] {
      SumAbove(v[..|v| - 1], bound);
    }
  }

  lemma {:induction false} SumNegates(v: seq<real>, w: seq<real>)
    requires |v| == |w| && forall i :: 0 <= i < |v| ==> w[i] == -v[i]
    ensures Sum(w) == -Sum(v)
  {
    if v != [] {
      SumNegates(v[..|v| - 1], w[..|w| - 1]);
    }
  }

  lemma MeanAbove(v: seq<real>, bound: real)
    requires v != [] && forall i :: 0 <= i < |v| ==> v[i] > bound
    ensures Mean(v) > bound
  {
    SumAbove(v, bound);
    var m, n := Mean(v), |v| as real;
    assert m * n == Sum(v);
    if m <= bound { MulNonNegative(bound - m, n); }
  }

  lemma MeanBelow(v: seq<real>, bound: real)
    requires v != [] && forall i :: 0 <= i < |v| ==> v[i] < bound
    ensures Mean(v) < bound
  {
    var w := seq(|v|, i requires 0 <= i < |v| => -v[i]);
    SumNegates(v, w);
    MeanAbove(w, -bound);
    MeanNegates(Sum(v), |v| as real);
  }

  lemma MeanNegates(sum: real, n: real)
    requires n > 0.0
    ensures -sum / n == -(sum / n)
  {
    assert (-(sum / n)) * n == -sum;
  }

  /** Every peak lies above the reference and every trough below it. */
  lemma ExtremaSides(s: EngineState, pvRef: real, ins: seq<Sample>)
    requires Histories(s, pvRef, ins)
    ensures forall j :: 0 <= j < |s.highPeaks| ==> s.highPeaks[j] > pvRef
    ensures forall j :: 0 <= j < |s.lowTroughs| ==> s.lowTroughs[j] < pvRef
  {
    FlipsAlternate(pvRef, ins);
    hide Flips, Quiet, Durations, RunningPhase;
    var f := Flips(pvRef, ins);
    forall j | 0 <= j < |s.highPeaks| ensures s.highPeaks[j] > pvRef {
      assert FlipsAt(pvRef, ins, f, 2 * j) && Recorded(s, 2 * j) == Some(ins[f[2 * j]].pv);
    }
    forall j | 0 <= j < |s.lowTroughs| ensures s.lowTroughs[j] < pvRef {
      assert FlipsAt(pvRef, ins, f, 2 * j + 1) && Recorded(s, 2 * j + 1) == Some(ins[f[2 * j + 1]].pv);
    }
  }

  /** ... so the amplitude is positive as soon as there is one of each. */
  lemma AmplitudePositive(s: EngineState, pvRef: real, ins: seq<Sample>)
    requires Histories(s, pvRef, ins) && s.lowTroughs != []
    ensures s.highPeaks != [] && Amplitude(s) > 0.0
  {
    ExtremaSides(s, pvRef, ins);
    hide Mean, Flips, Durations, RunningPhase;
    MeanAbove(s.highPeaks, pvRef);
    MeanBelow(s.lowTroughs, pvRef);
  }

  function CountPeriods(events: seq<RelayEvent>): nat {
    if events == [] then 0
    else CountPeriods(events[..|events| - 1]) + (if events[|events| - 1].PeriodDetected? then 1 else 0)
  }

  function CountSettled(events: seq<RelayEvent>): nat {
    if events == [] then 0 else CountSettled(events[..|events| - 1]) + (if events[|events| - 1].Settled? then 1 else 0)
  }

  function CountFlips(events: seq<RelayEvent>): nat {
    if events == [] then 0 else CountFlips(events[..|events| - 1]) + (if events[|events| - 1].RelayFlip? then 1 else 0)
  }

  lemma {:induction false} CountsAppend(a: seq<RelayEvent>, b: seq<RelayEvent>)
    ensures CountPeriods(a + b) == CountPeriods(a) + CountPeriods(b)
    ensures CountSettled(a + b) == CountSettled(a) + CountSettled(b)
    ensures CountFlips(a + b) == CountFlips(a) + CountFlips(b)
  {
    if b == [] {
      assert a + b == a;
    } else {
      assert (a + b)[..|a + b| - 1] == a + b[..|b| - 1];
      CountsAppend(a, b[..|b| - 1]);
    }
  }

  lemma CountsOfTick(e: RelayEvent, d: RelayEvent)
    ensures CountPeriods([e]) == (if e.PeriodDetected? then 1 else 0)
    ensures CountSettled([e]) == (if e.Settled? then 1 else 0)
    ensures CountFlips([e]) == (if e.RelayFlip? then 1 else 0)
    ensures CountPeriods([d]) == (if d.PeriodDetected? then 1 else 0)
    ensures CountSettled([d]) == (if d.Settled? then 1 else 0)
    ensures CountFlips([d]) == (if d.RelayFlip? then 1 else 0)
    ensures CountPeriods([e, d]) == CountPeriods([e]) + CountPeriods([d])
    ensures CountSettled([e, d]) == CountSettled([e]) + CountSettled([d])
    ensures CountFlips([e, d]) == CountFlips([e]) + CountFlips([d])
  {
  }

  lemma PhaseEvents(s: EngineState, pv: real)
    requires s.phaseExtremum.Some?
    ensures var (t, events) := PhaseCompleted(s, pv);
            && CountFlips(events) == 1
            && CountPeriods(events) == (if s.relay == High && s.lowTroughs != [] && Amplitude(t) > 0.0 then 1 else 0)
            && CountSettled(events) == (if t.settled && !s.settled then 1 else 0)
            && (s.settled ==> t.settled)
  {
    hide SettlementCheck, Amplitude, Mean, CountFlips, CountPeriods, CountSettled;
    var (t, events) := PhaseCompleted(s, pv);
    CountsOfTick(events[0], if |events| > 1 then events[1] else events[0]);
    assert |events| == 1 ==> events == [events[0]];
    assert |events| == 2 ==> events == [events[0], events[1]];
  }

  /** What one tick reports: a flip when the sample crosses; with it a period on every peak after the
      first trough; and a settlement only while not yet settled. */
  lemma TickEvents(s: EngineState, pvRef: real, before: seq<Sample>, x: Sample)
    requires Histories(s, pvRef, before) && s.pvRef.GetOr(x.pv) == pvRef
    ensures var (t, events) := Ticked(s, x.pv, x.dt);
            && CountFlips(events) == |t.halfPeriods| - |s.halfPeriods|
            && |s.highPeaks| <= |t.highPeaks| <= |s.highPeaks| + 1
            && CountPeriods(events) == (if |t.highPeaks| > |s.highPeaks| && |t.highPeaks| > 1 then 1 else 0)
            && CountSettled(events) == (if t.settled && !s.settled then 1 else 0)
            && (s.settled ==> t.settled)
  {
    hide SettlementCheck, PeriodEstimate, Amplitude, Durations, RunningPhase, Flips, CountFlips, CountPeriods;
    hide CountSettled, Extended;
    HistoriesStep(s, pvRef, before, before + [x]);
    assert (before + [x])[..|before|] == before;
    var t := Ticked(s, x.pv, x.dt).0;
    NoEvents();
    if t.lowTroughs != [] {
      AmplitudePositive(t, pvRef, before + [x]);
    }
    PhaseEvents(Sampled(s, x.pv, x.dt), x.pv);
  }

  lemma NoEvents()
    ensures CountFlips([]) == CountPeriods([]) == CountSettled([]) == 0
  {
  }

  /** Over a whole run: one flip event per half-period, one period event per peak except the first,
      and at most one settlement event, sent exactly when the engine becomes settled. */
  lemma {:induction false} EventCounts(s: EngineState, ins: seq<Sample>)
    requires Untouched(s)
    ensures CountFlips(Events(s, ins)) == |Run(s, ins).halfPeriods|
    ensures CountPeriods(Events(s, ins)) == (if |Run(s, ins).highPeaks| > 1 then |Run(s, ins).highPeaks| - 1 else 0)
    ensures CountSettled(Events(s, ins)) == (if Run(s, ins).settled then 1 else 0)
  {
    hide Ticked, Histories, CountFlips, CountPeriods, CountSettled;
    NoEvents();
    if ins != [] {
      var before, x := ins[..|ins| - 1], ins[|ins| - 1];
      var t := Run(s, before);
      EventCounts(s, before);
      ReferenceIsKept(s, before);
      var r := Reference(s, ins);
      if before == [] && s.pvRef.None? {
        assert Histories(t, r, before) by { FreshHistories(s, r); }
      } else {
        assert Reference(s, before) == r;
        RunHistories(s, before);
      }
      TickEvents(t, r, before, x);
      HistoriesStep(t, r, before, ins);
      CountsAppend(Events(s, before), Ticked(t, x.pv, x.dt).1);
    }
  }
}

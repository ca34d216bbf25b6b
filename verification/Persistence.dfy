/** Coalesced snapshot writes and the consecutive-failure counter. Times are nanoseconds. */
module Persistence {
  import opened RealMath
  import opened StateStore
  import IntMath

  const U32_MAX := 0xFFFF_FFFF

  /** What the world answers to one call: the time it is made, whether a save attempted now
      would succeed, and the time at which that save would have finished. */
  datatype SaveEnv = SaveEnv(now: nat, saves: bool, doneAt: nat)

  /** `disk` is the parsed content of the state file; the lock keeps other writers away. */
  datatype PersisterState = PersisterState(
    hasStore: bool,
    disk: Option<StateSnapshot>,
    flushInterval: Option<nat>,
    lastFlush: Option<nat>,
    failCount: nat,
    failAfter: nat)

  /** `Instant` differences saturate at zero. */
  function Elapsed(since: nat, now: nat): nat {
    if now >= since then now - since else 0
  }

  predicate Coalesced(p: PersisterState, now: nat) {
    p.flushInterval.Some? && p.lastFlush.Some? && Elapsed(p.lastFlush.value, now) < p.flushInterval.value
  }

  predicate SaveSucceeds(snapshot: StateSnapshot, env: SaveEnv) {
    snapshot.Supported() && env.saves
  }

  function Save(p: PersisterState, snapshot: StateSnapshot, env: SaveEnv): PersisterState {
    if SaveSucceeds(snapshot, env) then
      p.(disk := Some(snapshot), failCount := 0, lastFlush := Some(env.doneAt))
    else
      p.(failCount := if p.failCount < U32_MAX then p.failCount + 1 else p.failCount)
  }

  /** Whether a call reaches the store at all. */
  predicate Attempts(p: PersisterState, now: nat, forced: bool) {
    p.hasStore && (forced || !Coalesced(p, now))
  }

  function AfterCall(p: PersisterState, snapshot: StateSnapshot, env: SaveEnv, forced: bool): PersisterState {
    if Attempts(p, env.now, forced) then Save(p, snapshot, env) else p
  }

  predicate CallFails(p: PersisterState, snapshot: StateSnapshot, env: SaveEnv, forced: bool) {
    Attempts(p, env.now, forced) && !SaveSucceeds(snapshot, env)
  }

  predicate Escalated(p: PersisterState) {
    p.failCount >= p.failAfter && p.failAfter > 0
  }

  class SnapshotPersister {
    const hasStore: bool
    var disk: Option<StateSnapshot>
    var flushInterval: Option<nat>
    var lastFlush: Option<nat>
    var failCount: nat
    const failAfter: nat

    function State(): PersisterState
      reads this
    {
      PersisterState(hasStore, disk, flushInterval, lastFlush, failCount, failAfter)
    }

    constructor (hasStore: bool, disk: Option<StateSnapshot>, flushInterval: Option<nat>, failAfter: nat)
      ensures State() == PersisterState(hasStore, disk, flushInterval, None, 0, failAfter)
    {
      this.hasStore, this.disk, this.flushInterval, this.failAfter := hasStore, disk, flushInterval, failAfter;
      lastFlush, failCount := None, 0;
    }

    method SetFlushInterval(interval: Option<nat>)
      modifies this
      ensures State() == old(State()).(flushInterval := interval)
    {
      flushInterval := interval;
    }

    method Persist(snapshot: StateSnapshot, env: SaveEnv) returns (failed: bool)
      modifies this
      ensures State() == AfterCall(old(State()), snapshot, env, false)
      ensures failed == CallFails(old(State()), snapshot, env, false)
    {
      if !hasStore {
        return false;
      }
      if flushInterval.Some? && lastFlush.Some? && Elapsed(lastFlush.value, env.now) < flushInterval.value {
        return false;
      }
      failed := Write(snapshot, env);
    }

    method ForceFlush(snapshot: StateSnapshot, env: SaveEnv) returns (failed: bool)
      modifies this
      ensures State() == AfterCall(old(State()), snapshot, env, true)
      ensures failed == CallFails(old(State()), snapshot, env, true)
    {
      if !hasStore {
        return false;
      }
      failed := Write(snapshot, env);
    }

    /** `store.save` and its bookkeeping, shared by both entry points. */
    method Write(snapshot: StateSnapshot, env: SaveEnv) returns (failed: bool)
      modifies this
      ensures State() == Save(old(State()), snapshot, env)
      ensures failed == !SaveSucceeds(snapshot, env)
    {
      if snapshot.Supported() && env.saves {
        disk := Some(snapshot);
        failCount := 0;
        lastFlush := Some(env.doneAt);
        failed := false;
      } else {
        if failCount < U32_MAX {
          failCount := failCount + 1;
        }
        failed := true;
      }
    }
  }

  // ---------- whole runs of calls ----------

  datatype Call = Call(snapshot: StateSnapshot, env: SaveEnv, forced: bool)

  function AfterCalls(p: PersisterState, calls: seq<Call>): PersisterState {
    if calls == [] then p
    else
      var c := calls[|calls| - 1];
      AfterCall(AfterCalls(p, calls[..|calls| - 1]), c.snapshot, c.env, c.forced)
  }

  /** The calls are made one after the other on a clock that never goes back. */
  ghost predicate Monotone(calls: seq<Call>) {
    && (forall i :: 0 <= i < |calls| ==> calls[i].env.now <= calls[i].env.doneAt)
    && (forall i, j :: 0 <= i < j < |calls| ==> calls[i].env.doneAt <= calls[j].env.now)
  }

  /** The outcomes of the saves that were attempted, oldest first. */
  function AttemptLog(p: PersisterState, calls: seq<Call>): seq<bool> {
    if calls == [] then []
    else
      var before := calls[..|calls| - 1];
      var c := calls[|calls| - 1];
      AttemptLog(p, before) +
      (if Attempts(AfterCalls(p, before), c.env.now, c.forced) then [SaveSucceeds(c.snapshot, c.env)] else [])
  }

  /** The successful calls of `persist`, oldest first. */
  function PersistWrites(p: PersisterState, calls: seq<Call>): seq<Call> {
    if calls == [] then []
    else
      var before := calls[..|calls| - 1];
      var c := calls[|calls| - 1];
      PersistWrites(p, before) +
      (if !c.forced && Attempts(AfterCalls(p, before), c.env.now, false) && SaveSucceeds(c.snapshot, c.env)
       then [c] else [])
  }

  function TrailingFailures(log: seq<bool>): nat {
    if log == [] || log[|log| - 1] then 0 else TrailingFailures(log[..|log| - 1]) + 1
  }

  /** A persister as the session creates it. */
  predicate Fresh(p: PersisterState) {
    p.lastFlush.None? && p.failCount == 0
  }

  lemma {:induction false} RunKeepsSettings(p: PersisterState, calls: seq<Call>)
    ensures AfterCalls(p, calls).hasStore == p.hasStore
    ensures AfterCalls(p, calls).flushInterval == p.flushInterval
    ensures AfterCalls(p, calls).failAfter == p.failAfter
  {
    if calls != [] {
      RunKeepsSettings(p, calls[..|calls| - 1]);
    }
  }

  function Capped(n: nat): nat {
    if n <= 4_294_967_295 then n else 4_294_967_295
  }

  lemma CallCounts(p: PersisterState, log: seq<bool>, c: Call)
    requires p.failCount == Capped(TrailingFailures(log))
    ensures AfterCall(p, c.snapshot, c.env, c.forced).failCount
            == Capped(TrailingFailures(
                 log + if Attempts(p, c.env.now, c.forced) then [SaveSucceeds(c.snapshot, c.env)] else []))
  {
    hide Attempts, SaveSucceeds;
    if Attempts(p, c.env.now, c.forced) {
      assert (log + [SaveSucceeds(c.snapshot, c.env)])[..|log|] == log;
    } else {
      assert log + [] == log;
    }
  }

  /** The failure counter is the length of the trailing run of failed saves, as far as 32 bits reach. */
  lemma {:induction false} FailCountIsTrailingRun(p: PersisterState, calls: seq<Call>)
    requires Fresh(p)
    ensures AfterCalls(p, calls).failCount == Capped(TrailingFailures(AttemptLog(p, calls)))
  {
    if calls != [] {
      hide AfterCall, Attempts, SaveSucceeds, Capped;
      var before := calls[..|calls| - 1];
      FailCountIsTrailingRun(p, before);
      CallCounts(AfterCalls(p, before), AttemptLog(p, before), calls[|calls| - 1]);
    }
  }

  /** The escalated warning is on exactly while at least `failAfter` saves in a row have failed. */
  lemma EscalatesWithTrailingRun(p: PersisterState, calls: seq<Call>)
    requires Fresh(p) && 0 < p.failAfter <= U32_MAX
    ensures Escalated(AfterCalls(p, calls)) <==> TrailingFailures(AttemptLog(p, calls)) >= p.failAfter
  {
    FailCountIsTrailingRun(p, calls);
    RunKeepsSettings(p, calls);
  }

  /** `lastFlush` is the end of some earlier successful save, and every successful save ended by then. */
  lemma {:induction false} LastFlushBounds(p: PersisterState, calls: seq<Call>)
    requires Fresh(p) && Monotone(calls)
    ensures var q := AfterCalls(p, calls);
            && (q.lastFlush.Some? ==> calls != [] && q.lastFlush.value <= calls[|calls| - 1].env.doneAt)
            && forall w :: w in PersistWrites(p, calls) ==> q.lastFlush.Some? && w.env.doneAt <= q.lastFlush.value
  {
    if calls != [] {
      var before := calls[..|calls| - 1];
      assert Monotone(before);
      LastFlushBounds(p, before);
      var c := calls[|calls| - 1];
      if before != [] {
        assert before[|before| - 1] == calls[|calls| - 2];
      }
    }
  }

  /** A successful `persist` write starts one flush interval or more after any earlier one ended. */
  lemma {:induction false} LaterWriteIsLate(p: PersisterState, calls: seq<Call>, i: nat, j: nat)
    requires Fresh(p) && p.flushInterval.Some? && Monotone(calls) && i < j < |PersistWrites(p, calls)|
    ensures var w := PersistWrites(p, calls); w[j].env.now >= w[i].env.doneAt + p.flushInterval.value
    decreases |calls|
  {
    hide AfterCalls, SaveSucceeds, Attempts;
    var before := calls[..|calls| - 1];
    assert Monotone(before);
    if j < |PersistWrites(p, before)| {
      LaterWriteIsLate(p, before, i, j);
    } else {
      NewWriteIsLate(p, calls);
      assert PersistWrites(p, before)[i] in PersistWrites(p, before);
    }
  }

  /** ... and so the k-th after another one starts at least k intervals later. */
  lemma {:induction false} WritesAreSpaced(p: PersisterState, calls: seq<Call>, i: nat, j: nat)
    requires Fresh(p) && p.flushInterval.Some? && Monotone(calls)
    requires i <= j < |PersistWrites(p, calls)|
    ensures var w := PersistWrites(p, calls);
            && (i < j ==> w[j].env.now >= w[i].env.doneAt + p.flushInterval.value)
            && w[j].env.now >= w[i].env.now + (j - i) * p.flushInterval.value
    decreases j
  {
    hide PersistWrites, Monotone;
    if i < j {
      WritesAreSpaced(p, calls, i, j - 1);
      LaterWriteIsLate(p, calls, i, j);
      LaterWriteIsLate(p, calls, j - 1, j);
      WriteEndsAfterStart(p, calls, j - 1);
      OneMoreInterval(j - i, p.flushInterval.value);
    }
  }

  /** A new write of `persist` starts an interval or more after all earlier ones ended. */
  lemma NewWriteIsLate(p: PersisterState, calls: seq<Call>)
    requires Fresh(p) && p.flushInterval.Some? && Monotone(calls) && calls != []
    requires var c := calls[|calls| - 1]; Attempts(AfterCalls(p, calls[..|calls| - 1]), c.env.now, false)
    ensures forall v :: v in PersistWrites(p, calls[..|calls| - 1])
              ==> calls[|calls| - 1].env.now >= v.env.doneAt + p.flushInterval.value
  {
    var before := calls[..|calls| - 1];
    assert Monotone(before);
    RunKeepsSettings(p, before);
    LastFlushBounds(p, before);
    LastFlushBeforeNow(p, calls);
  }

  lemma OneMoreInterval(k: int, interval: nat)
    ensures k * interval == (k - 1) * interval + interval
  {
  }

  lemma LastFlushBeforeNow(p: PersisterState, calls: seq<Call>)
    requires Fresh(p) && Monotone(calls) && calls != []
    ensures var q := AfterCalls(p, calls[..|calls| - 1]);
            q.lastFlush.Some? ==> q.lastFlush.value <= calls[|calls| - 1].env.now
  {
    var before := calls[..|calls| - 1];
    assert Monotone(before);
    LastFlushBounds(p, before);
  }

  lemma {:induction false} WriteEndsAfterStart(p: PersisterState, calls: seq<Call>, i: nat)
    requires Monotone(calls) && i < |PersistWrites(p, calls)|
    ensures PersistWrites(p, calls)[i].env.now <= PersistWrites(p, calls)[i].env.doneAt
  {
    var before := calls[..|calls| - 1];
    assert Monotone(before);
    if i < |PersistWrites(p, before)| {
      WriteEndsAfterStart(p, before, i);
    }
  }

  /** At most `window / interval + 1` successful `persist` writes start within any window. */
  lemma WritesPerWindow(p: PersisterState, calls: seq<Call>, first: nat, last: nat, window: nat)
    requires Fresh(p) && Monotone(calls) && p.flushInterval.Some? && p.flushInterval.value > 0
    requires first <= last < |PersistWrites(p, calls)|
    requires PersistWrites(p, calls)[last].env.now - PersistWrites(p, calls)[first].env.now <= window
    ensures last - first + 1 <= window / p.flushInterval.value + 1
  {
    WritesAreSpaced(p, calls, first, last);
    var interval := p.flushInterval.value;
    assert (last - first) * interval <= window;
    IntMath.DivAtLeast(window, interval, last - first);
  }

  /** Where the disk's content comes from: the last save that succeeded. */
  lemma {:induction false} DiskHoldsLastWrite(p: PersisterState, calls: seq<Call>) returns (k: nat)
    requires Fresh(p) && AfterCalls(p, calls).lastFlush.Some?
    ensures k < |calls| && AfterCalls(p, calls).disk == Some(calls[k].snapshot)
    ensures AfterCalls(p, calls).lastFlush == Some(calls[k].env.doneAt)
    ensures SaveSucceeds(calls[k].snapshot, calls[k].env)
  {
    var before := calls[..|calls| - 1];
    var c := calls[|calls| - 1];
    if Attempts(AfterCalls(p, before), c.env.now, c.forced) && SaveSucceeds(c.snapshot, c.env) {
      k := |calls| - 1;
    } else {
      k := DiskHoldsLastWrite(p, before);
    }
  }

  /** Whenever a call reports success and a store exists, the disk holds the snapshot just submitted,
      or one whose save finished less than one flush interval before. */
  lemma DiskIsFresh(p: PersisterState, calls: seq<Call>) returns (k: nat)
    requires Fresh(p) && p.hasStore && Monotone(calls) && calls != []
    requires var c := calls[|calls| - 1];
             !CallFails(AfterCalls(p, calls[..|calls| - 1]), c.snapshot, c.env, c.forced)
    ensures k < |calls| && AfterCalls(p, calls).disk == Some(calls[k].snapshot)
    ensures k == |calls| - 1 ||
            (p.flushInterval.Some? && calls[|calls| - 1].env.now < calls[k].env.doneAt + p.flushInterval.value)
  {
    var before := calls[..|calls| - 1];
    var c := calls[|calls| - 1];
    RunKeepsSettings(p, before);
    if Attempts(AfterCalls(p, before), c.env.now, c.forced) {
      k := |calls| - 1;
    } else {
      LastFlushBeforeNow(p, calls);
      k := DiskHoldsLastWrite(p, before);
    }
  }
}

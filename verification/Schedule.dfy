/** Deadline scheduling: ticks on a grid, no drift, no catch-up bursts. Times are nanoseconds. */
module Schedule {
  import opened IntMath

  /** The closed form: whole intervals from the scheduled boundary, past `now`. */
  function NextDeadline(tick: nat, interval: nat, now: nat): nat
    requires interval > 0
  {
    if now < tick + interval then tick + interval else tick + ((now - tick) / interval + 1) * interval
  }

  /** The code's loop; with a zero interval it would never end. */
  method NextDeadlineAfterTick(tickDeadline: nat, interval: nat, now: nat) returns (next: nat)
    requires interval > 0
    ensures next == NextDeadline(tickDeadline, interval, now)
  {
    next := tickDeadline + interval;
    ghost var k := 1;
    while next <= now
      invariant k >= 1 && next == tickDeadline + k * interval
      invariant k == 1 || next - interval <= now
      decreases now - next
    {
      next := next + interval;
      k := k + 1;
    }
    LeastIsUnique(tickDeadline, interval, now, k);
  }

  /** The next deadline is the first boundary `tick + k * interval`, `k >= 1`, strictly after `now`. */
  lemma NextDeadlineIsLeast(tick: nat, interval: nat, now: nat, k: nat)
    requires interval > 0 && k >= 1
    ensures var next := NextDeadline(tick, interval, now);
            && next > now && next > tick && next <= (if now >= tick then now else tick) + interval
            && (tick + k * interval > now ==> next <= tick + k * interval)
  {
    var q, r := (now - tick) / interval, (now - tick) % interval;
    if now >= tick + interval {
      assert now - tick == q * interval + r;
      assert (q + 1) * interval == q * interval + interval;
      if tick + k * interval > now {
        assert (k - q) * interval == k * interval - q * interval > 0;
        PositiveFactor(k - q, interval);
        MulNonNegative(k - q - 1, interval);
        assert (k - q - 1) * interval == k * interval - (q + 1) * interval;
      }
    } else {
      MulNonNegative(k - 1, interval);
      assert (k - 1) * interval == k * interval - interval;
    }
  }

  lemma NextIsOnGrid(tick: nat, interval: nat, now: nat) returns (step: nat)
    requires interval > 0
    ensures step >= 1 && NextDeadline(tick, interval, now) == tick + step * interval
  {
    step := if now < tick + interval then 1 else (now - tick) / interval + 1;
  }

  /** On plain numbers: which of two multiples is larger. */
  lemma MultipleOrder(j: int, k: int, interval: nat)
    requires interval > 0
    ensures j * interval <= k * interval <==> j <= k
  {
    if j > k {
      MulAtLeast(j - k, interval);
      assert (j - k) * interval == j * interval - k * interval;
    } else {
      MulNonNegative(k - j, interval);
      assert (k - j) * interval == k * interval - j * interval;
    }
  }

  lemma LeastIsUnique(tick: nat, interval: nat, now: nat, k: nat)
    requires interval > 0 && k >= 1 && tick + k * interval > now
    requires k == 1 || tick + k * interval - interval <= now
    ensures tick + k * interval == NextDeadline(tick, interval, now)
  {
    var j := NextIsOnGrid(tick, interval, now);
    NextDeadlineIsLeast(tick, interval, now, k);
    hide NextDeadline;
    assert (k - 1) * interval == k * interval - interval;
    MultipleOrder(j, k, interval);
    MultipleOrder(j, k - 1, interval);
  }

  lemma NextDeadlineMonotone(tick: nat, interval: nat, a: nat, b: nat)
    requires interval > 0 && a <= b
    ensures NextDeadline(tick, interval, a) <= NextDeadline(tick, interval, b)
  {
    hide NextDeadline;
    var k := NextIsOnGrid(tick, interval, b);
    NextDeadlineIsLeast(tick, interval, b, k);
    NextDeadlineIsLeast(tick, interval, a, k);
  }

  // ---------- runs with a fixed interval ----------

  /** The deadline in force after the loop has woken at these instants. */
  function DeadlineAfter(first: nat, interval: nat, wakes: seq<nat>): nat
    requires interval > 0
  {
    if wakes == [] then first
    else NextDeadline(DeadlineAfter(first, interval, wakes[..|wakes| - 1]), interval, wakes[|wakes| - 1])
  }

  /** The grid slot an instant falls into. */
  function Slot(first: nat, interval: nat, t: nat): int
    requires interval > 0
  {
    (t - first) / interval
  }

  lemma StepsAdd(j: nat, k: nat, interval: nat)
    ensures (j + k) * interval == j * interval + k * interval
  {
  }

  /** Every deadline lies on the one grid through the first: no drift ever accumulates. */
  lemma {:induction false} DeadlinesStayOnGrid(first: nat, interval: nat, wakes: seq<nat>) returns (k: nat)
    requires interval > 0
    ensures DeadlineAfter(first, interval, wakes) == first + k * interval
    ensures k >= |wakes|
  {
    hide NextDeadline;
    if wakes == [] {
      k := 0;
    } else {
      var n := |wakes| - 1;
      var j := DeadlinesStayOnGrid(first, interval, wakes[..n]);
      var step := NextIsOnGrid(DeadlineAfter(first, interval, wakes[..n]), interval, wakes[n]);
      StepsAdd(j, step, interval);
      k := j + step;
    }
  }

  lemma SlotOfGrid(first: nat, interval: nat, t: nat, k: nat)
    requires interval > 0
    ensures t >= first + k * interval ==> Slot(first, interval, t) >= k
    ensures t < first + k * interval ==> Slot(first, interval, t) < k
  {
    var x := t - first;
    var q, r := x / interval, x % interval;
    assert x == q * interval + r;
    assert (k - q - 1) * interval == k * interval - q * interval - interval;
    assert (q - k) * interval == q * interval - k * interval;
    if t >= first + k * interval {
      if q < k { MulNonNegative(k - q - 1, interval); }
    } else {
      if q >= k { MulNonNegative(q - k, interval); }
    }
  }

  lemma {:induction false} DeadlinesIncrease(first: nat, interval: nat, wakes: seq<nat>, i: nat)
    requires interval > 0 && i < |wakes|
    ensures DeadlineAfter(first, interval, wakes) > DeadlineAfter(first, interval, wakes[..i])
    ensures DeadlineAfter(first, interval, wakes) > wakes[i]
    decreases |wakes|
  {
    var n := |wakes| - 1;
    NextDeadlineIsLeast(DeadlineAfter(first, interval, wakes[..n]), interval, wakes[n], 1);
    if i < n {
      DeadlinesIncrease(first, interval, wakes[..n], i);
      assert wakes[..n][..i] == wakes[..i];
    }
  }
}

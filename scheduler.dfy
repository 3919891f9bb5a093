// The frame accumulator of updateScene, on integer time units. Each animation
// frame adds its elapsed time; when a whole frame interval has built up, one
// tick runs and the accumulator keeps only the remainder modulo the interval,
// so any further whole intervals of a long frame are dropped.
// A frame's elapsed time is the value clock.getDelta() returns, not wall-clock
// time: the clock reads in the unfocused tick's bob consume part of it, and the
// lemmas here are about the deltas as returned.
module Scheduler {

  datatype Frame = Frame(delta: nat, ticked: bool)

  /** One call of the frame callback. */
  function Accumulate(delta: nat, elapsed: nat, interval: nat): (f: Frame)
    requires interval > 0
    ensures f.delta < interval
    ensures f.ticked <==> delta + elapsed >= interval
    ensures !f.ticked ==> f.delta == delta + elapsed
    ensures f.ticked ==> f.delta + interval <= delta + elapsed
    ensures f.ticked && delta + elapsed < 2 * interval ==> f.delta == delta + elapsed - interval
  {
    var d := delta + elapsed;
    if d >= interval then Frame(d % interval, true) else Frame(d, false)
  }

  function Sum(s: seq<nat>): nat
    decreases |s|
  {
    if s == [] then 0 else s[0] + Sum(s[1..])
  }

  datatype Run = Run(ticks: nat, delta: nat)

  /** A stream of frames fed to the accumulator, starting from `delta`. */
  function RunFrames(delta: nat, samples: seq<nat>, interval: nat): Run
    requires interval > 0
    decreases |samples|
  {
    if samples == [] then Run(0, delta)
    else
      var f := Accumulate(delta, samples[0], interval);
      var r := RunFrames(f.delta, samples[1..], interval);
      Run(r.ticks + (if f.ticked then 1 else 0), r.delta)
  }

  /** Time is never over-counted: the intervals ticked plus what is left never exceed the time fed. */
  lemma {:induction false} RunAccountsForTime(delta: nat, samples: seq<nat>, interval: nat)
    requires interval > 0
    ensures var r := RunFrames(delta, samples, interval);
      r.ticks * interval + r.delta <= delta + Sum(samples) &&
      (delta < interval || samples != [] ==> r.delta < interval)
    decreases |samples|
  {
    if samples != [] {
      var f := Accumulate(delta, samples[0], interval);
      RunAccountsForTime(f.delta, samples[1..], interval);
      var r := RunFrames(f.delta, samples[1..], interval);
      if f.ticked {
        assert (r.ticks + 1) * interval == r.ticks * interval + interval;
      }
    }
  }

  /** Starting from an empty accumulator, at most floor(total / interval) ticks run. */
  lemma TickCountBound(samples: seq<nat>, interval: nat)
    requires interval > 0
    ensures RunFrames(0, samples, interval).ticks <= Sum(samples) / interval
  {
    RunAccountsForTime(0, samples, interval);
    QuotientBound(RunFrames(0, samples, interval).ticks, interval, Sum(samples));
  }

  lemma MulMonotone(a: nat, b: nat, c: nat)
    requires a <= b
    ensures a * c <= b * c
  {
  }

  lemma QuotientBound(t: nat, d: nat, x: nat)
    requires d > 0 && t * d <= x
    ensures t <= x / d
  {
    var q, r := x / d, x % d;
    assert x == q * d + r;
    if t > q {
      MulMonotone(q + 1, t, d);
      assert false;
    }
  }

  /** When no frame is longer than the interval, no time is dropped: the ticks and what is left
      add up to exactly the time fed. */
  lemma {:induction false} RunConservesShortFrames(delta: nat, samples: seq<nat>, interval: nat)
    requires interval > 0 && delta < interval
    requires forall k :: 0 <= k < |samples| ==> samples[k] <= interval
    ensures var r := RunFrames(delta, samples, interval);
      r.ticks * interval + r.delta == delta + Sum(samples) && r.delta < interval
    decreases |samples|
  {
    if samples != [] {
      var f := Accumulate(delta, samples[0], interval);
      assert forall k :: 0 <= k < |samples[1..]| ==> samples[1..][k] == samples[k + 1];
      RunConservesShortFrames(f.delta, samples[1..], interval);
      var r' := RunFrames(f.delta, samples[1..], interval);
      assert Sum(samples) == samples[0] + Sum(samples[1..]);
      if f.ticked {
        assert f.delta == delta + samples[0] - interval;
        assert (r'.ticks + 1) * interval == r'.ticks * interval + interval;
      }
    }
  }

  /** So for such frames the tick count is exactly floor((delta + total) / interval), however
      the total is split into frames. */
  lemma RunExactForShortFrames(delta: nat, samples: seq<nat>, interval: nat)
    requires interval > 0 && delta < interval
    requires forall k :: 0 <= k < |samples| ==> samples[k] <= interval
    ensures RunFrames(delta, samples, interval).ticks == (delta + Sum(samples)) / interval
  {
    RunConservesShortFrames(delta, samples, interval);
    var r := RunFrames(delta, samples, interval);
    DivQuotient(r.ticks, r.delta, interval);
  }

  lemma DivQuotient(q: nat, r: nat, d: nat)
    requires d > 0 && r < d
    ensures (q * d + r) / d == q
  {
    var x := q * d + r;
    var q', r' := x / d, x % d;
    assert x == q' * d + r';
    if q' > q {
      MulMonotone(q + 1, q', d);
      assert false;
    }
    if q' < q {
      MulMonotone(q' + 1, q, d);
      assert false;
    }
  }

  /** How frames are chunked matters once one is longer than the interval: 25 units in one frame
      give one tick, the same 25 units in three frames give two. */
  lemma ChunkingChangesTickCount()
    ensures RunFrames(0, [25], 10).ticks == 1
    ensures RunFrames(0, [10, 10, 5], 10).ticks == 2
    ensures Sum([25]) == Sum([10, 10, 5]) == 25
  {
  }
}

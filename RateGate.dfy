/** `Throttle`: a time gate around one expensive call that hands back the
    cached result until more than `interval_secs` has passed since the last
    real invocation. The clock reading is passed in as `now`. */
module RateGate {
  import opened Wrappers

  /** Invocation times of a gate with the given interval: the first is more
      than `interval` after the initial `last_call_time` of 0, and each later
      one is more than `interval` after its predecessor. */
  ghost predicate Spaced(times: seq<real>, interval: real)
  {
    && (|times| > 0 ==> times[0] > interval)
    && (forall i :: 0 < i < |times| ==> times[i] - times[i - 1] > interval)
  }

  /** With a non-negative interval any two real invocations, not only
      consecutive ones, are more than `interval` apart, so the times strictly
      increase. */
  lemma {:induction false} SpacedIncreasing(times: seq<real>, interval: real)
    requires interval >= 0.0 && Spaced(times, interval)
    ensures forall i, j :: 0 <= i < j < |times| ==> times[j] - times[i] > interval
    ensures forall i :: 0 <= i < |times| ==> times[i] > 0.0
  {
    if |times| > 1 {
      var n := |times| - 1;
      var front := times[..n];
      assert Spaced(front, interval);
      SpacedIncreasing(front, interval);
      forall i, j | 0 <= i < j < |times| ensures times[j] - times[i] > interval {
        if j < n {
          assert front[j] - front[i] > interval;
        } else if i < n - 1 {
          assert front[n - 1] - front[i] > interval;
          assert times[n] - times[n - 1] > interval;
        }
      }
    }
  }

  class Throttle<R> {
    const intervalSecs: real
    var lastCallTime: real
    var lastResult: Option<R>
    /** The clock readings at which the wrapped function was really invoked. */
    ghost var invocations: seq<real>

    ghost predicate Valid()
      reads this
    {
      && Spaced(invocations, intervalSecs)
      && (invocations == [] ==> lastCallTime == 0.0 && lastResult == None)
      && (invocations != [] ==> lastCallTime == invocations[|invocations| - 1] && lastResult.Some?)
    }

    /** A new gate has never invoked anything: `last_call_time` is 0 and
        `last_result` is `None`. */
    constructor (intervalSecs: real)
      ensures Valid()
      ensures this.intervalSecs == intervalSecs
      ensures lastCallTime == 0.0 && lastResult == None && invocations == []
    {
      this.intervalSecs := intervalSecs;
      lastCallTime := 0.0;
      lastResult := None;
      invocations := [];
    }

    /** `call(func, *args)` at clock reading `now`. The gate is strict: a
        call exactly `intervalSecs` after the last invocation is cached. */
    method Call<A>(now: real, func: A -> R, arg: A) returns (r: Option<R>)
      requires Valid()
      modifies this
      ensures Valid()
      ensures old(now - lastCallTime > intervalSecs) ==>
        && lastResult == Some(func(arg))
        && lastCallTime == now
        && invocations == old(invocations) + [now]
      ensures old(now - lastCallTime <= intervalSecs) ==>
        && lastResult == old(lastResult)
        && lastCallTime == old(lastCallTime)
        && invocations == old(invocations)
      ensures r == lastResult
    {
      if now - lastCallTime > intervalSecs {
        lastResult := Some(func(arg));
        lastCallTime := now;
        invocations := invocations + [now];
      }
      r := lastResult;
    }
  }

  /** A gate with interval 0.5 called at 0.3, 1.0, 1.2, 1.5 and 1.6, the
      wrapped function returning its argument (the call number): the first
      call is not more than 0.5 after the initial time 0 and yields `None`,
      the second invokes, the third and the fourth (exactly 0.5 later) are
      cached, the fifth invokes again. */
  method ThrottleTrace() returns (results: seq<Option<int>>)
    ensures results == [None, Some(2), Some(2), Some(2), Some(5)]
  {
    var gate := new Throttle<int>(0.5);
    var identity := (x: int) => x;
    var r1 := gate.Call(0.3, identity, 1);
    var r2 := gate.Call(1.0, identity, 2);
    var r3 := gate.Call(1.2, identity, 3);
    var r4 := gate.Call(1.5, identity, 4);
    var r5 := gate.Call(1.6, identity, 5);
    results := [r1, r2, r3, r4, r5];
  }
}

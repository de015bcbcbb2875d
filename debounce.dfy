/**
 * What the polling loops share. Each loop reads a finite trace of ticks and
 * stops at the latest at the first tick whose elapsed time has reached its
 * timeout, so a trace that ends at or past the timeout is long enough.
 *
 * The debounce counter of the detectors:
 * `idle_count` (and `stall_count`) is incremented on a tick that qualifies and
 * reset to 0 on any other tick, so after a run of ticks its value is the
 * length of the run of qualifying ticks at the end of that run.
 */
module Debounce {

  /** The elapsed times of a trace's ticks, in order. */
  function Elapsed<T>(ticks: seq<T>, time: T -> nat): (e: seq<nat>)
    ensures |e| == |ticks| && forall j :: 0 <= j < |ticks| ==> e[j] == time(ticks[j])
  {
    seq(|ticks|, j requires 0 <= j < |ticks| => time(ticks[j]))
  }

  /** The trace reaches the timeout: its last tick is at or past it. */
  predicate ReachesTimeout(elapsed: seq<nat>, timeout: int) {
    |elapsed| > 0 && elapsed[|elapsed| - 1] >= timeout
  }

  /**
   * A wait that returns at the first tick meeting its success rule: it stops
   * there with True, or at the first tick past the timeout with False.
   */
  method FirstReady<T>(ticks: seq<T>, elapsed: seq<nat>, ready: T -> bool, timeout: int) returns (found: bool, stop: nat)
    requires |elapsed| == |ticks| && ReachesTimeout(elapsed, timeout)
    ensures stop < |ticks|
    ensures forall j :: 0 <= j < stop ==> elapsed[j] < timeout && !ready(ticks[j])
    ensures found <==> elapsed[stop] < timeout && ready(ticks[stop])
    ensures !found ==> elapsed[stop] >= timeout
  {
    var i := 0;
    while elapsed[i] < timeout && !ready(ticks[i])
      invariant 0 <= i < |ticks|
      invariant forall j :: 0 <= j < i ==> elapsed[j] < timeout && !ready(ticks[j])
      decreases |ticks| - i
    {
      i := i + 1;
    }
    found := elapsed[i] < timeout;
    stop := i;
  }

  /** The number of `true` flags at the end of `flags`. */
  function TrailingRun(flags: seq<bool>): (n: nat)
    ensures n <= |flags|
  {
    if flags == [] then 0
    else if flags[|flags| - 1] then TrailingRun(flags[..|flags| - 1]) + 1
    else 0
  }

  /** One more tick: the counter goes up by one on a qualifying tick and drops to 0 otherwise. */
  lemma TrailingRunStep(flags: seq<bool>, b: bool)
    ensures TrailingRun(flags + [b]) == if b then TrailingRun(flags) + 1 else 0
  {
    assert (flags + [b])[..|flags|] == flags;
  }

  /**
   * The counter has reached `n` exactly when the last `n` ticks all qualified:
   * no reset happened among them.
   */
  lemma {:induction false} TrailingRunAtLeast(flags: seq<bool>, n: nat)
    ensures TrailingRun(flags) >= n <==> (n <= |flags| && forall j :: |flags| - n <= j < |flags| ==> flags[j])
    decreases |flags|
  {
    if n > 0 && flags != [] {
      var init := flags[..|flags| - 1];
      TrailingRunAtLeast(init, n - 1);
      if flags[|flags| - 1] && n - 1 <= |init| && forall j :: |init| - (n - 1) <= j < |init| ==> init[j] {
        assert forall j :: |flags| - n <= j < |flags| ==> flags[j] by {
          forall j | |flags| - n <= j < |flags| ensures flags[j] {
            if j < |init| { assert flags[j] == init[j]; }
          }
        }
      }
      if n <= |flags| && forall j :: |flags| - n <= j < |flags| ==> flags[j] {
        assert forall j :: |init| - (n - 1) <= j < |init| ==> init[j] by {
          forall j | |init| - (n - 1) <= j < |init| ensures init[j] {
            assert init[j] == flags[j];
          }
        }
      }
    }
  }
}

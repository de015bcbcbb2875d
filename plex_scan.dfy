/**
 * The convergence and stall detectors of the Plex scan monitor, the monitoring
 * presets they are configured from, and two small helpers of the incremental
 * scanner.
 *
 * A detector is a polling loop. Here each loop reads a finite trace of samples,
 * one per tick: what the commands of that tick returned, and `elapsed`, the
 * whole seconds since the wait started, read at the top of the tick. The trace
 * ends with a sample whose `elapsed` has reached the timeout (time moves on),
 * so every loop ends. CPU load is an integer in hundredths of a percent.
 */
module PlexScan {
  import opened Wrappers
  import opened Text
  import opened Debounce

  // ---------------------------------------------------------------------------
  // Monitoring presets (MONITORING_PROFILES, get_monitoring_params)
  // ---------------------------------------------------------------------------

  /** A value of a preset dictionary: a Python int, a float (in hundredths) or a str. */
  datatype Setting = IntValue(i: int) | FloatValue(hundredths: int) | StrValue(s: string)

  const ParamKeys: set<string> := {"check_interval", "stall_threshold", "cpu_idle_threshold", "absolute_timeout"}

  function Preset(checkInterval: int, stallThreshold: int, cpuIdle: int, timeout: int, description: string): (p: map<string, Setting>)
    ensures p.Keys == ParamKeys + {"description"}
  {
    map["check_interval" := IntValue(checkInterval),
        "stall_threshold" := IntValue(stallThreshold),
        "cpu_idle_threshold" := FloatValue(cpuIdle),
        "absolute_timeout" := IntValue(timeout),
        "description" := StrValue(description)]
  }

  /** MONITORING_PROFILES. */
  function MonitoringProfiles(): (m: map<string, map<string, Setting>>)
    ensures "cloud_standard" in m
    ensures forall name :: name in m ==> m[name].Keys == ParamKeys + {"description"}
  {
    map["local_quick" := Preset(30, 5, 500, 3600, "Test local rapide (validation workflow)"),
        "local_delta" := Preset(60, 10, 1000, 7200, "Test local delta sync"),
        "cloud_standard" := Preset(60, 15, 1000, 28800, "Cloud scan standard"),
        "cloud_intensive" := Preset(120, 30, 500, 259200, "Cloud scan intensif (grosse lib + Sonic, 3j max)"),
        "metadata_refresh" := Preset(120, 60, 2000, 14400, "Refresh metadata (images, paroles, matching)")]
  }

  /**
   * get_monitoring_params: a copy of the named preset without its description;
   * an unknown name falls back to `cloud_standard`. The table itself is a value
   * and cannot be changed by the call.
   */
  function GetMonitoringParams(profile: string): (params: map<string, Setting>)
    ensures "description" !in params
    ensures params.Keys == ParamKeys
    ensures profile in MonitoringProfiles() ==>
      forall k :: k in params ==> params[k] == MonitoringProfiles()[profile][k]
    ensures profile !in MonitoringProfiles() ==>
      forall k :: k in params ==> params[k] == MonitoringProfiles()["cloud_standard"][k]
  {
    var chosen := if profile in MonitoringProfiles() then profile else "cloud_standard";
    MonitoringProfiles()[chosen] - {"description"}
  }

  // ---------------------------------------------------------------------------
  // wait_section_idle and the is_idle rule of get_section_activity
  // ---------------------------------------------------------------------------

  /** What get_section_activity observed for one section. */
  datatype SectionActivity = SectionActivity(refreshing: bool, activities: nat, scannerRunning: bool) {
    /** `is_idle`: not refreshing, no activity for the section, no scanner process. */
    predicate IsIdle() {
      !(refreshing || activities > 0 || scannerRunning)
    }
  }

  /** One tick of wait_section_idle: the mount health reported by the callback, the section activity, the container CPU. */
  datatype IdleSample = IdleSample(elapsed: nat, healthy: bool, activity: SectionActivity, cpu: int)

  /** The wait parameters after the per-phase and per-type defaults are applied. */
  datatype IdlePolicy = IdlePolicy(timeout: int, checkInterval: int, consecutiveIdle: int)

  const SectionCpuThreshold: int := 2000   // 20.0 %
  const GracePeriod: nat := 60

  /** SAFETY_TIMEOUTS with its default of two hours. */
  function SafetyTimeout(sectionType: Option<string>): (t: int)
    ensures t in {7200, 14400, 28800}
  {
    var table := map["movie" := 14400, "show" := 7200, "photo" := 28800, "artist" := 14400];
    if sectionType.Some? && sectionType.value in table then table[sectionType.value] else 7200
  }

  /**
   * The defaults of wait_section_idle. A parameter still equal to its default
   * (timeout 3600, interval 30, idle count 3) counts as not chosen by the caller;
   * so an explicit timeout of 3600 is replaced too.
   */
  function SectionIdlePolicy(sectionType: Option<string>, phase: string, timeout: int, checkInterval: int, consecutiveIdle: int): (p: IdlePolicy)
    ensures timeout != 3600 ==> p.timeout == timeout
    ensures timeout == 3600 ==> p.timeout == SafetyTimeout(sectionType)
    ensures p.checkInterval == if phase == "analyze" && checkInterval == 30 then 120 else checkInterval
    ensures p.consecutiveIdle == if phase == "analyze" && consecutiveIdle == 3 then 5 else consecutiveIdle
  {
    var interval := if phase == "analyze" && checkInterval == 30 then 120 else checkInterval;
    var idle := if phase == "analyze" && consecutiveIdle == 3 then 5 else consecutiveIdle;
    IdlePolicy(if timeout != 3600 then timeout else SafetyTimeout(sectionType), interval, idle)
  }

  /** The per-type table that replaces the default timeout. */
  lemma SafetyTimeoutTable()
    ensures SafetyTimeout(Some("movie")) == 14400 && SafetyTimeout(Some("artist")) == 14400
    ensures SafetyTimeout(Some("show")) == 7200 && SafetyTimeout(Some("photo")) == 28800
    ensures SafetyTimeout(None) == 7200
    ensures forall t :: t !in {"movie", "show", "photo", "artist"} ==> SafetyTimeout(Some(t)) == 7200
  {
  }

  /** `is_truly_idle`: the section is idle and the container CPU is under 20 %. */
  predicate IsTrulyIdle(s: IdleSample) {
    s.activity.IsIdle() && s.cpu < SectionCpuThreshold
  }

  /** A tick that increments `idle_count`: truly idle and past the grace period. */
  predicate IdleCounted(s: IdleSample) {
    IsTrulyIdle(s) && !(s.elapsed < GracePeriod)
  }

  function IdleFlags(samples: seq<IdleSample>): (flags: seq<bool>)
    ensures |flags| == |samples|
    ensures forall j :: 0 <= j < |samples| ==> flags[j] == IdleCounted(samples[j])
  {
    seq(|samples|, j requires 0 <= j < |samples| => IdleCounted(samples[j]))
  }

  /** The value of `idle_count` after the first `n` ticks. */
  function IdleCountAfter(samples: seq<IdleSample>, n: nat): nat
    requires n <= |samples|
  {
    TrailingRun(IdleFlags(samples)[..n])
  }

  /** The loop returns True when the counter, just incremented, reaches the threshold. */
  predicate Reached(count: nat, threshold: int) {
    count > 0 && count >= threshold
  }

  /** The seconds elapsed at a sample. */
  function IdleTime(t: IdleSample): nat {
    t.elapsed
  }

  /** `idle_count` after tick `i`: one more on a counted tick, 0 otherwise. */
  lemma {:induction false} IdleCountStep(samples: seq<IdleSample>, i: nat)
    requires i < |samples|
    ensures IdleCountAfter(samples, i + 1) ==
      if IdleCounted(samples[i]) then IdleCountAfter(samples, i) + 1 else 0
  {
    var flags := IdleFlags(samples);
    assert flags[..i + 1] == flags[..i] + [flags[i]];
    TrailingRunStep(flags[..i], flags[i]);
  }

  /** Tick `j` lets the loop go on: before the timeout, healthy, and short of the idle threshold. */
  predicate IdleGoesOn(samples: seq<IdleSample>, policy: IdlePolicy, hasHealthFn: bool, j: nat)
    requires j < |samples|
  {
    && samples[j].elapsed < policy.timeout
    && (hasHealthFn ==> samples[j].healthy)
    && !Reached(IdleCountAfter(samples, j + 1), policy.consecutiveIdle)
  }

  /** The first `n` ticks all let the loop go on. */
  predicate IdleContinues(samples: seq<IdleSample>, policy: IdlePolicy, hasHealthFn: bool, n: nat)
    requires n <= |samples|
  {
    forall j :: 0 <= j < n ==> IdleGoesOn(samples, policy, hasHealthFn, j)
  }

  lemma {:induction false} IdleContinuesStep(samples: seq<IdleSample>, policy: IdlePolicy, hasHealthFn: bool, n: nat)
    requires n < |samples| && IdleContinues(samples, policy, hasHealthFn, n)
    requires IdleGoesOn(samples, policy, hasHealthFn, n)
    ensures IdleContinues(samples, policy, hasHealthFn, n + 1)
  {
    forall j | 0 <= j < n + 1
      ensures IdleGoesOn(samples, policy, hasHealthFn, j)
    {
      if j < n {
        assert IdleContinues(samples, policy, hasHealthFn, n);
      }
    }
  }

  /**
   * What wait_section_idle returns: it stops at the first tick that is past the
   * timeout, whose health callback reports unhealthy, or at which `idle_count`
   * reaches `consecutive_idle`; only the last of these returns True.
   */
  predicate IdleWaitSpec(samples: seq<IdleSample>, policy: IdlePolicy, hasHealthFn: bool, idle: bool, stop: nat) {
    && stop < |samples|
    && IdleContinues(samples, policy, hasHealthFn, stop)
    && (idle <==>
          && samples[stop].elapsed < policy.timeout
          && (hasHealthFn ==> samples[stop].healthy)
          && Reached(IdleCountAfter(samples, stop + 1), policy.consecutiveIdle))
    && (!idle ==> samples[stop].elapsed >= policy.timeout || (hasHealthFn && !samples[stop].healthy))
  }

  /** wait_section_idle, with `hasHealthFn` telling whether a health callback was passed. */
  method WaitSectionIdle(samples: seq<IdleSample>, sectionType: Option<string>, phase: string,
                         timeout: int, checkInterval: int, consecutiveIdle: int, hasHealthFn: bool)
    returns (idle: bool, stop: nat)
    requires ReachesTimeout(Elapsed(samples, IdleTime), SectionIdlePolicy(sectionType, phase, timeout, checkInterval, consecutiveIdle).timeout)
    ensures IdleWaitSpec(samples, SectionIdlePolicy(sectionType, phase, timeout, checkInterval, consecutiveIdle), hasHealthFn, idle, stop)
  {
    var policy := SectionIdlePolicy(sectionType, phase, timeout, checkInterval, consecutiveIdle);
    var idleCount := 0;
    var i := 0;
    while samples[i].elapsed < policy.timeout
      invariant 0 <= i < |samples|
      invariant idleCount == IdleCountAfter(samples, i)
      invariant IdleContinues(samples, policy, hasHealthFn, i)
      decreases |samples| - i
    {
      var s := samples[i];
      if hasHealthFn && !s.healthy {
        return false, i;
      }
      IdleCountStep(samples, i);
      if IsTrulyIdle(s) && !(s.elapsed < GracePeriod) {
        idleCount := idleCount + 1;
        if idleCount >= policy.consecutiveIdle {
          return true, i;
        }
      } else {
        idleCount := 0;
      }
      IdleContinuesStep(samples, policy, hasHealthFn, i);
      i := i + 1;
    }
    return false, i;
  }

  /** The rule of get_section_activity and wait_section_idle, for one tick. */
  lemma IdleCountedRule(s: IdleSample)
    ensures IdleCounted(s) <==>
      !s.activity.refreshing && s.activity.activities == 0 && !s.activity.scannerRunning
      && s.cpu < 2000 && s.elapsed >= 60
  {
  }

  function Max(a: int, b: int): int {
    if a < b then b else a
  }

  /**
   * When wait_section_idle returns True, `idle_count` is exactly the threshold
   * (at least one), and every one of that many last ticks was truly idle and
   * past the grace period.
   */
  lemma {:induction false} SectionIdleConvergence(samples: seq<IdleSample>, policy: IdlePolicy, hasHealthFn: bool, stop: nat)
    requires IdleWaitSpec(samples, policy, hasHealthFn, true, stop)
    ensures IdleCountAfter(samples, stop + 1) == Max(policy.consecutiveIdle, 1)
    ensures Max(policy.consecutiveIdle, 1) <= stop + 1
    ensures forall j :: stop + 1 - Max(policy.consecutiveIdle, 1) <= j <= stop ==>
      IsTrulyIdle(samples[j]) && samples[j].elapsed >= GracePeriod
  {
    var flags := IdleFlags(samples);
    var n := Max(policy.consecutiveIdle, 1);
    IdleCountStep(samples, stop);
    if stop > 0 {
      assert IdleGoesOn(samples, policy, hasHealthFn, stop - 1);
    }
    TrailingRunAtLeast(flags[..stop + 1], n);
    forall j | stop + 1 - n <= j <= stop
      ensures IsTrulyIdle(samples[j]) && samples[j].elapsed >= GracePeriod
    {
      assert flags[..stop + 1][j] == flags[j];
    }
  }

  /**
   * A health callback that reports unhealthy at tick `k` ends the wait with
   * False no later than tick `k`, whatever the timeout.
   */
  lemma SectionIdleHealthAbort(samples: seq<IdleSample>, policy: IdlePolicy, idle: bool, stop: nat, k: nat)
    requires IdleWaitSpec(samples, policy, true, idle, stop)
    requires k < |samples| && !samples[k].healthy
    ensures stop <= k
    ensures stop == k ==> !idle
  {
    assert !IdleGoesOn(samples, policy, true, k);
  }

  // ---------------------------------------------------------------------------
  // wait_sonic_complete
  // ---------------------------------------------------------------------------

  /** get_unanalyzed_track_count (the percentage is left out). */
  datatype TrackStatus = TrackStatus(totalTracks: int, analyzedTracks: int, unanalyzedTracks: int)

  /**
   * get_unanalyzed_track_count from the parsed outputs of its two queries;
   * a reply that does not parse as an integer gives all zeros.
   */
  function UnanalyzedTrackCount(total: Option<int>, analyzed: Option<int>): (st: TrackStatus)
    ensures st.unanalyzedTracks == st.totalTracks - st.analyzedTracks
    ensures total.None? || analyzed.None? ==> st == TrackStatus(0, 0, 0)
    ensures total.Some? && analyzed.Some? ==> st.totalTracks == total.value && st.analyzedTracks == analyzed.value
  {
    if total.Some? && analyzed.Some? then
      TrackStatus(total.value, analyzed.value, total.value - analyzed.value)
    else TrackStatus(0, 0, 0)
  }

  datatype SonicReason = AlreadyComplete | Stall | Timeout | HealthCheckFailed

  /** The record wait_sonic_complete returns. */
  datatype SonicOutcome = SonicOutcome(success: bool, initialCount: int, finalCount: int, delta: int,
                                       durationMinutes: int, reason: SonicReason)

  /** One tick: mount health, the analysed-track count read from the database, CPU, and whether Sonic runs. */
  datatype SonicSample = SonicSample(elapsed: nat, healthy: bool, count: int, cpu: int, sonicRunning: bool)

  /** `max_stall`: hard-wired, whatever stall threshold the preset carries. */
  const MaxStall: nat := 30
  /** The CPU bound of the stall rule: 5.0 %, also hard-wired. */
  const SonicCpuThreshold: int := 500

  /** `last_count` when tick `j` is sampled. */
  function PrevCount(initialCount: int, samples: seq<SonicSample>, j: nat): int
    requires j <= |samples|
  {
    if j == 0 then initialCount else samples[j - 1].count
  }

  /** A stall candidate: no progress since the previous tick, CPU under 5 %, Sonic not running. */
  predicate StallCandidate(initialCount: int, samples: seq<SonicSample>, j: nat)
    requires j < |samples|
  {
    samples[j].count - PrevCount(initialCount, samples, j) == 0
    && samples[j].cpu < SonicCpuThreshold && !samples[j].sonicRunning
  }

  function StallFlags(initialCount: int, samples: seq<SonicSample>): (flags: seq<bool>)
    ensures |flags| == |samples|
    ensures forall j :: 0 <= j < |samples| ==> flags[j] == StallCandidate(initialCount, samples, j)
  {
    seq(|samples|, j requires 0 <= j < |samples| => StallCandidate(initialCount, samples, j))
  }

  /** The value of `stall_count` after the first `n` ticks. */
  function StallCountAfter(initialCount: int, samples: seq<SonicSample>, n: nat): nat
    requires n <= |samples|
  {
    TrailingRun(StallFlags(initialCount, samples)[..n])
  }

  /** The seconds elapsed at a sample. */
  function SonicTime(t: SonicSample): nat {
    t.elapsed
  }

  /** `stall_count` after tick `i`: one more on a stall candidate, 0 otherwise. */
  lemma {:induction false} StallCountStep(initialCount: int, samples: seq<SonicSample>, i: nat)
    requires i < |samples|
    ensures StallCountAfter(initialCount, samples, i + 1) ==
      if StallCandidate(initialCount, samples, i) then StallCountAfter(initialCount, samples, i) + 1 else 0
  {
    var flags := StallFlags(initialCount, samples);
    assert flags[..i + 1] == flags[..i] + [flags[i]];
    TrailingRunStep(flags[..i], flags[i]);
  }

  /** Tick `j` lets the loop go on: before the timeout, healthy, and short of 30 stalls. */
  predicate SonicGoesOn(initialCount: int, samples: seq<SonicSample>, timeout: int, hasHealthFn: bool, j: nat)
    requires j < |samples|
  {
    && samples[j].elapsed < timeout
    && (hasHealthFn ==> samples[j].healthy)
    && !Reached(StallCountAfter(initialCount, samples, j + 1), MaxStall)
  }

  /** The first `n` ticks all let the loop go on. */
  predicate SonicContinues(initialCount: int, samples: seq<SonicSample>, timeout: int, hasHealthFn: bool, n: nat)
    requires n <= |samples|
  {
    forall j :: 0 <= j < n ==> SonicGoesOn(initialCount, samples, timeout, hasHealthFn, j)
  }

  lemma {:induction false} SonicContinuesStep(initialCount: int, samples: seq<SonicSample>, timeout: int, hasHealthFn: bool, n: nat)
    requires n < |samples| && SonicContinues(initialCount, samples, timeout, hasHealthFn, n)
    requires SonicGoesOn(initialCount, samples, timeout, hasHealthFn, n)
    ensures SonicContinues(initialCount, samples, timeout, hasHealthFn, n + 1)
  {
    forall j | 0 <= j < n + 1
      ensures SonicGoesOn(initialCount, samples, timeout, hasHealthFn, j)
    {
      if j < n {
        assert SonicContinues(initialCount, samples, timeout, hasHealthFn, n);
      }
    }
  }

  /**
   * What the polling part of wait_sonic_complete returns: it stops at the first
   * tick past the timeout, with a failed health check, or at which `stall_count`
   * reaches 30; the record carries that tick's count and elapsed minutes.
   */
  predicate SonicWaitSpec(initialCount: int, samples: seq<SonicSample>, timeout: int, hasHealthFn: bool,
                          r: SonicOutcome, stop: nat) {
    && stop < |samples|
    && SonicContinues(initialCount, samples, timeout, hasHealthFn, stop)
    && r.initialCount == initialCount
    && r.finalCount == samples[stop].count
    && r.delta == r.finalCount - r.initialCount
    && r.durationMinutes == samples[stop].elapsed / 60
    && r.reason in {Stall, Timeout, HealthCheckFailed}
    && (r.reason == Timeout <==> samples[stop].elapsed >= timeout)
    && (r.reason == HealthCheckFailed <==> samples[stop].elapsed < timeout && hasHealthFn && !samples[stop].healthy)
    && (r.reason == Stall ==> Reached(StallCountAfter(initialCount, samples, stop + 1), MaxStall))
    && (r.success <==> r.reason == Stall)
  }

  /**
   * wait_sonic_complete. `status` is the first get_unanalyzed_track_count,
   * `initialCount` the first get_sonic_count_from_db.
   */
  method WaitSonicComplete(status: TrackStatus, initialCount: int, samples: seq<SonicSample>, timeout: int, hasHealthFn: bool)
    returns (r: SonicOutcome, stop: nat)
    requires status.unanalyzedTracks != 0 ==> ReachesTimeout(Elapsed(samples, SonicTime), timeout)
    ensures status.unanalyzedTracks == 0 ==>
      r == SonicOutcome(true, status.analyzedTracks, status.analyzedTracks, 0, 0, AlreadyComplete)
    ensures status.unanalyzedTracks != 0 ==> SonicWaitSpec(initialCount, samples, timeout, hasHealthFn, r, stop)
    ensures r.delta == r.finalCount - r.initialCount
  {
    if status.unanalyzedTracks == 0 {
      return SonicOutcome(true, status.analyzedTracks, status.analyzedTracks, 0, 0, AlreadyComplete), 0;
    }
    var lastCount := initialCount;
    var stallCount := 0;
    var i := 0;
    while samples[i].elapsed < timeout
      invariant 0 <= i < |samples|
      invariant lastCount == PrevCount(initialCount, samples, i)
      invariant stallCount == StallCountAfter(initialCount, samples, i)
      invariant SonicContinues(initialCount, samples, timeout, hasHealthFn, i)
      decreases |samples| - i
    {
      var s := samples[i];
      if hasHealthFn && !s.healthy {
        var finalCount := s.count;
        return SonicOutcome(false, initialCount, finalCount, finalCount - initialCount, s.elapsed / 60, HealthCheckFailed), i;
      }
      var currentCount := s.count;
      var deltaSinceLast := currentCount - lastCount;
      var deltaTotal := currentCount - initialCount;
      StallCountStep(initialCount, samples, i);
      if deltaSinceLast == 0 && s.cpu < SonicCpuThreshold && !s.sonicRunning {
        stallCount := stallCount + 1;
        if stallCount >= MaxStall {
          return SonicOutcome(true, initialCount, currentCount, deltaTotal, s.elapsed / 60, Stall), i;
        }
      } else {
        stallCount := 0;
      }
      SonicContinuesStep(initialCount, samples, timeout, hasHealthFn, i);
      lastCount := currentCount;
      i := i + 1;
    }
    var finalCount := samples[i].count;
    return SonicOutcome(false, initialCount, finalCount, finalCount - initialCount, samples[i].elapsed / 60, Timeout), i;
  }

  /** Across a run of stall candidates the counter never moves from its value before the run. */
  lemma {:induction false} FrozenAcrossStall(initialCount: int, samples: seq<SonicSample>, lo: nat, hi: nat)
    requires lo <= hi <= |samples|
    requires forall j :: lo <= j < hi ==> StallCandidate(initialCount, samples, j)
    ensures forall j :: lo <= j < hi ==> samples[j].count == PrevCount(initialCount, samples, lo)
    decreases hi - lo
  {
    if lo < hi {
      assert StallCandidate(initialCount, samples, lo);
      FrozenAcrossStall(initialCount, samples, lo + 1, hi);
    }
  }

  /**
   * A stall outcome means the progress counter stayed frozen over the last 30
   * ticks, each with CPU under 5 % and Sonic stopped: the final count is the
   * count seen just before those ticks.
   */
  lemma {:induction false} SonicStallMeansFrozen(initialCount: int, samples: seq<SonicSample>, timeout: int, hasHealthFn: bool,
                                                 r: SonicOutcome, stop: nat)
    requires SonicWaitSpec(initialCount, samples, timeout, hasHealthFn, r, stop)
    requires r.reason == Stall
    ensures MaxStall <= stop + 1
    ensures forall j :: stop + 1 - MaxStall <= j <= stop ==>
      samples[j].cpu < SonicCpuThreshold && !samples[j].sonicRunning
    ensures r.finalCount == PrevCount(initialCount, samples, stop + 1 - MaxStall)
  {
    var flags := StallFlags(initialCount, samples);
    TrailingRunAtLeast(flags[..stop + 1], MaxStall);
    var lo := stop + 1 - MaxStall;
    forall j | lo <= j <= stop
      ensures StallCandidate(initialCount, samples, j)
      ensures samples[j].cpu < SonicCpuThreshold && !samples[j].sonicRunning
    {
      assert flags[..stop + 1][j] == flags[j];
    }
    FrozenAcrossStall(initialCount, samples, lo, stop + 1);
  }

  /** A failed health check at tick `k` ends the Sonic wait, unsuccessfully, no later than tick `k`. */
  lemma SonicHealthAbort(initialCount: int, samples: seq<SonicSample>, timeout: int, r: SonicOutcome, stop: nat, k: nat)
    requires SonicWaitSpec(initialCount, samples, timeout, true, r, stop)
    requires k < |samples| && !samples[k].healthy
    ensures stop <= k
    ensures stop == k ==> !r.success
  {
    assert !SonicGoesOn(initialCount, samples, timeout, true, k);
  }

  // ---------------------------------------------------------------------------
  // wait_plex_stabilized
  // ---------------------------------------------------------------------------

  /** One tick: the number of `<Activity` entries, the scanner process, the CPU. */
  datatype StableSample = StableSample(elapsed: nat, activeTasks: nat, scannerRunning: bool, cpu: int)

  predicate StableIdle(s: StableSample, cpuThreshold: int) {
    s.activeTasks == 0 && !s.scannerRunning && s.cpu < cpuThreshold
  }

  function StableFlags(samples: seq<StableSample>, cpuThreshold: int): (flags: seq<bool>)
    ensures |flags| == |samples|
    ensures forall j :: 0 <= j < |samples| ==> flags[j] == StableIdle(samples[j], cpuThreshold)
  {
    seq(|samples|, j requires 0 <= j < |samples| => StableIdle(samples[j], cpuThreshold))
  }

  /** The value of `idle_count` after the first `n` ticks. */
  function StableCountAfter(samples: seq<StableSample>, cpuThreshold: int, n: nat): nat
    requires n <= |samples|
  {
    TrailingRun(StableFlags(samples, cpuThreshold)[..n])
  }

  /** One more tick: `idle_count` goes up on an idle tick and drops to 0 otherwise. */
  lemma StableCountStep(samples: seq<StableSample>, cpuThreshold: int, i: nat)
    requires i < |samples|
    ensures StableCountAfter(samples, cpuThreshold, i + 1)
      == if StableIdle(samples[i], cpuThreshold) then StableCountAfter(samples, cpuThreshold, i) + 1 else 0
  {
    var flags := StableFlags(samples, cpuThreshold);
    assert flags[..i + 1] == flags[..i] + [flags[i]];
    TrailingRunStep(flags[..i], flags[i]);
  }

  /** The seconds elapsed at a sample. */
  function StableTime(t: StableSample): nat {
    t.elapsed
  }

  /** Each of the first `n` ticks is before the timeout and leaves the counter short of the threshold. */
  predicate StableWaitContinues(samples: seq<StableSample>, cooldownChecks: int, cpuThreshold: int, timeout: int, n: nat)
    requires n <= |samples|
  {
    forall j :: 0 <= j < n ==> StableGoesOn(samples, cooldownChecks, cpuThreshold, timeout, j)
  }

  /** Tick `j` lets the loop go on: before the timeout and short of the threshold. */
  predicate StableGoesOn(samples: seq<StableSample>, cooldownChecks: int, cpuThreshold: int, timeout: int, j: nat)
    requires j < |samples|
  {
    samples[j].elapsed < timeout && !Reached(StableCountAfter(samples, cpuThreshold, j + 1), cooldownChecks)
  }

  lemma {:induction false} StableContinuesStep(samples: seq<StableSample>, cooldownChecks: int, cpuThreshold: int, timeout: int, n: nat)
    requires n < |samples| && StableWaitContinues(samples, cooldownChecks, cpuThreshold, timeout, n)
    requires StableGoesOn(samples, cooldownChecks, cpuThreshold, timeout, n)
    ensures StableWaitContinues(samples, cooldownChecks, cpuThreshold, timeout, n + 1)
  {
    forall j | 0 <= j < n + 1
      ensures StableGoesOn(samples, cooldownChecks, cpuThreshold, timeout, j)
    {
      if j < n {
        assert StableWaitContinues(samples, cooldownChecks, cpuThreshold, timeout, n);
      }
    }
  }

  /**
   * What wait_plex_stabilized returns: True at the first tick at which
   * `cooldown_checks` consecutive idle ticks have been seen, False at the first
   * tick past the timeout.
   */
  predicate StableWaitSpec(samples: seq<StableSample>, cooldownChecks: int, cpuThreshold: int, timeout: int, stable: bool, stop: nat) {
    && stop < |samples|
    && StableWaitContinues(samples, cooldownChecks, cpuThreshold, timeout, stop)
    && (stable <==>
          && samples[stop].elapsed < timeout
          && Reached(StableCountAfter(samples, cpuThreshold, stop + 1), cooldownChecks))
    && (!stable ==> samples[stop].elapsed >= timeout)
  }

  /** wait_plex_stabilized. */
  method WaitPlexStabilized(samples: seq<StableSample>, cooldownChecks: int, cpuThreshold: int, timeout: int)
    returns (stable: bool, stop: nat)
    requires ReachesTimeout(Elapsed(samples, StableTime), timeout)
    ensures StableWaitSpec(samples, cooldownChecks, cpuThreshold, timeout, stable, stop)
  {
    var idleCount := 0;
    var i := 0;
    while samples[i].elapsed < timeout
      invariant 0 <= i < |samples|
      invariant idleCount == StableCountAfter(samples, cpuThreshold, i)
      invariant StableWaitContinues(samples, cooldownChecks, cpuThreshold, timeout, i)
      decreases |samples| - i
    {
      var s := samples[i];
      StableCountStep(samples, cpuThreshold, i);
      var isIdle := StableIdle(s, cpuThreshold);
      if isIdle {
        idleCount := idleCount + 1;
        if idleCount >= cooldownChecks {
          return true, i;
        }
      } else {
        if idleCount > 0 {
          idleCount := 0;
        }
      }
      StableContinuesStep(samples, cooldownChecks, cpuThreshold, timeout, i);
      i := i + 1;
    }
    return false, i;
  }

  // ---------------------------------------------------------------------------
  // format_item_counts
  // ---------------------------------------------------------------------------

  datatype ItemTotals = ItemTotals(artists: int, albums: int, tracks: int, movies: int, shows: int, episodes: int, photos: int)

  predicate AllZero(t: ItemTotals) {
    t.tracks == 0 && t.albums == 0 && t.artists == 0 && t.movies == 0
    && t.episodes == 0 && t.shows == 0 && t.photos == 0
  }

  /** One count with the icon and noun it is shown with. */
  datatype Labelled = Labelled(icon: char, n: int, noun: string)

  /** The counts format_item_counts shows, in its fixed order. */
  function Labels(t: ItemTotals): (es: seq<Labelled>)
    ensures |es| == 7
    ensures es[0].n == t.tracks && es[1].n == t.albums && es[2].n == t.artists && es[3].n == t.movies
    ensures es[4].n == t.episodes && es[5].n == t.shows && es[6].n == t.photos
    ensures forall k :: 0 <= k < |es| ==> es[k].icon != '0'
    ensures (forall k :: 0 <= k < |es| ==> es[k].n == 0) <==> AllZero(t)
  {
    var es := [Labelled('\U{1F3B5}', t.tracks, "pistes"),
     Labelled('\U{1F4BF}', t.albums, "albums"),
     Labelled('\U{1F3A4}', t.artists, "artistes"),
     Labelled('\U{1F3AC}', t.movies, "films"),
     Labelled('\U{1F4FA}', t.episodes, "\U{E9}pisodes"),
     Labelled('\U{1F4FA}', t.shows, "s\U{E9}ries"),
     Labelled('\U{1F4F7}', t.photos, "photos")];
    assert es[0].n == t.tracks && es[1].n == t.albums && es[2].n == t.artists && es[3].n == t.movies;
    assert es[4].n == t.episodes && es[5].n == t.shows && es[6].n == t.photos;
    es
  }

  /** `<icon> <n> <noun>`. */
  function Part(e: Labelled): (p: string)
    ensures |p| > 0 && p[0] == e.icon
  {
    [e.icon] + " " + IntToString(e.n) + " " + e.noun
  }

  /** The labelled counts that are shown: the non-zero ones, in order. */
  function NonZero(es: seq<Labelled>): (shown: seq<Labelled>)
    ensures |shown| <= |es|
    ensures forall e :: e in shown <==> e in es && e.n != 0
  {
    if es == [] then []
    else
      var init := NonZero(es[..|es| - 1]);
      assert es == es[..|es| - 1] + [es[|es| - 1]];
      if es[|es| - 1].n != 0 then init + [es[|es| - 1]] else init
  }

  /** Nothing is shown exactly when every count is zero. */
  lemma NothingShownIffAllZero(t: ItemTotals)
    ensures NonZero(Labels(t)) == [] <==> AllZero(t)
  {
    var es := Labels(t);
    if NonZero(es) == [] {
      forall k | 0 <= k < |es| ensures es[k].n == 0 {
        assert es[k] in es;
      }
    } else {
      assert NonZero(es)[0] in NonZero(es);
    }
  }

  /** The parts of the shown counts, one `<icon> <n> <noun>` each. */
  function Parts(shown: seq<Labelled>): (parts: seq<string>)
    ensures |parts| == |shown|
    ensures forall i :: 0 <= i < |shown| ==> |parts[i]| > 0 && parts[i][0] == shown[i].icon
  {
    seq(|shown|, i requires 0 <= i < |shown| => Part(shown[i]))
  }

  /** A join of non-empty parts starts with the first part. */
  lemma JoinStartsWithFirst(parts: seq<string>, sep: string)
    requires |parts| > 0 && |parts[0]| > 0
    ensures |Join(parts, sep)| > 0 && Join(parts, sep)[0] == parts[0][0]
  {
  }

  /**
   * format_item_counts: the parts of the non-zero counts joined by " | ", or
   * "0 items", which is shown exactly when every count is zero.
   */
  function FormatItemCounts(t: ItemTotals): (s: string)
    ensures s == "0 items" <==> AllZero(t)
    ensures !AllZero(t) ==> s == Join(Parts(NonZero(Labels(t))), " | ")
  {
    var shown := NonZero(Labels(t));
    NothingShownIffAllZero(t);
    if shown == [] then "0 items"
    else
      var parts := Parts(shown);
      assert shown[0] in shown;
      JoinStartsWithFirst(parts, " | ");
      Join(parts, " | ")
  }

  // ---------------------------------------------------------------------------
  // scan_section_incrementally: the prefix filter and the running total
  // ---------------------------------------------------------------------------

  /** `d.upper().startswith(tuple(prefixes))`. */
  predicate MatchesPrefix(d: string, prefixes: seq<string>) {
    exists p :: p in prefixes && StartsWith(ToUpper(d), p)
  }

  /** `[d for d in all_items if d.upper().startswith(tuple(prefixes))]`. */
  function FilterByPrefix(allItems: seq<string>, prefixes: seq<string>): (r: seq<string>)
    ensures |r| <= |allItems|
    ensures forall d :: d in r <==> d in allItems && MatchesPrefix(d, prefixes)
  {
    if allItems == [] then []
    else
      var rest := FilterByPrefix(allItems[1..], prefixes);
      assert forall d :: d in allItems <==> d == allItems[0] || d in allItems[1..];
      if MatchesPrefix(allItems[0], prefixes) then [allItems[0]] + rest else rest
  }

  /**
   * The items scan_section_incrementally walks: all directories when there is
   * no filter or when no directory matches it, otherwise the matching ones.
   * The selection is never empty unless the directory listing is.
   */
  function SelectScanItems(allItems: seq<string>, prefixes: seq<string>): (items: seq<string>)
    ensures items == [] <==> allItems == []
    ensures forall d :: d in items ==> d in allItems
    ensures prefixes != [] && (exists d :: d in allItems && MatchesPrefix(d, prefixes)) ==>
      forall d :: d in items <==> d in allItems && MatchesPrefix(d, prefixes)
    ensures (prefixes == [] || forall d :: d in allItems ==> !MatchesPrefix(d, prefixes)) ==> items == allItems
  {
    if prefixes == [] then allItems
    else
      var filtered := FilterByPrefix(allItems, prefixes);
      if filtered == [] then allItems
      else
        assert filtered[0] in filtered;
        filtered
  }

  function Sum(xs: seq<int>): int {
    if xs == [] then 0 else Sum(xs[..|xs| - 1]) + xs[|xs| - 1]
  }

  /**
   * scan_section_incrementally, past the directory listing: `listing` is None
   * when listing the mount raised (the call then returns 0), `trackCounts` the
   * track count read after each item's scan. The total returned is the last
   * count read, or the starting count when nothing was scanned, and the
   * per-item increments it prints add up to the change from the start.
   */
  method ScanSectionIncrementally(listing: Option<seq<string>>, prefixes: seq<string>, totalStart: int, trackCounts: seq<int>)
    returns (total: int, ghost added: seq<int>)
    requires listing.Some? ==> |trackCounts| >= |SelectScanItems(listing.value, prefixes)|
    ensures listing.None? ==> total == 0 && added == []
    ensures listing.Some? ==> |added| == |SelectScanItems(listing.value, prefixes)|
    ensures listing.Some? && SelectScanItems(listing.value, prefixes) == [] ==> total == totalStart
    ensures listing.Some? && SelectScanItems(listing.value, prefixes) != [] ==>
      total == trackCounts[|SelectScanItems(listing.value, prefixes)| - 1]
    ensures listing.Some? ==> Sum(added) == total - totalStart
  {
    if listing.None? {
      return 0, [];
    }
    var items := SelectScanItems(listing.value, prefixes);
    var currentTotal := totalStart;
    var newTotal := totalStart;
    added := [];
    var i := 0;
    while i < |items|
      invariant 0 <= i <= |items|
      invariant |added| == i
      invariant newTotal == currentTotal
      invariant currentTotal == if i == 0 then totalStart else trackCounts[i - 1]
      invariant Sum(added) == currentTotal - totalStart
    {
      newTotal := trackCounts[i];
      var delta := newTotal - currentTotal;
      added := added + [delta];
      assert added[..|added| - 1] == added[..i];
      currentTotal := newTotal;
      i := i + 1;
    }
    return newTotal, added;
  }
}

/**
 * The mount health supervisor: a monitor object whose background cycle probes
 * the rclone mount, records the result and, when the mount is unhealthy and no
 * one else is remounting, runs the remount routine under the process-wide
 * remount lock. One cycle is an atomic step here; its probe results and clock
 * reading are parameters.
 */
module MountMonitor {
  import opened Wrappers
  import opened Locks
  import opened PlexSetup

  /** The probe timeout of every supervisory cycle, in seconds. */
  const CycleProbeTimeout: int := 30

  const DefaultCheckInterval: int := 120
  const DefaultRemountRetries: int := 3

  /** The report a fresh monitor starts with, and the one a successful remount leaves. */
  const HealthyReport: HealthReport := HealthReport(true, None)

  /** The statistics record; times are clock readings. */
  datatype Stats = Stats(checksTotal: nat, checksFailed: nat, remountsAttempted: nat, remountsSuccessful: nat,
                         startTime: Option<int>, stopTime: Option<int>)

  /** Every success was an attempt, every attempt followed a failed check, every failed check was a check. */
  predicate Ordered(s: Stats) {
    s.remountsSuccessful <= s.remountsAttempted <= s.checksFailed <= s.checksTotal
  }

  /**
   * What the remount routine, called with `skip_lock=True`, reports: success
   * when its own first probe finds the mount healthy or when one of its first
   * `max_retries` attempts restores it.
   */
  predicate RemountSucceeds(mountPoint: string, initial: MountProbe, attempts: seq<MountAttempt>, maxRetries: int)
    requires |attempts| >= AttemptLimit(maxRetries)
  {
    Healthy(mountPoint, initial) || exists k :: 0 <= k < AttemptLimit(maxRetries) && Restores(mountPoint, attempts[k])
  }

  /** What one supervisory cycle meets: the clock, the deep probe, and the remount routine's own probes. */
  datatype Cycle = Cycle(now: int, probe: MountProbe, remountProbe: MountProbe, attempts: seq<MountAttempt>)

  /** Every cycle gives the remount routine an outcome for each of its attempts. */
  predicate Attemptable(cycles: seq<Cycle>, maxRetries: int) {
    forall j :: 0 <= j < |cycles| ==> |cycles[j].attempts| >= AttemptLimit(maxRetries)
  }

  /** The cycle's deep probe finds the mount unhealthy. */
  predicate CycleFails(mountPoint: string, c: Cycle) {
    !ProbeDeep(mountPoint, CycleProbeTimeout, c.probe).healthy
  }

  /** The cycle's probe fails and the remount it then runs succeeds. */
  predicate CycleRestores(mountPoint: string, c: Cycle, maxRetries: int)
    requires |c.attempts| >= AttemptLimit(maxRetries)
  {
    CycleFails(mountPoint, c) && RemountSucceeds(mountPoint, c.remountProbe, c.attempts, maxRetries)
  }

  /** How many of the cycles find the mount unhealthy. */
  function FailedCycles(mountPoint: string, cycles: seq<Cycle>): (n: nat)
    ensures n <= |cycles|
  {
    if cycles == [] then 0
    else FailedCycles(mountPoint, cycles[..|cycles| - 1]) + if CycleFails(mountPoint, cycles[|cycles| - 1]) then 1 else 0
  }

  /** How many of the cycles find the mount unhealthy and restore it. */
  function RestoredCycles(mountPoint: string, cycles: seq<Cycle>, maxRetries: int): (n: nat)
    requires Attemptable(cycles, maxRetries)
    ensures n <= FailedCycles(mountPoint, cycles)
  {
    if cycles == [] then 0
    else
      RestoredCycles(mountPoint, cycles[..|cycles| - 1], maxRetries)
      + if CycleRestores(mountPoint, cycles[|cycles| - 1], maxRetries) then 1 else 0
  }

  /**
   * The remount a failed cycle runs with the global lock already taken
   * succeeds exactly when the cycle restores the mount.
   */
  lemma RemountRestores(mountPoint: string, c: Cycle, maxRetries: int, ok: bool, cooldowns: seq<int>)
    requires |c.attempts| >= AttemptLimit(maxRetries) && CycleFails(mountPoint, c)
    requires Healthy(mountPoint, c.remountProbe) ==> ok
    requires RemountRuns(mountPoint, c.remountProbe, c.remountProbe, true, true) ==>
      RemountOutcome(mountPoint, c.attempts, maxRetries, ok, cooldowns)
    ensures ok == CycleRestores(mountPoint, c, maxRetries)
  {
    if RemountRuns(mountPoint, c.remountProbe, c.remountProbe, true, true) {
      RemountSucceedsIffAnAttemptRestores(mountPoint, c.attempts, maxRetries, ok, cooldowns);
    }
  }

  /**
   * The report a cycle leaves: healthy after a remount it ran and that
   * succeeded, and its deep probe's report otherwise.
   */
  function CycleReport(mountPoint: string, c: Cycle, maxRetries: int, lockHeld: bool): HealthReport
    requires |c.attempts| >= AttemptLimit(maxRetries)
  {
    if !lockHeld && CycleRestores(mountPoint, c, maxRetries) then HealthyReport
    else ProbeDeep(mountPoint, CycleProbeTimeout, c.probe)
  }

  /**
   * The statistics after one health check: the check is counted; a failed
   * check is counted as failed and, when the global lock is free, as a
   * remount attempt, which is counted as successful when the remount succeeds.
   */
  function AfterCheck(s: Stats, mountPoint: string, c: Cycle, maxRetries: int, lockHeld: bool): Stats
    requires |c.attempts| >= AttemptLimit(maxRetries)
  {
    var counted := s.(checksTotal := s.checksTotal + 1);
    if !CycleFails(mountPoint, c) then counted
    else if lockHeld then counted.(checksFailed := s.checksFailed + 1)
    else
      counted.(checksFailed := s.checksFailed + 1, remountsAttempted := s.remountsAttempted + 1,
               remountsSuccessful := s.remountsSuccessful + if CycleRestores(mountPoint, c, maxRetries) then 1 else 0)
  }

  /** One check keeps the counters ordered and moves each by at most one; the times are untouched. */
  lemma CheckCounters(s: Stats, mountPoint: string, c: Cycle, maxRetries: int, lockHeld: bool)
    requires |c.attempts| >= AttemptLimit(maxRetries)
    ensures var t := AfterCheck(s, mountPoint, c, maxRetries, lockHeld);
      && t.checksTotal == s.checksTotal + 1
      && t.checksFailed == s.checksFailed + (if CycleFails(mountPoint, c) then 1 else 0)
      && t.remountsAttempted == s.remountsAttempted + (if CycleFails(mountPoint, c) && !lockHeld then 1 else 0)
      && t.remountsSuccessful == s.remountsSuccessful + (if CycleRestores(mountPoint, c, maxRetries) && !lockHeld then 1 else 0)
      && t.startTime == s.startTime && t.stopTime == s.stopTime
      && (Ordered(s) ==> Ordered(t))
  {
  }

  /** The statistics after a sequence of health checks, the global lock's state staying the same throughout. */
  function AfterCycles(s: Stats, mountPoint: string, cycles: seq<Cycle>, maxRetries: int, lockHeld: bool): Stats
    requires Attemptable(cycles, maxRetries)
  {
    if cycles == [] then s
    else
      var n := |cycles| - 1;
      assert Attemptable(cycles[..n], maxRetries) by {
        forall j | 0 <= j < n ensures |cycles[..n][j].attempts| >= AttemptLimit(maxRetries) {
          assert cycles[..n][j] == cycles[j];
        }
      }
      AfterCheck(AfterCycles(s, mountPoint, cycles[..n], maxRetries, lockHeld), mountPoint, cycles[n], maxRetries, lockHeld)
  }

  /**
   * Over a sequence of checks, every check is counted, the failed ones are
   * the cycles whose probe fails, and with the lock free each of those is an
   * attempt and each restoring one a success; the counters stay ordered.
   */
  lemma {:induction false} CyclesCounters(s: Stats, mountPoint: string, cycles: seq<Cycle>, maxRetries: int, lockHeld: bool)
    requires Attemptable(cycles, maxRetries)
    ensures var t := AfterCycles(s, mountPoint, cycles, maxRetries, lockHeld);
      && t.checksTotal == s.checksTotal + |cycles|
      && t.checksFailed == s.checksFailed + FailedCycles(mountPoint, cycles)
      && (lockHeld ==> t.remountsAttempted == s.remountsAttempted && t.remountsSuccessful == s.remountsSuccessful)
      && (!lockHeld ==> t.remountsAttempted == s.remountsAttempted + FailedCycles(mountPoint, cycles)
                        && t.remountsSuccessful == s.remountsSuccessful + RestoredCycles(mountPoint, cycles, maxRetries))
      && t.startTime == s.startTime && t.stopTime == s.stopTime
      && (Ordered(s) ==> Ordered(t))
    decreases |cycles|
  {
    if cycles != [] {
      var n := |cycles| - 1;
      assert Attemptable(cycles[..n], maxRetries) by {
        forall j | 0 <= j < n ensures |cycles[..n][j].attempts| >= AttemptLimit(maxRetries) {
          assert cycles[..n][j] == cycles[j];
        }
      }
      CyclesCounters(s, mountPoint, cycles[..n], maxRetries, lockHeld);
      CheckCounters(AfterCycles(s, mountPoint, cycles[..n], maxRetries, lockHeld), mountPoint, cycles[n], maxRetries, lockHeld);
    }
  }

  /** The statistics after the first `i + 1` cycles are those after the first `i`, then cycle `i`. */
  lemma CyclesStep(s: Stats, mountPoint: string, cycles: seq<Cycle>, i: nat, maxRetries: int, lockHeld: bool)
    requires i < |cycles| && Attemptable(cycles, maxRetries)
    ensures Attemptable(cycles[..i], maxRetries) && Attemptable(cycles[..i + 1], maxRetries)
    ensures AfterCycles(s, mountPoint, cycles[..i + 1], maxRetries, lockHeld)
            == AfterCheck(AfterCycles(s, mountPoint, cycles[..i], maxRetries, lockHeld), mountPoint, cycles[i], maxRetries, lockHeld)
  {
    assert cycles[..i + 1][..i] == cycles[..i];
  }

  class MountHealthMonitor {
    const ip: string
    const mountPoint: string
    const rcloneRemote: string
    const profile: string
    const cacheDir: string
    const logFile: string
    const checkInterval: int
    const remountRetries: int
    /** The class-wide remount lock, shared with every other user of the remount routine. */
    const globalLock: RemountLock

    var running: bool
    var lastHealth: HealthReport
    var lastCheckTime: Option<int>
    var stats: Stats

    predicate Valid()
      reads this
    {
      Ordered(stats)
    }

    /** A new monitor is stopped, believes the mount healthy, and has every counter at 0. */
    constructor(globalLock: RemountLock, ip: string, mountPoint: string, rcloneRemote: string, profile: string,
                cacheDir: string, logFile: string, checkInterval: int, remountRetries: int)
      ensures Valid()
      ensures !running && lastHealth == HealthyReport && lastCheckTime == None
      ensures stats == Stats(0, 0, 0, 0, None, None)
      ensures this.globalLock == globalLock && this.mountPoint == mountPoint
      ensures this.checkInterval == checkInterval && this.remountRetries == remountRetries
    {
      this.globalLock := globalLock;
      this.ip := ip;
      this.mountPoint := mountPoint;
      this.rcloneRemote := rcloneRemote;
      this.profile := profile;
      this.cacheDir := cacheDir;
      this.logFile := logFile;
      this.checkInterval := checkInterval;
      this.remountRetries := remountRetries;
      running := false;
      lastHealth := HealthyReport;
      lastCheckTime := None;
      stats := Stats(0, 0, 0, 0, None, None);
    }

    /** `start`: a no-op when already running; otherwise marks the monitor running and records the start time. */
    method Start(now: int)
      modifies this
      ensures old(running) ==> running == old(running) && stats == old(stats)
      ensures !old(running) ==> running && stats == old(stats).(startTime := Some(now))
      ensures lastHealth == old(lastHealth) && lastCheckTime == old(lastCheckTime)
      ensures old(Valid()) ==> Valid()
    {
      if running {
        return;
      }
      running := true;
      stats := stats.(startTime := Some(now));
    }

    /** `stop`: a no-op when not running; otherwise clears the running flag and records the stop time. */
    method Stop(now: int)
      modifies this
      ensures !old(running) ==> !running && stats == old(stats)
      ensures old(running) ==> !running && stats == old(stats).(stopTime := Some(now))
      ensures lastHealth == old(lastHealth) && lastCheckTime == old(lastCheckTime)
      ensures old(Valid()) ==> Valid()
    {
      if !running {
        return;
      }
      running := false;
      stats := stats.(stopTime := Some(now));
    }

    /**
     * `_perform_health_check`: one check is counted and its report cached. A
     * failed check is counted too; then, unless another holder has the global
     * lock, the monitor takes it, counts a remount attempt, counts a success
     * and caches a healthy report when the remount succeeds, and releases it.
     */
    method PerformHealthCheck(now: int, probe: MountProbe, remountProbe: MountProbe, attempts: seq<MountAttempt>)
      requires Valid()
      requires |attempts| >= AttemptLimit(remountRetries)
      modifies this, globalLock
      ensures Valid()
      ensures running == old(running) && lastCheckTime == Some(now)
      ensures globalLock.held == old(globalLock.held)
      ensures stats == AfterCheck(old(stats), mountPoint, Cycle(now, probe, remountProbe, attempts), remountRetries, old(globalLock.held))
      ensures lastHealth == CycleReport(mountPoint, Cycle(now, probe, remountProbe, attempts), remountRetries, old(globalLock.held))
    {
      ghost var cycle := Cycle(now, probe, remountProbe, attempts);
      stats := stats.(checksTotal := stats.checksTotal + 1);
      lastCheckTime := Some(now);
      var health := ProbeDeep(mountPoint, CycleProbeTimeout, probe);
      assert CycleFails(mountPoint, cycle) == !health.healthy;
      lastHealth := health;
      if health.healthy {
        return;
      }
      stats := stats.(checksFailed := stats.checksFailed + 1);
      var acquired := globalLock.TryAcquire();
      if !acquired {
        return;
      }
      stats := stats.(remountsAttempted := stats.remountsAttempted + 1);
      var success, cooldowns := RemountS3IfNeeded(globalLock, mountPoint, remountProbe, remountProbe, attempts,
                                                  remountRetries, true);
      RemountRestores(mountPoint, cycle, remountRetries, success, cooldowns);
      if success {
        stats := stats.(remountsSuccessful := stats.remountsSuccessful + 1);
        lastHealth := HealthyReport;
      }
      globalLock.Release();
    }

    /**
     * `_monitor_loop` over the cycles that run before the monitor is stopped:
     * every cycle is one health check. Failed checks are the cycles whose
     * deep probe fails; when the global lock is free, each of them is a
     * remount attempt and each successful remount is counted. The last
     * cycle's time and report are cached, the lock is left as found, and
     * the counters stay ordered. The wait between cycles is not modelled.
     */
    method MonitorLoop(cycles: seq<Cycle>)
      requires Valid()
      requires Attemptable(cycles, remountRetries)
      modifies this, globalLock
      ensures Valid()
      ensures running == old(running) && globalLock.held == old(globalLock.held)
      ensures stats.startTime == old(stats.startTime) && stats.stopTime == old(stats.stopTime)
      ensures !running || cycles == [] ==>
        stats == old(stats) && lastHealth == old(lastHealth) && lastCheckTime == old(lastCheckTime)
      ensures running ==> stats.checksTotal == old(stats.checksTotal) + |cycles|
      ensures running ==> stats.checksFailed == old(stats.checksFailed) + FailedCycles(mountPoint, cycles)
      ensures running && !old(globalLock.held) ==>
        && stats.remountsAttempted == old(stats.remountsAttempted) + FailedCycles(mountPoint, cycles)
        && stats.remountsSuccessful == old(stats.remountsSuccessful) + RestoredCycles(mountPoint, cycles, remountRetries)
      ensures running && old(globalLock.held) ==>
        stats.remountsAttempted == old(stats.remountsAttempted) && stats.remountsSuccessful == old(stats.remountsSuccessful)
      ensures running && cycles != [] ==>
        && lastCheckTime == Some(cycles[|cycles| - 1].now)
        && lastHealth == CycleReport(mountPoint, cycles[|cycles| - 1], remountRetries, old(globalLock.held))
    {
      if !running {
        return;
      }
      var i := 0;
      while i < |cycles|
        invariant 0 <= i <= |cycles|
        invariant Valid() && running && globalLock.held == old(globalLock.held)
        invariant i == 0 ==> lastHealth == old(lastHealth) && lastCheckTime == old(lastCheckTime)
        invariant Attemptable(cycles[..i], remountRetries)
        invariant stats == AfterCycles(old(stats), mountPoint, cycles[..i], remountRetries, old(globalLock.held))
        invariant i > 0 ==>
          && lastCheckTime == Some(cycles[i - 1].now)
          && lastHealth == CycleReport(mountPoint, cycles[i - 1], remountRetries, old(globalLock.held))
      {
        var c := cycles[i];
        CyclesStep(old(stats), mountPoint, cycles, i, remountRetries, old(globalLock.held));
        PerformHealthCheck(c.now, c.probe, c.remountProbe, c.attempts);
        i := i + 1;
      }
      assert cycles[..i] == cycles;
      CyclesCounters(old(stats), mountPoint, cycles, remountRetries, old(globalLock.held));
    }

    /**
     * `get_last_health`: a copy of the cached report. The function returned by
     * `get_health_check_fn` gives the same thing each time it is called; neither
     * probes the mount nor changes any counter.
     */
    method GetLastHealth() returns (h: HealthReport)
      ensures h == lastHealth
    {
      h := lastHealth;
    }

    /** `get_stats`: a copy of the statistics, which are always ordered. */
    method GetStats() returns (s: Stats)
      requires Valid()
      ensures s == stats && Ordered(s)
    {
      s := stats;
    }
  }
}

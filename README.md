# cloud-bursting core, modelled in Dafny

cloud-bursting rents a short-lived cloud instance and mounts an S3 music and
video library on it through rclone. It then runs a Plex Media Server there,
lets Plex scan and analyse the library, and ships the resulting Plex database
back home. Most of the program is shell orchestration (ssh, docker, rclone,
curl, sqlite3). This project models the decision logic inside that
orchestration. Every command result is an input: an exit code, trimmed
standard output, a CPU reading, or a process flag.

- **Convergence and stall detectors** (`PlexScan`). Three polling loops each
  read a finite trace of samples:
  - `wait_section_idle` debounces idle ticks after a 60 s grace period;
  - `wait_sonic_complete` stops on a frozen analysis counter;
  - `wait_plex_stabilized` is a plain idle debouncer.

  The module also holds the monitoring presets, the item-count summary and
  the prefix filter of the incremental scan. The shared debounce counter is
  specified once, as the length of the trailing run of counted ticks
  (`Debounce`).
- **Mount health supervisor** (`MountMonitor`). `MountHealthMonitor` is a
  class whose fields are updated in place: the running flag, the cached health
  report and the statistics. One supervisory cycle is one atomic method. The
  class-wide remount lock is a shared `Locks.RemountLock` object.
- **Probes and bounded remediation** (`PlexSetup`). This covers:
  - the two rclone mount probes;
  - the remount routine, with its retry loop and lock protocol;
  - `ensure_mount_healthy`;
  - the readiness rule of `wait_plex_fully_ready`;
  - the Plex Pass decision of `verify_plex_pass_active`.
- **Parsing and guards** (`DeltaSync`). This covers:
  - the sqlite3 output parsing of `get_library_stats_from_db`;
  - the path remapping and suggestions of `verify_paths_match`;
  - the guard sequence of `inject_existing_db`.
- **Configuration tables** (`Config`): the rclone and Docker profiles with
  their `lite` fallback, and the library-list limit.

`Text` holds the string helpers the parsers need: Python's `strip`, `split`,
`join`, `replace`, `isdigit` and `lower`, and the capture of an XML attribute
value. `Wrappers` holds `Option`.

Time is modelled as a trace. Each sample of a polling loop carries the
seconds elapsed since the loop started. A loop precondition says that the
last sample has reached the timeout, which stands for the clock advancing.
CPU percentages are integers in hundredths of a percent, so 20.0 is 2000 and
5.0 is 500.

## Model

| member | source | states |
|---|---|---|
| Config.GetRcloneProfile | common/config.py:97-172 | The named profile, or `lite` for an unknown name; every profile has the same twelve keys, and `attr_timeout` is always `8760h`. |
| Config.GetDockerLimits | common/config.py:175-208 | The named entry, or `lite` for an unknown name; the keys are `memory`, `memory_swap` and `cpus`, and in every entry `memory_swap` reads back as `memory` plus two gigabytes. |
| Config.GigabytesOfRendered | common/config.py:185-206 | A size written as `<n>g` reads back as n gigabytes. |
| Config.LoadLibraries | common/config.py:52-73 | The result is a prefix of the list: the whole list without a limit, otherwise as many entries as the limit allows under Python slice rules, negative limits included. |
| Locks.RemountLock.constructor | common/mount_monitor.py:47 | A new remount lock is free. |
| Locks.RemountLock.TryAcquire | common/mount_monitor.py:157 | A non-blocking acquire succeeds exactly when the lock was free, and the lock is held afterwards. |
| Locks.RemountLock.Acquire | common/plex_setup.py:1344-1352 | A blocking acquire leaves the caller holding the lock. |
| Locks.RemountLock.Release | common/mount_monitor.py:186-187 | Only a held lock is released, and it is free afterwards. |
| Debounce.TrailingRunStep | common/plex_scan.py:999-1007 | A counted tick adds one to the debounce counter, and any other tick resets it to 0. |
| Debounce.FirstReady | common/plex_setup.py:587-658 | The wait stops at the first tick that is ready before the timeout, reporting success, or at the first tick past the timeout, reporting failure; every earlier tick was neither. |
| Debounce.TrailingRunAtLeast | common/plex_scan.py:1341-1357 | The counter is at least n iff the last n ticks were all counted. |
| PlexScan.GetMonitoringParams | common/plex_scan.py:59-79 | The named preset, or `cloud_standard` for an unknown name; `description` is never in the result, and the other keys are the preset's own. |
| PlexScan.SafetyTimeout | common/plex_scan.py:952-959 | The per-type safety timeout is one of 7200, 14400 and 28800 seconds. |
| PlexScan.SafetyTimeoutTable | common/plex_scan.py:952-959 | movie and artist get 14400, show gets 7200, photo gets 28800, and any other type (or none) gets 7200. |
| PlexScan.SectionIdlePolicy | common/plex_scan.py:941-959 | A timeout of exactly 3600 is replaced by the per-type safety timeout, and any other timeout is kept; in the `analyze` phase the default interval of 30 becomes 120 and the default idle count of 3 becomes 5. |
| PlexScan.WaitSectionIdle | common/plex_scan.py:907-1052 | The loop result meets its trace specification. It stops at the first tick that has a failed health check, that reaches the idle threshold, or that is past the timeout, and it returns True only in the threshold case. |
| PlexScan.IdleCountedRule | common/plex_scan.py:994-999 | A tick counts toward the idle run iff the section is idle, CPU is below 20 %, and at least 60 s have elapsed. |
| PlexScan.SectionIdleConvergence | common/plex_scan.py:999-1005 | A True result means the last max(consecutive_idle, 1) ticks up to the stop were all truly idle and past the grace period. |
| PlexScan.SectionIdleHealthAbort | common/plex_scan.py:984-988 | A failed health check at tick k stops the loop no later than k, and if the loop stops at k the result is False. |
| PlexScan.UnanalyzedTrackCount | common/plex_scan.py:1174-1239 | Unanalyzed equals total minus analyzed; when either query fails, every count is 0. |
| PlexScan.WaitSonicComplete | common/plex_scan.py:1242-1374 | With nothing to analyse it returns success at once: reason `already_complete`, delta 0, 0 minutes, and the analyzed count as both the initial and the final count. Otherwise the outcome meets the trace specification: stall after 30 consecutive stall candidates, or a health failure, or a timeout. In every outcome delta equals final count minus initial count. |
| PlexScan.FrozenAcrossStall | common/plex_scan.py:1310-1359 | Along a run of stall candidates the analysed count never moves. |
| PlexScan.SonicStallMeansFrozen | common/plex_scan.py:1341-1355 | A `stall` outcome means the last 30 ticks were stall candidates, with CPU below 5 % and Sonic not running, and the final count is the count frozen across them. |
| PlexScan.SonicHealthAbort | common/plex_scan.py:1294-1307 | A failed health check at tick k stops the loop no later than k, and if the loop stops at k the outcome is a failure. |
| PlexScan.StableCountStep | common/plex_scan.py:815-825 | A tick with no activity, no scanner and CPU below the threshold adds one to the cooldown counter, and any busy tick resets it. |
| PlexScan.WaitPlexStabilized | common/plex_scan.py:776-837 | The loop result meets its trace specification: True exactly at the first tick whose idle run reaches `cooldown_checks` before the timeout, and False once the timeout is reached. |
| PlexScan.Labels | common/plex_scan.py:324-340 | The seven totals are kept in the summary's order, and they are all zero iff the totals are all zero. |
| PlexScan.NonZero | common/plex_scan.py:326-340 | A labelled total is shown exactly when its count is non-zero, and no more entries are shown than there are totals. |
| PlexScan.NothingShownIffAllZero | common/plex_scan.py:324-341 | Nothing is shown iff every total is zero. |
| PlexScan.Parts | common/plex_scan.py:326-340 | One part per shown total, each starting with that total's icon. |
| PlexScan.FormatItemCounts | common/plex_scan.py:324-341 | The summary is `0 items` iff every total is zero; otherwise it is the parts of the non-zero totals, in summary order, joined by ` \| `. |
| PlexScan.FilterByPrefix | common/plex_scan.py:94 | The result keeps exactly the entries that start with one of the prefixes. |
| PlexScan.SelectScanItems | common/plex_scan.py:92-102 | With prefixes that match something, the matching entries are scanned; with no prefixes, or none matching, the whole listing is scanned. The selection is empty only for an empty listing. |
| PlexScan.ScanSectionIncrementally | common/plex_scan.py:82-172 | A failed listing gives 0. Otherwise one count is added per selected item, and the returned total is the starting total plus the counts added. |
| PlexSetup.ProbeSimple | common/plex_setup.py:1163-1217 | Healthy iff both `mountpoint` and `ls` exit 0, in which case the error is None. Otherwise the error is "not active" when `mountpoint` fails, a timeout message when `ls` exits 124, and a message carrying the exit code for any other `ls` failure. |
| PlexSetup.ProbeDeep | common/plex_setup.py:1220-1304 | Same first two stages as the simple probe; in the read stage only exit 124 makes the mount unhealthy. |
| PlexSetup.DeepProbeRefinesSimple | common/plex_setup.py:1220-1304 | A healthy deep probe implies a healthy simple probe, and the two agree whenever the read did not time out. |
| PlexSetup.RemountS3IfNeeded | common/plex_setup.py:1307-1406 | A healthy first probe returns True without touching the lock or remounting. With `skip_lock` the caller must already hold the lock, and it is left held. A busy lock is waited on, and a healthy re-probe then returns True. The lock is released iff it was taken. Otherwise the result is True at the first attempt that restores the mount, after cooldowns of 10·k s. |
| PlexSetup.RemountAttempts | common/plex_setup.py:1363-1402 | It runs only while the remount lock is held, so no two remounts overlap. Attempt k waits a cooldown of 10·k s before remounting. The loop returns True at the first of its `max_retries` attempts that restores the mount, after failed attempts only, and False after all `max_retries` attempts failed. |
| PlexSetup.RemountSucceedsIffAnAttemptRestores | common/plex_setup.py:1363-1402 | When the retry loop runs, it succeeds iff one of its first `max_retries` attempts restores the mount. |
| PlexSetup.EnsureMountHealthy | common/plex_setup.py:1409-1453 | A healthy simple probe gives True with no remount and leaves the lock as it was. Otherwise the result is that of the remount routine with three retries, taking the lock itself: when that routine's own first probe is healthy, the lock is left as it was; otherwise it is released at the end. |
| PlexSetup.LinesOfText | common/plex_setup.py:600-602 | The last line and the body before it are the last element and the rejoined other elements of the newline split. |
| PlexSetup.LastLineOfAppended | common/plex_setup.py:600-602 | Appending a newline and a line recovers that line as the status code and the previous text as the body. |
| PlexSetup.StatusLineParsed | common/plex_setup.py:596-608 | An output ending in a `200` status line is claimed iff its body contains `claimed="1"`. |
| PlexSetup.ProcessCountOfRendered | common/plex_setup.py:625 | A count printed in decimal with a trailing newline reads back as that count. |
| PlexSetup.WaitPlexFullyReady | common/plex_setup.py:570-658 | Ready iff some tick before the timeout is claimed with status 200 and has at least 3 Plex processes; the loop stops at the first such tick, and otherwise at the timeout with False. |
| PlexSetup.PassTickVerdict | common/plex_setup.py:1495-1579 | Only a usable, linked reply finishes the wait: at once, with no error, when `subscriptionActive` is `1` (a missing attribute counts as `0`); otherwise exactly within the last check interval before the timeout, with the state in the error, and before that it is retried with no error. An exception, an unreachable reply or an unclaimed server means retry, recording its error. |
| PlexSetup.VerifyPlexPassActive | common/plex_setup.py:1456-1589 | Without a token it returns inactive with a token error at once; otherwise it returns the first finishing verdict before the timeout, or a timeout status that carries the last error. |
| PlexSetup.PollAccount | common/plex_setup.py:1489-1589 | The poll stops at the first tick that finishes before the timeout, with that tick's status, after ticks that all asked to retry; it stops at the timeout with no status and the last recorded error otherwise. |
| PlexSetup.PassActiveIff | common/plex_setup.py:1518-1553 | The returned status is active iff the loop stopped on a linked account whose subscription is active. |
| MountMonitor.MountHealthMonitor.constructor | common/mount_monitor.py:49-88 | A new monitor is stopped, believes the mount healthy with no error, and has every counter at 0. |
| MountMonitor.MountHealthMonitor.Start | common/mount_monitor.py:95-105 | A no-op when already running; otherwise it sets running and records the start time, leaving everything else unchanged. |
| MountMonitor.MountHealthMonitor.Stop | common/mount_monitor.py:107-118 | A no-op when stopped; otherwise it clears running and records the stop time. |
| MountMonitor.MountHealthMonitor.PerformHealthCheck | common/mount_monitor.py:134-187 | The new statistics are `AfterCheck` of the old ones, the lock's state before the check and the cycle. The cached report is `CycleReport`: healthy after a remount that succeeded, the deep probe's report otherwise. The check time is cached. The global lock is left as found, and the counters stay ordered. |
| MountMonitor.FailedCycles | common/mount_monitor.py:141-154 | The cycles whose deep probe fails are at most all the cycles. |
| MountMonitor.RestoredCycles | common/mount_monitor.py:168-181 | The cycles whose remount restores the mount are among the failed cycles. |
| MountMonitor.CheckCounters | common/mount_monitor.py:136-181 | One check counts one check. A failed deep probe counts a failure, and, when the global lock is free, a remount attempt. A success is counted iff the lock was free and the remount succeeds. The start and stop times are untouched, and ordered counters stay ordered: successful ≤ attempted ≤ failed ≤ total. |
| MountMonitor.RemountRestores | common/mount_monitor.py:168-181 | The remount run with `skip_lock=True` after a failed probe succeeds exactly when the cycle restores the mount: the remount's own probe is healthy, or one of its first `max_retries` attempts restores it. |
| MountMonitor.CyclesCounters | common/mount_monitor.py:120-181 | Over a sequence of checks: the total grows by the number of cycles, and the failures by the number of cycles whose deep probe fails. With the lock free, the attempts grow by the failed cycles and the successes by the restoring ones; with it held, neither changes. The times are untouched, and the counters stay ordered. |
| MountMonitor.CyclesStep | common/mount_monitor.py:122-124 | The statistics after one more cycle are those of the earlier cycles, followed by that cycle's check. |
| MountMonitor.MountHealthMonitor.MonitorLoop | common/mount_monitor.py:120-132 | A stopped monitor, or an empty run, changes nothing. A running monitor runs one check per cycle. The total grows by the number of cycles, and the failures by the cycles whose deep probe fails. With the global lock free, each failure is an attempt and each restoring cycle a success; with the lock held by another, neither counter moves. The last cycle's time and report are cached. The lock and the running flag are left as found, and the counters stay ordered. |
| MountMonitor.MountHealthMonitor.GetLastHealth | common/mount_monitor.py:189-208 | It returns the cached report, without probing or changing anything. |
| MountMonitor.MountHealthMonitor.GetStats | common/mount_monitor.py:210-213 | It returns the statistics, which are always ordered. |
| DeltaSync.InjectExistingDb | common/delta_sync.py:13-111 | Succeeds iff every guard passes. A running container stops the run before anything else. Extraction happens iff the container is stopped and, for a local archive, the archive exists. The ownership fix runs iff the run succeeds. |
| DeltaSync.RunGuards | common/delta_sync.py:13-111 | From the guards' verdicts: the run succeeds iff no guard fails; a running container stops it after the container check alone; extraction happens iff the container is stopped and any local archive exists; the ownership fix runs iff the run succeeds; the transfer happens only for a remote target. |
| DeltaSync.IntegrityOkPasses | common/delta_sync.py:86-91 | The integrity check passes iff the stripped output is `ok`, `oK`, `Ok` or `OK`. |
| DeltaSync.LowersToOk | common/delta_sync.py:86-87 | A text lower-cases to `ok` iff it is one of the four letter cases of `ok`. |
| DeltaSync.GetLibraryStatsFromDb | common/delta_sync.py:114-192 | Each counter is the query's digits when the query succeeded with an all-digit output, and 0 otherwise. Sections are the lines with at least three fields. Paths are grouped by section id. |
| DeltaSync.CountsOf | common/delta_sync.py:128-159 | Each counter is replaced only by a successful, all-digit reply, and stays 0 otherwise. |
| DeltaSync.OutputLines | common/delta_sync.py:165-166 | A failed or blank reply has no lines. |
| DeltaSync.SectionOf | common/delta_sync.py:166-173 | A line gives a section iff it splits into at least three `\|` fields, and the section's id, name and type are the first three fields. |
| DeltaSync.ParseSections | common/delta_sync.py:161-173 | The loop collects exactly the sections of the lines, in input order. |
| DeltaSync.SectionsOfMembers | common/delta_sync.py:165-173 | A section is collected iff some line yields it. |
| DeltaSync.GroupPaths | common/delta_sync.py:175-190 | An id has an entry iff some line carries a path for it, and its entry holds that id's paths in input order. |
| DeltaSync.PathsOfNonEmpty | common/delta_sync.py:179-190 | An id has at least one path iff some line with two fields names it. |
| DeltaSync.MediaPathRemapped | common/delta_sync.py:269-272 | A database path `/media/` + rest, where the rest contains neither `/media/` nor `/Media/`, is checked at the mount point plus `/` plus the rest. Every occurrence of either root is removed, not only a leading one, so other paths are not covered by this statement. |
| DeltaSync.CheckPaths | common/delta_sync.py:261-279 | The loop's suggestions are the specified ones, and it reports a match iff no check reported a missing path. |
| DeltaSync.VerifyPathsMatch | common/delta_sync.py:229-286 | The database paths are the query's lines. There is one suggestion per missing path, and a match iff nothing is missing. |
| DeltaSync.NoSuggestionsIffAllPresent | common/delta_sync.py:261-279 | There are no suggestions iff every check path is present. |
| DeltaSync.SuggestionsAreMissingPaths | common/delta_sync.py:264-279 | A suggestion appears iff it names the check path of a missing database path. |
| DeltaSync.MatchIffNoSuggestions | common/delta_sync.py:281-286 | The result matches iff there are no suggestions, and an empty path list always matches. |

## Left out

- Transport and infrastructure are not part of this model: the ssh, scp and docker command runner (common/executor.py), the cloud instance lifecycle (common/scaleway.py), local setup (common/local.py), log redirection (common/tee_logger.py), and the command-line drivers and scripts. Every command result they produce is an input here.
- Threads, `time.sleep`, clock reads and `join(timeout=5)` are not modelled. The background cycle of `MountHealthMonitor` is one atomic method, and a list of cycles stands for the loop. Time is the elapsed value carried by each sample.
- The instance lock `_lock` is not modelled, because each cycle is atomic. Note that the code holds it across the probe and the remount.
- `get_health_check_fn` has no member of its own: the function it returns reads the cached report exactly as `get_last_health` does, so `GetLastHealth` models both.
- `get_global_lock` is not modelled: the class-wide lock is the `RemountLock` object passed to each monitor.
- Exceptions raised inside `_monitor_loop`, and the `_print_stats` report, are not modelled.
- The supervisory cycle calls the deep probe (`verify_rclone_mount_healthy`) even though its comment says "simple". The model follows the code.
- Floating-point values (CPU percentages, percent complete, rates, response times) are integers in hundredths of a percent, or are left out.
- `isdigit`, `lower` and `upper` are ASCII only. Unicode digits and case folding are not modelled.
- Listing, sorting and the directory filter of `scan_section_incrementally` are not modelled: the listing is an input. The scan command and the scanner wait, with its 600-cycle kill, are out too. Only the prefix-filter fallback and the running total are modelled.
- `monitor_discovery_phase` and `monitor_discovery_phase_clean` are not modelled.
- In `wait_plex_fully_ready`, the diagnostic status text and the log lines are not modelled. Only the decision rule and the timeout are.
- In `remount_s3_if_needed`, the kill, unmount, cache purge and cache-directory choice are left out: each attempt is a result (raised, or mounted followed by a probe), and the cooldowns are the slept durations.
- The progress lines of `wait_sonic_complete` (count, delta, CPU, the Sonic flag and the rate) are printed only and do not affect the outcome. They are left out.
- `print_injection_stats` is left out. In `inject_existing_db`, the outputs of `chown`, `chmod` and `du` are not examined by the code, and a failed `transfer_file_to_remote` is not modelled.
- PlexScan.WaitSectionIdle, PlexScan.WaitSonicComplete, PlexScan.WaitPlexStabilized, PlexSetup.WaitPlexFullyReady, PlexSetup.VerifyPlexPassActive: each requires a trace whose last sample has reached the timeout. This stands for time advancing; a trace that never reaches the timeout is not modelled.
- PlexScan.FormatItemCounts: the append-per-total construction is a function over the seven labelled totals, not a method.
- DeltaSync.GetLibraryStatsFromDb: the eight counters are a sequence in the fixed key order, not a dictionary keyed by name.

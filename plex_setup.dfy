/**
 * Mount health probes, the bounded remount routine with its lock protocol,
 * and the decision rules of the two Plex readiness waits.
 *
 * Every shell command is an input: a probe is the exit codes of its commands,
 * a remount attempt is whether mounting raised and what the probe after it
 * returned, a polling wait is a trace of ticks whose `elapsed` is the whole
 * seconds since the wait started, read when the loop condition is tested.
 */
module PlexSetup {
  import opened Wrappers
  import opened Text
  import opened Locks
  import opened Debounce

  // ---------------------------------------------------------------------------
  // verify_rclone_mount_healthy_simple / verify_rclone_mount_healthy
  // ---------------------------------------------------------------------------

  /** Exit codes of `mountpoint -q`, of `timeout N ls`, and of the timed file read. */
  datatype MountProbe = MountProbe(mountpointExit: int, listExit: int, readExit: int)

  /** The `{healthy, error}` part of a probe result. */
  datatype HealthReport = HealthReport(healthy: bool, error: Option<string>)

  /** The exit code `timeout` uses when it killed the command. */
  const TimeoutExit: int := 124

  function MountInactive(mountPoint: string): string {
    "Point de montage " + mountPoint + " non actif"
  }

  function ListTimedOut(timeout: int): string {
    "Timeout (" + IntToString(timeout) + "s) - socket probablement d\U{E9}connect\U{E9}"
  }

  function AccessFailed(code: int): string {
    "Erreur d'acc\U{E8}s au montage (code " + IntToString(code) + ")"
  }

  function ReadTimedOut(timeout: int): string {
    "Timeout lecture fichier (" + IntToString(timeout) + "s) - I/O bloqu\U{E9}"
  }

  /**
   * verify_rclone_mount_healthy_simple: the mount point must be mounted and
   * listable within the timeout; the first failing stage names the error.
   */
  function ProbeSimple(mountPoint: string, timeout: int, p: MountProbe): (h: HealthReport)
    ensures h.healthy <==> p.mountpointExit == 0 && p.listExit == 0
    ensures h.healthy <==> h.error.None?
    ensures p.mountpointExit != 0 ==> h.error == Some(MountInactive(mountPoint))
    ensures p.mountpointExit == 0 && p.listExit == TimeoutExit ==> h.error == Some(ListTimedOut(timeout))
    ensures p.mountpointExit == 0 && p.listExit != 0 && p.listExit != TimeoutExit ==>
      h.error == Some(AccessFailed(p.listExit))
  {
    if p.mountpointExit != 0 then HealthReport(false, Some(MountInactive(mountPoint)))
    else if p.listExit == TimeoutExit then HealthReport(false, Some(ListTimedOut(timeout)))
    else if p.listExit != 0 then HealthReport(false, Some(AccessFailed(p.listExit)))
    else HealthReport(true, None)
  }

  /**
   * verify_rclone_mount_healthy: the two stages of the simple probe, then a
   * timed read of one media file, which fails the probe only when it times out.
   */
  function ProbeDeep(mountPoint: string, timeout: int, p: MountProbe): (h: HealthReport)
    ensures h.healthy <==> p.mountpointExit == 0 && p.listExit == 0 && p.readExit != TimeoutExit
    ensures h.healthy <==> h.error.None?
    ensures !ProbeSimple(mountPoint, timeout, p).healthy ==> h == ProbeSimple(mountPoint, timeout, p)
    ensures ProbeSimple(mountPoint, timeout, p).healthy && p.readExit == TimeoutExit ==>
      h.error == Some(ReadTimedOut(timeout))
  {
    var first := ProbeSimple(mountPoint, timeout, p);
    if !first.healthy then first
    else if p.readExit == TimeoutExit then HealthReport(false, Some(ReadTimedOut(timeout)))
    else HealthReport(true, None)
  }

  /**
   * The deep probe is the stricter one: it passes only where the simple one
   * does, and any read exit code other than 124 leaves the verdict to the
   * first two stages.
   */
  lemma DeepProbeRefinesSimple(mountPoint: string, timeout: int, p: MountProbe)
    ensures ProbeDeep(mountPoint, timeout, p).healthy ==> ProbeSimple(mountPoint, timeout, p).healthy
    ensures p.readExit != TimeoutExit ==> ProbeDeep(mountPoint, timeout, p) == ProbeSimple(mountPoint, timeout, p)
  {
  }

  // ---------------------------------------------------------------------------
  // remount_s3_if_needed
  // ---------------------------------------------------------------------------

  /** One remount attempt: mounting raised, or it returned and was probed. */
  datatype MountAttempt = MountRaised | Mounted(probe: MountProbe)

  /** The timeout of every simple probe the remount routine runs. */
  const ProbeTimeout: int := 30

  predicate Healthy(mountPoint: string, p: MountProbe) {
    ProbeSimple(mountPoint, ProbeTimeout, p).healthy
  }

  /** An attempt restores the mount when mounting did not raise and the probe after it is healthy. */
  predicate Restores(mountPoint: string, a: MountAttempt) {
    a.Mounted? && Healthy(mountPoint, a.probe)
  }

  function AttemptLimit(maxRetries: int): nat {
    if maxRetries < 0 then 0 else maxRetries
  }

  /**
   * The routine reaches its attempt loop: the first probe failed and, when it
   * had to wait for another holder of the lock, the probe after the wait failed too.
   */
  predicate RemountRuns(mountPoint: string, initial: MountProbe, recheck: MountProbe, skipLock: bool, lockWasHeld: bool) {
    !Healthy(mountPoint, initial) && (skipLock || !lockWasHeld || !Healthy(mountPoint, recheck))
  }

  /**
   * The attempt loop: attempt k (from 1) waits 10·k seconds; the loop stops at
   * the first attempt that restores the mount, and otherwise runs all
   * `max_retries` attempts.
   */
  predicate RemountOutcome(mountPoint: string, attempts: seq<MountAttempt>, maxRetries: int, ok: bool, cooldowns: seq<int>) {
    && |cooldowns| <= AttemptLimit(maxRetries)
    && |cooldowns| <= |attempts|
    && (forall k :: 0 <= k < |cooldowns| ==> cooldowns[k] == 10 * (k + 1))
    && (forall k :: 0 <= k < |cooldowns| - 1 ==> !Restores(mountPoint, attempts[k]))
    && (ok <==> |cooldowns| > 0 && Restores(mountPoint, attempts[|cooldowns| - 1]))
    && (!ok ==> |cooldowns| == AttemptLimit(maxRetries))
  }

  /**
   * remount_s3_if_needed. `initial` is the first simple probe, `recheck` the
   * probe after waiting for another holder of the lock, `attempts` what each
   * remount attempt met; `cooldowns` are the waits of the attempts made.
   * With `skip_lock` the caller already holds the remount lock; otherwise the
   * routine takes it before the attempts, so no two remounts ever overlap.
   * The kill, unmount and cache purge commands of each attempt are not modelled.
   */
  method RemountS3IfNeeded(lock: RemountLock, mountPoint: string, initial: MountProbe, recheck: MountProbe,
                           attempts: seq<MountAttempt>, maxRetries: int, skipLock: bool)
    returns (ok: bool, cooldowns: seq<int>)
    requires |attempts| >= AttemptLimit(maxRetries)
    requires skipLock ==> lock.held
    modifies lock
    ensures Healthy(mountPoint, initial) ==> ok && cooldowns == [] && lock.held == old(lock.held)
    ensures skipLock ==> lock.held == old(lock.held)
    ensures !skipLock && !Healthy(mountPoint, initial) ==> !lock.held
    ensures !RemountRuns(mountPoint, initial, recheck, skipLock, old(lock.held)) ==> ok && cooldowns == []
    ensures RemountRuns(mountPoint, initial, recheck, skipLock, old(lock.held)) ==>
      RemountOutcome(mountPoint, attempts, maxRetries, ok, cooldowns)
  {
    var health := ProbeSimple(mountPoint, ProbeTimeout, initial);
    if health.healthy {
      return true, [];
    }
    var lockAcquired := false;
    if !skipLock {
      var acquired := lock.TryAcquire();
      if !acquired {
        lock.Acquire();
        lock.Release();
        health := ProbeSimple(mountPoint, ProbeTimeout, recheck);
        if health.healthy {
          return true, [];
        }
        lock.Acquire();
      }
      lockAcquired := true;
    }
    ok, cooldowns := RemountAttempts(lock, mountPoint, attempts, maxRetries);
    if lockAcquired {
      lock.Release();
    }
  }

  /** The attempt loop of remount_s3_if_needed, which only runs while the remount lock is held. */
  method RemountAttempts(lock: RemountLock, mountPoint: string, attempts: seq<MountAttempt>, maxRetries: int)
    returns (ok: bool, cooldowns: seq<int>)
    requires lock.held
    requires |attempts| >= AttemptLimit(maxRetries)
    ensures RemountOutcome(mountPoint, attempts, maxRetries, ok, cooldowns)
  {
    ok := false;
    cooldowns := [];
    var attempt := 1;
    while attempt <= maxRetries
      invariant 1 <= attempt <= AttemptLimit(maxRetries) + 1
      invariant |cooldowns| == attempt - 1
      invariant forall k :: 0 <= k < |cooldowns| ==> cooldowns[k] == 10 * (k + 1)
      invariant forall k :: 0 <= k < |cooldowns| ==> !Restores(mountPoint, attempts[k])
      decreases maxRetries - attempt
    {
      var cooldown := 10 * attempt;
      cooldowns := cooldowns + [cooldown];
      match attempts[attempt - 1] {
        case MountRaised =>
        case Mounted(probe) =>
          var health := ProbeSimple(mountPoint, ProbeTimeout, probe);
          if health.healthy {
            ok := true;
            break;
          }
      }
      attempt := attempt + 1;
    }
  }

  /**
   * The routine succeeds exactly when one of the first `max_retries` attempts
   * restores the mount.
   */
  lemma {:induction false} RemountSucceedsIffAnAttemptRestores(mountPoint: string, attempts: seq<MountAttempt>, maxRetries: int, ok: bool, cooldowns: seq<int>)
    requires RemountOutcome(mountPoint, attempts, maxRetries, ok, cooldowns)
    requires |attempts| >= AttemptLimit(maxRetries)
    ensures ok <==> exists k :: 0 <= k < AttemptLimit(maxRetries) && Restores(mountPoint, attempts[k])
  {
    if ok {
      assert Restores(mountPoint, attempts[|cooldowns| - 1]);
    } else if |cooldowns| > 0 {
      assert !Restores(mountPoint, attempts[|cooldowns| - 1]);
      assert forall k :: 0 <= k < AttemptLimit(maxRetries) ==> !Restores(mountPoint, attempts[k]) by {
        forall k | 0 <= k < AttemptLimit(maxRetries) ensures !Restores(mountPoint, attempts[k]) {
          if k < |cooldowns| - 1 {
          }
        }
      }
    }
  }

  /** No attempt is made and the routine succeeds when the mount is already healthy; the lock is not touched. */
  method EnsureMountHealthy(lock: RemountLock, mountPoint: string, check: MountProbe, initial: MountProbe,
                            recheck: MountProbe, attempts: seq<MountAttempt>)
    returns (ok: bool, cooldowns: seq<int>)
    requires |attempts| >= 3
    modifies lock
    ensures Healthy(mountPoint, check) ==> ok && cooldowns == [] && lock.held == old(lock.held)
    ensures !Healthy(mountPoint, check) && Healthy(mountPoint, initial) ==> lock.held == old(lock.held)
    ensures !Healthy(mountPoint, check) && !Healthy(mountPoint, initial) ==> !lock.held
    ensures !Healthy(mountPoint, check) && RemountRuns(mountPoint, initial, recheck, false, old(lock.held)) ==>
      RemountOutcome(mountPoint, attempts, 3, ok, cooldowns)
    ensures !Healthy(mountPoint, check) && !RemountRuns(mountPoint, initial, recheck, false, old(lock.held)) ==>
      ok && cooldowns == []
  {
    var health := ProbeSimple(mountPoint, ProbeTimeout, check);
    if health.healthy {
      return true, [];
    }
    ok, cooldowns := RemountS3IfNeeded(lock, mountPoint, initial, recheck, attempts, 3, false);
  }

  // ---------------------------------------------------------------------------
  // wait_plex_fully_ready
  // ---------------------------------------------------------------------------

  /** One tick: the output of `curl -w '\n%{http_code}' /identity` and of the process count. */
  datatype ReadyTick = ReadyTick(elapsed: nat, identityOutput: string, processOutput: string)

  function Lines(output: string): (lines: seq<string>)
    ensures |lines| >= 1
  {
    Split(Strip(output), '\n')
  }

  /** The text after the last newline, or all of it when it has none. */
  function LastLine(s: string): string {
    if '\n' in s then s[LastIndex(s, '\n') + 1..] else s
  }

  /** The text before the last newline, empty when it has none. */
  function AllButLastLine(s: string): string {
    if '\n' in s then s[..LastIndex(s, '\n')] else ""
  }

  /**
   * `lines[-1]` and `'\n'.join(lines[:-1])` of `lines = s.split('\n')`: the
   * last line, and the other lines joined back with newlines.
   */
  lemma LinesOfText(s: string)
    ensures LastLine(s) == Split(s, '\n')[|Split(s, '\n')| - 1]
    ensures AllButLastLine(s) == Join(Split(s, '\n')[..|Split(s, '\n')| - 1], "\n")
  {
    var lines := Split(s, '\n');
    if '\n' in s {
      var k := LastIndex(s, '\n');
      assert lines[..|lines| - 1] == Split(s[..k], '\n');
      JoinSplit(s[..k], '\n');
    } else {
      assert lines == [s];
    }
  }

  /** A body followed by one more line is split back into that body and that line. */
  lemma LastLineOfAppended(body: string, line: string)
    requires '\n' !in line
    ensures LastLine(body + "\n" + line) == line
    ensures AllButLastLine(body + "\n" + line) == body
  {
    var s := body + "\n" + line;
    assert s[|body|] == '\n';
    assert s[..|body|] == body;
    assert s[|body| + 1..] == line;
  }

  /** The status code: the last line of the trimmed output. */
  function HttpCode(output: string): string {
    LastLine(Strip(output))
  }

  /** The reply body: every other line of the trimmed output. */
  function ApiBody(output: string): string {
    AllButLastLine(Strip(output))
  }

  /** The attribute a claimed server's identity reply carries. */
  function ClaimedMarker(): string {
    "claimed=\"1\""
  }

  /** `is_claimed`: HTTP 200 with `claimed="1"` in the body. */
  predicate IsClaimed(output: string) {
    HttpCode(output) == "200" && Contains(ApiBody(output), ClaimedMarker())
  }

  /** `plex_processes`: the trimmed count when it is all digits, 0 otherwise. */
  function ProcessCount(output: string): nat {
    if IsDigits(Strip(output)) then DigitsValue(Strip(output)) else 0
  }

  /** `wc -l` prints the count and a newline; that output reads back as the count. */
  lemma ProcessCountOfRendered(n: nat)
    ensures ProcessCount(NatToString(n) + "\n") == n
  {
    var digits := NatToString(n);
    var s := digits + "\n";
    assert s[..|s| - 1] == digits;
    assert TrimRight(s) == TrimRight(digits);
    assert TrimRight(digits) == digits;
    assert Strip(s) == digits;
    DigitsValueOfNatToString(n);
  }

  /** The success rule of a tick: the server is claimed and at least three Plex processes run. */
  predicate TickReady(t: ReadyTick) {
    IsClaimed(t.identityOutput) && ProcessCount(t.processOutput) >= 3
  }

  /**
   * A reply whose trimmed text is a body followed by the status line `200`
   * is claimed exactly when that body carries the claimed attribute.
   */
  lemma StatusLineParsed(output: string, body: string)
    requires Strip(output) == body + "\n200"
    ensures HttpCode(output) == "200"
    ensures ApiBody(output) == body
    ensures IsClaimed(output) <==> Contains(body, ClaimedMarker())
  {
    StatusAndBody(output, body);
  }

  /** The two halves of a reply that ends in the status line `200`. */
  lemma StatusAndBody(output: string, body: string)
    requires Strip(output) == body + "\n200"
    ensures HttpCode(output) == "200" && ApiBody(output) == body
  {
    assert body + "\n" + "200" == body + "\n200";
    LastLineOfAppended(body, "200");
  }

  /** The seconds elapsed at a sample. */
  function ReadyTime(t: ReadyTick): nat {
    t.elapsed
  }

  /**
   * wait_plex_fully_ready returns True at the first tick before the timeout
   * that meets the success rule and False once the timeout is reached.
   */
  predicate ReadyContinues(ticks: seq<ReadyTick>, timeout: int, n: nat)
    requires n <= |ticks|
  {
    forall j :: 0 <= j < n ==> ReadyGoesOn(ticks, timeout, j)
  }

  /** Tick `j` lets the loop go on: before the timeout and not yet ready. */
  predicate ReadyGoesOn(ticks: seq<ReadyTick>, timeout: int, j: nat)
    requires j < |ticks|
  {
    ticks[j].elapsed < timeout && !TickReady(ticks[j])
  }

  /** wait_plex_fully_ready: a wait for the first tick that meets the success rule. */
  method WaitPlexFullyReady(ticks: seq<ReadyTick>, timeout: int) returns (ready: bool, stop: nat)
    requires ReachesTimeout(Elapsed(ticks, ReadyTime), timeout)
    ensures stop < |ticks|
    ensures ReadyContinues(ticks, timeout, stop)
    ensures ready <==> ticks[stop].elapsed < timeout && TickReady(ticks[stop])
    ensures !ready ==> ticks[stop].elapsed >= timeout
  {
    ready, stop := FirstReady(ticks, Elapsed(ticks, ReadyTime), TickReady, timeout);
  }

  // ---------------------------------------------------------------------------
  // verify_plex_pass_active
  // ---------------------------------------------------------------------------

  /** What the account request of one tick gave: a reply, or an exception with its text. */
  datatype AccountReply = Replied(exitCode: int, stdout: string, elapsedAfter: nat) | Raised(message: string)

  datatype PassTick = PassTick(elapsed: nat, reply: AccountReply)

  /** The record verify_plex_pass_active returns. */
  datatype PassStatus = PassStatus(active: bool, username: Option<string>, subscription: Option<string>,
                                   features: seq<string>, error: Option<string>)

  /** The verdict on one tick: retry (setting `last_error`, or leaving it as it was), or return. */
  datatype PassVerdict = Retry(newError: Option<string>) | Finish(status: PassStatus)

  const Unreachable: string := "Impossible de contacter l'API Plex"
  const Unclaimed: string := "Serveur non claim\U{E9} ou non connect\U{E9} \U{E0} plex.tv"
  const TokenRequired: string := "Token Plex requis pour v\U{E9}rifier le Pass"

  function SubscriptionActive(response: string): string {
    Capture(response, "subscriptionActive=\"").GetOr("0")
  }

  function SubscriptionState(response: string): string {
    Capture(response, "subscriptionState=\"").GetOr("Unknown")
  }

  /** The server is linked to a plex.tv account: the reply mentions a token or a user name. */
  predicate Linked(response: string) {
    Contains(response, "authToken") || Contains(response, "username")
  }

  /**
   * One pass of the loop body. An unusable or unlinked reply is retried; an
   * active subscription returns at once; an inactive one is retried only
   * while more than one interval of the timeout remains.
   */
  function ClassifyPassTick(reply: AccountReply, timeout: int, checkInterval: int): PassVerdict {
    match reply
    case Raised(message) => Retry(Some(message))
    case Replied(exitCode, response, elapsedAfter) =>
      if exitCode != 0 || response == "" then Retry(Some(Unreachable))
      else if !Linked(response) then Retry(Some(Unclaimed))
      else
        var username := Capture(response, "username=\"");
        var subActive := SubscriptionActive(response);
        var subState := SubscriptionState(response);
        var subPlan := Capture(response, "subscriptionPlan=\"");
        var features := CaptureAll(response, "<Feature id=\"");
        if subActive == "1" then
          Finish(PassStatus(true, username, Some(subPlan.GetOr(subState)), features, None))
        else if timeout - elapsedAfter > checkInterval then Retry(None)
        else
          Finish(PassStatus(false, username, Some(subState), features,
                            Some("Abonnement Plex Pass non actif (\U{E9}tat: " + subState + ")")))
  }

  /**
   * The verdict on one tick: an active subscription on a usable, linked reply
   * returns at once with no error; an inactive one returns, with the state in
   * its error, exactly in the last interval before the timeout, and is retried
   * with no error before that; an exception, an unusable reply or an
   * unclaimed server is retried with its error recorded.
   */
  lemma PassTickVerdict(reply: AccountReply, timeout: int, checkInterval: int)
    ensures var v := ClassifyPassTick(reply, timeout, checkInterval);
      && (v.Finish? && v.status.active <==>
            reply.Replied? && reply.exitCode == 0 && reply.stdout != "" && Linked(reply.stdout)
            && SubscriptionActive(reply.stdout) == "1")
      && (v.Finish? ==> reply.Replied? && reply.exitCode == 0 && Linked(reply.stdout))
      && (v.Finish? && !v.status.active <==>
            reply.Replied? && reply.exitCode == 0 && reply.stdout != "" && Linked(reply.stdout)
            && SubscriptionActive(reply.stdout) != "1" && timeout - reply.elapsedAfter <= checkInterval)
      && (v.Finish? && !v.status.active ==>
            v.status.error == Some("Abonnement Plex Pass non actif (\U{E9}tat: " + SubscriptionState(reply.stdout) + ")"))
      && ((reply.Replied? && reply.exitCode == 0 && reply.stdout != "" && Linked(reply.stdout)
           && SubscriptionActive(reply.stdout) != "1" && timeout - reply.elapsedAfter > checkInterval) ==> v == Retry(None))
      && (reply.Replied? && reply.exitCode == 0 && reply.stdout != "" && !Linked(reply.stdout) ==> v == Retry(Some(Unclaimed)))
      && (v.Finish? && v.status.active ==> v.status.error.None?)
      && (reply.Raised? ==> v == Retry(Some(reply.message)))
      && (reply.Replied? && (reply.exitCode != 0 || reply.stdout == "") ==> v == Retry(Some(Unreachable)))
  {
  }

  /** `last_error` after the first `n` ticks. */
  function LastError(ticks: seq<PassTick>, n: nat, classify: AccountReply -> PassVerdict): Option<string>
    requires n <= |ticks|
  {
    if n == 0 then None
    else
      match classify(ticks[n - 1].reply)
      case Retry(Some(e)) => Some(e)
      case _ => LastError(ticks, n - 1, classify)
  }

  /** The verdict rule for a given timeout and check interval. */
  function PassClassifier(timeout: int, checkInterval: int): AccountReply -> PassVerdict {
    reply => ClassifyPassTick(reply, timeout, checkInterval)
  }

  /** The error of the final timeout record: `last_error or f"Timeout ({timeout}s)"`. */
  function TimeoutError(lastError: Option<string>, timeout: int): string {
    if lastError.None? || lastError.value == "" then "Timeout (" + IntToString(timeout) + "s)" else lastError.value
  }

  /** The seconds elapsed at a sample. */
  function PassTime(t: PassTick): nat {
    t.elapsed
  }

  /** A missing or empty token. */
  predicate NoToken(token: Option<string>) {
    token.None? || token.value == ""
  }

  /** Tick `j` lets the loop go on: before the timeout, with a verdict to retry. */
  predicate PassGoesOn(ticks: seq<PassTick>, timeout: int, checkInterval: int, j: nat)
    requires j < |ticks|
  {
    ticks[j].elapsed < timeout && ClassifyPassTick(ticks[j].reply, timeout, checkInterval).Retry?
  }

  /** The first `n` ticks all let the loop go on. */
  predicate PassContinues(ticks: seq<PassTick>, timeout: int, checkInterval: int, n: nat)
    requires n <= |ticks|
  {
    forall j :: 0 <= j < n ==> PassGoesOn(ticks, timeout, checkInterval, j)
  }

  /**
   * What verify_plex_pass_active returns with a token: the record of the first
   * tick that finishes, or, once the timeout is reached, an inactive record
   * carrying the last error seen.
   */
  predicate PassWaitSpec(ticks: seq<PassTick>, timeout: int, checkInterval: int, r: PassStatus, stop: nat) {
    && stop < |ticks|
    && PassContinues(ticks, timeout, checkInterval, stop)
    && (ticks[stop].elapsed < timeout ==>
          && ClassifyPassTick(ticks[stop].reply, timeout, checkInterval).Finish?
          && r == ClassifyPassTick(ticks[stop].reply, timeout, checkInterval).status)
    && (ticks[stop].elapsed >= timeout ==>
          r == PassStatus(false, None, None, [], Some(TimeoutError(LastError(ticks, stop, PassClassifier(timeout, checkInterval)), timeout))))
  }

  /** verify_plex_pass_active. */
  method VerifyPlexPassActive(token: Option<string>, ticks: seq<PassTick>, timeout: int, checkInterval: int)
    returns (r: PassStatus, stop: nat)
    requires !NoToken(token) ==> ReachesTimeout(Elapsed(ticks, PassTime), timeout)
    ensures NoToken(token) ==> r == PassStatus(false, None, None, [], Some(TokenRequired))
    ensures !NoToken(token) ==> PassWaitSpec(ticks, timeout, checkInterval, r, stop)
  {
    if token.None? || token.value == "" {
      return PassStatus(false, None, None, [], Some(TokenRequired)), 0;
    }
    var finished, lastError;
    finished, lastError, stop := PollAccount(ticks, timeout, PassClassifier(timeout, checkInterval));
    if finished.Some? {
      r := finished.value;
    } else {
      r := PassStatus(false, None, None, [], Some(TimeoutError(lastError, timeout)));
    }
  }

  /**
   * The polling loop of verify_plex_pass_active: it returns the status of the
   * first tick whose verdict finishes, or, at the first tick past the timeout,
   * nothing and the last error recorded.
   */
  method PollAccount(ticks: seq<PassTick>, timeout: int, classify: AccountReply -> PassVerdict)
    returns (finished: Option<PassStatus>, lastError: Option<string>, stop: nat)
    requires ReachesTimeout(Elapsed(ticks, PassTime), timeout)
    ensures stop < |ticks|
    ensures forall j :: 0 <= j < stop ==> ticks[j].elapsed < timeout && classify(ticks[j].reply).Retry?
    ensures ticks[stop].elapsed < timeout ==>
      classify(ticks[stop].reply).Finish? && finished == Some(classify(ticks[stop].reply).status)
    ensures ticks[stop].elapsed >= timeout ==> finished == None && lastError == LastError(ticks, stop, classify)
  {
    lastError := None;
    var i := 0;
    while ticks[i].elapsed < timeout
      invariant 0 <= i < |ticks|
      invariant lastError == LastError(ticks, i, classify)
      invariant forall j :: 0 <= j < i ==> ticks[j].elapsed < timeout && classify(ticks[j].reply).Retry?
      decreases |ticks| - i
    {
      match classify(ticks[i].reply) {
        case Finish(status) =>
          return Some(status), lastError, i;
        case Retry(newError) =>
          if newError.Some? {
            lastError := newError;
          }
      }
      i := i + 1;
    }
    return None, lastError, i;
  }

  /**
   * The pass is reported active exactly when some tick before the timeout got
   * a usable, linked reply whose `subscriptionActive` is "1", with an absent
   * attribute read as "0"; a missing token is never active.
   */
  lemma PassActiveIff(token: Option<string>, ticks: seq<PassTick>, timeout: int, checkInterval: int, r: PassStatus, stop: nat)
    requires !NoToken(token) && PassWaitSpec(ticks, timeout, checkInterval, r, stop)
    ensures r.active <==>
      && ticks[stop].elapsed < timeout
      && ticks[stop].reply.Replied?
      && ticks[stop].reply.exitCode == 0
      && Linked(ticks[stop].reply.stdout)
      && SubscriptionActive(ticks[stop].reply.stdout) == "1"
  {
    PassTickVerdict(ticks[stop].reply, timeout, checkInterval);
  }
}

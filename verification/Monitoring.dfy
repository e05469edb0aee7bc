/** Storage monitoring: `monitoring.rs`. Thresholds, transitions, signals and the scheduler loop. */
module Monitoring {
  import opened Prelude
  import opened Domain
  import opened Sorting

  const U32_MAX: nat := 0xFFFF_FFFF

  datatype PressureLevel = NotConfigured | Healthy | Warning | Critical

  datatype Thresholds = Thresholds(warning: Option<U64>, critical: Option<U64>)

  datatype ThresholdError = ZeroWarning | ZeroCritical | WarningNotBelowCritical(warning: U64, critical: U64)

  datatype Pressure = Pressure(thresholds: Thresholds, totalBytes: U64, untilWarning: Option<nat>,
      untilCritical: Option<nat>, level: PressureLevel)

  datatype Report = Report(account: Account, scope: ScanScope, exclusions: seq<string>, totalBytes: U64,
      pressure: Pressure, issueCount: nat)

  // --- thresholds ----------------------------------------------------------------------------------------

  function NewThresholds(warning: Option<U64>, critical: Option<U64>): Result<Thresholds, ThresholdError> {
    if warning == Some(0) then Err(ZeroWarning)
    else if critical == Some(0) then Err(ZeroCritical)
    else if warning.Some? && critical.Some? && warning.value >= critical.value then
      Err(WarningNotBelowCritical(warning.value, critical.value))
    else Ok(Thresholds(warning, critical))
  }

  function SaturatingSub(a: nat, b: nat): nat { if a >= b then a - b else 0 }

  function Until(threshold: Option<U64>, total: U64): Option<nat> {
    if threshold.Some? then Some(SaturatingSub(threshold.value, total)) else None
  }

  function Reached(threshold: Option<U64>, total: U64): bool { threshold.Some? && total >= threshold.value }

  function LevelOf(t: Thresholds, total: U64): PressureLevel {
    if t.warning.None? && t.critical.None? then NotConfigured
    else if Reached(t.critical, total) then Critical
    else if Reached(t.warning, total) then Warning
    else Healthy
  }

  /** `evaluate` */
  function Evaluate(t: Thresholds, total: U64): Pressure {
    Pressure(t, total, Until(t.warning, total), Until(t.critical, total), LevelOf(t, total))
  }

  function Severity(level: PressureLevel): nat {
    match level
    case NotConfigured => 0
    case Healthy => 1
    case Warning => 2
    case Critical => 3
  }

  /** More bytes never look better, and a countdown of zero means that its level is reached. */
  lemma MoreBytesNeverBetter(t: Thresholds, total: U64, more: U64)
    requires total <= more && NewThresholds(t.warning, t.critical).Ok?
    ensures Severity(LevelOf(t, total)) <= Severity(LevelOf(t, more))
    ensures Evaluate(t, total).untilCritical == Some(0) <==> LevelOf(t, total) == Critical
    ensures Evaluate(t, total).untilWarning == Some(0) <==> t.warning.Some? && Severity(LevelOf(t, total)) >= 2
  {
  }

  // --- comparing reports -----------------------------------------------------------------------------------

  predicate SameAccount(a: Account, b: Account) {
    EqIgnoreAsciiCase(a.provider, b.provider) && EqIgnoreAsciiCase(a.login, b.login)
  }

  predicate ScopesEqual(a: ScanScope, b: ScanScope) {
    match (a, b)
    case (AllAccessible, AllAccessible) => true
    case (Owner(x), Owner(y)) => EqIgnoreAsciiCase(x, y)
    case (Repository(x), Repository(y)) => EqIgnoreAsciiCase(x, y)
    case _ => false
  }

  function Lowered(values: seq<string>): (r: seq<string>)
    ensures |r| == |values|
  {
    seq(|values|, i requires 0 <= i < |values| => ToAsciiLowercase(values[i]))
  }

  /** `dedup`: drops a value equal to the one before it. */
  function Dedup(values: seq<string>): seq<string> {
    if values == [] then []
    else
      var n := |values| - 1;
      if n > 0 && values[n] == values[n - 1] then Dedup(values[..n]) else Dedup(values[..n]) + [values[n]]
  }

  /** `normalized_exclusions` */
  function NormalizedExclusions(values: seq<string>): seq<string> { Dedup(Sort(Lowered(values), TextLe)) }

  predicate SameScanScope(a: Report, b: Report) {
    ScopesEqual(a.scope, b.scope) && NormalizedExclusions(a.exclusions) == NormalizedExclusions(b.exclusions)
  }

  datatype Transition = Transition(before: PressureLevel, after: PressureLevel, previousBytes: U64, currentBytes: U64,
      thresholdsChanged: bool)

  datatype TransitionEvaluation =
    | FirstSample
    | IncompatibleAccount
    | IncompatibleScope
    | IncompleteScan(previousIssues: nat, currentIssues: nat)
    | Stable(level: PressureLevel)
    | Changed(transition: Transition)

  /** `evaluate_pressure_transition` */
  function EvaluateTransition(previous: Option<Report>, current: Report): TransitionEvaluation {
    if previous.None? then FirstSample
    else
      var p := previous.value;
      if !SameAccount(p.account, current.account) then IncompatibleAccount
      else if !SameScanScope(p, current) then IncompatibleScope
      else if p.issueCount != 0 || current.issueCount != 0 then IncompleteScan(p.issueCount, current.issueCount)
      else if p.pressure.level == current.pressure.level then Stable(current.pressure.level)
      else Changed(Transition(p.pressure.level, current.pressure.level, p.totalBytes, current.totalBytes,
                              p.pressure.thresholds != current.pressure.thresholds))
  }

  datatype Signal =
    | NoNotification
    | EnteredWarning(thresholdsChanged: bool)
    | EnteredCritical(thresholdsChanged: bool)
    | RecoveredToWarning(thresholdsChanged: bool)
    | RecoveredToHealthy(thresholdsChanged: bool)
    | MonitoringIncomplete(previousIssues: nat, currentIssues: nat)
    | MonitoringFailure(consecutiveFailures: nat)

  /** `notification_signal_for_transition` */
  function SignalFor(e: TransitionEvaluation): Signal {
    match e
    case IncompleteScan(p, c) => MonitoringIncomplete(p, c)
    case Changed(t) =>
      (match (t.before, t.after)
       case (_, Critical) => EnteredCritical(t.thresholdsChanged)
       case (Critical, Warning) => RecoveredToWarning(t.thresholdsChanged)
       case (Warning, Healthy) => RecoveredToHealthy(t.thresholdsChanged)
       case (Critical, Healthy) => RecoveredToHealthy(t.thresholdsChanged)
       case (_, Warning) => EnteredWarning(t.thresholdsChanged)
       case _ => NoNotification)
    case _ => NoNotification
  }

  // --- the scheduler ----------------------------------------------------------------------------------------

  /** How one pass of the loop goes: what the scan, the cancellation signal and the sleep do. */
  datatype Race = Finished(result: Result<Report, string>) | CancelledMeanwhile | ChangedToFalse

  datatype Pass = Pass(cancelledBefore: bool, race: Race, cancelledAsleep: bool)

  datatype MonitorEvent = Iteration(report: Report, transition: TransitionEvaluation, signal: Signal)
      | Failure(error: string, signal: Signal)

  datatype StopReason = Cancelled | AttemptLimitReached

  datatype Summary = Summary(attempts: U64, successes: U64, failures: U64, reason: StopReason)

  /** The loop's variables, the events so far, and the summary once it has returned. */
  datatype Scheduler = Scheduler(
    attempts: U64,
    successes: U64,
    failures: U64,
    consecutive: nat,
    previous: Option<Report>,
    events: seq<MonitorEvent>,
    summary: Option<Summary>)
  {
    function Stop(reason: StopReason): Scheduler {
      this.(summary := Some(Summary(attempts, successes, failures, reason)))
    }

    predicate LimitReached(limit: Option<U64>) { limit.Some? && attempts >= limit.value }
  }

  function Started(baseline: Option<Report>): Scheduler { Scheduler(0, 0, 0, 0, baseline, [], None) }

  /** `consecutive_failures` saturates at 32 bits. */
  function NextRun(consecutive: nat): nat { if consecutive < U32_MAX then consecutive + 1 else U32_MAX }

  /** The event one result adds. */
  function NewEvent(s: Scheduler, result: Result<Report, string>): MonitorEvent {
    match result
    case Ok(report) =>
      var transition := EvaluateTransition(s.previous, report);
      Iteration(report, transition, SignalFor(transition))
    case Err(error) => Failure(error, MonitoringFailure(NextRun(s.consecutive)))
  }

  function Record(s: Scheduler, result: Result<Report, string>): Scheduler {
    match result
    case Ok(report) =>
      s.(attempts := SaturatingAdd(s.attempts, 1), successes := SaturatingAdd(s.successes, 1), consecutive := 0,
         previous := Some(report), events := s.events + [NewEvent(s, result)])
    case Err(error) =>
      s.(attempts := SaturatingAdd(s.attempts, 1), failures := SaturatingAdd(s.failures, 1), consecutive :=
          NextRun(s.consecutive),
         events := s.events + [NewEvent(s, result)])
  }

  /** One pass of the loop. */
  function NextPass(s: Scheduler, pass: Pass, limit: Option<U64>): Scheduler {
    if s.summary.Some? then s
    else if pass.cancelledBefore then s.Stop(Cancelled)
    else if s.LimitReached(limit) then s.Stop(AttemptLimitReached)
    else
      match pass.race
      case CancelledMeanwhile => s.Stop(Cancelled)
      case ChangedToFalse => s
      case Finished(result) =>
        var done := Record(s, result);
        if done.LimitReached(limit) then done.Stop(AttemptLimitReached)
        else if pass.cancelledAsleep then done.Stop(Cancelled)
        else done
  }

  /** Every finite beginning of every run: the environment decides each pass. */
  function RunPasses(baseline: Option<Report>, passes: seq<Pass>, limit: Option<U64>): Scheduler {
    if passes == [] then Started(baseline)
      else NextPass(RunPasses(baseline, passes[..|passes| - 1], limit), passes[|passes| - 1], limit)
  }

  /** `run`, for as many passes as the environment provides; `None` while still running. */
  method RunScheduler(baseline: Option<Report>, passes: seq<Pass>, limit: Option<U64>)
    returns (summary: Option<Summary>, events: seq<MonitorEvent>)
    ensures var s := RunPasses(baseline, passes, limit); summary == s.summary && events == s.events
  {
    hide EvaluateTransition, SignalFor, Cap;
    var attempts: U64, successes: U64, failures: U64 := 0, 0, 0;
    var consecutive: nat := 0;
    var previous := baseline;
    events := [];
    for i := 0 to |passes|
      invariant consecutive <= U32_MAX
      invariant RunPasses(baseline, passes[..i], limit)
                == Scheduler(attempts, successes, failures, consecutive, previous, events, None)
    {
      var pass := passes[i];
      assert passes[..i + 1][..i] == passes[..i];
      StaysStopped(baseline, passes, limit, i + 1);
      if pass.cancelledBefore {
        return Some(Summary(attempts, successes, failures, Cancelled)), events;
      }
      if limit.Some? && attempts >= limit.value {
        return Some(Summary(attempts, successes, failures, AttemptLimitReached)), events;
      }
      match pass.race {
        case CancelledMeanwhile =>
          return Some(Summary(attempts, successes, failures, Cancelled)), events;
        case ChangedToFalse =>
        case Finished(result) =>
          attempts := SaturatingAdd(attempts, 1);
          match result {
            case Ok(report) =>
              successes := SaturatingAdd(successes, 1);
              consecutive := 0;
              var transition := EvaluateTransition(previous, report);
              previous := Some(report);
              events := events + [Iteration(report, transition, SignalFor(transition))];
            case Err(error) =>
              failures := SaturatingAdd(failures, 1);
              consecutive := if consecutive < U32_MAX then consecutive + 1 else U32_MAX;
              events := events + [Failure(error, MonitoringFailure(consecutive))];
          }
          if limit.Some? && attempts >= limit.value {
            return Some(Summary(attempts, successes, failures, AttemptLimitReached)), events;
          }
          if pass.cancelledAsleep {
            return Some(Summary(attempts, successes, failures, Cancelled)), events;
          }
      }
    }
    assert passes[..|passes|] == passes;
    summary := None;
  }

  /** A summary is final. */
  lemma {:induction false} StaysStopped(baseline: Option<Report>, passes: seq<Pass>, limit: Option<U64>, i: nat)
    requires i <= |passes|
    ensures var s := RunPasses(baseline, passes[..i], limit); s.summary.Some? ==>
            RunPasses(baseline, passes, limit) == s
    decreases |passes|
  {
    hide NextPass;
    if i == |passes| {
      assert passes[..i] == passes;
    } else {
      var n := |passes| - 1;
      assert passes[..n][..i] == passes[..i];
      StaysStopped(baseline, passes[..n], limit, i);
      StoppedStays(RunPasses(baseline, passes[..n], limit), passes[n], limit);
    }
  }

  lemma StoppedStays(s: Scheduler, pass: Pass, limit: Option<U64>)
    ensures s.summary.Some? ==> NextPass(s, pass, limit) == s
  {
  }
}

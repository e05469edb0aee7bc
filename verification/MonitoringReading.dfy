/**
 * What a scheduler's run comes to: the events are the finished scans in order, each transition and signal
 * stands for one situation, and the summary names the first thing that ended the run.
 */
module MonitoringReading {
  import opened Prelude
  import opened Domain
  import opened Sorting
  import opened Monitoring
  import opened MonitoringSafety

  // --- thresholds ---------------------------------------------------------------------------------------------

  /** The level a total stands for: the higher threshold first, and none at all without thresholds. */
  ghost predicate LevelTold(t: Thresholds, total: U64, level: PressureLevel) {
    && (level == NotConfigured <==> t.warning == None && t.critical == None)
    && (level == Critical <==> t.critical.Some? && t.critical.value <= total)
    && (level == Warning <==>
          t.warning.Some? && t.warning.value <= total && !(t.critical.Some? && t.critical.value <= total))
  }

  /** How much is missing to a threshold. */
  ghost predicate Missing(threshold: Option<U64>, total: U64, missing: Option<nat>) {
    match (threshold, missing)
    case (None, None) => true
    case (Some(limit), Some(m)) => if limit <= total then m == 0 else total + m == limit
    case _ => false
  }

  lemma EvaluationIsExact(t: Thresholds, total: U64)
    ensures var p := Evaluate(t, total);
            && p.thresholds == t && p.totalBytes == total && LevelTold(t, total, p.level)
            && Missing(t.warning, total, p.untilWarning) && Missing(t.critical, total, p.untilCritical)
  {
  }

  /** Thresholds are accepted exactly when they are positive and in order; a refusal says which is not. */
  lemma ThresholdsAccepted(warning: Option<U64>, critical: Option<U64>)
    ensures var r := NewThresholds(warning, critical);
            && (r.Ok? <==> warning != Some(0) && critical != Some(0)
                           && (warning.Some? && critical.Some? ==> warning.value < critical.value))
            && (r.Ok? ==> r.value.warning == warning && r.value.critical == critical)
            && (r == Err(ZeroWarning) <==> warning == Some(0))
            && (r == Err(ZeroCritical) <==> warning != Some(0) && critical == Some(0))
            && (r.Err? && warning != Some(0) && critical != Some(0) ==>
                  r.error == WarningNotBelowCritical(warning.value, critical.value))
  {
  }

  // --- transitions and signals -----------------------------------------------------------------------------------

  predicate OneAccount(a: Report, b: Report) {
    EqIgnoreAsciiCase(a.account.provider, b.account.provider) && EqIgnoreAsciiCase(a.account.login, b.account.login)
  }

  /** The same kind of scope by a name that differs at most in case, with the same set of exclusions. */
  ghost predicate OneScope(a: Report, b: Report) {
    && (a.scope.AllAccessible? <==> b.scope.AllAccessible?) && (a.scope.Owner? <==> b.scope.Owner?)
    && (a.scope.Owner? && b.scope.Owner? ==> EqIgnoreAsciiCase(a.scope.name, b.scope.name))
    && (a.scope.Repository? && b.scope.Repository? ==> EqIgnoreAsciiCase(a.scope.fullName, b.scope.fullName))
    && Excludes(a) == Excludes(b)
  }

  /** What a report leaves out, in lower case. */
  function Excludes(r: Report): set<string> { set x | x in r.exclusions :: ToAsciiLowercase(x) }

  /** Every verdict on two reports stands for one situation, both ways. */
  ghost predicate TransitionTold(previous: Option<Report>, current: Report, e: TransitionEvaluation) {
    if previous.None? then e == FirstSample
    else
      var p := previous.value;
      var comparable := OneAccount(p, current) && OneScope(p, current);
      var complete := p.issueCount == 0 && current.issueCount == 0;
      && !e.FirstSample?
      && (e.IncompatibleAccount? <==> !OneAccount(p, current))
      && (e.IncompatibleScope? <==> OneAccount(p, current) && !OneScope(p, current))
      && (e.IncompleteScan? <==> comparable && !complete)
      && (e.IncompleteScan? ==> e.previousIssues == p.issueCount && e.currentIssues == current.issueCount)
      && (e.Stable? <==> comparable && complete && p.pressure.level == current.pressure.level)
      && (e.Stable? ==> e.level == current.pressure.level)
      && (e.Changed? <==> comparable && complete && p.pressure.level != current.pressure.level)
      && (e.Changed? ==> e.transition == Transition(p.pressure.level, current.pressure.level, p.totalBytes,
            current.totalBytes, p.pressure.thresholds != current.pressure.thresholds))
  }

  lemma LoweredAreExcluded(r: Report)
    ensures forall x :: x in Lowered(r.exclusions) <==> x in Excludes(r)
  {
    forall x ensures x in Lowered(r.exclusions) <==> x in Excludes(r) {
      if x in Lowered(r.exclusions) {
        var k :| 0 <= k < |r.exclusions| && Lowered(r.exclusions)[k] == x;
        assert r.exclusions[k] in r.exclusions;
      }
      if y :| y in r.exclusions && ToAsciiLowercase(y) == x {
        var k :| 0 <= k < |r.exclusions| && r.exclusions[k] == y;
        assert Lowered(r.exclusions)[k] == x;
      }
    }
  }

  lemma ScopesMeaning(a: Report, b: Report)
    ensures SameScanScope(a, b) <==> OneScope(a, b)
  {
    hide NormalizedExclusions, Lowered, EqIgnoreAsciiCase, Excludes;
    ExclusionsCompareAsSets(a.exclusions, b.exclusions);
    LoweredAreExcluded(a);
    LoweredAreExcluded(b);
  }

  lemma TransitionIsExact(previous: Option<Report>, current: Report)
    ensures TransitionTold(previous, current, EvaluateTransition(previous, current))
  {
    hide SameScanScope, OneScope, EqIgnoreAsciiCase;
    if previous.Some? {
      ScopesMeaning(previous.value, current);
    }
  }

  /** Which signal a verdict sends, both ways; only two kinds of verdict send one. */
  ghost predicate SignalTold(e: TransitionEvaluation, s: Signal) {
    && (s.MonitoringIncomplete? <==> e.IncompleteScan?)
    && (s.MonitoringIncomplete? ==> s.previousIssues == e.previousIssues && s.currentIssues == e.currentIssues)
    && (s.EnteredCritical? <==> e.Changed? && e.transition.after == Critical)
    && (s.EnteredWarning? <==> e.Changed? && e.transition.after == Warning && e.transition.before != Critical)
    && (s.RecoveredToWarning? <==> e.Changed? && e.transition.after == Warning && e.transition.before == Critical)
    && (s.RecoveredToHealthy? <==>
          e.Changed? && e.transition.after == Healthy && e.transition.before in {Warning, Critical})
    && (s.EnteredCritical? || s.EnteredWarning? || s.RecoveredToWarning? || s.RecoveredToHealthy? ==>
          s.thresholdsChanged == e.transition.thresholdsChanged)
    && !s.MonitoringFailure?
  }

  lemma SignalIsExact(previous: Option<Report>, current: Report)
    ensures var e := EvaluateTransition(previous, current); SignalTold(e, SignalFor(e))
  {
    hide SameScanScope, SameAccount;
  }

  // --- the run ------------------------------------------------------------------------------------------------------

  /** The scans that finished, in order. */
  function Results(passes: seq<Pass>): seq<Result<Report, string>> {
    if passes == [] then []
    else
      var last := passes[|passes| - 1];
      Results(passes[..|passes| - 1]) + if last.race.Finished? then [last.race.result] else []
  }

  function ResultsOf(events: seq<MonitorEvent>): (r: seq<Result<Report, string>>)
    ensures |r| == |events|
  {
    seq(|events|, i requires 0 <= i < |events| =>
      match events[i]
      case Iteration(report, _, _) => Ok(report)
      case Failure(error, _) => Err(error))
  }

  predicate Full(limit: Option<U64>, n: nat) { limit.Some? && n >= limit.value }

  /** The pass gets as far as starting a scan. */
  predicate Scans(p: Pass, n: nat, limit: Option<U64>) { !p.cancelledBefore && !Full(limit, n) }

  /** After `n` attempts, this pass ends the run because it was cancelled. */
  predicate CancelsAt(p: Pass, n: nat, limit: Option<U64>) {
    || p.cancelledBefore
    || (Scans(p, n, limit) && p.race.CancelledMeanwhile?)
    || (Scans(p, n, limit) && p.race.Finished? && !Full(limit, n + 1) && p.cancelledAsleep)
  }

  /** After `n` attempts, this pass ends the run because no further attempt is allowed. */
  predicate LimitsAt(p: Pass, n: nat, limit: Option<U64>) {
    !p.cancelledBefore && (Full(limit, n) || (p.race.Finished? && Full(limit, n + 1)))
  }

  /** Pass `k` ends the run, if it gets that far. */
  predicate EndsAt(passes: seq<Pass>, limit: Option<U64>, k: nat)
    requires k < |passes|
  {
    var n := |Results(passes[..k])|;
    CancelsAt(passes[k], n, limit) || LimitsAt(passes[k], n, limit)
  }

  /** The run went through the first `k` passes, and pass `k` ended it, unless there was none. */
  ghost predicate RunTold(passes: seq<Pass>, limit: Option<U64>, s: Scheduler, k: nat) {
    && k <= |passes|
    && (forall j :: 0 <= j < k ==> !EndsAt(passes, limit, j))
    && if k == |passes| then s.summary == None && ResultsOf(s.events) == Results(passes)
       else
         var p, n := passes[k], |Results(passes[..k])|;
         && EndsAt(passes, limit, k) && s.summary.Some?
         && (s.summary.value.reason == Cancelled <==> CancelsAt(p, n, limit))
         && (s.summary.value.reason == AttemptLimitReached <==> LimitsAt(p, n, limit))
         && ResultsOf(s.events) == Results(passes[..k]) + if Scans(p, n, limit) && p.race.Finished?
                                                          then [p.race.result] else []
  }

  lemma EventResult(s: Scheduler, result: Result<Report, string>)
    ensures ResultsOf(Record(s, result).events) == ResultsOf(s.events) + [result]
    ensures Record(s, result).attempts == SaturatingAdd(s.attempts, 1) && Record(s, result).summary == s.summary
  {
    hide EvaluateTransition, SignalFor;
  }

  /** One pass of a run that has counted its events. */
  lemma OnePass(s: Scheduler, p: Pass, limit: Option<U64>)
    requires s.summary.None? && s.attempts == Cap(|s.events|)
    ensures var r, n := NextPass(s, p, limit), |s.events|;
            && (r.summary.None? <==> !CancelsAt(p, n, limit) && !LimitsAt(p, n, limit))
            && (r.summary.Some? ==>
                  && (r.summary.value.reason == Cancelled <==> CancelsAt(p, n, limit))
                  && (r.summary.value.reason == AttemptLimitReached <==> LimitsAt(p, n, limit)))
            && ResultsOf(r.events) == ResultsOf(s.events) + if Scans(p, n, limit) && p.race.Finished?
                                                            then [p.race.result] else []
  {
    hide Record, ResultsOf;
    if p.race.Finished? {
      EventResult(s, p.race.result);
    }
  }

  lemma EndsBefore(passes: seq<Pass>, limit: Option<U64>, n: nat, j: nat)
    requires j < n <= |passes|
    ensures EndsAt(passes[..n], limit, j) == EndsAt(passes, limit, j) && passes[..n][..j] == passes[..j]
  {
    assert passes[..n][..j] == passes[..j];
  }

  /** A run that has ended stays as it is. */
  lemma StillTold(passes: seq<Pass>, limit: Option<U64>, s: Scheduler, k: nat)
    requires passes != [] && k < |passes| - 1 && RunTold(passes[..|passes| - 1], limit, s, k)
    ensures RunTold(passes, limit, s, k)
  {
    hide EndsAt, Results, ResultsOf;
    forall j | 0 <= j <= k ensures EndsAt(passes[..|passes| - 1], limit, j) == EndsAt(passes, limit, j) {
      EndsBefore(passes, limit, |passes| - 1, j);
    }
    EndsBefore(passes, limit, |passes| - 1, k);
  }

  /** A run that has not ended goes through one more pass. */
  lemma OneMoreTold(passes: seq<Pass>, limit: Option<U64>, before: Scheduler) returns (k: nat)
    requires passes != [] && before.attempts == Cap(|before.events|)
    requires RunTold(passes[..|passes| - 1], limit, before, |passes| - 1)
    ensures RunTold(passes, limit, NextPass(before, passes[|passes| - 1], limit), k)
  {
    hide EndsAt, NextPass, ResultsOf, CancelsAt, LimitsAt;
    var n := |passes| - 1;
    OnePass(before, passes[n], limit);
    EndsNow(passes, limit);
    forall j | 0 <= j < n ensures !EndsAt(passes, limit, j) {
      EndsBefore(passes, limit, n, j);
    }
    k := n;
    if NextPass(before, passes[n], limit).summary.None? {
      k := n + 1;
      FinishedOnly(passes[n], |before.events|, limit);
    }
  }

  lemma EndsNow(passes: seq<Pass>, limit: Option<U64>)
    requires passes != []
    ensures var k := |passes| - 1;
            var n := |Results(passes[..k])|;
            EndsAt(passes, limit, k) <==> CancelsAt(passes[k], n, limit) || LimitsAt(passes[k], n, limit)
  {
  }

  /** For every run: the finished scans it reports, in order, and the first thing that ended it. */
  lemma {:induction false} WholeRunIsExact(baseline: Option<Report>, passes: seq<Pass>, limit: Option<U64>)
    returns (k: nat)
    ensures RunTold(passes, limit, RunPasses(baseline, passes, limit), k)
    decreases |passes|
  {
    if passes == [] {
      k := 0;
      assert ResultsOf([]) == [];
    } else {
      hide NextPass, EndsAt, Results, ResultsOf, CountsEvents;
      var n := |passes| - 1;
      var before := RunPasses(baseline, passes[..n], limit);
      k := WholeRunIsExact(baseline, passes[..n], limit);
      if k < n {
        StoppedStays(before, passes[n], limit);
        StillTold(passes, limit, before, k);
      } else {
        CountersAreRight(baseline, passes[..n], limit);
        AttemptsCounted(before, baseline, limit);
        k := OneMoreTold(passes, limit, before);
      }
    }
  }

  lemma AttemptsCounted(s: Scheduler, baseline: Option<Report>, limit: Option<U64>)
    requires CountsEvents(s, baseline, limit)
    ensures s.attempts == Cap(|s.events|)
  {
  }

  lemma FinishedOnly(p: Pass, n: nat, limit: Option<U64>)
    requires !CancelsAt(p, n, limit) && !LimitsAt(p, n, limit)
    ensures Scans(p, n, limit)
  {
  }

  /** The events of a run, one by one: each verdict compares with the last report before it. */
  ghost predicate EventTold(baseline: Option<Report>, events: seq<MonitorEvent>, k: nat)
    requires k < |events|
  {
    match events[k]
    case Iteration(report, transition, signal) =>
      TransitionTold(LastReport(baseline, events[..k]), report, transition) && SignalTold(transition, signal)
    case Failure(_, signal) => signal.MonitoringFailure?
  }

  lemma EveryEventIsTold(baseline: Option<Report>, passes: seq<Pass>, limit: Option<U64>, k: nat)
    requires k < |RunPasses(baseline, passes, limit).events|
    ensures EventTold(baseline, RunPasses(baseline, passes, limit).events, k)
  {
    hide RunPasses, LastReport, Trailing, EvaluateTransition, SignalFor, TransitionTold, SignalTold;
    EveryEventIsRight(baseline, passes, limit);
    var events := RunPasses(baseline, passes, limit).events;
    assert EventIsRight(baseline, events, k);
    if events[k].Iteration? {
      TransitionIsExact(LastReport(baseline, events[..k]), events[k].report);
      SignalIsExact(LastReport(baseline, events[..k]), events[k].report);
    }
  }
}

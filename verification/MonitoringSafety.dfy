/** What a scheduler's run can be trusted to report, over every run. */
module MonitoringSafety {
  import opened Prelude
  import opened Domain
  import opened Sorting
  import opened Monitoring

  // --- the counters -----------------------------------------------------------------------------------------

  function Iterations(events: seq<MonitorEvent>): (n: nat)
    ensures n <= |events|
  {
    if events == [] then 0 else Iterations(events[..|events| - 1]) + if events[|events| - 1].Iteration? then 1 else 0
  }

  /** The length of the failure run at the end. */
  function Trailing(events: seq<MonitorEvent>): nat {
    if events == [] || events[|events| - 1].Iteration? then 0 else Trailing(events[..|events| - 1]) + 1
  }

  function LastReport(baseline: Option<Report>, events: seq<MonitorEvent>): Option<Report> {
    if events == [] then baseline
    else
      match events[|events| - 1]
      case Iteration(report, _, _) => Some(report)
      case Failure(_, _) => LastReport(baseline, events[..|events| - 1])
  }

  /** The scheduler's variables are a summary of the events it has emitted. */
  ghost predicate CountsEvents(s: Scheduler, baseline: Option<Report>, limit: Option<U64>) {
    && s.attempts == Cap(|s.events|)
    && s.successes == Cap(Iterations(s.events)) && s.failures == Cap(|s.events| - Iterations(s.events))
    && s.consecutive == (if Trailing(s.events) < U32_MAX then Trailing(s.events) else U32_MAX)
    && s.previous == LastReport(baseline, s.events)
    && (limit.Some? ==> |s.events| <= limit.value)
    && (s.summary.Some? ==>
          var sum := s.summary.value;
          && sum.attempts == s.attempts && sum.successes == s.successes && sum.failures == s.failures
          && (sum.reason == AttemptLimitReached ==> limit == Some(s.attempts)))
  }

  lemma EventAppended(baseline: Option<Report>, events: seq<MonitorEvent>, e: MonitorEvent)
    ensures Iterations(events + [e]) == Iterations(events) + if e.Iteration? then 1 else 0
    ensures Trailing(events + [e]) == if e.Iteration? then 0 else Trailing(events) + 1
    ensures LastReport(baseline, events + [e]) == if e.Iteration? then Some(e.report) else LastReport(baseline, events)
  {
  }

  lemma RecordCounts(s: Scheduler, result: Result<Report, string>, baseline: Option<Report>, limit: Option<U64>)
    requires CountsEvents(s, baseline, limit) && s.summary.None? && !s.LimitReached(limit)
    ensures CountsEvents(Record(s, result), baseline, limit)
  {
    hide Iterations, Trailing, LastReport, EvaluateTransition, SignalFor;
    var done := Record(s, result);
    EventAppended(baseline, s.events, done.events[|s.events|]);
  }

  lemma PassCounts(s: Scheduler, pass: Pass, baseline: Option<Report>, limit: Option<U64>)
    requires CountsEvents(s, baseline, limit)
    ensures CountsEvents(NextPass(s, pass, limit), baseline, limit)
  {
    hide Iterations, Trailing, LastReport, Record;
    if s.summary.None? && !s.LimitReached(limit) && pass.race.Finished? {
      RecordCounts(s, pass.race.result, baseline, limit);
      RecordKeepsRunning(s, pass.race.result);
    }
  }

  lemma RecordKeepsRunning(s: Scheduler, result: Result<Report, string>)
    ensures Record(s, result).summary == s.summary
  {
  }

  /**
   * In every run: attempts, successes and failures count the emitted events (saturating at 64 bits),
   * the failure counter is the length of the failure run at the end, attempts never exceed the limit
   * and equal it when the run was stopped by it.
   */
  lemma {:induction false} CountersAreRight(baseline: Option<Report>, passes: seq<Pass>, limit: Option<U64>)
    ensures CountsEvents(RunPasses(baseline, passes, limit), baseline, limit)
  {
    hide NextPass, CountsEvents;
    if passes == [] {
      AtStart(baseline, limit);
    } else {
      CountersAreRight(baseline, passes[..|passes| - 1], limit);
      PassCounts(RunPasses(baseline, passes[..|passes| - 1], limit), passes[|passes| - 1], baseline, limit);
    }
  }

  lemma AtStart(baseline: Option<Report>, limit: Option<U64>)
    ensures CountsEvents(Started(baseline), baseline, limit)
  {
  }

  /** Below 2^64 events the three counters add up; a limit guarantees that. */
  lemma AttemptsAddUp(baseline: Option<Report>, passes: seq<Pass>, limit: Option<U64>)
    ensures var s := RunPasses(baseline, passes, limit);
            && (limit.Some? ==> |s.events| <= U64_MAX)
            && (|s.events| <= U64_MAX ==> s.attempts == s.successes + s.failures == |s.events|)
  {
    CountersAreRight(baseline, passes, limit);
  }

  // --- what each event compares ---------------------------------------------------------------------------------

  /** An iteration compares with the last successful report, or the baseline; a failure counts its run. */
  ghost predicate EventIsRight(baseline: Option<Report>, events: seq<MonitorEvent>, k: nat)
    requires k < |events|
  {
    match events[k]
    case Iteration(report, transition, signal) =>
      transition == EvaluateTransition(LastReport(baseline, events[..k]), report) && signal == SignalFor(transition)
    case Failure(_, signal) =>
      signal == MonitoringFailure(if Trailing(events[..k + 1]) < U32_MAX then Trailing(events[..k + 1]) else U32_MAX)
  }

  ghost predicate EventsAreRight(baseline: Option<Report>, events: seq<MonitorEvent>) {
    forall k :: 0 <= k < |events| ==> EventIsRight(baseline, events, k)
  }

  lemma OneMoreRight(baseline: Option<Report>, events: seq<MonitorEvent>, e: MonitorEvent)
    requires EventsAreRight(baseline, events) && EventIsRight(baseline, events + [e], |events|)
    ensures EventsAreRight(baseline, events + [e])
  {
    hide EvaluateTransition, SignalFor, LastReport, Trailing;
    var all := events + [e];
    forall k | 0 <= k < |events| ensures EventIsRight(baseline, all, k) {
      assert EventIsRight(baseline, events, k);
      assert all[..k] == events[..k] && all[..k + 1] == events[..k + 1];
    }
  }

  lemma {:induction false} EveryEventIsRight(baseline: Option<Report>, passes: seq<Pass>, limit: Option<U64>)
    ensures EventsAreRight(baseline, RunPasses(baseline, passes, limit).events)
  {
    hide EventsAreRight, CountsEvents;
    if passes == [] {
      NoEvents(baseline);
    } else {
      var s := RunPasses(baseline, passes[..|passes| - 1], limit);
      EveryEventIsRight(baseline, passes[..|passes| - 1], limit);
      CountersAreRight(baseline, passes[..|passes| - 1], limit);
      PassIsRight(s, passes[|passes| - 1], baseline, limit);
    }
  }

  lemma NoEvents(baseline: Option<Report>)
    ensures EventsAreRight(baseline, [])
  {
  }

  lemma PassIsRight(s: Scheduler, pass: Pass, baseline: Option<Report>, limit: Option<U64>)
    requires EventsAreRight(baseline, s.events) && CountsEvents(s, baseline, limit)
    ensures EventsAreRight(baseline, NextPass(s, pass, limit).events)
  {
    hide EventsAreRight, CountsEvents, Record;
    if pass.race.Finished? {
      RecordIsRight(s, pass.race.result, baseline, limit);
    }
  }

  lemma IterationIsRight(s: Scheduler, report: Report, baseline: Option<Report>, limit: Option<U64>)
    requires CountsEvents(s, baseline, limit)
    ensures EventIsRight(baseline, s.events + [NewEvent(s, Ok(report))], |s.events|)
  {
    ConsecutiveNext(s, baseline, limit);
    hide CountsEvents, EvaluateTransition, SignalFor, LastReport, Trailing;
    assert (s.events + [NewEvent(s, Ok(report))])[..|s.events|] == s.events;
  }

  lemma FailureIsRight(s: Scheduler, error: string, baseline: Option<Report>, limit: Option<U64>)
    requires CountsEvents(s, baseline, limit)
    ensures EventIsRight(baseline, s.events + [NewEvent(s, Err(error))], |s.events|)
  {
    ConsecutiveNext(s, baseline, limit);
    hide CountsEvents, EvaluateTransition, SignalFor, LastReport, Trailing;
    var e := NewEvent(s, Err(error));
    var all := s.events + [e];
    assert all[..|s.events| + 1] == all;
    EventAppended(baseline, s.events, e);
  }

  lemma NewEventIsRight(s: Scheduler, result: Result<Report, string>, baseline: Option<Report>, limit: Option<U64>)
    requires CountsEvents(s, baseline, limit)
    ensures EventIsRight(baseline, s.events + [NewEvent(s, result)], |s.events|)
  {
    hide CountsEvents, EventIsRight, NewEvent;
    match result
    case Ok(report) => IterationIsRight(s, report, baseline, limit);
    case Err(error) => FailureIsRight(s, error, baseline, limit);
  }

  lemma RecordIsRight(s: Scheduler, result: Result<Report, string>, baseline: Option<Report>, limit: Option<U64>)
    requires EventsAreRight(baseline, s.events) && CountsEvents(s, baseline, limit)
    ensures EventsAreRight(baseline, Record(s, result).events)
  {
    hide EventsAreRight, EventIsRight, CountsEvents, NewEvent;
    NewEventIsRight(s, result, baseline, limit);
    OneMoreRight(baseline, s.events, NewEvent(s, result));
  }

  lemma ConsecutiveNext(s: Scheduler, baseline: Option<Report>, limit: Option<U64>)
    requires CountsEvents(s, baseline, limit)
    ensures s.previous == LastReport(baseline, s.events)
    ensures (if s.consecutive < U32_MAX then s.consecutive + 1 else U32_MAX)
         == if Trailing(s.events) + 1 < U32_MAX then Trailing(s.events) + 1 else U32_MAX
  {
  }

  // --- folding the signals ------------------------------------------------------------------------------------------

  /** What someone who only reads the signals believes. */
  function Believe(level: PressureLevel, signal: Signal): PressureLevel {
    match signal
    case EnteredWarning(_) => Warning
    case EnteredCritical(_) => Critical
    case RecoveredToWarning(_) => Warning
    case RecoveredToHealthy(_) => Healthy
    case _ => level
  }

  function BelieveAll(level: PressureLevel, events: seq<MonitorEvent>): PressureLevel {
    if events == [] then level else Believe(BelieveAll(level, events[..|events| - 1]), events[|events| - 1].signal)
  }

  predicate Comparable(a: Report, b: Report) {
    SameAccount(a.account, b.account) && SameScanScope(a, b) && a.issueCount == 0 && b.issueCount == 0
  }

  /**
   * Between comparable reports the signal tells the new level exactly unless monitoring was switched
   * on at a healthy level or switched off: those two changes are silent.
   */
  lemma SignalTellsIff(a: Report, b: Report)
    requires Comparable(a, b)
    ensures var x, y := a.pressure.level, b.pressure.level;
            Believe(x, SignalFor(EvaluateTransition(Some(a), b))) == y <==>
                x == y || y == Warning || y == Critical || (y == Healthy && x != NotConfigured)
  {
  }

  /** The cases: an account at a healthy level is put under watch, and the watch on a critical one is ended. */
  lemma SilentChanges()
    ensures exists a, b :: Comparable(a, b) && a.pressure.level == NotConfigured && b.pressure.level == Healthy
              && Believe(NotConfigured, SignalFor(EvaluateTransition(Some(a), b))) == NotConfigured
    ensures exists a, b :: Comparable(a, b) && a.pressure.level == Critical && b.pressure.level == NotConfigured
              && Believe(Critical, SignalFor(EvaluateTransition(Some(a), b))) == Critical
  {
    var unwatched := Evaluate(Thresholds(None, None), 10);
    var healthy, critical := Evaluate(Thresholds(Some(20), Some(30)), 10), Evaluate(Thresholds(Some(5), Some(8)), 10);
    var report := (p: Pressure) => Report(Account("github", "u"), AllAccessible, [], 10, p, 0);
    assert Comparable(report(unwatched), report(healthy));
    assert Comparable(report(critical), report(unwatched));
  }

  /** A stretch of events from report `from`: comparable, configured reports, with failures in between. */
  ghost predicate CleanStretch(first: Report, baseline: Option<Report>, events: seq<MonitorEvent>, i: nat) {
    && i <= |events| && LastReport(baseline, events[..i]) == Some(first) && first.pressure.level != NotConfigured
    && forall k :: i <= k < |events| && events[k].Iteration? ==>
         events[k].report.pressure.level != NotConfigured
         && LastReport(baseline, events[..k]).Some?
            && Comparable(LastReport(baseline, events[..k]).value, events[k].report)
  }

  /** Over such a stretch, folding the signals from the first level gives the current level. */
  lemma {:induction false} SignalsTellTheLevel(first: Report, baseline: Option<Report>, events: seq<MonitorEvent>,
                                               i: nat)
    requires EventsAreRight(baseline, events) && CleanStretch(first, baseline, events, i)
    ensures LastReport(baseline, events).Some?
    ensures BelieveAll(first.pressure.level, events[i..]) == LastReport(baseline, events).value.pressure.level
            != NotConfigured
    decreases |events|
  {
    hide Comparable, EvaluateTransition, SignalFor, Trailing, Believe;
    if i == |events| {
      assert events[..i] == events && events[i..] == [];
    } else {
      var n := |events| - 1;
      var before := events[..n];
      StretchShrinks(first, baseline, events, i);
      SignalsTellTheLevel(first, baseline, before, i);
      assert events[i..][..n - i] == before[i..];
      assert EventIsRight(baseline, events, n);
      assert BelieveAll(first.pressure.level, events[i..])
          == Believe(BelieveAll(first.pressure.level, before[i..]), events[n].signal);
      FailureIsSilent(events[n].signal);
      if events[n].Iteration? {
        SignalTellsIff(LastReport(baseline, before).value, events[n].report);
      }
    }
  }

  lemma FailureIsSilent(signal: Signal)
    ensures signal.MonitoringFailure? ==> forall level :: Believe(level, signal) == level
  {
  }

  lemma StretchShrinks(first: Report, baseline: Option<Report>, events: seq<MonitorEvent>, i: nat)
    requires EventsAreRight(baseline, events) && CleanStretch(first, baseline, events, i) && i < |events|
    ensures EventsAreRight(baseline, events[..|events| - 1]) && CleanStretch(first, baseline, events[..|events| - 1], i)
  {
    hide Comparable, EvaluateTransition, SignalFor, Trailing, LastReport;
    var before := events[..|events| - 1];
    assert before[..i] == events[..i];
    forall k | 0 <= k < |before|
      ensures EventIsRight(baseline, before, k) && before[..k] == events[..k]
    {
      assert EventIsRight(baseline, events, k);
      assert before[..k] == events[..k] && before[..k + 1] == events[..k + 1];
    }
  }

  /** The theorem for the scheduler itself. */
  lemma SchedulerSignalsTellTheLevel(baseline: Option<Report>, passes: seq<Pass>, limit: Option<U64>, first: Report,
                                     i: nat)
    requires CleanStretch(first, baseline, RunPasses(baseline, passes, limit).events, i)
    ensures var s := RunPasses(baseline, passes, limit);
            s.previous.Some? && BelieveAll(first.pressure.level, s.events[i..]) == s.previous.value.pressure.level
  {
    hide CleanStretch, EventsAreRight;
    EveryEventIsRight(baseline, passes, limit);
    CountersAreRight(baseline, passes, limit);
    SignalsTellTheLevel(first, baseline, RunPasses(baseline, passes, limit).events, i);
  }

  // --- exclusions are a set ------------------------------------------------------------------------------------------

  ghost predicate StrictlySorted(values: seq<string>) {
    forall i, j :: 0 <= i < j < |values| ==> TextLe(values[i], values[j]) && values[i] != values[j]
  }

  lemma TextLePreorder()
    ensures TotalPreorder(TextLe)
  {
    forall a, b ensures TextLe(a, b) || TextLe(b, a) { TextLeTotal(a, b); }
    forall a, b, c | TextLe(a, b) && TextLe(b, c) ensures TextLe(a, c) { TextLeTransitive(a, b, c); }
  }

  /** Between equal values of a sorted list there is nothing else. */
  lemma Squeezed(values: seq<string>, k: nat, n: nat)
    requires SortedBy(values, TextLe) && k < n < |values| && values[k] == values[n]
    ensures values[n - 1] == values[n]
  {
    if k < n - 1 {
      TextLeTotal(values[n - 1], values[n]);
    }
  }

  lemma {:induction false} DedupMeaning(values: seq<string>)
    requires SortedBy(values, TextLe)
    ensures StrictlySorted(Dedup(values))
    ensures forall x :: x in Dedup(values) <==> x in values
  {
    if values != [] {
      var n := |values| - 1;
      assert values == values[..n] + [values[n]];
      DedupMeaning(values[..n]);
      var before := Dedup(values[..n]);
      if !(n > 0 && values[n] == values[n - 1]) {
        forall i | 0 <= i < |before| ensures TextLe(before[i], values[n]) && before[i] != values[n] {
          assert before[i] in values[..n];
          var k :| 0 <= k < n && values[k] == before[i];
          if values[k] == values[n] { Squeezed(values, k, n); }
        }
      }
    }
  }

  /** A strictly sorted list is determined by its members. */
  lemma {:induction false} SortedSetIsUnique(a: seq<string>, b: seq<string>)
    requires StrictlySorted(a) && StrictlySorted(b) && forall x :: x in a <==> x in b
    ensures a == b
  {
    SomeMember(a);
    SomeMember(b);
    if a != [] {
      assert a[0] in a && b[0] in b;
      var i :| 0 <= i < |b| && b[i] == a[0];
      var j :| 0 <= j < |a| && a[j] == b[0];
      TextLeTotal(a[0], b[0]);
      assert a[0] == b[0];
      forall x ensures x in a[1..] <==> x in b[1..] {
        assert x in a <==> x == a[0] || x in a[1..];
        assert x in b <==> x == b[0] || x in b[1..];
      }
      SortedSetIsUnique(a[1..], b[1..]);
      assert a == [a[0]] + a[1..] && b == [b[0]] + b[1..];
    }
  }

  lemma NormalizedMeaning(values: seq<string>)
    ensures StrictlySorted(NormalizedExclusions(values))
    ensures forall x :: x in NormalizedExclusions(values) <==> x in Lowered(values)
  {
    var lowered := Lowered(values);
    TextLePreorder();
    SortSorts(lowered, TextLe);
    SortPermutes(lowered, TextLe);
    DedupMeaning(Sort(lowered, TextLe));
    forall x ensures x in Sort(lowered, TextLe) <==> x in lowered { MembersSurvive(Sort(lowered, TextLe), lowered, x); }
  }

  /** Exclusion lists compare as case-insensitive sets: order, repetition and ASCII case do not matter. */
  lemma ExclusionsCompareAsSets(a: seq<string>, b: seq<string>)
    ensures NormalizedExclusions(a) == NormalizedExclusions(b) <==> forall x :: x in Lowered(a) <==> x in Lowered(b)
  {
    hide NormalizedExclusions, Lowered;
    NormalizedMeaning(a);
    NormalizedMeaning(b);
    if forall x :: x in Lowered(a) <==> x in Lowered(b) {
      SortedSetIsUnique(NormalizedExclusions(a), NormalizedExclusions(b));
    }
  }
}

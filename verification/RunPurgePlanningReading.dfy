/**
 * What planning says and why: every skip and every error of `build` stands for the first answer on the
 * run's path that did not allow it to go on, for every provider and protection store.
 */
module RunPurgePlanningReading {
  import opened Prelude
  import opened Domain
  import opened RunProtections
  import opened RunPurgePlans
  import opened RunPurgeRemote
  import opened RunPurgeExecution
  import opened RunPurgePlanning

  /** All that can be asked about one selected run, each question after the answers before it. */
  datatype Answers = Answers(
    index: Assessment,
    remaining: Option<nat>,
    lease: Option<ProtectionError>,
    first: Result<Assessment, ProtectionError>,
    found: ProviderResult<Option<WorkflowRun>>,
    second: Result<Assessment, ProtectionError>,
    listed: ProviderResult<seq<Artifact>>,
    third: Result<Assessment, ProtectionError>)

  function AnswersAt(b: Build, t: Trace, run: WorkflowRun): Answers {
    var o, key := b.o, b.Key(run);
    var remaining := o.remaining(t);
    var t1 := t + [HeadroomRead(remaining)];
    var lease := o.acquire(t1, key);
    var t2 := t1 + [LeaseAcquired(key, lease)];
    var first := o.assess(t2, key, run);
    var t3 := t2 + [ProtectionAssessed(key, first)];
    var found := o.run(t3, run.repository, run.id);
    var t4 := t3 + [RunLookedUp(run.repository, run.id, found)];
    var second := o.assess(t4, key, run);
    var t5 := t4 + [ProtectionAssessed(key, second)];
    var listed := o.artifacts(t5, run.repository, run.id);
    var t6 := t5 + [ArtifactsListed(run.repository, run.id, listed)];
    Answers(Assess(b.entries, b.instance, b.account, run), remaining, lease, first, found, second, listed,
            o.assess(t6, key, run))
  }

  /** The first reason not to plan a run, in the order the questions are asked. */
  datatype Stop =
    | NoStop
    | LocalEntry(entry: Protection)
    | Doubtful(code: ReviewCode, explanation: string)
    | StoreFault(failure: ProtectionError)
    | FewRequestsLeft(remaining: nat)
    | StillRunning
    | NotScanned
    | Vanished
    | Different
    | ReadingFailed(error: ProviderError)

  function AssessmentStop(a: Result<Assessment, ProtectionError>): Stop {
    match a
    case Err(failure) => StoreFault(failure)
    case Ok(NoEntry) => NoStop
    case Ok(Protected(entry)) => LocalEntry(entry)
    case Ok(Review(code, explanation)) => Doubtful(code, explanation)
  }

  function LookupStop(found: ProviderResult<Option<WorkflowRun>>, run: WorkflowRun): Stop {
    match found
    case Err(e) => ReadingFailed(e)
    case Ok(None) => Vanished
    case Ok(Some(current)) => if current == run then NoStop else Different
  }

  /** What each of the ten checks says, taken alone. */
  function Check(b: Build, run: WorkflowRun, x: Answers, n: nat): Stop
    requires n < 10
  {
    match n
    case 0 => AssessmentStop(Ok(x.index))
    case 1 => if x.remaining.Some? && x.remaining.value <= 250 then FewRequestsLeft(x.remaining.value) else NoStop
    case 2 => if run.IsCompleted() then NoStop else StillRunning
    case 3 => if run in b.snapshot.runs then NoStop else NotScanned
    case 4 => if x.lease.Some? then StoreFault(x.lease.value) else NoStop
    case 5 => AssessmentStop(x.first)
    case 6 => LookupStop(x.found, run)
    case 7 => AssessmentStop(x.second)
    case 8 => if x.listed.Err? then ReadingFailed(x.listed.error) else NoStop
    case 9 => AssessmentStop(x.third)
  }

  /** Check `n` is the first that stops the run. */
  ghost predicate StopsFirst(b: Build, run: WorkflowRun, x: Answers, n: nat, stop: Stop) {
    n < 10 && Check(b, run, x, n) == stop != NoStop && forall m :: 0 <= m < n ==> Check(b, run, x, m) == NoStop
  }

  /** What a build makes of a stop. Only a local entry is treated differently for explicit ids. */
  predicate Verdict(stop: Stop, mode: SelectionMode, run: WorkflowRun, r: Result<Ran<Option<Target>>, BuildError>) {
    var name, id := run.repository.fullName, run.id;
    match stop
    case NoStop => r.Ok? && r.value.value.Some?
    case LocalEntry(entry) =>
      if mode == ExplicitRunIds then r == Err(LocallyProtected(name, id, entry.reason))
      else r.Ok? && r.value.value.None?
    case Doubtful(code, explanation) => r == Err(ProtectionUnverifiable(name, id, code.Text() + ": " + explanation))
    case StoreFault(failure) => r == Err(StoreFailed(failure))
    case FewRequestsLeft(remaining) => r == Err(HeadroomTooLow(remaining))
    case StillRunning => r == Err(Rejected(RunNotCompleted(name, id, run.status)))
    case NotScanned => r == Err(Rejected(RunNotInSnapshot(name, id)))
    case Vanished => r == Err(Disappeared(name, id))
    case Different => r == Err(ChangedMeanwhile(name, id))
    case ReadingFailed(e) => r == Err(DependenciesFailed(name, id, ErrorText(e)))
  }

  /** The history of a run that is planned or skipped: its questions up to check `n`, and the lease given back. */
  function Asked(b: Build, run: WorkflowRun, x: Answers, n: nat): Trace {
    if n == 0 then []
    else
      [HeadroomRead(x.remaining), LeaseAcquired(b.Key(run), x.lease)] + AskedUnderLease(b, run, x, n)
      + [LeaseReleased(b.Key(run))]
  }

  function AskedUnderLease(b: Build, run: WorkflowRun, x: Answers, n: nat): Trace {
    [ProtectionAssessed(b.Key(run), x.first)] + if n <= 5 then [] else AskedOfRun(b, run, x, n)
  }

  function AskedOfRun(b: Build, run: WorkflowRun, x: Answers, n: nat): Trace {
    [RunLookedUp(run.repository, run.id, x.found), ProtectionAssessed(b.Key(run), x.second)]
    + if n <= 7 then [] else AskedOfArtifacts(b, run, x)
  }

  function AskedOfArtifacts(b: Build, run: WorkflowRun, x: Answers): Trace {
    [ArtifactsListed(run.repository, run.id, x.listed), ProtectionAssessed(b.Key(run), x.third)]
  }

  /** One run: the first check that stops it decides, and without one it is planned as it was listed. */
  ghost predicate RunTold(b: Build, t: Trace, run: WorkflowRun, stop: Stop) {
    var x, r := AnswersAt(b, t, run), PlanRun(b, t, run);
    && Verdict(stop, b.mode, run, r)
    && (if stop == NoStop then
          && (forall n :: 0 <= n < 10 ==> Check(b, run, x, n) == NoStop)
          && r.value.value == Some(Target(run, x.listed.value, true)) && r.value.trace == t + Asked(b, run, x, 10)
        else exists n :: StopsFirst(b, run, x, n, stop) && (r.Ok? ==> r.value.trace == t + Asked(b, run, x, n)))
  }

  lemma GuardedSays(b: Build, t: Trace, run: WorkflowRun)
    ensures var a, g := b.o.assess(t, b.Key(run), run), Guarded(b, t, run);
            && Verdict(AssessmentStop(a), b.mode, run, if g.Err? then Err(g.error)
                 else Ok(Ran(if g.value.value then None else Some(Target(run, [], true)), g.value.trace)))
            && (g.Ok? ==> g.value.trace == t + [ProtectionAssessed(b.Key(run), a)])
  {
  }

  /** Where the path ends: at the first check that stops the run, or after the last one. */
  ghost predicate EndsAt(b: Build, run: WorkflowRun, x: Answers, from: nat, n: nat,
                         r: Result<Ran<Option<Target>>, BuildError>)
    requires from <= n <= 10
  {
    && (forall m :: from <= m < n ==> Check(b, run, x, m) == NoStop)
    && if n < 10 then Check(b, run, x, n) != NoStop && Verdict(Check(b, run, x, n), b.mode, run, r)
       else r.Ok? && x.listed.Ok? && r.value.value == Some(Target(run, x.listed.value, true))
  }

  /** The history before the lease's first question, and the answers from there on. */
  ghost predicate LeasedAt(b: Build, t: Trace, run: WorkflowRun, x: Answers, t2: Trace) {
    x == AnswersAt(b, t, run) && t2 == t + [HeadroomRead(x.remaining)] + [LeaseAcquired(b.Key(run), x.lease)]
  }

  lemma ListingEnds(b: Build, t: Trace, run: WorkflowRun, x: Answers, t2: Trace) returns (n: nat)
    requires LeasedAt(b, t, run, x, t2)
    ensures 8 <= n <= 10
    ensures var t3 := t2 + [ProtectionAssessed(b.Key(run), x.first)];
            var t5 := t3 + [RunLookedUp(run.repository, run.id, x.found)] + [ProtectionAssessed(b.Key(run), x.second)];
            && EndsAt(b, run, x, 8, n, PlanArtifacts(b, t5, run))
            && (PlanArtifacts(b, t5, run).Ok? ==>
                  n > 8 && PlanArtifacts(b, t5, run).value.trace == t5 + AskedOfArtifacts(b, run, x))
  {
    hide Guarded, ErrorText, Assess;
    var t3 := t2 + [ProtectionAssessed(b.Key(run), x.first)];
    var t5 := t3 + [RunLookedUp(run.repository, run.id, x.found)] + [ProtectionAssessed(b.Key(run), x.second)];
    GuardedSays(b, t5 + [ArtifactsListed(run.repository, run.id, x.listed)], run);
    n := if x.listed.Err? then 8 else if Check(b, run, x, 9) != NoStop then 9 else 10;
  }

  lemma LookupEnds(b: Build, t: Trace, run: WorkflowRun, x: Answers, t2: Trace) returns (n: nat)
    requires LeasedAt(b, t, run, x, t2)
    ensures 6 <= n <= 10
    ensures var t3 := t2 + [ProtectionAssessed(b.Key(run), x.first)];
            && EndsAt(b, run, x, 6, n, PlanLookup(b, t3, run))
            && (PlanLookup(b, t3, run).Ok? ==>
                  n > 6 && PlanLookup(b, t3, run).value.trace == t3 + AskedOfRun(b, run, x, n))
  {
    hide Guarded, ErrorText, Assess, PlanArtifacts, AskedOfArtifacts;
    var t3 := t2 + [ProtectionAssessed(b.Key(run), x.first)];
    GuardedSays(b, t3 + [RunLookedUp(run.repository, run.id, x.found)], run);
    n := ListingEnds(b, t, run, x, t2);
    if Check(b, run, x, 6) != NoStop {
      n := 6;
    } else if Check(b, run, x, 7) != NoStop {
      n := 7;
    }
  }

  lemma LeaseEnds(b: Build, t: Trace, run: WorkflowRun, x: Answers, t2: Trace) returns (n: nat)
    requires LeasedAt(b, t, run, x, t2)
    ensures 5 <= n <= 10
    ensures EndsAt(b, run, x, 5, n, PlanUnderLease(b, t2, run))
    ensures PlanUnderLease(b, t2, run).Ok? ==>
              PlanUnderLease(b, t2, run).value.trace == t2 + AskedUnderLease(b, run, x, n)
  {
    hide Guarded, ErrorText, Assess, PlanLookup, AskedOfRun;
    GuardedSays(b, t2, run);
    n := LookupEnds(b, t, run, x, t2);
    if Check(b, run, x, 5) != NoStop {
      n := 5;
    }
  }

  lemma RunEnds(b: Build, t: Trace, run: WorkflowRun) returns (n: nat)
    ensures n <= 10 && EndsAt(b, run, AnswersAt(b, t, run), 0, n, PlanRun(b, t, run))
    ensures PlanRun(b, t, run).Ok? ==> PlanRun(b, t, run).value.trace == t + Asked(b, run, AnswersAt(b, t, run), n)
  {
    hide ErrorText, Assess, PlanUnderLease, WorkflowRun.IsCompleted, AskedUnderLease;
    var x := AnswersAt(b, t, run);
    n := LeaseEnds(b, t, run, x, t + [HeadroomRead(x.remaining)] + [LeaseAcquired(b.Key(run), x.lease)]);
    if Check(b, run, x, 0) != NoStop {
      n := 0;
    } else if Check(b, run, x, 1) != NoStop {
      n := 1;
    } else if Check(b, run, x, 2) != NoStop {
      n := 2;
    } else if Check(b, run, x, 3) != NoStop {
      n := 3;
    } else if Check(b, run, x, 4) != NoStop {
      n := 4;
    }
  }

  /** For every provider and store, one selected run is planned, skipped or refused for exactly its first stop. */
  lemma PlanRunMeaning(b: Build, t: Trace, run: WorkflowRun) returns (stop: Stop)
    ensures RunTold(b, t, run, stop)
  {
    hide PlanRun, AnswersAt, Check, Verdict, Asked;
    var n := RunEnds(b, t, run);
    var x := AnswersAt(b, t, run);
    stop := NoStop;
    if n < 10 {
      stop := Check(b, run, x, n);
      assert StopsFirst(b, run, x, n, stop);
    } else {
      PlannedVerdict(b.mode, run, PlanRun(b, t, run));
    }
  }

  lemma PlannedVerdict(mode: SelectionMode, run: WorkflowRun, r: Result<Ran<Option<Target>>, BuildError>)
    requires r.Ok? && r.value.value.Some?
    ensures Verdict(NoStop, mode, run, r)
  {
  }

  // --- all selected runs ----------------------------------------------------------------------------------

  /** A build goes on after this stop: nothing was wrong, or the run is protected and was not named by id. */
  predicate Passes(stop: Stop, mode: SelectionMode) {
    stop == NoStop || (stop.LocalEntry? && mode != ExplicitRunIds)
  }

  /** The runs before `i` having been planned or skipped, `stop` is what stops run `i`. */
  ghost predicate StopAt(b: Build, t: Trace, selected: seq<WorkflowRun>, i: nat, stop: Stop)
    requires i < |selected|
  {
    var before := PlanRuns(b, t, selected[..i]);
    before.Ok? && RunTold(b, before.value.trace, selected[i], stop)
  }

  /** The runs that nothing stops, in order. */
  function Kept(selected: seq<WorkflowRun>, stops: seq<Stop>): seq<WorkflowRun>
    requires |selected| == |stops|
  {
    if selected == [] then []
    else
      var n := |selected| - 1;
      Kept(selected[..n], stops[..n]) + if stops[n] == NoStop then [selected[n]] else []
  }

  lemma {:induction false} KeptMembers(selected: seq<WorkflowRun>, stops: seq<Stop>, run: WorkflowRun)
    requires |selected| == |stops|
    ensures run in Kept(selected, stops) <==>
            exists i :: 0 <= i < |selected| && selected[i] == run && stops[i] == NoStop
  {
    if selected != [] {
      var n := |selected| - 1;
      KeptMembers(selected[..n], stops[..n], run);
    }
  }

  ghost predicate RunsTold(b: Build, t: Trace, selected: seq<WorkflowRun>, stops: seq<Stop>) {
    var r, n := PlanRuns(b, t, selected), |stops|;
    && n <= |selected| && (forall i :: 0 <= i < n ==> StopAt(b, t, selected, i, stops[i]))
    && if r.Ok? then
         && n == |selected| && (forall i :: 0 <= i < n ==> Passes(stops[i], b.mode))
         && RunsOf(r.value.value) == Kept(selected, stops)
       else
         && n > 0 && (forall i :: 0 <= i < n - 1 ==> Passes(stops[i], b.mode)) && !Passes(stops[n - 1], b.mode)
         && Verdict(stops[n - 1], b.mode, selected[n - 1], Err(r.error))
  }

  lemma VerdictPasses(mode: SelectionMode, run: WorkflowRun, stop: Stop, r: Result<Ran<Option<Target>>, BuildError>)
    requires Verdict(stop, mode, run, r)
    ensures r.Ok? <==> Passes(stop, mode)
    ensures r.Ok? ==> (r.value.value.Some? <==> stop == NoStop)
    ensures r.Err? ==> !r.error.AccountChanged? && !r.error.ProviderFailed?
                       && (r.error.Rejected? ==> !r.error.problem.IncompleteSnapshot?)
  {
  }

  lemma StillStopsThere(b: Build, t: Trace, selected: seq<WorkflowRun>, n: nat, i: nat, stop: Stop)
    requires i < n <= |selected| && StopAt(b, t, selected[..n], i, stop)
    ensures StopAt(b, t, selected, i, stop)
  {
    hide PlanRuns, RunTold;
    assert selected[..n][..i] == selected[..i];
  }

  lemma RunsOfAppend(targets: seq<Target>, more: seq<Target>)
    ensures RunsOf(targets + more) == RunsOf(targets) + RunsOf(more)
  {
  }

  lemma OneMoreRun(b: Build, t: Trace, selected: seq<WorkflowRun>, stops: seq<Stop>) returns (all: seq<Stop>)
    requires selected != []
    requires var before := selected[..|selected| - 1];
             PlanRuns(b, t, before).Ok? && RunsTold(b, t, before, stops)
    ensures RunsTold(b, t, selected, all)
  {
    hide PlanRun, RunTold, Verdict;
    var n := |selected| - 1;
    var before := PlanRuns(b, t, selected[..n]).value;
    var stop := PlanRunMeaning(b, before.trace, selected[n]);
    var r := PlanRun(b, before.trace, selected[n]);
    all := stops + [stop];
    forall i | 0 <= i < n ensures StopAt(b, t, selected, i, all[i]) {
      StillStopsThere(b, t, selected, n, i, all[i]);
    }
    RunToldVerdict(b, before.trace, selected[n], stop);
    VerdictPasses(b.mode, selected[n], stop, r);
    if r.Ok? {
      RunsOfAppend(before.value, if r.value.value.Some? then [r.value.value.value] else []);
      assert all[..n] == stops;
    }
  }

  lemma RunToldVerdict(b: Build, t: Trace, run: WorkflowRun, stop: Stop)
    requires RunTold(b, t, run, stop)
    ensures Verdict(stop, b.mode, run, PlanRun(b, t, run))
    ensures stop == NoStop ==> PlanRun(b, t, run).Ok? && PlanRun(b, t, run).value.value.Some?
                               && PlanRun(b, t, run).value.value.value.run == run
    ensures PlanRun(b, t, run).Err? ==> Verdict(stop, b.mode, run, Err(PlanRun(b, t, run).error))
  {
    hide PlanRun, AnswersAt, Check, StopsFirst, Asked;
  }

  /**
   * All selected runs: a build succeeds exactly when every run is free or skipped for its protection, it
   * plans exactly the free ones in order, and otherwise it ends with the first run that neither applies to.
   */
  lemma {:induction false} PlanRunsMeaning(b: Build, t: Trace, selected: seq<WorkflowRun>) returns (stops: seq<Stop>)
    ensures RunsTold(b, t, selected, stops)
    decreases |selected|
  {
    hide PlanRun, RunTold, Verdict;
    if selected == [] {
      stops := [];
    } else {
      var n := |selected| - 1;
      stops := PlanRunsMeaning(b, t, selected[..n]);
      if PlanRuns(b, t, selected[..n]).Ok? {
        stops := OneMoreRun(b, t, selected, stops);
      } else {
        forall i | 0 <= i < |stops| ensures StopAt(b, t, selected, i, stops[i]) {
          StillStopsThere(b, t, selected, n, i, stops[i]);
        }
      }
    }
  }

  /** A selected run is missing from a plan exactly where it was skipped as protected, never with explicit ids. */
  lemma SkippedIff(b: Build, t: Trace, selected: seq<WorkflowRun>, stops: seq<Stop>, run: WorkflowRun)
    requires PlanRuns(b, t, selected).Ok? && RunsTold(b, t, selected, stops) && run in selected
    ensures run !in RunsOf(PlanRuns(b, t, selected).value.value) <==>
            b.mode != ExplicitRunIds && forall i :: 0 <= i < |selected| && selected[i] == run ==> stops[i].LocalEntry?
  {
    hide PlanRuns, StopAt;
    KeptMembers(selected, stops, run);
    var k :| 0 <= k < |selected| && selected[k] == run;
    assert Passes(stops[k], b.mode);
  }

  /** The errors before the first run: each has its own cause, in this order. */
  lemma ReadingsMeaning(o: Oracle, t: Trace, snapshot: Snapshot, selected: seq<WorkflowRun>, mode: SelectionMode,
                        instance: string)
    ensures var r, account := Readings(o, t, snapshot, selected, mode, instance), o.account(t);
            var entries := o.snapshot(t + [AccountRead(account)]);
            && (snapshot.issueCount != 0 ==> r == Err(Rejected(IncompleteSnapshot(snapshot.issueCount))))
            && (r.Err? && r.error.Rejected? && r.error.problem.IncompleteSnapshot? <==> snapshot.issueCount != 0)
            && (r.Err? && r.error.ProviderFailed? <==> snapshot.issueCount == 0 && account.Err?)
            && (r.Err? && r.error.ProviderFailed? ==> r.error.error == account.error)
            && (r.Err? && r.error.AccountChanged? <==>
                  snapshot.issueCount == 0 && account.Ok? && account.value != snapshot.account)
            && (snapshot.issueCount == 0 && account == Ok(snapshot.account) && entries.Err? ==>
                  r == Err(StoreFailed(entries.error)))
            && (snapshot.issueCount == 0 && account == Ok(snapshot.account) && entries.Ok? ==>
                  r == PlanRuns(Build(o, snapshot, entries.value, mode, instance, snapshot.account),
                                t + [AccountRead(account)] + [SnapshotRead(entries)], selected))
  {
    hide PlanRuns, StopAt, Verdict;
    var account := o.account(t);
    var entries := o.snapshot(t + [AccountRead(account)]);
    if snapshot.issueCount == 0 && account == Ok(snapshot.account) && entries.Ok? {
      var b := Build(o, snapshot, entries.value, mode, instance, snapshot.account);
      var u := t + [AccountRead(account)] + [SnapshotRead(entries)];
      var stops := PlanRunsMeaning(b, u, selected);
      if PlanRuns(b, u, selected).Err? {
        var n := |stops| - 1;
        VerdictPasses(mode, selected[n], stops[n], Err(PlanRuns(b, u, selected).error));
      }
    }
  }
}

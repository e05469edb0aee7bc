/**
 * `RunPurgePlanningService::build`: reads each selected run and its artifacts under the run's own
 * lease, asking about protection before and after every reading.
 */
module RunPurgePlanning {
  import opened Prelude
  import opened Domain
  import opened RunProtections
  import opened RunPurgePlans
  import opened RunPurgeRemote
  import opened RunPurgeExecution

  datatype BuildError =
    | Rejected(problem: PlanError)
    | AccountChanged
    | ProviderFailed(error: ProviderError)
    | StoreFailed(failure: ProtectionError)
    | LocallyProtected(repository: string, runId: nat, reason: string)
    | ProtectionUnverifiable(repository: string, runId: nat, reason: string)
    | HeadroomTooLow(remaining: nat)
    | Disappeared(repository: string, runId: nat)
    | ChangedMeanwhile(repository: string, runId: nat)
    | DependenciesFailed(repository: string, runId: nat, message: string)

  /** Everything about one build that stays the same from run to run. */
  datatype Build = Build(o: Oracle, snapshot: Snapshot, entries: seq<Protection>, mode: SelectionMode, instance: string,
      account: Account) {
    function Key(run: WorkflowRun): ProtectionKey { KeyForRun(instance, account, run) }
  }

  /** `should_skip_protected`: naming a protected run explicitly is an error, selecting it is not. */
  function ShouldSkip(assessment: Assessment, mode: SelectionMode, run: WorkflowRun): Result<bool, BuildError> {
    match assessment
    case NoEntry => Ok(false)
    case Protected(entry) =>
      if mode != ExplicitRunIds then Ok(true) else Err(LocallyProtected(run.repository.fullName, run.id, entry.reason))
    case Review(code, explanation) =>
      Err(ProtectionUnverifiable(run.repository.fullName, run.id, code.Text() + ": " + explanation))
  }

  function Guarded(b: Build, t: Trace, run: WorkflowRun): Result<Ran<bool>, BuildError> {
    var assessed := b.o.assess(t, b.Key(run), run);
    var t1 := t + [ProtectionAssessed(b.Key(run), assessed)];
    match assessed
    case Err(e) => Err(StoreFailed(e))
    case Ok(assessment) =>
      match ShouldSkip(assessment, b.mode, run)
      case Err(e) => Err(e)
      case Ok(skip) => Ok(Ran(skip, t1))
  }

  function PlanArtifacts(b: Build, t: Trace, run: WorkflowRun): Result<Ran<Option<Target>>, BuildError> {
    var listed := b.o.artifacts(t, run.repository, run.id);
    var t1 := t + [ArtifactsListed(run.repository, run.id, listed)];
    match listed
    case Err(e) => Err(DependenciesFailed(run.repository.fullName, run.id, ErrorText(e)))
    case Ok(artifacts) =>
      match Guarded(b, t1, run)
      case Err(e) => Err(e)
      case Ok(after) => Ok(Ran(if after.value then None else Some(Target(run, artifacts, true)), after.trace))
  }

  function PlanLookup(b: Build, t: Trace, run: WorkflowRun): Result<Ran<Option<Target>>, BuildError> {
    var found := b.o.run(t, run.repository, run.id);
    var t1 := t + [RunLookedUp(run.repository, run.id, found)];
    match found
    case Err(e) => Err(DependenciesFailed(run.repository.fullName, run.id, ErrorText(e)))
    case Ok(None) => Err(Disappeared(run.repository.fullName, run.id))
    case Ok(Some(current)) =>
      if current != run then Err(ChangedMeanwhile(run.repository.fullName, run.id))
      else
        match Guarded(b, t1, run)
        case Err(e) => Err(e)
        case Ok(again) => if again.value then Ok(Ran(None, again.trace)) else PlanArtifacts(b, again.trace, run)
  }

  function PlanUnderLease(b: Build, t: Trace, run: WorkflowRun): Result<Ran<Option<Target>>, BuildError> {
    match Guarded(b, t, run)
    case Err(e) => Err(e)
    case Ok(first) => if first.value then Ok(Ran(None, first.trace)) else PlanLookup(b, first.trace, run)
  }

  /** One selected run: skipped, planned, or the end of the build. */
  function PlanRun(b: Build, t: Trace, run: WorkflowRun): Result<Ran<Option<Target>>, BuildError> {
    match ShouldSkip(Assess(b.entries, b.instance, b.account, run), b.mode, run)
    case Err(e) => Err(e)
    case Ok(skip) =>
      if skip then Ok(Ran(None, t))
      else
        var remaining := b.o.remaining(t);
        var t1 := t + [HeadroomRead(remaining)];
        if LowHeadroom(remaining) then Err(HeadroomTooLow(remaining.value))
        else if !run.IsCompleted() then Err(Rejected(RunNotCompleted(run.repository.fullName, run.id, run.status)))
        else if run !in b.snapshot.runs then Err(Rejected(RunNotInSnapshot(run.repository.fullName, run.id)))
        else
          var failure := b.o.acquire(t1, b.Key(run));
          var t2 := t1 + [LeaseAcquired(b.Key(run), failure)];
          match failure
          case Some(e) => Err(StoreFailed(e))
          case None =>
            match PlanUnderLease(b, t2, run)
            case Err(e) => Err(e)
            case Ok(held) => Ok(Ran(held.value, held.trace + [LeaseReleased(b.Key(run))]))
  }

  function PlanRuns(b: Build, t: Trace, selected: seq<WorkflowRun>): Result<Ran<seq<Target>>, BuildError> {
    if selected == [] then Ok(Ran([], t))
    else
      var n := |selected| - 1;
      match PlanRuns(b, t, selected[..n])
      case Err(e) => Err(e)
      case Ok(before) =>
        match PlanRun(b, before.trace, selected[n])
        case Err(e) => Err(e)
        case Ok(last) => Ok(Ran(before.value + (if last.value.Some? then [last.value.value] else []), last.trace))
  }

  // --- the service -----------------------------------------------------------------------------------

  method GuardedRun(remote: Remote, ghost b: Build, mode: SelectionMode, account: Account, run: WorkflowRun)
    returns (r: Result<bool, BuildError>)
    requires b.o == remote.oracle && b.mode == mode && b.instance == remote.instance && b.account == account
    modifies remote
    ensures r.Ok? ==> Guarded(b, old(remote.trace), run) == Ok(Ran(r.value, remote.trace))
    ensures r.Err? ==> Guarded(b, old(remote.trace), run) == Err(r.error)
  {
    hide ShouldSkip;
    var assessed := remote.AssessUnderLease(KeyForRun(remote.instance, account, run), run);
    if assessed.Err? {
      return Err(StoreFailed(assessed.error));
    }
    r := ShouldSkip(assessed.value, mode, run);
  }

  method ReadTarget(remote: Remote, ghost b: Build, mode: SelectionMode, account: Account, run: WorkflowRun)
    returns (r: Result<Option<Target>, BuildError>)
    requires b.o == remote.oracle && b.mode == mode && b.instance == remote.instance && b.account == account
    modifies remote
    ensures r.Ok? ==> PlanUnderLease(b, old(remote.trace), run) == Ok(Ran(r.value, remote.trace))
    ensures r.Err? ==> PlanUnderLease(b, old(remote.trace), run) == Err(r.error)
  {
    hide Guarded, ErrorText;
    var skip := GuardedRun(remote, b, mode, account, run);
    if skip.Err? {
      return Err(skip.error);
    }
    if skip.value {
      return Ok(None);
    }
    var found := remote.LookUpRun(run.repository, run.id);
    if found.Err? {
      return Err(DependenciesFailed(run.repository.fullName, run.id, ErrorText(found.error)));
    }
    if found.value.None? {
      return Err(Disappeared(run.repository.fullName, run.id));
    }
    if found.value.value != run {
      return Err(ChangedMeanwhile(run.repository.fullName, run.id));
    }
    skip := GuardedRun(remote, b, mode, account, run);
    if skip.Err? {
      return Err(skip.error);
    }
    if skip.value {
      return Ok(None);
    }
    var listed := remote.ListArtifacts(run.repository, run.id);
    if listed.Err? {
      return Err(DependenciesFailed(run.repository.fullName, run.id, ErrorText(listed.error)));
    }
    skip := GuardedRun(remote, b, mode, account, run);
    if skip.Err? {
      return Err(skip.error);
    }
    r := Ok(if skip.value then None else Some(Target(run, listed.value, true)));
  }

  method ReadRun(remote: Remote, ghost b: Build, snapshot: Snapshot, entries: seq<Protection>, mode: SelectionMode,
                 account: Account, run: WorkflowRun)
    returns (r: Result<Option<Target>, BuildError>)
    requires b == Build(remote.oracle, snapshot, entries, mode, remote.instance, account)
    modifies remote
    ensures r.Ok? ==> PlanRun(b, old(remote.trace), run) == Ok(Ran(r.value, remote.trace))
    ensures r.Err? ==> PlanRun(b, old(remote.trace), run) == Err(r.error)
  {
    hide Assess, ShouldSkip, PlanUnderLease, WorkflowRun.IsCompleted;
    var skip := ShouldSkip(Assess(entries, remote.instance, account, run), mode, run);
    if skip.Err? {
      return Err(skip.error);
    }
    if skip.value {
      return Ok(None);
    }
    var remaining := remote.ReadHeadroom();
    if remaining.Some? && remaining.value <= HEADROOM {
      return Err(HeadroomTooLow(remaining.value));
    }
    if !run.IsCompleted() {
      return Err(Rejected(RunNotCompleted(run.repository.fullName, run.id, run.status)));
    }
    if run !in snapshot.runs {
      return Err(Rejected(RunNotInSnapshot(run.repository.fullName, run.id)));
    }
    var key := KeyForRun(remote.instance, account, run);
    var failure := remote.Acquire(key);
    if failure.Some? {
      return Err(StoreFailed(failure.value));
    }
    r := ReadTarget(remote, b, mode, account, run);
    if r.Ok? {
      remote.Release(key);
    }
  }

  lemma {:induction false} FailureEndsBuild(b: Build, t: Trace, selected: seq<WorkflowRun>, i: nat)
    requires i <= |selected| && PlanRuns(b, t, selected[..i]).Err?
    ensures PlanRuns(b, t, selected) == PlanRuns(b, t, selected[..i])
    decreases |selected|
  {
    hide PlanRun;
    if i == |selected| {
      assert selected[..i] == selected;
    } else {
      assert selected[..|selected| - 1][..i] == selected[..i];
      FailureEndsBuild(b, t, selected[..|selected| - 1], i);
    }
  }

  method ReadRuns(remote: Remote, snapshot: Snapshot, entries: seq<Protection>, mode: SelectionMode, account: Account,
                  selected: seq<WorkflowRun>)
    returns (r: Result<seq<Target>, BuildError>)
    modifies remote
    ensures var b := Build(remote.oracle, snapshot, entries, mode, remote.instance, account);
            && (r.Ok? ==> PlanRuns(b, old(remote.trace), selected) == Ok(Ran(r.value, remote.trace)))
            && (r.Err? ==> PlanRuns(b, old(remote.trace), selected) == Err(r.error))
  {
    hide PlanRun;
    var targets: seq<Target> := [];
    ghost var start := remote.trace;
    ghost var b := Build(remote.oracle, snapshot, entries, mode, remote.instance, account);
    for i := 0 to |selected|
      invariant PlanRuns(b, start, selected[..i]) == Ok(Ran(targets, remote.trace))
    {
      assert selected[..i + 1][..i] == selected[..i];
      var planned := ReadRun(remote, b, snapshot, entries, mode, account, selected[i]);
      if planned.Err? {
        FailureEndsBuild(b, start, selected, i + 1);
        return Err(planned.error);
      }
      assert targets + [] == targets;
      if planned.value.Some? {
        targets := targets + [planned.value.value];
      }
    }
    assert selected[..|selected|] == selected;
    r := Ok(targets);
  }

  /** Everything `build` asks for: the account, the protections, and one reading per selected run. */
  function Readings(o: Oracle, t: Trace, snapshot: Snapshot, selected: seq<WorkflowRun>, mode: SelectionMode,
                    instance: string)
    : Result<Ran<seq<Target>>, BuildError>
  {
    if snapshot.issueCount != 0 then Err(Rejected(IncompleteSnapshot(snapshot.issueCount)))
    else
      var account := o.account(t);
      var t1 := t + [AccountRead(account)];
      if account.Err? then Err(ProviderFailed(account.error))
      else if account.value != snapshot.account then Err(AccountChanged)
      else
        var entries := o.snapshot(t1);
        if entries.Err? then Err(StoreFailed(entries.error))
        else PlanRuns(Build(o, snapshot, entries.value, mode, instance, snapshot.account), t1 + [SnapshotRead(entries)],
            selected)
  }

  /** What was read for planning was in the scan. */
  lemma {:induction false} ReadFromScan(b: Build, t: Trace, selected: seq<WorkflowRun>)
    requires PlanRuns(b, t, selected).Ok?
    ensures forall target :: target in PlanRuns(b, t, selected).value.value ==> target.run in b.snapshot.runs
    decreases |selected|
  {
    hide Guarded, Assess, ShouldSkip, PlanLookup, ErrorText;
    if selected != [] {
      var n := |selected| - 1;
      ReadFromScan(b, t, selected[..n]);
      var before := PlanRuns(b, t, selected[..n]).value;
      if PlanRun(b, before.trace, selected[n]).value.value.Some? {
        RunFromScan(b, before.trace, selected[n]);
      }
    }
  }

  lemma RunFromScan(b: Build, t: Trace, run: WorkflowRun)
    requires PlanRun(b, t, run).Ok? && PlanRun(b, t, run).value.value.Some?
    ensures PlanRun(b, t, run).value.value.value.run == run && run in b.snapshot.runs
  {
    hide Guarded, Assess, ShouldSkip, ErrorText;
  }

  /**
   * `build`: the plan of what was read, exactly when everything could be read and fits together. An
   * error is the first reason of the readings, or a real fault of what was read.
   */
  method BuildPlan(remote: Remote, snapshot: Snapshot, selected: seq<WorkflowRun>, selection: Selection, now: Moment)
    returns (r: Result<Plan, BuildError>)
    modifies remote
    ensures var read := Readings(remote.oracle, old(remote.trace), snapshot, selected, selection.mode, remote.instance);
            && (r.Ok? <==> read.Ok? && TargetsFit(read.value.value))
            && (r.Ok? ==> r.value == PlanOf(snapshot, now, selection, read.value.value) && Intact(r.value))
            && (read.Ok? ==> remote.trace == read.value.trace)
            && (read.Err? ==> r == Err(read.error))
            && (read.Ok? && r.Err? ==> r.error.Rejected? && Explains(r.error.problem, PrepareTargets(read.value.value)))
    ensures snapshot.issueCount != 0 ==>
            r == Err(Rejected(IncompleteSnapshot(snapshot.issueCount))) && remote.trace == old(remote.trace)
  {
    hide PlanRuns, Intact, PlanOf, TargetsFit, Explains;
    if snapshot.issueCount != 0 {
      return Err(Rejected(IncompleteSnapshot(snapshot.issueCount)));
    }
    var account := remote.ReadAccount();
    if account.Err? {
      return Err(ProviderFailed(account.error));
    }
    if account.value != snapshot.account {
      return Err(AccountChanged);
    }
    var entries := remote.ReadSnapshot();
    if entries.Err? {
      return Err(StoreFailed(entries.error));
    }
    ghost var b := Build(remote.oracle, snapshot, entries.value, selection.mode, remote.instance, account.value);
    ghost var t := remote.trace;
    var targets := ReadRuns(remote, snapshot, entries.value, selection.mode, account.value, selected);
    if targets.Err? {
      return Err(targets.error);
    }
    ReadFromScan(b, t, selected);
    var plan := NewPlan(snapshot, now, selection, targets.value);
    if plan.Err? {
      return Err(Rejected(plan.error));
    }
    r := Ok(plan.value);
  }

  // --- what a planned target was seen as ---------------------------------------------------------------

  /** The whole reading of one planned run, under its lease, unprotected before and after each answer. */
  ghost predicate ReadUnderLease(d: Trace, target: Target, key: ProtectionKey) {
    var free := ProtectionAssessed(key, Ok(NoEntry));
    && |d| == 8 && d[0].HeadroomRead? && !LowHeadroom(d[0].remaining)
    && d[1..] == [LeaseAcquired(key, None), free,
                  RunLookedUp(target.run.repository, target.run.id, Ok(Some(target.run))), free,
                  ArtifactsListed(target.run.repository, target.run.id, Ok(target.artifacts)), free,
                  LeaseReleased(key)]
  }

  lemma NotSkipped(assessment: Assessment, mode: SelectionMode, run: WorkflowRun)
    ensures ShouldSkip(assessment, mode, run) == Ok(false) <==> assessment == NoEntry
    ensures mode == ExplicitRunIds ==> ShouldSkip(assessment, mode, run) != Ok(true)
  {
  }

  lemma GuardedFree(b: Build, t: Trace, run: WorkflowRun)
    requires Guarded(b, t, run).Ok?
    ensures Guarded(b, t, run).value.trace == t + [ProtectionAssessed(b.Key(run), b.o.assess(t, b.Key(run), run))]
    ensures !Guarded(b, t, run).value.value ==> b.o.assess(t, b.Key(run), run) == Ok(NoEntry)
    ensures b.mode == ExplicitRunIds ==> !Guarded(b, t, run).value.value
  {
  }

  /** The three readings under the lease, one after the other. */
  lemma LeaseReadings(b: Build, t: Trace, run: WorkflowRun)
    requires PlanUnderLease(b, t, run).Ok?
    ensures var r := PlanUnderLease(b, t, run).value;
            && t <= r.trace && (forall k :: |t| <= k < |r.trace| ==> !r.trace[k].IsDelete())
            && (b.mode == ExplicitRunIds ==> r.value.Some?)
            && (r.value.Some? ==> var target := r.value.value; var free := ProtectionAssessed(b.Key(run), Ok(NoEntry));
                  target.run == run && target.deleteLogs
                  && r.trace == t + [free, RunLookedUp(run.repository, run.id, Ok(Some(run))), free,
                                     ArtifactsListed(run.repository, run.id, Ok(target.artifacts)), free])
  {
    hide Guarded, ErrorText;
    GuardedFree(b, t, run);
    var first := Guarded(b, t, run).value;
    if !first.value {
      var t1 := first.trace + [RunLookedUp(run.repository, run.id, Ok(Some(run)))];
      GuardedFree(b, t1, run);
      var again := Guarded(b, t1, run).value;
      if !again.value {
        GuardedFree(b, again.trace + [ArtifactsListed(run.repository, run.id,
            b.o.artifacts(again.trace, run.repository, run.id))], run);
      }
    }
  }

  /** Every planned target was read whole and unprotected under its lease; planning deletes nothing. */
  lemma PlannedRunWasRead(b: Build, t: Trace, run: WorkflowRun)
    requires PlanRun(b, t, run).Ok?
    ensures var r := PlanRun(b, t, run).value;
            && t <= r.trace && (forall k :: |t| <= k < |r.trace| ==> !r.trace[k].IsDelete())
            && (b.mode == ExplicitRunIds ==> r.value.Some?)
            && (r.value.Some? ==>
                  && r.value.value.run == run && run.IsCompleted() && run in b.snapshot.runs && r.value.value.deleteLogs
                  && ReadUnderLease(r.trace[|t|..], r.value.value, b.Key(run)))
  {
    hide Assess, ShouldSkip, PlanUnderLease, WorkflowRun.IsCompleted;
    NotSkipped(Assess(b.entries, b.instance, b.account, run), b.mode, run);
    var r := PlanRun(b, t, run).value;
    if ShouldSkip(Assess(b.entries, b.instance, b.account, run), b.mode, run) == Ok(false) {
      var t2 := t + [HeadroomRead(b.o.remaining(t))] + [LeaseAcquired(b.Key(run), None)];
      LeaseReadings(b, t2, run);
      var held := PlanUnderLease(b, t2, run).value;
      assert r.trace == held.trace + [LeaseReleased(b.Key(run))];
      if r.value.Some? {
        var free := ProtectionAssessed(b.Key(run), Ok(NoEntry));
        assert r.trace[|t|..] == [HeadroomRead(b.o.remaining(t)), LeaseAcquired(b.Key(run), None), free,
                                  RunLookedUp(run.repository, run.id, Ok(Some(run))), free,
                                  ArtifactsListed(run.repository, run.id, Ok(r.value.value.artifacts)), free,
                                  LeaseReleased(b.Key(run))];
      }
    }
  }

  function RunsOf(targets: seq<Target>): (r: seq<WorkflowRun>)
    ensures |r| == |targets|
  {
    seq(|targets|, i requires 0 <= i < |targets| => targets[i].run)
  }

  ghost predicate ReadSomewhere(later: Trace, start: nat, target: Target, key: ProtectionKey) {
    exists k :: start <= k && ReadAt(later, k, target, key)
  }

  ghost predicate ReadAt(later: Trace, k: nat, target: Target, key: ProtectionKey) {
    k + 8 <= |later| && ReadUnderLease(later[k..k + 8], target, key)
  }

  /** What the readings since `t` say about the planned targets. */
  ghost predicate WereRead(b: Build, t: Trace, selected: seq<WorkflowRun>, r: Ran<seq<Target>>) {
    && t <= r.trace && (forall k :: |t| <= k < |r.trace| ==> !r.trace[k].IsDelete())
    && (forall target :: target in r.value ==>
          target.run in selected && target.run in b.snapshot.runs
              && ReadSomewhere(r.trace, |t|, target, b.Key(target.run)))
    && (b.mode == ExplicitRunIds ==> RunsOf(r.value) == selected)
  }

  /** What one turn says about its run. */
  ghost predicate WasRead(b: Build, t: Trace, run: WorkflowRun, r: Ran<Option<Target>>) {
    && t <= r.trace && (forall k :: |t| <= k < |r.trace| ==> !r.trace[k].IsDelete())
    && (b.mode == ExplicitRunIds ==> r.value.Some?)
    && (r.value.Some? ==>
       r.value.value.run == run && run in b.snapshot.runs
       && ReadUnderLease(r.trace[|t|..], r.value.value, b.Key(run)))
  }

  lemma OneMoreRead(b: Build, t: Trace, selected: seq<WorkflowRun>, before: Ran<seq<Target>>, run: WorkflowRun,
                    last: Ran<Option<Target>>)
    requires WereRead(b, t, selected, before) && WasRead(b, before.trace, run, last)
    ensures WereRead(b, t, selected + [run],
            Ran(before.value + (if last.value.Some? then [last.value.value] else []), last.trace))
  {
    hide ReadUnderLease;
    forall target | target in before.value ensures ReadSomewhere(last.trace, |t|, target, b.Key(target.run)) {
      StillRead(before.trace, last.trace, |t|, target, b.Key(target.run));
    }
    if last.value.Some? {
      ReadAtTheEnd(last.trace, |before.trace|, last.value.value, b.Key(run));
    }
  }

  /**
   * Whatever the provider answers: every planned target was read under its lease, and a selection by
   * explicit ids is planned whole or not at all.
   */
  lemma {:induction false} PlannedTargetsWereRead(b: Build, t: Trace, selected: seq<WorkflowRun>)
    requires PlanRuns(b, t, selected).Ok?
    ensures WereRead(b, t, selected, PlanRuns(b, t, selected).value)
    decreases |selected|
  {
    hide PlanRun, ReadUnderLease, WorkflowRun.IsCompleted;
    if selected != [] {
      hide WereRead, WasRead;
      var n := |selected| - 1;
      PlannedTargetsWereRead(b, t, selected[..n]);
      var before := PlanRuns(b, t, selected[..n]).value;
      RunWasRead(b, before.trace, selected[n]);
      OneMoreRead(b, t, selected[..n], before, selected[n], PlanRun(b, before.trace, selected[n]).value);
      assert selected == selected[..n] + [selected[n]];
    }
  }

  lemma RunWasRead(b: Build, t: Trace, run: WorkflowRun)
    requires PlanRun(b, t, run).Ok?
    ensures WasRead(b, t, run, PlanRun(b, t, run).value)
  {
    hide PlanRun, ReadUnderLease;
    PlannedRunWasRead(b, t, run);
  }

  lemma StillRead(before: Trace, later: Trace, start: nat, target: Target, key: ProtectionKey)
    requires before <= later && ReadSomewhere(before, start, target, key)
    ensures ReadSomewhere(later, start, target, key)
  {
    hide ReadUnderLease;
    var k :| start <= k && ReadAt(before, k, target, key);
    assert later[k..k + 8] == before[k..k + 8];
    assert ReadAt(later, k, target, key);
  }

  lemma ReadAtTheEnd(later: Trace, k: nat, target: Target, key: ProtectionKey)
    requires k <= |later| && ReadUnderLease(later[k..], target, key)
    ensures ReadAt(later, k, target, key)
  {
  }
}

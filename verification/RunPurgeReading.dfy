/**
 * The whole report of one target, read off the target's own history: every state, every error, every
 * artifact. The reading is stated over the answers alone, for every provider and protection store.
 */
module RunPurgeReading {
  import opened Prelude
  import opened Domain
  import opened RunProtections
  import opened RunPurgePlans
  import opened RunPurgeRemote
  import opened RunPurgeExecution
  import opened RunPurgeSafety
  import opened RunPurgeDrift
  import opened RunPurgeReports
  import opened RunPurgeBatch

  // --- targets that never reach cleanup ---------------------------------------------------------------

  /** The four histories that end before the first destructive request. */
  ghost predicate StoppedTrace(d: Trace, target: Target, key: ProtectionKey) {
    || (|d| == 1 && d[0].LeaseAcquired? && d[0].key == key && d[0].failure.Some?)
    || (|d| == 3 && d[0] == LeaseAcquired(key, None) && d[1].ProtectionAssessed? && d[1].key == key
        && d[1].assessment != Ok(NoEntry) && d[2] == LeaseReleased(key))
    || (|d| == 4 && d[0] == LeaseAcquired(key, None) && d[1] == ProtectionAssessed(key, Ok(NoEntry))
        && d[2].RunLookedUp? && d[2].repository == target.run.repository && d[2].id == target.run.id
        && d[2].run != Ok(Some(target.run)) && d[3] == LeaseReleased(key))
    || (|d| == 5 && d[0] == LeaseAcquired(key, None) && d[1] == ProtectionAssessed(key, Ok(NoEntry))
        && d[2] == RunLookedUp(target.run.repository, target.run.id, Ok(Some(target.run)))
        && d[3].ArtifactsListed? && d[3].repository == target.run.repository && d[3].id == target.run.id
        && (d[3].artifacts.Err? || !NoDrift(target.artifacts, d[3].artifacts.value))
        && d[4] == LeaseReleased(key))
  }

  /** The lookup before anything else said that the run is gone. */
  predicate FoundAbsent(d: Trace) { |d| == 4 && d[2].RunLookedUp? && LookupGone(d[2].run) }

  /** What the report quotes from the answer that stopped the target. */
  ghost predicate StopSays(d: Trace, target: Target, key: ProtectionKey, error: Option<Message>)
    requires StoppedTrace(d, target, key)
  {
    && (|d| == 1 ==> error == Some(LeaseFailed(d[0].failure.value)))
    && (|d| == 3 ==>
          match d[1].assessment
          case Err(failure) => error == Some(LeaseFailed(failure))
          case Ok(Protected(entry)) => error == Some(ProtectedFor(entry.reason))
          case Ok(Review(code, explanation)) => error == Some(NeedsReview(code, explanation))
          case Ok(NoEntry) => false)
    && (|d| == 4 ==>
          error == if d[2].run.Err? && !d[2].run.error.NotFound? then Some(ProviderSaid(d[2].run.error)) else None)
    && (|d| == 5 ==>
          match d[3].artifacts
          case Err(e) => error == Some(ProviderSaid(e))
          case Ok(listed) =>
            error.Some? && error.value.DriftFound? && DriftSays(target.artifacts, listed, error.value.drift))
  }

  /** The logs and every artifact are reported alike, and nothing else is said about them. */
  ghost predicate DependenciesAre(item: Item, target: Target, state: State, error: Option<Message>) {
    && item.logs == StepResult(state, error)
    && |item.artifacts| == |target.artifacts|
    && (forall i :: 0 <= i < |target.artifacts| ==>
          item.artifacts[i] == ArtifactResult(target.artifacts[i], state, None, error))
    && item.residual == []
  }

  ghost predicate StoppedReport(d: Trace, target: Target, key: ProtectionKey, item: Item) {
    && StoppedTrace(d, target, key) && item.plannedRun == target.run
    && StoppedEarly(d, target, key, item.run.state) && StopSays(d, target, key, item.run.error)
    && if FoundAbsent(d) then DependenciesAre(item, target, AlreadyAbsent, None)
       else DependenciesAre(item, target, Blocked, Some(NotStarted))
  }

  // --- targets that reach cleanup ---------------------------------------------------------------------

  /** Such a history, cut into its pieces: one step for every planned artifact, in order. */
  datatype Pieces = Pieces(opening: Trace, logs: Trace, steps: seq<Trace>, rest: Trace)

  function Flat(steps: seq<Trace>): Trace {
    if steps == [] then [] else Flat(steps[..|steps| - 1]) + steps[|steps| - 1]
  }

  function Joined(p: Pieces, key: ProtectionKey): Trace {
    p.opening + p.logs + Flat(p.steps) + p.rest + [LeaseReleased(key)]
  }

  /** A DELETE's answer and what is reported of it. */
  ghost predicate DeleteTold(outcome: ProviderResult<DeleteOutcome>, state: State, error: Option<Message>) {
    && (state == Deleted <==> outcome == Ok(DeletedNow))
    && (state == AlreadyAbsent <==> DeleteGone(outcome) && outcome != Ok(DeletedNow))
    && (state == DeleteFailed <==> !DeleteGone(outcome))
    && error == if DeleteGone(outcome) then None else Some(ProviderSaid(outcome.error))
  }

  ghost predicate LogsTold(logs: Trace, target: Target, result: StepResult) {
    if target.deleteLogs then
      && |logs| == 1 && logs[0].LogsDelete? && logs[0].repository == target.run.repository
      && logs[0].id == target.run.id && DeleteTold(logs[0].outcome, result.state, result.error)
    else logs == [] && result == StepResult(Blocked, Some(LogsNotAuthorized))
  }

  /** One artifact's result before the final listing: state, error and what was seen instead. */
  ghost predicate ArtifactRead(step: Trace, a: Artifact, result: ArtifactResult)
    requires ArtifactAnswers(step, a)
  {
    && ArtifactTold(step, a, result)
    && (result.state != Changed ==> result.current == None)
    && result.error == if result.state == RevalidationFailed then Some(ProviderSaid(step[0].artifact.error))
                       else if result.state == DeleteFailed then Some(ProviderSaid(step[1].outcome.error))
                       else None
  }

  predicate ListedAgain(residual: seq<Artifact>, a: Artifact) { exists x :: x in residual && x.id == a.id }

  /** The result that is reported: the final listing overrules what the DELETE said. */
  ghost predicate ArtifactFinal(step: Trace, a: Artifact, residual: seq<Artifact>, result: ArtifactResult)
    requires ArtifactAnswers(step, a)
  {
    if ListedAgain(residual, a) then
      && result.planned == a && result.state == VerificationFailed && result.error == Some(ArtifactStillExists)
      && result.current.Some? && result.current.value in residual && result.current.value.id == a.id
    else ArtifactRead(step, a, result)
  }

  predicate StepGone(step: Trace) {
    && |step| >= 1 && step[0].ArtifactLookedUp?
    && (LookupGone(step[0].artifact) || (|step| == 2 && step[1].ArtifactDelete? && DeleteGone(step[1].outcome)))
  }

  predicate LogsGone(logs: Trace) { |logs| == 1 && logs[0].LogsDelete? && DeleteGone(logs[0].outcome) }

  /** The logs and every artifact were answered gone. */
  predicate DependenciesGone(p: Pieces) {
    LogsGone(p.logs) && forall i :: 0 <= i < |p.steps| ==> StepGone(p.steps[i])
  }

  /** What the report quotes from the run's own step. */
  ghost predicate RunSays(tail: Trace, target: Target, run: StepResult)
    requires RunPhase(tail, target, run)
  {
    if |tail| == 3 then
      run.error == if LookupGone(tail[2].run) then None
                   else if tail[2].run.Ok? then Some(RunStillExists)
                   else Some(AfterDeleteUnverified(tail[2].run.error))
    else if |tail| == 2 then
      run.error == if DeleteGone(tail[1].outcome) then None else Some(ProviderSaid(tail[1].outcome.error))
    else
      run.error == if LookupGone(tail[0].run) then None
                   else if tail[0].run.Ok? then Some(IdentityChanged)
                   else Some(ProviderSaid(tail[0].run.error))
  }

  ghost predicate RestTold(p: Pieces, target: Target, item: Item) {
    if !DependenciesGone(p) then
      p.rest == [] && item.residual == [] && item.run == StepResult(Blocked, Some(CleanupIncomplete))
    else
      && |p.rest| >= 1 && p.rest[0].ArtifactsListed? && p.rest[0].repository == target.run.repository
      && p.rest[0].id == target.run.id
      && match p.rest[0].artifacts
         case Err(e) =>
           && |p.rest| == 1 && item.residual == []
           && item.run == StepResult(VerificationFailed, Some(DependenciesUnverified(e)))
         case Ok(listed) =>
           && item.residual == listed
           && if listed != [] then |p.rest| == 1 && item.run == StepResult(Blocked, Some(DependenciesRemain(listed)))
              else RunPhase(p.rest[1..], target, item.run) && RunSays(p.rest[1..], target, item.run)
  }

  ghost predicate CleanupReport(p: Pieces, target: Target, key: ProtectionKey, item: Item) {
    && item.plannedRun == target.run
    && |p.opening| == 4 && Cleared(p.opening, target, key)
    && LogsTold(p.logs, target, item.logs)
    && |p.steps| == |target.artifacts| == |item.artifacts|
    && (forall i :: 0 <= i < |p.steps| ==>
          && ArtifactAnswers(p.steps[i], target.artifacts[i])
          && ArtifactFinal(p.steps[i], target.artifacts[i], item.residual, item.artifacts[i]))
    && RestTold(p, target, item)
  }

  /** What the report must be, given the history. */
  ghost predicate Told(d: Trace, target: Target, key: ProtectionKey, item: Item) {
    || StoppedReport(d, target, key, item)
    || exists p: Pieces :: d == Joined(p, key) && CleanupReport(p, target, key, item)
  }

  // --- every report is such a reading -----------------------------------------------------------------

  lemma DeleteStepTold(outcome: ProviderResult<DeleteOutcome>)
    ensures DeleteTold(outcome, DeleteStep(outcome).state, DeleteStep(outcome).error)
  {
  }

  lemma LogsAreTold(o: Oracle, t: Trace, target: Target) returns (logs: Trace)
    ensures PurgeLogs(o, t, target).trace == t + logs && LogsTold(logs, target, PurgeLogs(o, t, target).value)
    ensures LogsGone(logs) <==> IsGone(PurgeLogs(o, t, target).value.state)
  {
    hide DeleteStep;
    var outcome := o.deleteLogs(t, target.run.repository, target.run.id);
    DeleteStepTold(outcome);
    logs := if target.deleteLogs then [LogsDelete(target.run.repository, target.run.id, outcome)] else [];
  }

  lemma ArtifactIsRead(o: Oracle, t: Trace, a: Artifact) returns (step: Trace)
    ensures PurgeArtifact(o, t, a).trace == t + step && ArtifactAnswers(step, a)
    ensures ArtifactRead(step, a, PurgeArtifact(o, t, a).value)
    ensures StepGone(step) <==> IsGone(PurgeArtifact(o, t, a).value.state)
  {
    step := ArtifactReportIsExact(o, t, a);
    var found := o.artifact(t, a.repository, a.id);
    var lookup := ArtifactLookedUp(a.repository, a.id, found);
    var later := PurgeArtifact(o, t, a).trace;
    assert later[|t|] == lookup;
    assert (t + step)[|t|] == step[0];
    if found == Ok(Some(a)) {
      var outcome := o.deleteArtifact(t + [lookup], a.repository, a.id);
      assert later[|t| + 1] == ArtifactDelete(a.repository, a.id, outcome);
      assert (t + step)[|t| + 1] == step[1];
    }
  }

  ghost predicate StepsRead(steps: seq<Trace>, artifacts: seq<Artifact>, results: seq<ArtifactResult>) {
    && |steps| == |artifacts| == |results|
    && forall i :: 0 <= i < |steps| ==>
         && ArtifactAnswers(steps[i], artifacts[i]) && ArtifactRead(steps[i], artifacts[i], results[i])
         && (StepGone(steps[i]) <==> IsGone(results[i].state))
  }

  lemma {:induction false} ArtifactsAreRead(o: Oracle, t: Trace, artifacts: seq<Artifact>) returns (steps: seq<Trace>)
    ensures PurgeArtifacts(o, t, artifacts).trace == t + Flat(steps)
    ensures StepsRead(steps, artifacts, PurgeArtifacts(o, t, artifacts).value)
    decreases |artifacts|
  {
    hide PurgeArtifact, ArtifactAnswers, ArtifactRead, StepGone;
    if artifacts == [] {
      steps := [];
    } else {
      var n := |artifacts| - 1;
      var init := ArtifactsAreRead(o, t, artifacts[..n]);
      var before := PurgeArtifacts(o, t, artifacts[..n]);
      var step := ArtifactIsRead(o, before.trace, artifacts[n]);
      steps := init + [step];
      assert steps[..n] == init;
      assert t + Flat(init) + step == t + Flat(steps);
    }
  }

  lemma RunIsRead(o: Oracle, t: Trace, target: Target) returns (tail: Trace)
    ensures PurgeRun(o, t, target).trace == t + tail
    ensures RunPhase(tail, target, PurgeRun(o, t, target).value) && RunSays(tail, target, PurgeRun(o, t, target).value)
  {
    tail := RunEvents(o, t, target);
    hide WorkflowRun.HasSamePurgeIdentity;
    var repository, id := target.run.repository, target.run.id;
    var later := PurgeRun(o, t, target).trace;
    var found := o.run(t, repository, id);
    var lookup := RunLookedUp(repository, id, found);
    assert later[|t|] == lookup && (t + tail)[|t|] == tail[0];
    if found.Ok? && found.value.Some? && target.run.HasSamePurgeIdentity(found.value.value) {
      var outcome := o.deleteRun(t + [lookup], repository, id);
      var delete := RunDelete(repository, id, outcome);
      assert later[|t| + 1] == delete && (t + tail)[|t| + 1] == tail[1];
      if outcome == Ok(DeletedNow) {
        var after := o.run(t + [lookup] + [delete], repository, id);
        assert later[|t| + 2] == RunLookedUp(repository, id, after) && (t + tail)[|t| + 2] == tail[2];
      }
    }
  }

  lemma MarkedIsFinal(step: Trace, a: Artifact, residual: seq<Artifact>, result: ArtifactResult)
    requires ArtifactAnswers(step, a) && ArtifactRead(step, a, result)
    ensures ArtifactFinal(step, a, residual, MarkResidual(result, residual))
  {
    FindArtifactMeaning(residual, result.planned.id);
    FoundHasId(residual, result.planned.id);
  }

  lemma {:induction false} FoundHasId(artifacts: seq<Artifact>, id: nat)
    ensures FindArtifact(artifacts, id).Some? ==> FindArtifact(artifacts, id).value.id == id
  {
    if artifacts != [] {
      FoundHasId(artifacts[1..], id);
    }
  }

  /** The final listing and what comes after it. */
  lemma FinishIsRead(o: Oracle, t: Trace, target: Target, logs: StepResult, results: seq<ArtifactResult>, p: Pieces)
    returns (rest: Trace)
    requires StepsRead(p.steps, target.artifacts, results) && (LogsGone(p.logs) <==> IsGone(logs.state))
    ensures var f := Finish(o, t, target, logs, results);
            && f.trace == t + rest && f.value.plannedRun == target.run && f.value.logs == logs
            && RestTold(p.(rest := rest), target, f.value)
            && |f.value.artifacts| == |results|
            && forall i :: 0 <= i < |results| ==>
                 ArtifactFinal(p.steps[i], target.artifacts[i], f.value.residual, f.value.artifacts[i])
  {
    hide PurgeRun, ArtifactRead, ArtifactAnswers, MarkResidual, LogsGone, StepGone, RunPhase, RunSays;
    assert AllGone(logs, results) <==> DependenciesGone(p);
    var listed := o.artifacts(t, target.run.repository, target.run.id);
    var list := ArtifactsListed(target.run.repository, target.run.id, listed);
    if !AllGone(logs, results) {
      rest := [];
    } else if listed != Ok([]) {
      rest := [list];
      if listed.Ok? {
        forall i | 0 <= i < |results|
          ensures ArtifactFinal(p.steps[i], target.artifacts[i], listed.value, MarkResidual(results[i], listed.value))
        {
          MarkedIsFinal(p.steps[i], target.artifacts[i], listed.value, results[i]);
        }
      }
    } else {
      var tail := RunIsRead(o, t + [list], target);
      rest := [list] + tail;
      assert rest[1..] == tail;
      assert t + [list] + tail == t + rest;
    }
  }

  lemma CleanupIsRead(o: Oracle, t: Trace, target: Target, key: ProtectionKey, opening: Trace) returns (p: Pieces)
    requires |opening| == 4 && Cleared(opening, target, key)
    ensures p.opening == opening && Cleanup(o, t, target).trace == t + p.logs + Flat(p.steps) + p.rest
    ensures CleanupReport(p, target, key, Cleanup(o, t, target).value)
  {
    hide PurgeLogs, PurgeArtifacts, Finish, Cleared, ArtifactRead, ArtifactFinal, RestTold, LogsTold, StepGone;
    var logs := LogsAreTold(o, t, target);
    var logsRan := PurgeLogs(o, t, target);
    var steps := ArtifactsAreRead(o, logsRan.trace, target.artifacts);
    var artifacts := PurgeArtifacts(o, logsRan.trace, target.artifacts);
    p := Pieces(opening, logs, steps, []);
    var rest := FinishIsRead(o, artifacts.trace, target, logsRan.value, artifacts.value, p);
    p := p.(rest := rest);
  }

  lemma BlockedSays(target: Target, state: State, error: Option<Message>)
    ensures var item := BlockedItem(target, state, error);
            && DependenciesAre(item, target, Blocked, Some(NotStarted))
            && item.run == StepResult(state, error) && item.plannedRun == target.run
  {
  }

  lemma AbsentSays(target: Target)
    ensures var item := AbsentItem(target);
            && DependenciesAre(item, target, AlreadyAbsent, None)
            && item.run == StepResult(AlreadyAbsent, None) && item.plannedRun == target.run
  {
  }

  lemma DriftIsRead(o: Oracle, t: Trace, target: Target, key: ProtectionKey, opening: Trace) returns (d: Trace)
    requires opening == [LeaseAcquired(key, None), ProtectionAssessed(key, Ok(NoEntry)),
                         RunLookedUp(target.run.repository, target.run.id, Ok(Some(target.run)))]
    ensures CheckDrift(o, t, target).trace == t + d
    ensures Told(opening + d + [LeaseReleased(key)], target, key, CheckDrift(o, t, target).value)
  {
    hide Cleanup, CleanupReport, BlockedItem, ArtifactDrift, NoDrift, Drifted, Cleared, DependenciesAre, DriftSays;
    var listed := o.artifacts(t, target.run.repository, target.run.id);
    var list := ArtifactsListed(target.run.repository, target.run.id, listed);
    if listed.Ok? {
      DriftMeaning(target.artifacts, listed.value);
    }
    if listed.Ok? && NoDrift(target.artifacts, listed.value) {
      ClearedByListing(target, key, listed.value, opening + [list]);
      var p := CleanupIsRead(o, t + [list], target, key, opening + [list]);
      d := [list] + p.logs + Flat(p.steps) + p.rest;
      assert t + [list] + p.logs + Flat(p.steps) + p.rest == t + d;
      assert opening + d + [LeaseReleased(key)] == Joined(p, key);
    } else {
      d := [list];
      var all := opening + d + [LeaseReleased(key)];
      assert all[3] == list && all[4] == LeaseReleased(key);
      if listed.Err? {
        BlockedSays(target, RevalidationFailed, Some(ProviderSaid(listed.error)));
      } else {
        DriftIsExact(target.artifacts, listed.value);
        BlockedSays(target, Changed, Some(DriftFound(ArtifactDrift(target.artifacts, listed.value))));
      }
      assert StoppedReport(all, target, key, CheckDrift(o, t, target).value);
    }
  }

  /**
   * Against every provider and store, `execute_target` reports exactly what its own history says: the
   * state and the error of the run, of the logs and of every artifact.
   */
  lemma WholeReportIsExact(o: Oracle, t: Trace, target: Target, key: ProtectionKey) returns (d: Trace)
    ensures RunTarget(o, t, target, key).trace == t + d
    ensures Told(d, target, key, RunTarget(o, t, target, key).value)
  {
    hide CheckDrift, CleanupReport, BlockedItem, AbsentItem, DependenciesAre;
    var item := RunTarget(o, t, target, key).value;
    AbsentSays(target);
    var failure := o.acquire(t, key);
    var acquired := LeaseAcquired(key, failure);
    if failure.Some? {
      d := [acquired];
      BlockedSays(target, Blocked, Some(LeaseFailed(failure.value)));
      assert StoppedReport(d, target, key, item);
      return;
    }
    var t1 := t + [acquired];
    var assessed := o.assess(t1, key, target.run);
    var e1 := ProtectionAssessed(key, assessed);
    if assessed != Ok(NoEntry) {
      d := [acquired, e1, LeaseReleased(key)];
      assert t1 + [e1] + [LeaseReleased(key)] == t + d;
      match assessed {
        case Err(e) => BlockedSays(target, Blocked, Some(LeaseFailed(e)));
        case Ok(Protected(e)) => BlockedSays(target, Blocked, Some(ProtectedFor(e.reason)));
        case Ok(Review(c, x)) => BlockedSays(target, Blocked, Some(NeedsReview(c, x)));
      }
      assert StoppedReport(d, target, key, item);
      return;
    }
    var t2 := t1 + [e1];
    var found := o.run(t2, target.run.repository, target.run.id);
    var e2 := RunLookedUp(target.run.repository, target.run.id, found);
    if found != Ok(Some(target.run)) {
      d := [acquired, e1, e2, LeaseReleased(key)];
      assert t2 + [e2] + [LeaseReleased(key)] == t + d;
      BlockedSays(target, Changed, None);
      if found.Err? {
        BlockedSays(target, RevalidationFailed, Some(ProviderSaid(found.error)));
      }
      assert StoppedReport(d, target, key, item);
    } else {
      var opening := [acquired, e1, e2];
      var rest := DriftIsRead(o, t2 + [e2], target, key, opening);
      d := opening + rest + [LeaseReleased(key)];
      assert t2 + [e2] + rest + [LeaseReleased(key)] == t + d;
    }
  }

  /** The same for a segment already known. */
  lemma SegmentIsTold(o: Oracle, t: Trace, target: Target, key: ProtectionKey, d: Trace)
    requires RunTarget(o, t, target, key).trace == t + d
    ensures Told(d, target, key, RunTarget(o, t, target, key).value)
  {
    hide RunTarget, Told;
    var e := WholeReportIsExact(o, t, target, key);
    assert (t + d)[|t|..] == d && (t + e)[|t|..] == e;
  }

  // --- what "deleted" stands for -----------------------------------------------------------------------

  lemma {:induction false} FlatMembers(steps: seq<Trace>, e: Event)
    ensures e in Flat(steps) <==> exists i :: 0 <= i < |steps| && e in steps[i]
  {
    if steps != [] {
      var n := |steps| - 1;
      FlatMembers(steps[..n], e);
    }
  }

  lemma JoinedMembers(p: Pieces, key: ProtectionKey, e: Event)
    ensures e in Joined(p, key) <==>
            e in p.opening || e in p.logs || e in Flat(p.steps) || e in p.rest || e == LeaseReleased(key)
  {
  }

  lemma OpeningDeletesNothing(opening: Trace, target: Target, key: ProtectionKey)
    requires |opening| == 4 && Cleared(opening, target, key)
    ensures forall e :: e in opening ==> !e.IsDelete()
  {
    forall e | e in opening ensures !e.IsDelete() {
      var k :| 0 <= k < 4 && opening[k] == e;
    }
  }

  /** What follows the artifacts deletes at most the run. */
  lemma RestDeletesNoDependency(p: Pieces, target: Target, item: Item)
    requires RestTold(p, target, item)
    ensures forall e :: e in p.rest ==> !e.LogsDelete? && !e.ArtifactDelete?
  {
    hide DependenciesGone;
    forall e | e in p.rest ensures !e.LogsDelete? && !e.ArtifactDelete? {
      var k :| 0 <= k < |p.rest| && p.rest[k] == e;
      if k > 0 {
        assert e == p.rest[1..][k - 1];
      }
    }
  }

  lemma StoppedDeletesNothing(d: Trace, target: Target, key: ProtectionKey)
    requires StoppedTrace(d, target, key)
    ensures forall e :: e in d ==> !e.IsDelete()
  {
    hide NoDrift;
    forall e | e in d ensures !e.IsDelete() {
      var k :| 0 <= k < |d| && d[k] == e;
    }
  }

  /** Logs are reported deleted exactly when the history holds their DELETE answered "deleted". */
  lemma LogsDeletedIff(d: Trace, target: Target, key: ProtectionKey, item: Item)
    requires Told(d, target, key, item)
    ensures item.logs.state == Deleted <==> LogsDelete(target.run.repository, target.run.id, Ok(DeletedNow)) in d
  {
    hide Cleared, NoDrift, ArtifactFinal, RestTold, Joined;
    var e := LogsDelete(target.run.repository, target.run.id, Ok(DeletedNow));
    if StoppedReport(d, target, key, item) {
      StoppedDeletesNothing(d, target, key);
    } else {
      var p: Pieces :| d == Joined(p, key) && CleanupReport(p, target, key, item);
      JoinedMembers(p, key, e);
      OpeningDeletesNothing(p.opening, target, key);
      RestDeletesNoDependency(p, target, item);
      FlatMembers(p.steps, e);
      assert e in p.logs <==> item.logs.state == Deleted;
    }
  }

  /**
   * An artifact is reported deleted exactly when the history holds its DELETE answered "deleted" and the
   * final listing does not show it again.
   */
  lemma ArtifactDeletedIff(d: Trace, target: Target, key: ProtectionKey, item: Item, i: nat)
    requires Told(d, target, key, item) && i < |target.artifacts| && DistinctArtifacts(target.artifacts)
    ensures |item.artifacts| == |target.artifacts| && item.artifacts[i].planned == target.artifacts[i]
    ensures var a := target.artifacts[i];
            item.artifacts[i].state == Deleted <==>
            ArtifactDelete(a.repository, a.id, Ok(DeletedNow)) in d && !ListedAgain(item.residual, a)
  {
    hide Cleared, NoDrift, RestTold, Joined, LogsTold;
    var a := target.artifacts[i];
    var e := ArtifactDelete(a.repository, a.id, Ok(DeletedNow));
    if StoppedReport(d, target, key, item) {
      StoppedDeletesNothing(d, target, key);
    } else {
      var p: Pieces :| d == Joined(p, key) && CleanupReport(p, target, key, item);
      JoinedMembers(p, key, e);
      OpeningDeletesNothing(p.opening, target, key);
      RestDeletesNoDependency(p, target, item);
      FlatMembers(p.steps, e);
      NoArtifactInLogs(p.logs, target, item.logs);
      OwnStep(p.steps, target.artifacts, i);
      hide CleanupReport;
      DeletedInStep(p.steps[i], a, item.residual, item.artifacts[i]);
    }
  }

  lemma NoArtifactInLogs(logs: Trace, target: Target, result: StepResult)
    requires LogsTold(logs, target, result)
    ensures forall e :: e in logs ==> !e.ArtifactDelete?
  {
  }

  /** A DELETE of an artifact stands in that artifact's own step. */
  lemma OwnStep(steps: seq<Trace>, artifacts: seq<Artifact>, i: nat)
    requires |steps| == |artifacts| && i < |artifacts| && DistinctArtifacts(artifacts)
    requires forall j :: 0 <= j < |steps| ==> ArtifactAnswers(steps[j], artifacts[j])
    ensures var e := ArtifactDelete(artifacts[i].repository, artifacts[i].id, Ok(DeletedNow));
            (exists j :: 0 <= j < |steps| && e in steps[j]) <==> e in steps[i]
  {
    var e := ArtifactDelete(artifacts[i].repository, artifacts[i].id, Ok(DeletedNow));
    forall j | 0 <= j < |steps| && e in steps[j] ensures j == i {
      assert DeletesArtifact(steps[j][1], artifacts[j]);
    }
  }

  lemma DeletedInStep(step: Trace, a: Artifact, residual: seq<Artifact>, result: ArtifactResult)
    requires ArtifactAnswers(step, a) && ArtifactFinal(step, a, residual, result)
    ensures result.planned == a
    ensures result.state == Deleted <==>
            ArtifactDelete(a.repository, a.id, Ok(DeletedNow)) in step && !ListedAgain(residual, a)
  {
  }

  /** The bytes of the artifacts whose DELETE said "deleted" and that were not listed again. */
  function BytesGone(d: Trace, residual: seq<Artifact>, artifacts: seq<Artifact>): nat {
    SumBy(artifacts, (a: Artifact) =>
      if ArtifactDelete(a.repository, a.id, Ok(DeletedNow)) in d && !ListedAgain(residual, a) then a.sizeInBytes else 0)
  }

  lemma {:induction false} SameTotals<A, B>(xs: seq<A>, f: A -> nat, ys: seq<B>, g: B -> nat)
    requires |xs| == |ys| && forall i :: 0 <= i < |xs| ==> f(xs[i]) == g(ys[i])
    ensures SumBy(xs, f) == SumBy(ys, g)
  {
    if xs != [] {
      var n := |xs| - 1;
      SameTotals(xs[..n], f, ys[..n], g);
    }
  }

  lemma DeletedBytesAreGone(d: Trace, target: Target, key: ProtectionKey, item: Item)
    requires Told(d, target, key, item) && DistinctArtifacts(target.artifacts)
    ensures SumBy(item.artifacts, DeletedBytes) == BytesGone(d, item.residual, target.artifacts)
  {
    hide Told, SumBy, ListedAgain;
    AsManyResults(d, target, key, item);
    var counted := (a: Artifact) =>
      if ArtifactDelete(a.repository, a.id, Ok(DeletedNow)) in d && !ListedAgain(item.residual, a)
        then a.sizeInBytes else 0;
    forall i | 0 <= i < |item.artifacts| ensures DeletedBytes(item.artifacts[i]) == counted(target.artifacts[i]) {
      ArtifactDeletedIff(d, target, key, item, i);
    }
    SameTotals(item.artifacts, DeletedBytes, target.artifacts, counted);
  }

  lemma AsManyResults(d: Trace, target: Target, key: ProtectionKey, item: Item)
    requires Told(d, target, key, item)
    ensures |item.artifacts| == |target.artifacts|
  {
    hide StoppedTrace, StoppedEarly, Cleared;
  }

  // --- what success stands for --------------------------------------------------------------------------

  /** The run's own step found or left it gone. */
  predicate RunGone(tail: Trace) {
    || (|tail| == 1 && tail[0].RunLookedUp? && LookupGone(tail[0].run))
    || (|tail| == 2 && tail[1].RunDelete? && DeleteGone(tail[1].outcome))
    || (|tail| == 3 && tail[2].RunLookedUp? && LookupGone(tail[2].run))
  }

  /** Logs and artifacts answered gone, an empty fresh listing, and the run gone too. */
  ghost predicate FullyPurged(d: Trace, target: Target, key: ProtectionKey) {
    exists p: Pieces ::
      && d == Joined(p, key) && |p.opening| == 4 && Cleared(p.opening, target, key)
      && |p.steps| == |target.artifacts|
      && (forall i :: 0 <= i < |p.steps| ==> ArtifactAnswers(p.steps[i], target.artifacts[i]))
      && DependenciesGone(p) && PurgedRest(p.rest)
  }

  predicate PurgedRest(rest: Trace) {
    |rest| >= 2 && rest[0].ArtifactsListed? && rest[0].artifacts == Ok([]) && RunGone(rest[1..])
  }

  ghost predicate Succeeded(d: Trace, target: Target, key: ProtectionKey) {
    FoundAbsent(d) || FullyPurged(d, target, key)
  }

  lemma StoppedSucceedsIff(d: Trace, target: Target, key: ProtectionKey, item: Item)
    requires StoppedReport(d, target, key, item)
    ensures ItemSucceeded(item) <==> FoundAbsent(d)
  {
    hide NoDrift, StopSays;
  }

  lemma CleanedSucceedsIff(p: Pieces, target: Target, key: ProtectionKey, item: Item)
    requires CleanupReport(p, target, key, item)
    ensures ItemSucceeded(item) <==> DependenciesGone(p) && PurgedRest(p.rest)
  {
    hide Cleared, StepGone, ArtifactFinal, ArtifactAnswers, RunSays;
    if DependenciesGone(p) && p.rest[0].artifacts == Ok([]) {
      forall i | 0 <= i < |p.steps| ensures IsGone(item.artifacts[i].state) {
        StepIsGone(p.steps[i], target.artifacts[i], item.artifacts[i]);
      }
      assert p.rest[1..] == p.rest[1..];
    }
  }

  lemma StepIsGone(step: Trace, a: Artifact, result: ArtifactResult)
    requires ArtifactAnswers(step, a) && ArtifactFinal(step, a, [], result)
    ensures StepGone(step) <==> IsGone(result.state)
  {
  }

  lemma {:induction false} FlatFront(steps: seq<Trace>)
    requires steps != []
    ensures Flat(steps) == steps[0] + Flat(steps[1..])
  {
    var n := |steps| - 1;
    if n > 0 {
      FlatFront(steps[..n]);
      assert steps[1..][..n - 1] == steps[..n][1..];
    } else {
      assert Flat(steps[..0]) == [] && Flat(steps[1..]) == [];
    }
  }

  lemma FlatOfNone()
    ensures Flat([]) == []
  {
  }

  lemma PurgedIsLong(d: Trace, target: Target, key: ProtectionKey)
    requires FullyPurged(d, target, key)
    ensures |d| >= 8
  {
    hide Cleared, ArtifactAnswers, Flat;
  }

  lemma OneStep(s: Trace, u: Trace, q: Trace, v: Trace, a: Artifact)
    requires s + u == q + v && ArtifactAnswers(s, a) && ArtifactAnswers(q, a)
    ensures s == q && u == v
  {
    assert (s + u)[0] == s[0] && (q + v)[0] == q[0];
    assert s == (s + u)[..|s|] && u == (s + u)[|s|..];
    assert q == (q + v)[..|q|] && v == (q + v)[|q|..];
  }

  /** One history cannot be cut into steps in two ways: each step's first answer tells its length. */
  lemma {:induction false} OneCut(ps: seq<Trace>, u: Trace, qs: seq<Trace>, v: Trace, artifacts: seq<Artifact>)
    requires Flat(ps) + u == Flat(qs) + v && |ps| == |qs| == |artifacts|
    requires forall i :: 0 <= i < |artifacts| ==>
               ArtifactAnswers(ps[i], artifacts[i]) && ArtifactAnswers(qs[i], artifacts[i])
    ensures ps == qs && u == v
    decreases |ps|
  {
    if ps == [] {
      assert Flat(ps) + u == u && Flat(qs) + v == v;
    } else {
      hide Flat, ArtifactAnswers;
      FlatFront(ps);
      FlatFront(qs);
      var pt, qt := Flat(ps[1..]) + u, Flat(qs[1..]) + v;
      assert Flat(ps) + u == ps[0] + pt && Flat(qs) + v == qs[0] + qt;
      OneStep(ps[0], pt, qs[0], qt, artifacts[0]);
      OneCut(ps[1..], u, qs[1..], v, artifacts[1..]);
      assert ps == [ps[0]] + ps[1..] && qs == [qs[0]] + qs[1..];
    }
  }

  /** What follows the opening and the logs. */
  function Later(p: Pieces, key: ProtectionKey): Trace { Flat(p.steps) + p.rest + [LeaseReleased(key)] }

  lemma LaterPart(p: Pieces, key: ProtectionKey)
    requires |p.opening| == 4
    ensures Joined(p, key)[4..] == p.logs + Later(p, key)
  {
    assert Joined(p, key) == p.opening + (p.logs + Later(p, key));
  }

  lemma NoLogsAtFirst(p: Pieces, target: Target, key: ProtectionKey, item: Item)
    requires CleanupReport(p, target, key, item) && p.logs == []
    ensures Later(p, key) != [] && !Later(p, key)[0].LogsDelete?
  {
    hide Cleared, ArtifactFinal, Flat, DependenciesGone;
    if p.steps == [] {
      FlatOfNone();
      assert Later(p, key) == p.rest + [LeaseReleased(key)];
      assert Later(p, key)[0] == if p.rest == [] then LeaseReleased(key) else p.rest[0];
    } else {
      FlatFront(p.steps);
      assert ArtifactAnswers(p.steps[0], target.artifacts[0]);
      assert Later(p, key)[0] == p.steps[0][0];
    }
  }

  lemma AtMostOneLogsDelete(p: Pieces, target: Target, key: ProtectionKey, item: Item)
    requires CleanupReport(p, target, key, item)
    ensures |p.logs| <= 1
  {
    hide Cleared, ArtifactFinal, DependenciesGone, RestTold, ArtifactAnswers;
  }

  lemma SameCut(p: Pieces, q: Pieces, target: Target, key: ProtectionKey, item: Item)
    requires CleanupReport(p, target, key, item) && Joined(p, key) == Joined(q, key) && |q.opening| == 4
    requires |q.steps| == |target.artifacts| && LogsGone(q.logs)
    requires forall i :: 0 <= i < |q.steps| ==> ArtifactAnswers(q.steps[i], target.artifacts[i])
    ensures p.logs == q.logs && p.steps == q.steps && p.rest == q.rest
  {
    hide Cleared, ArtifactFinal, Flat, DependenciesGone, ArtifactAnswers, RestTold, Joined;
    LaterPart(p, key);
    LaterPart(q, key);
    assert (q.logs + Later(q, key))[0] == q.logs[0];
    AtMostOneLogsDelete(p, target, key, item);
    if p.logs == [] {
      assert p.logs + Later(p, key) == Later(p, key);
      NoLogsAtFirst(p, target, key, item);
    }
    assert (p.logs + Later(p, key))[0] == p.logs[0];
    assert Later(p, key) == (p.logs + Later(p, key))[1..] && Later(q, key) == (q.logs + Later(q, key))[1..];
    var release := [LeaseReleased(key)];
    assert Flat(p.steps) + (p.rest + release) == Later(p, key) && Flat(q.steps) + (q.rest + release) == Later(q, key);
    OneCut(p.steps, p.rest + release, q.steps, q.rest + release, target.artifacts);
    assert p.rest == (p.rest + release)[..|p.rest|] && q.rest == (q.rest + release)[..|q.rest|];
  }

  /** An item counts as a success exactly when its history reads as one. */
  lemma SuccessIff(d: Trace, target: Target, key: ProtectionKey, item: Item)
    requires Told(d, target, key, item)
    ensures ItemSucceeded(item) <==> Succeeded(d, target, key)
  {
    hide Cleared, NoDrift, Flat, PurgedRest, ItemSucceeded, ArtifactFinal, RestTold, LogsTold, StepGone, StopSays;
    if StoppedReport(d, target, key, item) {
      StoppedSucceedsIff(d, target, key, item);
      if FullyPurged(d, target, key) {
        PurgedIsLong(d, target, key);
      }
    } else {
      var p: Pieces :| d == Joined(p, key) && CleanupReport(p, target, key, item);
      CleanedSucceedsIff(p, target, key, item);
      if FullyPurged(d, target, key) {
        var q: Pieces :|
          && d == Joined(q, key) && |q.opening| == 4 && Cleared(q.opening, target, key)
          && |q.steps| == |target.artifacts|
          && (forall i :: 0 <= i < |q.steps| ==> ArtifactAnswers(q.steps[i], target.artifacts[i]))
          && DependenciesGone(q) && PurgedRest(q.rest);
        SameCut(p, q, target, key, item);
      }
    }
  }
}

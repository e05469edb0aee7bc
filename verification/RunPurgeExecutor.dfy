/** The purge executor as the source writes it: loops, early returns and a mutable halt reason. */
module RunPurgeExecutor {
  import opened Prelude
  import opened Domain
  import opened Sorting
  import opened RunProtections
  import opened RunPurgePlans
  import opened RunPurgeRemote
  import opened RunPurgeExecution

  // --- artifact drift ------------------------------------------------------------------------------

  ghost predicate IndexesById(index: map<nat, Artifact>, artifacts: seq<Artifact>) {
    forall id :: (id in index <==> ById(artifacts, id).Some?)
        && (id in index ==> ById(artifacts, id) == Some(index[id]))
  }

  method IndexById(artifacts: seq<Artifact>) returns (index: map<nat, Artifact>)
    ensures IndexesById(index, artifacts)
  {
    index := map[];
    for i := 0 to |artifacts|
      invariant IndexesById(index, artifacts[..i])
    {
      assert artifacts[..i + 1][..i] == artifacts[..i];
      index := index[artifacts[i].id := artifacts[i]];
    }
    assert artifacts[..|artifacts|] == artifacts;
  }

  lemma FilterIdsAppend(artifacts: seq<Artifact>, i: nat, keep: Artifact -> bool)
    requires i < |artifacts|
    ensures IdsOf(Filter(artifacts[..i + 1], keep))
         == IdsOf(Filter(artifacts[..i], keep)) + (if keep(artifacts[i]) then [artifacts[i].id] else [])
  {
    assert artifacts[..i + 1][..i] == artifacts[..i];
  }

  method ScanPlanned(planned: seq<Artifact>, ghost current: seq<Artifact>, currentById: map<nat, Artifact>)
    returns (missing: seq<nat>, changed: seq<nat>)
    requires IndexesById(currentById, current)
    ensures missing == IdsOf(Filter(planned, (a: Artifact) => ById(current, a.id).None?))
    ensures changed == IdsOf(Filter(planned, (a: Artifact) => ById(current, a.id).Some?
            && ById(current, a.id).value != a))
  {
    missing, changed := [], [];
    ghost var isMissing := (a: Artifact) => ById(current, a.id).None?;
    ghost var isChanged := (a: Artifact) => ById(current, a.id).Some? && ById(current, a.id).value != a;
    for i := 0 to |planned|
      invariant missing == IdsOf(Filter(planned[..i], isMissing))
      invariant changed == IdsOf(Filter(planned[..i], isChanged))
    {
      var a := planned[i];
      FilterIdsAppend(planned, i, isMissing);
      FilterIdsAppend(planned, i, isChanged);
      if a.id !in currentById {
        missing := missing + [a.id];
      } else if currentById[a.id] != a {
        changed := changed + [a.id];
      }
    }
    assert planned[..|planned|] == planned;
  }

  method ScanCurrent(current: seq<Artifact>, ghost planned: seq<Artifact>, plannedById: map<nat, Artifact>)
    returns (unexpected: seq<nat>)
    requires IndexesById(plannedById, planned)
    ensures unexpected == IdsOf(Filter(current, (a: Artifact) => ById(planned, a.id).None?))
  {
    unexpected := [];
    ghost var isUnexpected := (a: Artifact) => ById(planned, a.id).None?;
    for i := 0 to |current|
      invariant unexpected == IdsOf(Filter(current[..i], isUnexpected))
    {
      FilterIdsAppend(current, i, isUnexpected);
      if current[i].id !in plannedById {
        unexpected := unexpected + [current[i].id];
      }
    }
    assert current[..|current|] == current;
  }

  /** `artifact_drift`: two maps, two passes, three sorted lists. */
  method ComputeDrift(planned: seq<Artifact>, current: seq<Artifact>) returns (drift: Drift)
    ensures drift == ArtifactDrift(planned, current)
  {
    var plannedById := IndexById(planned);
    var currentById := IndexById(current);
    var missing, changed := ScanPlanned(planned, current, currentById);
    var unexpected := ScanCurrent(current, planned, plannedById);
    drift := Drift(Sort(missing, IdLe), Sort(changed, IdLe), Sort(unexpected, IdLe));
  }

  // --- one target ----------------------------------------------------------------------------------

  method DeleteLogsOf(remote: Remote, target: Target) returns (logs: StepResult)
    modifies remote
    ensures Ran(logs, remote.trace) == PurgeLogs(remote.oracle, old(remote.trace), target)
  {
    if target.deleteLogs {
      var outcome := remote.DeleteLogs(target.run.repository, target.run.id);
      logs := DeleteStep(outcome);
    } else {
      logs := Step(Blocked, Some(LogsNotAuthorized));
    }
  }

  method DeleteArtifactsOf(remote: Remote, target: Target) returns (artifacts: seq<ArtifactResult>)
    modifies remote
    ensures Ran(artifacts, remote.trace) == PurgeArtifacts(remote.oracle, old(remote.trace), target.artifacts)
  {
    artifacts := [];
    ghost var start := remote.trace;
    ghost var planned := target.artifacts;
    for i := 0 to |target.artifacts|
      invariant Ran(artifacts, remote.trace) == PurgeArtifacts(remote.oracle, start, planned[..i])
    {
      var a := target.artifacts[i];
      assert planned[..i + 1][..i] == planned[..i];
      var result: ArtifactResult;
      var found := remote.LookUpArtifact(a.repository, a.id);
      match found {
        case Ok(None) =>
          result := ArtifactResult(a, AlreadyAbsent, None, None);
        case Ok(Some(current)) =>
          if current != a {
            result := ArtifactResult(a, Changed, Some(current), None);
          } else {
            var outcome := remote.DeleteArtifact(a.repository, a.id);
            result := ArtifactResult(a, DeleteStep(outcome).state, None, DeleteStep(outcome).error);
          }
        case Err(NotFound(_)) =>
          result := ArtifactResult(a, AlreadyAbsent, None, None);
        case Err(e) =>
          result := ArtifactResult(a, RevalidationFailed, None, Some(ProviderSaid(e)));
      }
      artifacts := artifacts + [result];
    }
    assert planned[..|planned|] == planned;
  }

  method DeleteRunOf(remote: Remote, target: Target) returns (run: StepResult)
    modifies remote
    ensures Ran(run, remote.trace) == PurgeRun(remote.oracle, old(remote.trace), target)
  {
    hide WorkflowRun.HasSamePurgeIdentity, VerifyAbsence;
    var repository, id := target.run.repository, target.run.id;
    var found := remote.LookUpRun(repository, id);
    match found {
      case Ok(None) =>
        return Step(AlreadyAbsent, None);
      case Err(NotFound(_)) =>
        return Step(AlreadyAbsent, None);
      case Err(e) =>
        return Step(RevalidationFailed, Some(ProviderSaid(e)));
      case Ok(Some(current)) =>
        if !target.run.HasSamePurgeIdentity(current) {
          return Step(Changed, Some(IdentityChanged));
        }
    }
    var outcome := remote.DeleteRun(repository, id);
    if outcome == Ok(DeletedNow) {
      run := VerifyAbsenceOf(remote, target);
    } else {
      run := DeleteStep(outcome);
    }
  }

  method VerifyAbsenceOf(remote: Remote, target: Target) returns (run: StepResult)
    modifies remote
    ensures Ran(run, remote.trace) == VerifyAbsence(remote.oracle, old(remote.trace), target)
  {
    var after := remote.LookUpRun(target.run.repository, target.run.id);
    match after {
      case Ok(None) =>
        run := Step(Deleted, None);
      case Err(NotFound(_)) =>
        run := Step(Deleted, None);
      case Ok(Some(_)) =>
        run := Step(VerificationFailed, Some(RunStillExists));
      case Err(e) =>
        run := Step(VerificationFailed,
          Some(AfterDeleteUnverified(e)));
    }
  }

  /** The tail of `execute_target`, with the source's mutable `dependencies_clean` and results. */
  method FinishTarget(remote: Remote, target: Target, logs: StepResult, results: seq<ArtifactResult>)
    returns (item: Item)
    modifies remote
    ensures Ran(item, remote.trace) == Finish(remote.oracle, old(remote.trace), target, logs, results)
  {
    var artifacts := results;
    var dependenciesClean := AllGone(logs, artifacts);
    var residual: seq<Artifact> := [];
    var verificationError: Option<ProviderError> := None;
    if dependenciesClean {
      var listed := remote.ListArtifacts(target.run.repository, target.run.id);
      match listed {
        case Ok(remaining) =>
          residual := remaining;
          if residual != [] {
            dependenciesClean := false;
            for i := 0 to |artifacts|
              invariant |artifacts| == |results|
              invariant artifacts == MarkResiduals(results, residual)[..i] + results[i..]
            {
              artifacts := artifacts[i := MarkResidual(artifacts[i], residual)];
            }
            assert artifacts == MarkResiduals(results, residual);
          }
        case Err(e) =>
          dependenciesClean := false;
          verificationError := Some(e);
      }
    }
    var run: StepResult;
    if dependenciesClean {
      run := DeleteRunOf(remote, target);
    } else if verificationError.Some? {
      run := Step(VerificationFailed,
        Some(DependenciesUnverified(verificationError.value)));
    } else if residual != [] {
      run := Step(Blocked, Some(DependenciesRemain(residual)));
    } else {
      run := Step(Blocked, Some(CleanupIncomplete));
    }
    item := Item(target.run, logs, artifacts, residual, run);
  }

  method ExecuteUnderLease(remote: Remote, target: Target, key: ProtectionKey) returns (item: Item)
    modifies remote
    ensures Ran(item, remote.trace) == UnderLease(remote.oracle, old(remote.trace), target, key)
  {
    var repository, id := target.run.repository, target.run.id;
    var assessed := remote.AssessUnderLease(key, target.run);
    if assessed.Err? {
      return UnverifiableItem(target, assessed.error);
    }
    var reason := ProtectionBlockReason(assessed.value);
    if reason.Some? {
      return BlockedItem(target, Blocked, reason);
    }
    var found := remote.LookUpRun(repository, id);
    match found {
      case Ok(None) =>
        return AbsentItem(target);
      case Err(NotFound(_)) =>
        return AbsentItem(target);
      case Err(e) =>
        return BlockedItem(target, RevalidationFailed, Some(ProviderSaid(e)));
      case Ok(Some(current)) =>
        if current != target.run {
          return BlockedItem(target, Changed, None);
        }
    }
    var listed := remote.ListArtifacts(repository, id);
    if listed.Err? {
      return BlockedItem(target, RevalidationFailed, Some(ProviderSaid(listed.error)));
    }
    var drift := ComputeDrift(target.artifacts, listed.value);
    if drift.changed != [] || drift.unexpected != [] {
      return BlockedItem(target, Changed,
        Some(DriftFound(drift)));
    }
    var logs := DeleteLogsOf(remote, target);
    var artifacts := DeleteArtifactsOf(remote, target);
    item := FinishTarget(remote, target, logs, artifacts);
  }

  /** `execute_target`. */
  method ExecuteTarget(remote: Remote, target: Target, account: Account) returns (item: Item)
    modifies remote
    ensures Ran(item, remote.trace)
         == RunTarget(remote.oracle, old(remote.trace), target, KeyForRun(remote.instance, account, target.run))
  {
    var key := KeyForRun(remote.instance, account, target.run);
    var failure := remote.Acquire(key);
    if failure.Some? {
      return UnverifiableItem(target, failure.value);
    }
    item := ExecuteUnderLease(remote, target, key);
    remote.Release(key);
  }

  // --- the whole plan --------------------------------------------------------------------------------

  datatype ReviewState = Ready | ReviewedAbsent | ReviewedChanged | ReviewFailed

  datatype ReviewItem = ReviewItem(
    repository: string,
    runId: nat,
    state: ReviewState,
    drift: Drift,
    currentRun: Option<WorkflowRun>,
    error: Option<Message>)

  datatype ReviewReport = ReviewReport(account: Account, items: seq<ReviewItem>)

  datatype ExecuteError =
    | PlanRejected(problem: PlanError)
    | AccountMismatch
    | ReviewedReportMismatch
    | UnsafeReviewedReport
    | Provider(error: ProviderError)
    | ProtectionStore(failure: ProtectionError)

  predicate SafeToApply(items: seq<ReviewItem>) {
    forall i :: 0 <= i < |items| ==> items[i].state == Ready || items[i].state == ReviewedAbsent
  }

  predicate ReviewCovers(plan: Plan, review: ReviewReport) {
    && |review.items| == |plan.targets|
    && forall i :: 0 <= i < |plan.targets| ==>
         review.items[i].repository == plan.targets[i].run.repository.fullName
             && review.items[i].runId == plan.targets[i].run.id
  }

  /** `validate_review`. */
  function ValidateReview(plan: Plan, review: ReviewReport): Result<(), ExecuteError> {
    if plan.account != review.account then Err(AccountMismatch)
    else if !ReviewCovers(plan, review) then Err(ReviewedReportMismatch)
    else if !SafeToApply(review.items) then Err(UnsafeReviewedReport)
    else Ok(())
  }

  /** What must hold before the first destructive request of a batch. */
  ghost predicate Authorized(plan: Plan, review: ReviewReport, account: ProviderResult<Account>) {
    Intact(plan) && ValidateReview(plan, review).Ok? && account == Ok(plan.account)
  }

  /** Which refusal is given: the plan's, then the review's, then the account's. */
  ghost predicate Refusal(plan: Plan, review: ReviewReport, account: ProviderResult<Account>, error: ExecuteError) {
    if !Intact(plan) then error.PlanRejected? && Explains(error.problem, plan.targets)
    else if ValidateReview(plan, review).Err? then error == ValidateReview(plan, review).error
    else if account.Err? then error == Provider(account.error)
    else account.value != plan.account && error == AccountMismatch
  }

  /** `execute`: refuse, or run every target in plan order under one halt reason. */
  method Execute(remote: Remote, plan: Plan, review: ReviewReport) returns (r: Result<seq<Item>, ExecuteError>)
    modifies remote
    ensures r.Ok? <==> Authorized(plan, review, remote.oracle.account(old(remote.trace)))
    ensures r.Ok? ==>
              var t := old(remote.trace) + [AccountRead(Ok(plan.account))];
              var b := RunBatch(remote.oracle, t, plan.targets, remote.instance, plan.account);
              r.value == b.items && remote.trace == b.trace
    ensures r.Err? ==> Refusal(plan, review, remote.oracle.account(old(remote.trace)), r.error)
    ensures r.Err? ==> remote.trace == old(remote.trace)
                       || (Intact(plan) && ValidateReview(plan, review).Ok?
                           && remote.trace == old(remote.trace)
                              + [AccountRead(remote.oracle.account(old(remote.trace)))])
  {
    hide Intact, RunBatch, ReviewCovers, SafeToApply;
    var intact := ValidateIntegrity(plan);
    if intact.Err? {
      return Err(PlanRejected(intact.error));
    }
    var reviewed := ValidateReview(plan, review);
    if reviewed.Err? {
      return Err(reviewed.error);
    }
    var account := remote.ReadAccount();
    if account.Err? {
      return Err(Provider(account.error));
    }
    if account.value != plan.account {
      return Err(AccountMismatch);
    }
    var items := ExecuteTargets(remote, plan.targets, plan.account);
    r := Ok(items);
  }

  /** One turn of the batch loop: blocked by the halt reason, by low headroom, or attempted. */
  method ExecuteNext(remote: Remote, target: Target, account: Account, halted: Option<Message>, ghost b: Batch)
    returns (item: Item, halt: Option<Message>)
    requires b.trace == remote.trace && b.halt == halted
    modifies remote
    ensures NextTarget(remote.oracle, b, target, KeyForRun(remote.instance, account, target.run))
         == Batch(b.items + [item], remote.trace, halt, b.marks + [|remote.trace|])
  {
    hide HitRateLimit, RunTarget, BlockedItem;
    halt := halted;
    if halt.Some? {
      return BlockedItem(target, Blocked, halt), halt;
    }
    var remaining := remote.ReadHeadroom();
    if remaining.Some? && remaining.value <= HEADROOM {
      halt := Some(HaltedByHeadroom(remaining.value));
      return BlockedItem(target, Blocked, halt), halt;
    }
    item := ExecuteTarget(remote, target, account);
    if HitRateLimit(item) {
      halt := Some(HaltedByLimit);
    }
  }

  method ExecuteTargets(remote: Remote, targets: seq<Target>, account: Account) returns (items: seq<Item>)
    modifies remote
    ensures var b := RunBatch(remote.oracle, old(remote.trace), targets, remote.instance, account);
            items == b.items && remote.trace == b.trace
  {
    hide NextTarget;
    items := [];
    var halt: Option<Message> := None;
    ghost var start := remote.trace;
    ghost var marks: seq<nat> := [|start|];
    for i := 0 to |targets|
      invariant Batch(items, remote.trace, halt, marks)
             == RunBatch(remote.oracle, start, targets[..i], remote.instance, account)
    {
      assert targets[..i + 1][..i] == targets[..i];
      var item;
      item, halt := ExecuteNext(remote, targets[i], account, halt, Batch(items, remote.trace, halt, marks));
      items := items + [item];
      marks := marks + [|remote.trace|];
    }
    assert targets[..|targets|] == targets;
  }
}

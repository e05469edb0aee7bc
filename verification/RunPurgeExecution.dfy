/**
 * `RunPurgeExecutionService` of `run_purge.rs`. Each stage is a function of the oracle and the
 * history so far, giving the report fragment and the longer history; the methods at the end are
 * the source's loops and early returns, shown to compute exactly these functions.
 */
module RunPurgeExecution {
  import opened Prelude
  import opened Domain
  import opened Sorting
  import opened RunProtections
  import opened RunPurgePlans
  import opened RunPurgeRemote
  import T = Text

  const HEADROOM: nat := 250
  const RATE_LIMIT_PHRASE: string := "provider rate limit reached"

  datatype State =
    Deleted | AlreadyAbsent | Changed | RevalidationFailed | DeleteFailed | VerificationFailed | Blocked

  datatype StepResult = StepResult(state: State, error: Option<Message>)

  datatype ArtifactResult = ArtifactResult(planned: Artifact, state: State, current: Option<Artifact>,
      error: Option<Message>)

  datatype Item = Item(
    plannedRun: WorkflowRun,
    logs: StepResult,
    artifacts: seq<ArtifactResult>,
    residual: seq<Artifact>,
    run: StepResult)

  /** What a stage reports, and the history after it. */
  datatype Ran<+R> = Ran(value: R, trace: Trace)

  predicate IsGone(state: State) { state == Deleted || state == AlreadyAbsent }

  // --- messages ---------------------------------------------------------------------------------

  function ErrorText(e: ProviderError): string {
    match e
    case Authentication(m) => "authentication failed: " + m
    case NotFound(m) => "resource not found: " + m
    case PermissionDenied(m) => "permission denied: " + m
    case RateLimited(_, m) => RATE_LIMIT_PHRASE + m
    case Transport(m) => "provider transport error: " + m
    case InvalidResponse(m) => "invalid provider response: " + m
    case HttpStatus(status, m) => "provider request " + "failed with HTTP " + T.Decimal(status) + ": " + m
  }

  function IdList(ids: seq<nat>): string { "[" + T.Join(ids, ", ") + "]" }

  function IdsOf(artifacts: seq<Artifact>): seq<nat> {
    seq(|artifacts|, i requires 0 <= i < |artifacts| => artifacts[i].id)
  }

  const REPORTED: string := "provider reported successful "
  const UNCONFIRMED: string := "post-delete verification failed: "
  const RETAINED: string := "workflow run retained because "

  /** The sentences of purge and review reports; `Text` spells them out. */
  datatype Message =
    | ProviderSaid(error: ProviderError)
    | NotStarted
    | LogsNotAuthorized
    | ArtifactStillExists
    | IdentityChanged
    | RunStillExists
    | AfterDeleteUnverified(error: ProviderError)
    | CleanupIncomplete
    | DependenciesUnverified(error: ProviderError)
    | DependenciesRemain(residual: seq<Artifact>)
    | DriftFound(drift: Drift)
    | ProtectedFor(reason: string)
    | NeedsReview(code: ReviewCode, explanation: string)
    | LeaseFailed(failure: ProtectionError)
    | HaltedByLimit
    | HaltedByHeadroom(remaining: nat)
    | ReviewHaltedByLimit
    | ReviewHaltedByHeadroom(remaining: nat)
  {
    function Text(): string {
      match this
      case ProviderSaid(e) => ErrorText(e)
      case NotStarted => "dependency " + "cleanup not started"
      case LogsNotAuthorized => "plan did not authorize " + "log deletion"
      case ArtifactStillExists => "artifact still exists " + "after reported deletion"
      case IdentityChanged => "workflow run identity changed " + "after dependency cleanup"
      case RunStillExists => "workflow run still exists after " + REPORTED + "deletion"
      case AfterDeleteUnverified(e) => REPORTED + "workflow-run deletion, but " + UNCONFIRMED + ErrorText(e)
      case CleanupIncomplete => RETAINED + "dependency cleanup " + "was incomplete"
      case DependenciesUnverified(e) => RETAINED + "dependency " + "verification failed: " + ErrorText(e)
      case DependenciesRemain(residual) =>
        RETAINED + "artifact dependencies remain " + "after cleanup: " + T.Join(IdsOf(residual), ",")
      case DriftFound(drift) =>
        "dependency drift before purge: " + "changed artifacts " + IdList(drift.changed)
        + ", unexpected artifacts " + IdList(drift.unexpected)
      case ProtectedFor(reason) => "local_protection: " + reason
      case NeedsReview(code, explanation) => code.Text() + ": " + explanation
      case LeaseFailed(e) => "local_protection_" + "unverifiable: " + e.Text()
      case HaltedByLimit =>
        "batch halted by GitHub API rate-limit guard after provider rate limit; target was not attempted"
      case HaltedByHeadroom(remaining) =>
        "batch halted by GitHub API rate-limit guard to preserve " + T.Decimal(HEADROOM) + "-request headroom ("
        + T.Decimal(remaining) + " remaining); target was not attempted"
      case ReviewHaltedByLimit =>
        "revalidation halted by GitHub API rate-limit guard after provider rate limit; later targets were not checked"
      case ReviewHaltedByHeadroom(remaining) =>
        "revalidation halted by GitHub API rate-limit guard to preserve " + T.Decimal(HEADROOM) + "-request headroom ("
        + T.Decimal(remaining) + " remaining); target was not checked"
    }
  }

  // --- artifact drift ----------------------------------------------------------------------------

  datatype Drift = Drift(missing: seq<nat>, changed: seq<nat>, unexpected: seq<nat>)

  /** The listing read as a map from id: a later entry replaces an earlier one. */
  function ById(artifacts: seq<Artifact>, id: nat): Option<Artifact> {
    if artifacts == [] then None
    else
      var last := artifacts[|artifacts| - 1];
      if last.id == id then Some(last) else ById(artifacts[..|artifacts| - 1], id)
  }

  predicate IdLe(a: nat, b: nat) { a <= b }

  function ArtifactDrift(planned: seq<Artifact>, current: seq<Artifact>): Drift {
    Drift(
      Sort(IdsOf(Filter(planned, (a: Artifact) => ById(current, a.id).None?)), IdLe),
      Sort(IdsOf(Filter(planned, (a: Artifact) => ById(current, a.id).Some? && ById(current, a.id).value != a)), IdLe),
      Sort(IdsOf(Filter(current, (a: Artifact) => ById(planned, a.id).None?)), IdLe))
  }

  predicate Drifted(d: Drift) { d.changed != [] || d.unexpected != [] }

  // --- the stages --------------------------------------------------------------------------------

  function Step(state: State, error: Option<Message>): StepResult { StepResult(state, error) }

  function BlockedItem(target: Target, state: State, error: Option<Message>): Item {
    Item(target.run,
         Step(Blocked, Some(NotStarted)),
         seq(|target.artifacts|, i requires 0 <= i < |target.artifacts| =>
           ArtifactResult(target.artifacts[i], Blocked, None, Some(NotStarted))),
         [],
         Step(state, error))
  }

  function AbsentItem(target: Target): Item {
    Item(target.run,
         Step(AlreadyAbsent, None),
         seq(|target.artifacts|, i requires 0 <= i < |target.artifacts| =>
           ArtifactResult(target.artifacts[i], AlreadyAbsent, None, None)),
         [],
         Step(AlreadyAbsent, None))
  }

  function ProtectionBlockReason(assessment: Assessment): Option<Message> {
    match assessment
    case NoEntry => None
    case Protected(entry) => Some(ProtectedFor(entry.reason))
    case Review(code, explanation) => Some(NeedsReview(code, explanation))
  }

  /** How a delete request's answer is reported. */
  function DeleteStep(outcome: ProviderResult<DeleteOutcome>): StepResult {
    match outcome
    case Ok(DeletedNow) => Step(Deleted, None)
    case Ok(WasAbsent) => Step(AlreadyAbsent, None)
    case Err(NotFound(_)) => Step(AlreadyAbsent, None)
    case Err(e) => Step(DeleteFailed, Some(ProviderSaid(e)))
  }

  function PurgeLogs(o: Oracle, t: Trace, target: Target): Ran<StepResult> {
    if target.deleteLogs then
      var outcome := o.deleteLogs(t, target.run.repository, target.run.id);
      Ran(DeleteStep(outcome), t + [LogsDelete(target.run.repository, target.run.id, outcome)])
    else
      Ran(Step(Blocked, Some(LogsNotAuthorized)), t)
  }

  function PurgeArtifact(o: Oracle, t: Trace, a: Artifact): Ran<ArtifactResult> {
    var found := o.artifact(t, a.repository, a.id);
    var t1 := t + [ArtifactLookedUp(a.repository, a.id, found)];
    match found
    case Ok(None) => Ran(ArtifactResult(a, AlreadyAbsent, None, None), t1)
    case Err(NotFound(_)) => Ran(ArtifactResult(a, AlreadyAbsent, None, None), t1)
    case Err(e) => Ran(ArtifactResult(a, RevalidationFailed, None, Some(ProviderSaid(e))), t1)
    case Ok(Some(current)) =>
      if current != a then Ran(ArtifactResult(a, Changed, Some(current), None), t1)
      else
        var outcome := o.deleteArtifact(t1, a.repository, a.id);
        var s := DeleteStep(outcome);
        Ran(ArtifactResult(a, s.state, None, s.error), t1 + [ArtifactDelete(a.repository, a.id, outcome)])
  }

  function PurgeArtifacts(o: Oracle, t: Trace, artifacts: seq<Artifact>): (r: Ran<seq<ArtifactResult>>)
    ensures |r.value| == |artifacts|
  {
    if artifacts == [] then Ran([], t)
    else
      var n := |artifacts| - 1;
      var before := PurgeArtifacts(o, t, artifacts[..n]);
      var last := PurgeArtifact(o, before.trace, artifacts[n]);
      Ran(before.value + [last.value], last.trace)
  }

  predicate AllGone(logs: StepResult, artifacts: seq<ArtifactResult>) {
    IsGone(logs.state) && forall i :: 0 <= i < |artifacts| ==> IsGone(artifacts[i].state)
  }

  function FindArtifact(artifacts: seq<Artifact>, id: nat): Option<Artifact> {
    if artifacts == [] then None
    else if artifacts[0].id == id then Some(artifacts[0])
    else FindArtifact(artifacts[1..], id)
  }

  /** A planned artifact that is still listed was not really deleted. */
  function MarkResidual(r: ArtifactResult, residual: seq<Artifact>): ArtifactResult {
    match FindArtifact(residual, r.planned.id)
    case None => r
    case Some(current) =>
      ArtifactResult(r.planned, VerificationFailed, Some(current), Some(ArtifactStillExists))
  }

  function MarkResiduals(results: seq<ArtifactResult>, residual: seq<Artifact>): seq<ArtifactResult> {
    seq(|results|, i requires 0 <= i < |results| => MarkResidual(results[i], residual))
  }

  /** The last stage: fresh identity check, run DELETE, absence check. */
  function PurgeRun(o: Oracle, t: Trace, target: Target): Ran<StepResult> {
    var repository, id := target.run.repository, target.run.id;
    var found := o.run(t, repository, id);
    var t1 := t + [RunLookedUp(repository, id, found)];
    match found
    case Ok(None) => Ran(Step(AlreadyAbsent, None), t1)
    case Err(NotFound(_)) => Ran(Step(AlreadyAbsent, None), t1)
    case Err(e) => Ran(Step(RevalidationFailed, Some(ProviderSaid(e))), t1)
    case Ok(Some(current)) =>
      if !target.run.HasSamePurgeIdentity(current) then
        Ran(Step(Changed, Some(IdentityChanged)), t1)
      else
        var outcome := o.deleteRun(t1, repository, id);
        var t2 := t1 + [RunDelete(repository, id, outcome)];
        if outcome == Ok(DeletedNow) then VerifyAbsence(o, t2, target)
        else Ran(DeleteStep(outcome), t2)
  }

  function VerifyAbsence(o: Oracle, t: Trace, target: Target): Ran<StepResult> {
    var repository, id := target.run.repository, target.run.id;
    var found := o.run(t, repository, id);
    var t1 := t + [RunLookedUp(repository, id, found)];
    match found
    case Ok(None) => Ran(Step(Deleted, None), t1)
    case Err(NotFound(_)) => Ran(Step(Deleted, None), t1)
    case Ok(Some(_)) =>
      Ran(Step(VerificationFailed, Some(RunStillExists)), t1)
    case Err(e) =>
      Ran(Step(VerificationFailed,
               Some(AfterDeleteUnverified(e))), t1)
  }

  /** After the dependencies: re-enumerate, and only then touch the run. */
  function Finish(o: Oracle, t: Trace, target: Target, logs: StepResult, artifacts: seq<ArtifactResult>): Ran<Item> {
    if !AllGone(logs, artifacts) then
      Ran(Item(target.run, logs, artifacts, [],
               Step(Blocked, Some(CleanupIncomplete))), t)
    else
      var listed := o.artifacts(t, target.run.repository, target.run.id);
      var t1 := t + [ArtifactsListed(target.run.repository, target.run.id, listed)];
      match listed
      case Err(e) =>
        Ran(Item(target.run, logs, artifacts, [],
                 Step(VerificationFailed, Some(DependenciesUnverified(e)))), t1)
      case Ok(residual) =>
        if residual != [] then
          Ran(Item(target.run, logs, MarkResiduals(artifacts, residual), residual,
                   Step(Blocked, Some(DependenciesRemain(residual)))), t1)
        else
          var run := PurgeRun(o, t1, target);
          Ran(Item(target.run, logs, artifacts, [], run.value), run.trace)
  }

  function Cleanup(o: Oracle, t: Trace, target: Target): Ran<Item> {
    var logs := PurgeLogs(o, t, target);
    var artifacts := PurgeArtifacts(o, logs.trace, target.artifacts);
    Finish(o, artifacts.trace, target, logs.value, artifacts.value)
  }

  function CheckDrift(o: Oracle, t: Trace, target: Target): Ran<Item> {
    var listed := o.artifacts(t, target.run.repository, target.run.id);
    var t1 := t + [ArtifactsListed(target.run.repository, target.run.id, listed)];
    match listed
    case Err(e) => Ran(BlockedItem(target, RevalidationFailed, Some(ProviderSaid(e))), t1)
    case Ok(current) =>
      var drift := ArtifactDrift(target.artifacts, current);
      if Drifted(drift) then
        Ran(BlockedItem(target, Changed,
                        Some(DriftFound(drift))), t1)
      else Cleanup(o, t1, target)
  }

  function Preflight(o: Oracle, t: Trace, target: Target): Ran<Item> {
    var found := o.run(t, target.run.repository, target.run.id);
    var t1 := t + [RunLookedUp(target.run.repository, target.run.id, found)];
    match found
    case Ok(None) => Ran(AbsentItem(target), t1)
    case Err(NotFound(_)) => Ran(AbsentItem(target), t1)
    case Err(e) => Ran(BlockedItem(target, RevalidationFailed, Some(ProviderSaid(e))), t1)
    case Ok(Some(current)) =>
      if current != target.run then Ran(BlockedItem(target, Changed, None), t1)
      else CheckDrift(o, t1, target)
  }

  function UnverifiableItem(target: Target, e: ProtectionError): Item {
    BlockedItem(target, Blocked, Some(LeaseFailed(e)))
  }

  function UnderLease(o: Oracle, t: Trace, target: Target, key: ProtectionKey): Ran<Item> {
    var assessed := o.assess(t, key, target.run);
    var t1 := t + [ProtectionAssessed(key, assessed)];
    match assessed
    case Err(e) => Ran(UnverifiableItem(target, e), t1)
    case Ok(assessment) =>
      match ProtectionBlockReason(assessment)
      case Some(reason) => Ran(BlockedItem(target, Blocked, Some(reason)), t1)
      case None => Preflight(o, t1, target)
  }

  /** `execute_target`: the lease is held from its acquisition to the return. */
  function RunTarget(o: Oracle, t: Trace, target: Target, key: ProtectionKey): Ran<Item> {
    var failure := o.acquire(t, key);
    var t1 := t + [LeaseAcquired(key, failure)];
    match failure
    case Some(e) => Ran(UnverifiableItem(target, e), t1)
    case None =>
      var held := UnderLease(o, t1, target, key);
      Ran(held.value, held.trace + [LeaseReleased(key)])
  }

  // --- the batch ---------------------------------------------------------------------------------

  predicate HasPhrase(text: string) { T.Contains(text, RATE_LIMIT_PHRASE) }

  predicate MentionsRateLimit(error: Option<Message>) {
    error.Some? && HasPhrase(error.value.Text())
  }

  /** The batch learns of a rate limit only from the words in the report. */
  predicate HitRateLimit(item: Item) {
    || MentionsRateLimit(item.logs.error)
    || MentionsRateLimit(item.run.error)
    || exists i :: 0 <= i < |item.artifacts| && MentionsRateLimit(item.artifacts[i].error)
  }

  predicate LowHeadroom(remaining: Option<nat>) { remaining.Some? && remaining.value <= HEADROOM }

  /** The loop's variables; `marks` remembers where in the history each target began. */
  datatype Batch = Batch(items: seq<Item>, trace: Trace, halt: Option<Message>, marks: seq<nat>)

  function NextTarget(o: Oracle, b: Batch, target: Target, key: ProtectionKey): (r: Batch)
    ensures |r.items| == |b.items| + 1 && |r.marks| == |b.marks| + 1
  {
    hide RunTarget, HitRateLimit, BlockedItem;
    if b.halt.Some? then
      Batch(b.items + [BlockedItem(target, Blocked, b.halt)], b.trace, b.halt, b.marks + [|b.trace|])
    else
      var remaining := o.remaining(b.trace);
      var t1 := b.trace + [HeadroomRead(remaining)];
      if LowHeadroom(remaining) then
        var reason := Some(HaltedByHeadroom(remaining.value));
        Batch(b.items + [BlockedItem(target, Blocked, reason)], t1, reason, b.marks + [|t1|])
      else
        var ran := RunTarget(o, t1, target, key);
        Batch(b.items + [ran.value], ran.trace,
              if HitRateLimit(ran.value) then Some(HaltedByLimit) else None, b.marks + [|ran.trace|])
  }

  function RunBatch(o: Oracle, t: Trace, targets: seq<Target>, instance: string, account: Account): (b: Batch)
    ensures |b.items| == |targets| && |b.marks| == |targets| + 1
  {
    hide NextTarget;
    if targets == [] then Batch([], t, None, [|t|])
    else
      var n := |targets| - 1;
      NextTarget(o, RunBatch(o, t, targets[..n], instance, account), targets[n],
          KeyForRun(instance, account, targets[n].run))
  }

  // --- report totals -------------------------------------------------------------------------------

  function DeletedBytes(r: ArtifactResult): nat { if r.state == Deleted then r.planned.sizeInBytes else 0 }

  function AllResults(items: seq<Item>): seq<ArtifactResult> {
    if items == [] then [] else AllResults(items[..|items| - 1]) + items[|items| - 1].artifacts
  }

  /** `reclaimed_artifact_bytes`: a saturating fold over the deleted artifacts. */
  function ReclaimedBytes(items: seq<Item>): U64 { SaturatingTotal(AllResults(items), DeletedBytes) }

  predicate ItemSucceeded(item: Item) {
    IsGone(item.logs.state) && IsGone(item.run.state) && forall i :: 0 <= i < |item.artifacts| ==>
        IsGone(item.artifacts[i].state)
  }

  predicate IsCompleteSuccess(items: seq<Item>) {
    forall i :: 0 <= i < |items| ==> ItemSucceeded(items[i])
  }
}

/**
 * `RunPurgeRevalidationService`: the read-only review that must pass before a plan may be executed.
 * Its rate-limit halt looks at the error itself, where the executor reads the words of its report.
 */
module RunPurgeRevalidation {
  import opened Prelude
  import opened Domain
  import opened Sorting
  import opened RunProtections
  import opened RunPurgePlans
  import opened RunPurgeRemote
  import opened RunPurgeExecution
  import opened RunPurgeExecutor

  const NO_DRIFT := Drift([], [], [])

  function Reviewed(target: Target, state: ReviewState, drift: Drift, current: Option<WorkflowRun>,
                    error: Option<Message>): ReviewItem {
    ReviewItem(target.run.repository.fullName, target.run.id, state, drift, current, error)
  }

  function ReviewFailedFor(target: Target, current: Option<WorkflowRun>, error: Message): ReviewItem {
    Reviewed(target, ReviewFailed, NO_DRIFT, current, Some(error))
  }

  function HaltAfter(e: ProviderError): Option<Message> {
    if e.RateLimited? then Some(ReviewHaltedByLimit) else None
  }

  /** The loop's variables: the report so far and the halt reason. */
  datatype Reviewing = Reviewing(items: seq<ReviewItem>, trace: Trace, halt: Option<Message>)

  function ReviewArtifacts(o: Oracle, r: Reviewing, target: Target): Reviewing {
    var listed := o.artifacts(r.trace, target.run.repository, target.run.id);
    var t1 := r.trace + [ArtifactsListed(target.run.repository, target.run.id, listed)];
    match listed
    case Ok(current) =>
      var drift := ArtifactDrift(target.artifacts, current);
      Reviewing(r.items + [Reviewed(target, if Drifted(drift) then ReviewedChanged else Ready, drift, Some(target.run),
          None)], t1, r.halt)
    case Err(e) => Reviewing(r.items + [ReviewFailedFor(target, Some(target.run), ProviderSaid(e))], t1, HaltAfter(e))
  }

  function ReviewRun(o: Oracle, r: Reviewing, target: Target): Reviewing {
    var found := o.run(r.trace, target.run.repository, target.run.id);
    var t1 := r.trace + [RunLookedUp(target.run.repository, target.run.id, found)];
    match found
    case Ok(None) => Reviewing(r.items
         + [Reviewed(target, ReviewedAbsent, Drift(IdsOf(target.artifacts), [], []), None, None)], t1, r.halt)
    case Err(NotFound(_)) => Reviewing(r.items
         + [Reviewed(target, ReviewedAbsent, Drift(IdsOf(target.artifacts), [], []), None, None)], t1, r.halt)
    case Err(e) => Reviewing(r.items + [ReviewFailedFor(target, None, ProviderSaid(e))], t1, HaltAfter(e))
    case Ok(Some(current)) =>
      if current != target.run then Reviewing(r.items
          + [Reviewed(target, ReviewedChanged, NO_DRIFT, Some(current), None)], t1, r.halt)
      else ReviewArtifacts(o, r.(trace := t1), target)
  }

  /** One turn after the protection check: halted, short of headroom, or looked up. */
  function ReviewUnprotected(o: Oracle, r: Reviewing, target: Target): Reviewing {
    if r.halt.Some? then r.(items := r.items + [ReviewFailedFor(target, None, r.halt.value)])
    else
      var remaining := o.remaining(r.trace);
      var t1 := r.trace + [HeadroomRead(remaining)];
      if LowHeadroom(remaining) then
        var reason := ReviewHaltedByHeadroom(remaining.value);
        Reviewing(r.items + [ReviewFailedFor(target, None, reason)], t1, Some(reason))
      else ReviewRun(o, r.(trace := t1), target)
  }

  /** One turn: protections are read afresh for every target, halted or not; their failure ends the review. */
  function NextReview(o: Oracle, r: Reviewing, target: Target, instance: string, account: Account): Result<Reviewing,
                      ProtectionError> {
    var entries := o.snapshot(r.trace);
    var t1 := r.trace + [SnapshotRead(entries)];
    if entries.Err? then Err(entries.error)
    else
      match ProtectionBlockReason(Assess(entries.value, instance, account, target.run))
      case Some(reason) => Ok(Reviewing(r.items + [ReviewFailedFor(target, None, reason)], t1, r.halt))
      case None => Ok(ReviewUnprotected(o, r.(trace := t1), target))
  }

  function ReviewAll(o: Oracle, t: Trace, targets: seq<Target>, instance: string, account: Account): Result<Reviewing,
                     ProtectionError> {
    if targets == [] then Ok(Reviewing([], t, None))
    else
      var n := |targets| - 1;
      var before := ReviewAll(o, t, targets[..n], instance, account);
      if before.Err? then before else NextReview(o, before.value, targets[n], instance, account)
  }

  // --- the service -----------------------------------------------------------------------------------

  predicate Continues(next: Result<Reviewing, ProtectionError>, r: Reviewing, item: ReviewItem, t: Trace,
                      halt: Option<Message>) {
    next == Ok(Reviewing(r.items + [item], t, halt))
  }

  method ReviewTarget(remote: Remote, target: Target, account: Account, halted: Option<Message>, ghost r: Reviewing)
    returns (item: Result<ReviewItem, ProtectionError>, halt: Option<Message>)
    requires r.trace == remote.trace && r.halt == halted
    modifies remote
    ensures item.Ok? ==> Continues(NextReview(remote.oracle, r, target, remote.instance, account), r, item.value,
            remote.trace, halt)
    ensures item.Err? ==> NextReview(remote.oracle, r, target, remote.instance, account) == Err(item.error)
  {
    hide Assess, ArtifactDrift, Drifted, ProtectionBlockReason;
    halt := halted;
    var entries := remote.ReadSnapshot();
    if entries.Err? {
      return Err(entries.error), halt;
    }
    var reason := ProtectionBlockReason(Assess(entries.value, remote.instance, account, target.run));
    if reason.Some? {
      return Ok(ReviewFailedFor(target, None, reason.value)), halt;
    }
    if halt.Some? {
      return Ok(ReviewFailedFor(target, None, halt.value)), halt;
    }
    var remaining := remote.ReadHeadroom();
    if remaining.Some? && remaining.value <= HEADROOM {
      halt := Some(ReviewHaltedByHeadroom(remaining.value));
      return Ok(ReviewFailedFor(target, None, halt.value)), halt;
    }
    var found := remote.LookUpRun(target.run.repository, target.run.id);
    match found {
      case Ok(None) =>
        return Ok(Reviewed(target, ReviewedAbsent, Drift(IdsOf(target.artifacts), [], []), None, None)), halt;
      case Err(NotFound(_)) =>
        return Ok(Reviewed(target, ReviewedAbsent, Drift(IdsOf(target.artifacts), [], []), None, None)), halt;
      case Err(e) =>
        return Ok(ReviewFailedFor(target, None, ProviderSaid(e))), HaltAfter(e);
      case Ok(Some(current)) =>
        if current != target.run {
          return Ok(Reviewed(target, ReviewedChanged, NO_DRIFT, Some(current), None)), halt;
        }
    }
    var listed := remote.ListArtifacts(target.run.repository, target.run.id);
    if listed.Err? {
      return Ok(ReviewFailedFor(target, Some(target.run), ProviderSaid(listed.error))), HaltAfter(listed.error);
    }
    var drift := ComputeDrift(target.artifacts, listed.value);
    item := Ok(Reviewed(target, if Drifted(drift) then ReviewedChanged else Ready, drift, Some(target.run), None));
  }

  method ReviewTargets(remote: Remote, targets: seq<Target>, account: Account)
    returns (r: Result<seq<ReviewItem>, ProtectionError>)
    modifies remote
    ensures r.Ok? <==> ReviewAll(remote.oracle, old(remote.trace), targets, remote.instance, account).Ok?
    ensures r.Ok? ==> var all := ReviewAll(remote.oracle, old(remote.trace), targets, remote.instance, account).value;
              r.value == all.items && remote.trace == all.trace
    ensures r.Err? ==> ReviewAll(remote.oracle, old(remote.trace), targets, remote.instance, account) == Err(r.error)
  {
    hide NextReview;
    var items: seq<ReviewItem> := [];
    var halt: Option<Message> := None;
    ghost var start := remote.trace;
    for i := 0 to |targets|
      invariant ReviewAll(remote.oracle, start, targets[..i], remote.instance, account)
                == Ok(Reviewing(items, remote.trace, halt))
    {
      assert targets[..i + 1][..i] == targets[..i];
      var item;
      item, halt := ReviewTarget(remote, targets[i], account, halt, Reviewing(items, remote.trace, halt));
      if item.Err? {
        FailureEndsReview(remote.oracle, start, targets, remote.instance, account, i + 1);
        return Err(item.error);
      }
      items := items + [item.value];
    }
    assert targets[..|targets|] == targets;
    r := Ok(items);
  }

  lemma {:induction false} FailureEndsReview(o: Oracle, t: Trace, targets: seq<Target>, instance: string,
                                             account: Account, i: nat)
    requires i <= |targets| && ReviewAll(o, t, targets[..i], instance, account).Err?
    ensures ReviewAll(o, t, targets, instance, account) == ReviewAll(o, t, targets[..i], instance, account)
    decreases |targets|
  {
    hide NextReview;
    if i == |targets| {
      assert targets[..i] == targets;
    } else {
      assert targets[..|targets| - 1][..i] == targets[..i];
      FailureEndsReview(o, t, targets[..|targets| - 1], instance, account, i);
    }
  }

  /** What the review computes once the plan and the account are accepted. */
  function ReviewPlan(o: Oracle, t: Trace, plan: Plan, instance: string): Result<Reviewing, ProtectionError> {
    var t1 := t + [AccountRead(Ok(plan.account))];
    var first := o.snapshot(t1);
    if first.Err? then Err(first.error)
      else ReviewAll(o, t1 + [SnapshotRead(first)], plan.targets, instance, plan.account)
  }

  /** Why no report is given: the plan, then the provider, then the account, then the protection store. */
  ghost predicate ReviewRefused(o: Oracle, t: Trace, plan: Plan, instance: string, error: ExecuteError) {
    var account := o.account(t);
    if !Intact(plan) then error.PlanRejected? && Explains(error.problem, plan.targets)
    else if account.Err? then error == Provider(account.error)
    else if account.value != plan.account then error == AccountMismatch
    else ReviewPlan(o, t, plan, instance).Err? && error == ProtectionStore(ReviewPlan(o, t, plan, instance).error)
  }

  /** `revalidate`. */
  method Revalidate(remote: Remote, plan: Plan) returns (r: Result<ReviewReport, ExecuteError>)
    modifies remote
    ensures r.Ok? <==> Intact(plan) && remote.oracle.account(old(remote.trace)) == Ok(plan.account)
                       && ReviewPlan(remote.oracle, old(remote.trace), plan, remote.instance).Ok?
    ensures r.Ok? ==> var all := ReviewPlan(remote.oracle, old(remote.trace), plan, remote.instance).value;
              r.value == ReviewReport(plan.account, all.items) && remote.trace == all.trace
    ensures r.Err? ==> ReviewRefused(remote.oracle, old(remote.trace), plan, remote.instance, r.error)
  {
    hide Intact, ReviewAll, Explains;
    var intact := ValidateIntegrity(plan);
    if intact.Err? {
      return Err(PlanRejected(intact.error));
    }
    var account := remote.ReadAccount();
    if account.Err? {
      return Err(Provider(account.error));
    }
    if account.value != plan.account {
      return Err(AccountMismatch);
    }
    var first := remote.ReadSnapshot();
    if first.Err? {
      return Err(ProtectionStore(first.error));
    }
    var items := ReviewTargets(remote, plan.targets, plan.account);
    if items.Err? {
      return Err(ProtectionStore(items.error));
    }
    r := Ok(ReviewReport(plan.account, items.value));
  }

  // --- what a review is worth --------------------------------------------------------------------------

  predicate ReviewTrouble(e: Event) { e.WasRateLimited() || (e.HeadroomRead? && LowHeadroom(e.remaining)) }

  /** What one turn adds: one item for its target, and no destructive request. */
  ghost predicate Turn(r: Reviewing, next: Reviewing, target: Target) {
    && |next.items| == |r.items| + 1 && r.items == next.items[..|r.items|]
    && next.items[|r.items|].repository == target.run.repository.fullName
       && next.items[|r.items|].runId == target.run.id
    && r.trace <= next.trace
    && (forall k :: |r.trace| <= k < |next.trace| ==> !next.trace[k].IsDelete())
    && (r.halt.Some? ==> next.halt == r.halt && next.items[|r.items|].state == ReviewFailed)
    && (r.halt.Some? ==> forall k :: |r.trace| <= k < |next.trace| ==> next.trace[k].SnapshotRead?)
    && (forall k :: |r.trace| <= k < |next.trace| && ReviewTrouble(next.trace[k]) ==>
          next.halt.Some? && next.items[|r.items|].state == ReviewFailed)
  }

  lemma TurnAfter(r: Reviewing, e: Event, next: Reviewing, target: Target)
    requires Turn(r.(trace := r.trace + [e]), next, target)
    requires !e.IsDelete() && !ReviewTrouble(e) && (r.halt.Some? ==> e.SnapshotRead?)
    ensures Turn(r, next, target)
  {
  }

  lemma ArtifactsTurn(o: Oracle, r: Reviewing, target: Target)
    requires r.halt.None?
    ensures Turn(r, ReviewArtifacts(o, r, target), target)
  {
    hide ArtifactDrift, Drifted;
  }

  lemma RunTurn(o: Oracle, r: Reviewing, target: Target)
    requires r.halt.None?
    ensures Turn(r, ReviewRun(o, r, target), target)
  {
    hide ReviewArtifacts, IdsOf;
    var found := o.run(r.trace, target.run.repository, target.run.id);
    var e := RunLookedUp(target.run.repository, target.run.id, found);
    if found == Ok(Some(target.run)) {
      ArtifactsTurn(o, r.(trace := r.trace + [e]), target);
      TurnAfter(r, e, ReviewRun(o, r, target), target);
    }
  }

  lemma UnprotectedTurn(o: Oracle, r: Reviewing, target: Target)
    ensures Turn(r, ReviewUnprotected(o, r, target), target)
  {
    hide ReviewRun;
    if r.halt.None? {
      var remaining := o.remaining(r.trace);
      var e := HeadroomRead(remaining);
      if !LowHeadroom(remaining) {
        RunTurn(o, r.(trace := r.trace + [e]), target);
        TurnAfter(r, e, ReviewUnprotected(o, r, target), target);
      }
    }
  }

  lemma ReviewTurn(o: Oracle, r: Reviewing, target: Target, instance: string, account: Account)
    requires NextReview(o, r, target, instance, account).Ok?
    ensures Turn(r, NextReview(o, r, target, instance, account).value, target)
  {
    hide ReviewUnprotected, Assess, ProtectionBlockReason;
    var entries := o.snapshot(r.trace);
    var e := SnapshotRead(entries);
    var reason := ProtectionBlockReason(Assess(entries.value, instance, account, target.run));
    if reason.None? {
      var held := r.(trace := r.trace + [e]);
      UnprotectedTurn(o, held, target);
      TurnAfter(r, e, ReviewUnprotected(o, held, target), target);
    }
  }

  /** The review names the plan's targets one for one, in order, and never asks for a deletion. */
  lemma {:induction false} ReviewMatchesPlan(o: Oracle, t: Trace, targets: seq<Target>, instance: string,
                                             account: Account)
    requires ReviewAll(o, t, targets, instance, account).Ok?
    ensures var r := ReviewAll(o, t, targets, instance, account).value;
            && |r.items| == |targets| && t <= r.trace
            && (forall i :: 0 <= i < |targets| ==>
                  r.items[i].repository == targets[i].run.repository.fullName && r.items[i].runId == targets[i].run.id)
            && (forall k :: |t| <= k < |r.trace| ==> !r.trace[k].IsDelete())
    decreases |targets|
  {
    hide NextReview, ReviewTrouble;
    if targets != [] {
      var n := |targets| - 1;
      ReviewMatchesPlan(o, t, targets[..n], instance, account);
      var before := ReviewAll(o, t, targets[..n], instance, account).value;
      ReviewTurn(o, before, targets[n], instance, account);
      var r := ReviewAll(o, t, targets, instance, account).value;
      assert forall i :: 0 <= i < n ==> r.items[i] == before.items[i];
    }
  }

  /** So the executor accepts a plan's own review exactly when every target is ready or already absent. */
  lemma OwnReviewAccepted(o: Oracle, t: Trace, plan: Plan, instance: string)
    requires ReviewAll(o, t, plan.targets, instance, plan.account).Ok?
    ensures var items := ReviewAll(o, t, plan.targets, instance, plan.account).value.items;
            ValidateReview(plan, ReviewReport(plan.account, items)).Ok? <==> SafeToApply(items)
  {
    hide ReviewAll, SafeToApply;
    ReviewMatchesPlan(o, t, plan.targets, instance, plan.account);
  }

  /** A review stopped early: nothing but local protection snapshots follows, and every item fails. */
  ghost predicate Stopped(p: Reviewing, r: Reviewing) {
    && (forall j :: |p.items| <= j < |r.items| ==> r.items[j].state == ReviewFailed)
    && (forall k :: |p.trace| <= k < |r.trace| ==> r.trace[k].SnapshotRead?)
  }

  lemma {:induction false} ReviewPrefix(o: Oracle, t: Trace, targets: seq<Target>, instance: string, account: Account,
                                        i: nat)
    requires i <= |targets| && ReviewAll(o, t, targets, instance, account).Ok?
    ensures var p := ReviewAll(o, t, targets[..i], instance, account);
            var r := ReviewAll(o, t, targets, instance, account).value;
            && p.Ok? && p.value.items <= r.items && p.value.trace <= r.trace
            && (p.value.halt.Some? ==> r.halt == p.value.halt && Stopped(p.value, r))
    decreases |targets|
  {
    hide NextReview, ReviewTrouble;
    if i == |targets| {
      assert targets[..i] == targets;
    } else {
      var n := |targets| - 1;
      ReviewPrefix(o, t, targets[..n], instance, account, i);
      assert targets[..n][..i] == targets[..i];
      ReviewTurn(o, ReviewAll(o, t, targets[..n], instance, account).value, targets[n], instance, account);
    }
  }

  ghost predicate SomeFailed(items: seq<ReviewItem>) { exists i :: 0 <= i < |items| && items[i].state == ReviewFailed }

  lemma {:induction false} TroubleLeavesHalt(o: Oracle, t: Trace, targets: seq<Target>, instance: string,
                                             account: Account, k: nat)
    requires ReviewAll(o, t, targets, instance, account).Ok?
    requires var r := ReviewAll(o, t, targets, instance, account).value;
             |t| <= k < |r.trace|
             && ReviewTrouble(r.trace[k])
    ensures ReviewAll(o, t, targets, instance, account).value.halt.Some?
    ensures SomeFailed(ReviewAll(o, t, targets, instance, account).value.items)
    decreases |targets|
  {
    hide NextReview, ReviewTrouble;
    if targets != [] {
      var n := |targets| - 1;
      var before := ReviewAll(o, t, targets[..n], instance, account).value;
      var r := ReviewAll(o, t, targets, instance, account).value;
      ReviewTurn(o, before, targets[n], instance, account);
      if k < |before.trace| {
        TroubleLeavesHalt(o, t, targets[..n], instance, account, k);
        var i :| 0 <= i < |before.items| && before.items[i].state == ReviewFailed;
        assert r.items[i] == before.items[i];
      } else {
        assert r.items[|before.items|].state == ReviewFailed;
      }
    }
  }

  /**
   * Containment in the review: after a rate limit or low headroom among the first `i` targets, every
   * later target is reported as failed, only local protection snapshots are read, and the plan may
   * not be executed.
   */
  lemma ReviewRateLimitContained(o: Oracle, t: Trace, targets: seq<Target>, instance: string, account: Account, i: nat,
                                 k: nat)
    requires i <= |targets| && ReviewAll(o, t, targets, instance, account).Ok?
    requires ReviewAll(o, t, targets[..i], instance, account).Ok?
    requires var p := ReviewAll(o, t, targets[..i], instance, account).value;
             |t| <= k < |p.trace|
             && ReviewTrouble(p.trace[k])
    ensures var p := ReviewAll(o, t, targets[..i], instance, account).value;
            var r := ReviewAll(o, t, targets, instance, account).value;
            Stopped(p, r) && !SafeToApply(r.items)
  {
    hide ReviewAll, ReviewTrouble;
    TroubleLeavesHalt(o, t, targets[..i], instance, account, k);
    ReviewPrefix(o, t, targets, instance, account, i);
    var p, r := ReviewAll(o, t, targets[..i], instance, account).value,
        ReviewAll(o, t, targets, instance, account).value;
    var j :| 0 <= j < |p.items| && p.items[j].state == ReviewFailed;
    assert r.items[j] == p.items[j];
  }
}

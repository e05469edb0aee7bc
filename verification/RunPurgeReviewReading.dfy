/**
 * The whole review, read off its own history: the state of every item stands for exactly one kind of
 * answers, for every provider and protection store.
 */
module RunPurgeReviewReading {
  import opened Prelude
  import opened Domain
  import opened RunProtections
  import opened RunPurgePlans
  import opened RunPurgeRemote
  import opened RunPurgeExecution
  import opened RunPurgeExecutor
  import opened RunPurgeSafety
  import opened RunPurgeDrift
  import opened RunPurgeRevalidation

  /** No entry of the protections just read carries the run's id. */
  ghost predicate Unnamed(entries: seq<Protection>, instance: string, account: Account, run: WorkflowRun) {
    forall e :: e in entries ==> !NamesRun(e, instance, account, run)
  }

  /** At most 250 requests are left. */
  predicate Scarce(e: Event) { e.HeadroomRead? && e.remaining.Some? && e.remaining.value <= 250 }

  /**
   * How far one turn went: the protections are read first, and each further question is asked exactly
   * when every answer before it allowed it.
   */
  ghost predicate TurnHistory(d: Trace, halt: Option<Message>, target: Target, instance: string, account: Account) {
    && 1 <= |d| <= 4 && d[0].SnapshotRead? && d[0].entries.Ok?
    && (|d| >= 2 <==> Unnamed(d[0].entries.value, instance, account, target.run) && halt.None?)
    && (|d| >= 2 ==> d[1].HeadroomRead?)
    && (|d| >= 3 <==> |d| >= 2 && !Scarce(d[1]))
    && (|d| >= 3 ==> d[2].RunLookedUp? && d[2].repository == target.run.repository && d[2].id == target.run.id)
    && (|d| == 4 <==> |d| >= 3 && d[2].run == Ok(Some(target.run)))
    && (|d| == 4 ==> d[3].ArtifactsListed? && d[3].repository == target.run.repository && d[3].id == target.run.id)
  }

  /** The first question that was answered with an error. */
  predicate TurnError(d: Trace, e: ProviderError) {
    || (|d| == 3 && d[2].RunLookedUp? && d[2].run.Err? && !d[2].run.error.NotFound? && d[2].run.error == e)
    || (|d| == 4 && d[3].ArtifactsListed? && d[3].artifacts.Err? && d[3].artifacts.error == e)
  }

  /** The state names the answers, both ways. */
  ghost predicate StateTold(d: Trace, halt: Option<Message>, target: Target, instance: string, account: Account,
                            state: ReviewState)
    requires TurnHistory(d, halt, target, instance, account)
  {
    && (state == Ready <==> |d| == 4 && d[3].artifacts.Ok? && NoDrift(target.artifacts, d[3].artifacts.value))
    && (state == ReviewedAbsent <==> |d| == 3 && LookupGone(d[2].run))
    && (state == ReviewedChanged <==>
          || (|d| == 3 && d[2].run.Ok? && d[2].run.value.Some?)
          || (|d| == 4 && d[3].artifacts.Ok? && !NoDrift(target.artifacts, d[3].artifacts.value)))
    && (state == ReviewFailed <==> |d| <= 2 || exists e :: TurnError(d, e))
  }

  /** What the item quotes besides its state. */
  ghost predicate DetailsTold(d: Trace, halt: Option<Message>, target: Target, instance: string, account: Account,
                              item: ReviewItem)
    requires TurnHistory(d, halt, target, instance, account)
  {
    && item.repository == target.run.repository.fullName && item.runId == target.run.id
    && item.currentRun == (if |d| == 4 then Some(target.run)
                           else if |d| == 3 && d[2].run.Ok? then d[2].run.value else None)
    && (if |d| == 4 && d[3].artifacts.Ok? then DriftSays(target.artifacts, d[3].artifacts.value, item.drift)
        else if |d| == 3 && LookupGone(d[2].run) then
          && item.drift.changed == [] && item.drift.unexpected == [] && |item.drift.missing| == |target.artifacts|
          && forall i :: 0 <= i < |target.artifacts| ==> item.drift.missing[i] == target.artifacts[i].id
        else item.drift == Drift([], [], []))
  }

  ghost predicate ErrorTold(d: Trace, halt: Option<Message>, target: Target, instance: string, account: Account,
                            error: Option<Message>)
    requires TurnHistory(d, halt, target, instance, account)
  {
    if |d| == 1 then
      match Assess(d[0].entries.value, instance, account, target.run)
      case NoEntry => error == halt
      case Protected(entry) => error == Some(ProtectedFor(entry.reason))
      case Review(code, explanation) => error == Some(NeedsReview(code, explanation))
    else if |d| == 2 then error == Some(ReviewHaltedByHeadroom(d[1].remaining.value))
    else
      && (error.Some? <==> exists e :: TurnError(d, e))
      && forall e :: TurnError(d, e) ==> error == Some(ProviderSaid(e))
  }

  /** Scarce headroom or a rate limit stops the review; nothing else does, and nothing restarts it. */
  ghost predicate HaltTold(d: Trace, halt: Option<Message>, target: Target, instance: string, account: Account,
                           next: Option<Message>)
    requires TurnHistory(d, halt, target, instance, account)
  {
    if |d| == 2 then next == Some(ReviewHaltedByHeadroom(d[1].remaining.value))
    else if exists e :: TurnError(d, e) && e.RateLimited? then next == Some(ReviewHaltedByLimit)
    else next == halt
  }

  ghost predicate ReviewTold(d: Trace, halt: Option<Message>, target: Target, instance: string, account: Account,
                             item: ReviewItem, next: Option<Message>)
  {
    && TurnHistory(d, halt, target, instance, account)
    && StateTold(d, halt, target, instance, account, item.state)
    && DetailsTold(d, halt, target, instance, account, item)
    && ErrorTold(d, halt, target, instance, account, item.error)
    && HaltTold(d, halt, target, instance, account, next)
  }

  lemma NoEntryIffUnnamed(entries: seq<Protection>, instance: string, account: Account, run: WorkflowRun)
    ensures Assess(entries, instance, account, run).NoEntry? <==> Unnamed(entries, instance, account, run)
  {
    hide Assess;
    NoEntryMeaning(entries, instance, account, run);
    var key := KeyForRun(instance, account, run);
    forall e: Protection ensures SameRunId(e, key) <==> NamesRun(e, instance, account, run) {}
  }

  ghost predicate TurnIs(o: Oracle, r: Reviewing, target: Target, instance: string, account: Account, d: Trace) {
    var next := NextReview(o, r, target, instance, account);
    && next.Ok? && |next.value.items| == |r.items| + 1 && next.value.items[..|r.items|] == r.items
    && next.value.trace == r.trace + d
    && ReviewTold(d, r.halt, target, instance, account, next.value.items[|r.items|], next.value.halt)
  }

  /** A turn that ends before the provider is asked anything. */
  lemma LocalTurn(o: Oracle, r: Reviewing, target: Target, instance: string, account: Account) returns (d: Trace)
    requires NextReview(o, r, target, instance, account).Ok?
    requires !Unnamed(o.snapshot(r.trace).value, instance, account, target.run) || r.halt.Some?
    ensures TurnIs(o, r, target, instance, account, d)
  {
    hide Unnamed, Assess, NoDrift, DriftSays;
    var entries := o.snapshot(r.trace);
    d := [SnapshotRead(entries)];
    NoEntryIffUnnamed(entries.value, instance, account, target.run);
  }

  /** A turn that reaches the provider. */
  ghost predicate AsksProvider(o: Oracle, r: Reviewing, target: Target, instance: string, account: Account) {
    && r.halt.None? && o.snapshot(r.trace).Ok?
    && Unnamed(o.snapshot(r.trace).value, instance, account, target.run)
  }

  lemma AskingTurn(o: Oracle, r: Reviewing, target: Target, instance: string, account: Account)
    requires AsksProvider(o, r, target, instance, account)
    ensures NextReview(o, r, target, instance, account)
         == Ok(ReviewUnprotected(o, r.(trace := r.trace + [SnapshotRead(o.snapshot(r.trace))]), target))
  {
    hide Unnamed, Assess, ReviewUnprotected;
    NoEntryIffUnnamed(o.snapshot(r.trace).value, instance, account, target.run);
  }

  lemma ShortTurn(o: Oracle, r: Reviewing, target: Target, instance: string, account: Account) returns (d: Trace)
    requires AsksProvider(o, r, target, instance, account)
    requires LowHeadroom(o.remaining(r.trace + [SnapshotRead(o.snapshot(r.trace))]))
    ensures TurnIs(o, r, target, instance, account, d)
  {
    hide Unnamed, Assess, NextReview, NoDrift, DriftSays;
    var e0 := SnapshotRead(o.snapshot(r.trace));
    var e1 := HeadroomRead(o.remaining(r.trace + [e0]));
    AskingTurn(o, r, target, instance, account);
    d := [e0, e1];
    assert r.trace + [e0] + [e1] == r.trace + d;
  }

  lemma LookupTurn(o: Oracle, r: Reviewing, target: Target, e0: Event, e1: Event, instance: string, account: Account)
    returns (d: Trace)
    requires AsksProvider(o, r, target, instance, account)
    requires e0 == SnapshotRead(o.snapshot(r.trace)) && e1 == HeadroomRead(o.remaining(r.trace + [e0]))
    requires !LowHeadroom(e1.remaining)
    requires o.run(r.trace + [e0] + [e1], target.run.repository, target.run.id) != Ok(Some(target.run))
    ensures TurnIs(o, r, target, instance, account, d)
  {
    hide Unnamed, Assess, NextReview, NoDrift, DriftSays, ReviewArtifacts;
    var t2 := r.trace + [e0] + [e1];
    var e2 := RunLookedUp(target.run.repository, target.run.id, o.run(t2, target.run.repository, target.run.id));
    AskingTurn(o, r, target, instance, account);
    d := [e0, e1, e2];
    assert t2 + [e2] == r.trace + d;
    assert e2.run.Err? && !e2.run.error.NotFound? ==> TurnError(d, e2.run.error);
  }

  lemma ListingTurn(o: Oracle, r: Reviewing, target: Target, e0: Event, e1: Event, instance: string, account: Account)
    returns (d: Trace)
    requires AsksProvider(o, r, target, instance, account)
    requires e0 == SnapshotRead(o.snapshot(r.trace)) && e1 == HeadroomRead(o.remaining(r.trace + [e0]))
    requires !LowHeadroom(e1.remaining)
    requires o.run(r.trace + [e0] + [e1], target.run.repository, target.run.id) == Ok(Some(target.run))
    ensures TurnIs(o, r, target, instance, account, d)
  {
    hide Unnamed, Assess, NextReview, NoDrift, DriftSays, ArtifactDrift, Drifted;
    var repository, id := target.run.repository, target.run.id;
    var t2 := r.trace + [e0] + [e1];
    var e2 := RunLookedUp(repository, id, o.run(t2, repository, id));
    var listed := o.artifacts(t2 + [e2], repository, id);
    var e3 := ArtifactsListed(repository, id, listed);
    AskingTurn(o, r, target, instance, account);
    d := [e0, e1, e2, e3];
    assert t2 + [e2] + [e3] == r.trace + d;
    if listed.Ok? {
      DriftMeaning(target.artifacts, listed.value);
      DriftIsExact(target.artifacts, listed.value);
    } else {
      assert TurnError(d, listed.error);
    }
  }

  /**
   * For every provider and store, one turn of the review adds one item, and its state, its drift lists,
   * its error and the next halt reason are exactly what the turn's own answers say.
   */
  lemma ReviewTurnIsTold(o: Oracle, r: Reviewing, target: Target, instance: string, account: Account) returns (d: Trace)
    requires NextReview(o, r, target, instance, account).Ok?
    ensures TurnIs(o, r, target, instance, account, d)
  {
    hide Unnamed, NextReview, TurnIs;
    SnapshotIsRead(o, r, target, instance, account);
    var e0 := SnapshotRead(o.snapshot(r.trace));
    var e1 := HeadroomRead(o.remaining(r.trace + [e0]));
    if !AsksProvider(o, r, target, instance, account) {
      d := LocalTurn(o, r, target, instance, account);
    } else if LowHeadroom(e1.remaining) {
      d := ShortTurn(o, r, target, instance, account);
    } else if o.run(r.trace + [e0] + [e1], target.run.repository, target.run.id) != Ok(Some(target.run)) {
      d := LookupTurn(o, r, target, e0, e1, instance, account);
    } else {
      d := ListingTurn(o, r, target, e0, e1, instance, account);
    }
  }

  lemma SnapshotIsRead(o: Oracle, r: Reviewing, target: Target, instance: string, account: Account)
    ensures NextReview(o, r, target, instance, account).Err? <==> o.snapshot(r.trace).Err?
    ensures o.snapshot(r.trace).Err? ==> NextReview(o, r, target, instance, account).error == o.snapshot(r.trace).error
  {
    hide Assess, ReviewUnprotected;
  }

  // --- the whole review ---------------------------------------------------------------------------------

  /** A history since `t`, cut into turns: one for every target, in order, handing on the halt reason. */
  ghost predicate ReviewCut(t: Trace, r: Reviewing, targets: seq<Target>, cuts: seq<nat>, halts: seq<Option<Message>>) {
    && |r.items| == |targets| && |cuts| == |halts| == |targets| + 1
    && t <= r.trace && cuts[0] == |t| && cuts[|targets|] == |r.trace| && halts[0] == None && halts[|targets|] == r.halt
  }

  ghost predicate ItemTold(r: Reviewing, targets: seq<Target>, instance: string, account: Account, cuts: seq<nat>,
                           halts: seq<Option<Message>>, i: nat)
    requires i < |targets| == |r.items| && |cuts| == |halts| == |targets| + 1
  {
    cuts[i] <= cuts[i + 1] <= |r.trace|
    && ReviewTold(r.trace[cuts[i]..cuts[i + 1]], halts[i], targets[i], instance, account, r.items[i], halts[i + 1])
  }

  lemma OneMoreTurn(t: Trace, before: Reviewing, targets: seq<Target>, target: Target, next: Reviewing,
                    instance: string, account: Account, cuts: seq<nat>, halts: seq<Option<Message>>, d: Trace)
    requires ReviewCut(t, before, targets, cuts, halts)
    requires forall i :: 0 <= i < |targets| ==> ItemTold(before, targets, instance, account, cuts, halts, i)
    requires |next.items| == |before.items| + 1 && next.items[..|before.items|] == before.items
    requires next.trace == before.trace + d
    requires ReviewTold(d, before.halt, target, instance, account, next.items[|before.items|], next.halt)
    ensures ReviewCut(t, next, targets + [target], cuts + [|next.trace|], halts + [next.halt])
    ensures forall i :: 0 <= i <= |targets| ==>
              ItemTold(next, targets + [target], instance, account, cuts + [|next.trace|], halts + [next.halt], i)
  {
    hide ReviewTold;
    forall i | 0 <= i <= |targets|
      ensures ItemTold(next, targets + [target], instance, account, cuts + [|next.trace|], halts + [next.halt], i)
    {
      if i < |targets| {
        assert ItemTold(before, targets, instance, account, cuts, halts, i);
        assert next.trace[cuts[i]..cuts[i + 1]] == before.trace[cuts[i]..cuts[i + 1]];
        assert next.items[i] == next.items[..|before.items|][i];
      } else {
        assert next.trace[|before.trace|..|next.trace|] == d;
      }
    }
  }

  /** The report of a review, item by item, is the reading of its history: for every provider and store. */
  lemma {:induction false} WholeReviewIsExact(o: Oracle, t: Trace, targets: seq<Target>, instance: string,
                                              account: Account)
    returns (cuts: seq<nat>, halts: seq<Option<Message>>)
    requires ReviewAll(o, t, targets, instance, account).Ok?
    ensures ReviewCut(t, ReviewAll(o, t, targets, instance, account).value, targets, cuts, halts)
    ensures forall i :: 0 <= i < |targets| ==>
              ItemTold(ReviewAll(o, t, targets, instance, account).value, targets, instance, account, cuts, halts, i)
    decreases |targets|
  {
    hide NextReview, ReviewTold, ItemTold;
    if targets == [] {
      cuts, halts := [|t|], [None];
    } else {
      var n := |targets| - 1;
      var before := ReviewAll(o, t, targets[..n], instance, account).value;
      cuts, halts := WholeReviewIsExact(o, t, targets[..n], instance, account);
      var next := ReviewAll(o, t, targets, instance, account).value;
      var d := ReviewTurnIsTold(o, before, targets[n], instance, account);
      OneMoreTurn(t, before, targets[..n], targets[n], next, instance, account, cuts, halts, d);
      assert targets == targets[..n] + [targets[n]];
      cuts, halts := cuts + [|next.trace|], halts + [next.halt];
    }
  }

  /** A review fails as a whole only because the protections could not be read, with that very failure. */
  lemma {:induction false} ReviewFailsWithItsStore(o: Oracle, t: Trace, targets: seq<Target>, instance: string,
                                                   account: Account)
    ensures var r := ReviewAll(o, t, targets, instance, account);
            r.Err? <==> exists i :: 0 <= i < |targets| && SnapshotFailsAt(o, t, targets, instance, account, i)
    ensures forall i :: 0 <= i < |targets| && SnapshotFailsAt(o, t, targets, instance, account, i) ==>
              var p := ReviewAll(o, t, targets[..i], instance, account).value;
              ReviewAll(o, t, targets, instance, account) == Err(o.snapshot(p.trace).error)
    decreases |targets|
  {
    hide NextReview;
    if targets != [] {
      var n := |targets| - 1;
      var before := ReviewAll(o, t, targets[..n], instance, account);
      ReviewFailsWithItsStore(o, t, targets[..n], instance, account);
      forall i | 0 <= i < n
        ensures SnapshotFailsAt(o, t, targets, instance, account, i)
           <==> SnapshotFailsAt(o, t, targets[..n], instance, account, i)
        ensures ReviewAll(o, t, targets[..n][..i], instance, account)
             == ReviewAll(o, t, targets[..i], instance, account)
      {
        assert targets[..n][..i] == targets[..i];
      }
      assert SnapshotFailsAt(o, t, targets, instance, account, n) <==>
             before.Ok? && o.snapshot(before.value.trace).Err?;
      if before.Ok? {
        SnapshotIsRead(o, before.value, targets[n], instance, account);
      }
    }
  }

  /** The protections could not be read at the turn of target `i`, the turns before it having gone well. */
  ghost predicate SnapshotFailsAt(o: Oracle, t: Trace, targets: seq<Target>, instance: string, account: Account, i: nat)
    requires i < |targets|
  {
    var p := ReviewAll(o, t, targets[..i], instance, account);
    p.Ok? && o.snapshot(p.value.trace).Err?
  }

  // --- what the executor makes of a report ------------------------------------------------------------------

  /** The report speaks of target `i`, and allows it to be purged. */
  predicate AllowsTarget(item: ReviewItem, target: Target) {
    && item.repository == target.run.repository.fullName && item.runId == target.run.id
    && item.state != ReviewedChanged && item.state != ReviewFailed
  }

  /** A report, wherever it comes from, opens the way exactly when it allows every target of this very plan. */
  lemma ReportVerdict(plan: Plan, review: ReviewReport)
    ensures ValidateReview(plan, review).Ok? <==>
            && review.account == plan.account && |review.items| == |plan.targets|
            && forall i :: 0 <= i < |plan.targets| ==> AllowsTarget(review.items[i], plan.targets[i])
    ensures ValidateReview(plan, review) == Err(AccountMismatch) <==> review.account != plan.account
    ensures ValidateReview(plan, review) == Err(UnsafeReviewedReport) <==>
            && review.account == plan.account && |review.items| == |plan.targets|
            && (forall i :: 0 <= i < |plan.targets| ==>
                  && review.items[i].repository == plan.targets[i].run.repository.fullName
                  && review.items[i].runId == plan.targets[i].run.id)
            && exists i :: 0 <= i < |plan.targets| && !AllowsTarget(review.items[i], plan.targets[i])
    ensures ValidateReview(plan, review).Err? ==>
              ValidateReview(plan, review).error in {AccountMismatch, ReviewedReportMismatch, UnsafeReviewedReport}
  {
    if ReviewCovers(plan, review) && SafeToApply(review.items) {
      assert forall i :: 0 <= i < |plan.targets| ==> AllowsTarget(review.items[i], plan.targets[i]);
    }
    if ReviewCovers(plan, review) && !SafeToApply(review.items) {
      var i :| 0 <= i < |review.items| && review.items[i].state != Ready && review.items[i].state != ReviewedAbsent;
      assert !AllowsTarget(review.items[i], plan.targets[i]);
    }
  }
}

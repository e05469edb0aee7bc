/**
 * Plan, review, purge: the three services one after the other on an honest store that nobody else
 * touches. A review says exactly what the store holds, and a freshly built plan always passes it.
 */
module RunPurgeEndToEnd {
  import opened Prelude
  import opened Domain
  import opened Sorting
  import opened RunProtections
  import opened RunPurgePlans
  import opened RunPurgeRemote
  import opened RunPurgeExecution
  import opened RunPurgeExecutor
  import opened RunPurgeSafety
  import opened RunPurgeHonest
  import opened RunPurgeRefinement
  import opened RunPurgeRevalidation
  import opened RunPurgePlanning

  // --- the review of an honest store ------------------------------------------------------------------------

  /** What the store itself says about a target. */
  ghost function TrueState(s: Inventory, target: Target): ReviewState {
    if RefOf(target) !in s.runs then ReviewedAbsent
    else if s.runs[RefOf(target)] == target.run && NoDrift(target.artifacts, Listing(s.artifacts, RefOf(target)))
      then Ready
    else ReviewedChanged
  }

  /** One honest turn: the next item tells the truth, nothing halts, and the store stays. */
  ghost predicate HonestTurn(s: Inventory, r: Reviewing, next: Reviewing, target: Target, later: Inventory) {
    && next.halt.None? && |next.items| == |r.items| + 1 && next.items[..|r.items|] == r.items
    && next.items[|r.items|].state == TrueState(s, target)
    && later == s
  }

  lemma HonestListing(o: Oracle, initial: Inventory, clock: Clock, r: Reviewing, target: Target)
    requires Honest(o, initial, clock) && r.halt.None?
    requires RunIn(World(initial, clock, r.trace), RefOf(target)) == Some(target.run)
    ensures var next := ReviewArtifacts(o, r, target);
            HonestTurn(World(initial, clock, r.trace), r, next, target, World(initial, clock, next.trace))
  {
    hide World, ArtifactDrift, NoDrift, Listing, Drifted;
    var s := World(initial, clock, r.trace);
    var listed := o.artifacts(r.trace, target.run.repository, target.run.id);
    WorldAppend(initial, clock, r.trace, ArtifactsListed(target.run.repository, target.run.id, listed));
    DriftMeaning(target.artifacts, Listing(s.artifacts, RefOf(target)));
  }

  lemma HonestLookups(o: Oracle, initial: Inventory, clock: Clock, r: Reviewing, target: Target)
    requires Honest(o, initial, clock) && r.halt.None?
    ensures var next := ReviewRun(o, r, target);
            HonestTurn(World(initial, clock, r.trace), r, next, target, World(initial, clock, next.trace))
  {
    hide World, NoDrift, IdsOf, Listing, ReviewArtifacts;
    var s := World(initial, clock, r.trace);
    var e := RunLookedUp(target.run.repository, target.run.id, o.run(r.trace, target.run.repository, target.run.id));
    var t1 := r.trace + [e];
    WorldAppend(initial, clock, r.trace, e);
    if RunIn(s, RefOf(target)) == Some(target.run) {
      HonestListing(o, initial, clock, r.(trace := t1), target);
    }
  }

  lemma HonestReviewNext(o: Oracle, initial: Inventory, clock: Clock, r: Reviewing, target: Target, instance: string,
                         account: Account)
    requires Honest(o, initial, clock) && r.halt.None?
    ensures var next := NextReview(o, r, target, instance, account);
            next.Ok? && HonestTurn(World(initial, clock, r.trace), r, next.value, target,
                World(initial, clock, next.value.trace))
  {
    hide World, ReviewRun, TrueState;
    var e := SnapshotRead(o.snapshot(r.trace));
    var t1 := r.trace + [e];
    WorldAppend(initial, clock, r.trace, e);
    var e1 := HeadroomRead(o.remaining(t1));
    WorldAppend(initial, clock, t1, e1);
    HonestLookups(o, initial, clock, r.(trace := t1 + [e1]), target);
  }

  /** On an honest store a review reports every target's true state and changes nothing. */
  lemma {:induction false} HonestReview(o: Oracle, initial: Inventory, clock: Clock, t: Trace, targets: seq<Target>,
                                        instance: string, account: Account)
    requires Honest(o, initial, clock)
    ensures var s, r := World(initial, clock, t), ReviewAll(o, t, targets, instance, account);
            && r.Ok? && r.value.halt.None? && TellsTruth(s, targets, r.value.items)
            && World(initial, clock, r.value.trace) == s
    decreases |targets|
  {
    hide World, Honest, NextReview, TrueState;
    if targets != [] {
      var n := |targets| - 1;
      HonestReview(o, initial, clock, t, targets[..n], instance, account);
      var before := ReviewAll(o, t, targets[..n], instance, account).value;
      HonestReviewNext(o, initial, clock, before, targets[n], instance, account);
      TruthAppend(World(initial, clock, t), targets, before.items,
          ReviewAll(o, t, targets, instance, account).value.items);
    }
  }

  ghost predicate TellsTruth(s: Inventory, targets: seq<Target>, items: seq<ReviewItem>) {
    |items| == |targets| && forall i :: 0 <= i < |targets| ==> items[i].state == TrueState(s, targets[i])
  }

  lemma TruthAppend(s: Inventory, targets: seq<Target>, before: seq<ReviewItem>, items: seq<ReviewItem>)
    requires targets != [] && TellsTruth(s, targets[..|targets| - 1], before)
    requires |items| == |before| + 1 && items[..|before|] == before
             && items[|before|].state == TrueState(s, targets[|targets| - 1])
    ensures TellsTruth(s, targets, items)
  {
  }

  // --- a reviewed plan, whenever it was made ------------------------------------------------------------------------

  /** The plan's artifacts were once read from the store, each as its own run's. */
  ghost predicate ReadFrom(past: Inventory, targets: seq<Target>) {
    forall target, a :: target in targets && a in target.artifacts ==>
        a.repository == target.run.repository && Owned(a, target.run.id) in past.artifacts
  }

  /** The provider never hands an artifact over to another run; everything else may have changed. */
  ghost predicate OwnersKept(past: Inventory, s: Inventory) {
    forall x, y :: x in past.artifacts && y in s.artifacts && IsAt(y, x.artifact.repository, x.artifact.id) ==>
        y.runId == x.runId
  }

  /** Then a review without objections is all a purge needs. */
  lemma ReviewedIsPrepared(past: Inventory, s: Inventory, targets: seq<Target>, items: seq<ReviewItem>)
    requires TargetsFit(targets) && (forall target :: target in targets ==> target.deleteLogs)
    requires DistinctOwned(s.artifacts) && ReadFrom(past, targets) && OwnersKept(past, s)
    requires TellsTruth(s, targets, items) && SafeToApply(items)
    ensures Prepared(s, targets)
  {
    hide TargetFits, NoDrift, Listing, Find, DistinctOwned;
    forall target | target in targets ensures Settled(s, target) {
      var i :| 0 <= i < |targets| && targets[i] == target;
      assert items[i].state == TrueState(s, target);
      forall a | a in target.artifacts && Find(s.artifacts, target.run.repository, a.id).Some?
        ensures Find(s.artifacts, target.run.repository, a.id).value.runId == target.run.id
      {
        FindMeaning(s.artifacts, target.run.repository, a.id);
        assert Owned(a, target.run.id) in past.artifacts;
      }
    }
  }

  /** Exactly the planned objects are gone, all is reported as success, and the bytes reported are the bytes lost. */
  ghost predicate CompletelyPurged(s: Inventory, left: Inventory, targets: seq<Target>, b: Batch) {
    && ExactlyPurged(s, left, targets)
    && b.halt.None? && IsCompleteSuccess(b.items)
    && StoredBytes(left.artifacts) <= StoredBytes(s.artifacts)
    && ReclaimedBytes(b.items) == Cap(StoredBytes(s.artifacts) - StoredBytes(left.artifacts))
  }

  /**
   * A plan made from any earlier state of the store, reviewed now without objections and executed:
   * exactly the planned runs, logs and artifacts go. Of the store it is only assumed that an artifact
   * keeps its id to itself and stays with its run.
   */
  lemma ReviewedPurge(o: Oracle, initial: Inventory, clock: Clock, t: Trace, past: Inventory, targets: seq<Target>,
                      instance: string, account: Account)
    requires Honest(o, initial, clock) && TargetsFit(targets)
             && (forall target :: target in targets ==> target.deleteLogs)
    requires var s := World(initial, clock, t);
             DistinctOwned(s.artifacts) && ReadFrom(past, targets)
             && OwnersKept(past, s)
    ensures var s, review := World(initial, clock, t), ReviewAll(o, t, targets, instance, account);
            && review.Ok?
            && (SafeToApply(review.value.items) ==>
                  var b := RunBatch(o, review.value.trace, targets, instance, account);
                  CompletelyPurged(s, World(initial, clock, b.trace), targets, b))
  {
    hide World, Honest, ReviewAll, RunBatch, ExactlyPurged, TargetFits, DistinctOwned, ReadFrom, OwnersKept, Prepared,
      StoredBytes, ReclaimedBytes, ItemSucceeded, ItemsTell, TellsTruth, SafeToApply;
    HonestReview(o, initial, clock, t, targets, instance, account);
    var s, review := World(initial, clock, t), ReviewAll(o, t, targets, instance, account).value;
    if SafeToApply(review.items) {
      ReviewedIsPrepared(past, s, targets, review.items);
      HonestPurge(o, initial, clock, review.trace, targets, instance, account);
    }
  }

  // --- building a plan from an honest store --------------------------------------------------------------------

  /** A store that files every object where it says it belongs. */
  ghost predicate WellFormed(s: Inventory) {
    && DistinctOwned(s.artifacts)
    && (forall run :: run in s.runs ==> Ref(s.runs[run].repository, s.runs[run].id) == run)
    && (forall x :: x in s.artifacts && x.artifact.workflowRun.Some? ==> x.artifact.workflowRun.value.id == x.runId)
  }

  /** The selection: completed runs of the snapshot, still exactly so in the store. */
  ghost predicate Selectable(s: Inventory, snapshot: Snapshot, run: WorkflowRun) {
    RunIn(s, Ref(run.repository, run.id)) == Some(run) && run.IsCompleted() && run in snapshot.runs
  }

  function TargetOf(s: Inventory, run: WorkflowRun): Target {
    Target(run, Listing(s.artifacts, Ref(run.repository, run.id)), true)
  }

  function TargetsOf(s: Inventory, selected: seq<WorkflowRun>): (r: seq<Target>)
    ensures |r| == |selected|
  {
    seq(|selected|, i requires 0 <= i < |selected| => TargetOf(s, selected[i]))
  }

  lemma HonestLease(b: Build, initial: Inventory, clock: Clock, t: Trace, run: WorkflowRun)
    requires Honest(b.o, initial, clock) && RunIn(World(initial, clock, t), Ref(run.repository, run.id)) == Some(run)
    ensures var s, r := World(initial, clock, t), PlanUnderLease(b, t, run);
            r.Ok? && r.value.value == Some(TargetOf(s, run)) && World(initial, clock, r.value.trace) == s
  {
    hide World, Listing;
    var free := ProtectionAssessed(b.Key(run), Ok(NoEntry));
    WorldAppend(initial, clock, t, free);
    var t1 := t + [free];
    var e := RunLookedUp(run.repository, run.id, Ok(Some(run)));
    WorldAppend(initial, clock, t1, e);
    var t2 := t1 + [e];
    WorldAppend(initial, clock, t2, free);
    var t3 := t2 + [free];
    var list := ArtifactsListed(run.repository, run.id, b.o.artifacts(t3, run.repository, run.id));
    WorldAppend(initial, clock, t3, list);
    WorldAppend(initial, clock, t3 + [list], free);
  }

  lemma HonestPlanRun(b: Build, initial: Inventory, clock: Clock, t: Trace, run: WorkflowRun)
    requires Honest(b.o, initial, clock) && b.entries == [] && Selectable(World(initial, clock, t), b.snapshot, run)
    ensures var s, r := World(initial, clock, t), PlanRun(b, t, run);
            r.Ok? && r.value.value == Some(TargetOf(s, run)) && World(initial, clock, r.value.trace) == s
  {
    hide World, PlanUnderLease, TargetOf, WorkflowRun.IsCompleted;
    var e := HeadroomRead(b.o.remaining(t));
    WorldAppend(initial, clock, t, e);
    var lease := LeaseAcquired(b.Key(run), None);
    WorldAppend(initial, clock, t + [e], lease);
    HonestLease(b, initial, clock, t + [e] + [lease], run);
    WorldAppend(initial, clock, PlanUnderLease(b, t + [e] + [lease], run).value.trace, LeaseReleased(b.Key(run)));
  }

  lemma {:induction false} HonestPlanRuns(b: Build, initial: Inventory, clock: Clock, t: Trace,
                                          selected: seq<WorkflowRun>)
    requires Honest(b.o, initial, clock) && b.entries == []
    requires forall run :: run in selected ==> Selectable(World(initial, clock, t), b.snapshot, run)
    ensures var s, r := World(initial, clock, t), PlanRuns(b, t, selected);
            r.Ok? && r.value.value == TargetsOf(s, selected) && World(initial, clock, r.value.trace) == s
    decreases |selected|
  {
    hide World, Honest, PlanRun, TargetOf, Selectable;
    if selected != [] {
      var n := |selected| - 1;
      assert selected[n] in selected && forall run :: run in selected[..n] ==> run in selected;
      HonestPlanRuns(b, initial, clock, t, selected[..n]);
      HonestPlanRun(b, initial, clock, PlanRuns(b, t, selected[..n]).value.trace, selected[n]);
    }
  }

  lemma {:induction false} ListingDistinct(artifacts: seq<Owned>, run: Ref)
    requires DistinctOwned(artifacts)
    ensures DistinctArtifacts(Listing(artifacts, run))
  {
    if artifacts != [] {
      var n := |artifacts| - 1;
      ListingDistinct(artifacts[..n], run);
      ListingMembers(artifacts[..n], run);
      var before := Listing(artifacts[..n], run);
      if OwnedBy(artifacts[n], run) {
        forall i | 0 <= i < |before| ensures before[i].id != artifacts[n].artifact.id {
          assert before[i] in before;
          var k :| 0 <= k < n && artifacts[k] == Owned(before[i], run.id);
          assert !IsAt(artifacts[n], artifacts[k].artifact.repository, artifacts[k].artifact.id);
        }
      }
    }
  }

  lemma PlannedFits(s: Inventory, snapshot: Snapshot, run: WorkflowRun)
    requires WellFormed(s) && Selectable(s, snapshot, run)
    ensures TargetFits(TargetOf(s, run))
  {
    hide WorkflowRun.IsCompleted, Listing;
    var ref := Ref(run.repository, run.id);
    ListingDistinct(s.artifacts, ref);
    ListingMembers(s.artifacts, ref);
  }

  /** The members of a list of artifacts decide everything a plan cares about. */
  lemma SortedIsAsPlanned(s: Inventory, snapshot: Snapshot, run: WorkflowRun, target: Target)
    requires WellFormed(s) && Selectable(s, snapshot, run)
    requires target.run == run && multiset(target.artifacts) == multiset(TargetOf(s, run).artifacts)
    ensures AsPlanned(s, target)
  {
    hide WorkflowRun.IsCompleted, Listing, ById, Find;
    var ref := Ref(run.repository, run.id);
    var listed := Listing(s.artifacts, ref);
    forall a ensures a in target.artifacts <==> a in listed {
      MembersSurvive(target.artifacts, listed, a);
    }
    ListingDistinct(s.artifacts, ref);
    ListingMembers(s.artifacts, ref);
    forall a | a in listed
      ensures ById(listed, a.id) == Some(a)
      ensures Find(s.artifacts, run.repository, a.id) == Some(Owned(a, run.id))
    {
      ByIdMeaning(listed, a.id);
      FindMeaning(s.artifacts, run.repository, a.id);
      assert IsAt(Owned(a, run.id), run.repository, a.id);
    }
  }

  ghost predicate DistinctSelection(selected: seq<WorkflowRun>) {
    forall i, j :: 0 <= i < j < |selected| ==>
      RunKey(selected[i].repository.fullName, selected[i].id) != RunKey(selected[j].repository.fullName, selected[j].id)
  }

  /** A plan made from the store is intact, prepared for execution, and reviewed as ready throughout. */
  lemma FreshPlanIsReady(s: Inventory, snapshot: Snapshot, selected: seq<WorkflowRun>, selection: Selection,
                         now: Moment)
    requires WellFormed(s) && DistinctSelection(selected)
    requires forall run :: run in selected ==> Selectable(s, snapshot, run)
    ensures var plan := PlanOf(snapshot, now, selection, TargetsOf(s, selected));
            && Intact(plan) && Prepared(s, plan.targets)
            && (forall i :: 0 <= i < |plan.targets| ==> TrueState(s, plan.targets[i]) == Ready)
            && (forall target :: target in plan.targets ==> FreshTarget(s, selected, target))
            && (forall run :: run in selected ==> exists target :: target in plan.targets && target.run == run)
  {
    hide WorkflowRun.IsCompleted, Selectable, TargetOf, Sort, TargetFits, SummaryOf, AsPlanned, WellFormed;
    var targets := TargetsOf(s, selected);
    FreshTargetsFit(s, snapshot, selected);
    PlanOfIsIntact(snapshot, now, selection, targets);
    var prepared := PrepareTargets(targets);
    var planned := Sort(prepared, TargetLe);
    SortPermutes(prepared, TargetLe);
    forall target | target in planned
      ensures FreshTarget(s, selected, target) && AsPlanned(s, target) && target.deleteLogs
              && TrueState(s, target) == Ready
    {
      MembersSurvive(planned, prepared, target);
      var i :| 0 <= i < |prepared| && prepared[i] == target;
      assert selected[i] in selected;
      FreshTargetIsReady(s, snapshot, selected, i);
    }
    forall run | run in selected ensures exists target :: target in planned && target.run == run {
      var i :| 0 <= i < |selected| && selected[i] == run;
      TargetOfRun(s, run);
      MembersSurvive(planned, prepared, prepared[i]);
    }
    StoreIsDistinct(s);
  }

  lemma StoreIsDistinct(s: Inventory)
    requires WellFormed(s)
    ensures DistinctOwned(s.artifacts)
  {
  }

  lemma TargetOfRun(s: Inventory, run: WorkflowRun)
    ensures TargetOf(s, run).run == run && TargetOf(s, run).deleteLogs
  {
  }

  /** A planned target is one selected run with exactly the artifacts the store holds for it. */
  ghost predicate FreshTarget(s: Inventory, selected: seq<WorkflowRun>, target: Target) {
    && target.run in selected
    && multiset(target.artifacts) == multiset(TargetOf(s, target.run).artifacts)
  }

  lemma FreshTargetsFit(s: Inventory, snapshot: Snapshot, selected: seq<WorkflowRun>)
    requires WellFormed(s) && DistinctSelection(selected)
    requires forall run :: run in selected ==> Selectable(s, snapshot, run)
    ensures TargetsFit(TargetsOf(s, selected))
  {
    hide WorkflowRun.IsCompleted, Selectable, TargetOf, TargetFits, WellFormed;
    var targets := TargetsOf(s, selected);
    forall run | run in selected ensures TargetFits(TargetOf(s, run)) && TargetOf(s, run).run == run {
      PlannedFits(s, snapshot, run);
      TargetOfRun(s, run);
    }
    forall i, j | 0 <= i < j < |targets| ensures KeyOf(targets[i]) != KeyOf(targets[j]) {
      assert selected[i] in selected && selected[j] in selected;
    }
  }

  lemma FreshTargetIsReady(s: Inventory, snapshot: Snapshot, selected: seq<WorkflowRun>, i: nat)
    requires WellFormed(s) && i < |selected| && Selectable(s, snapshot, selected[i])
    ensures var target := PrepareTargets(TargetsOf(s, selected))[i];
            FreshTarget(s, selected, target) && AsPlanned(s, target) && target.deleteLogs
                && TrueState(s, target) == Ready
  {
    hide WorkflowRun.IsCompleted, Selectable, Sort, WellFormed, NoDrift, Listing, Find;
    var target := PrepareTargets(TargetsOf(s, selected))[i];
    SortPermutes(TargetOf(s, selected[i]).artifacts, ArtifactLe);
    SortedIsAsPlanned(s, snapshot, selected[i], target);
  }

  // --- the theorem ---------------------------------------------------------------------------------------------------

  /** The selected runs, their logs and all of their artifacts are gone, and nothing else is. */
  ghost predicate SelectionGone(s: Inventory, left: Inventory, selected: seq<WorkflowRun>) {
    var refs := set run | run in selected :: Ref(run.repository, run.id);
    && left.runs == s.runs - refs
    && left.logs == s.logs - refs
    && forall x :: x in left.artifacts <==> x in s.artifacts && Ref(x.artifact.repository, x.runId) !in refs
  }

  /**
   * Building a plan, reviewing it and executing it, with nothing else touching the store: the plan is
   * built, the review passes, and exactly the selected runs disappear with everything they own.
   */
  lemma PlanReviewPurge(b: Build, initial: Inventory, clock: Clock, t: Trace, selected: seq<WorkflowRun>,
                        selection: Selection, now: Moment)
    requires Honest(b.o, initial, clock) && b.entries == [] && WellFormed(World(initial, clock, t))
    requires DistinctSelection(selected)
    requires forall run :: run in selected ==> Selectable(World(initial, clock, t), b.snapshot, run)
    ensures var s, built := World(initial, clock, t), PlanRuns(b, t, selected);
            built.Ok?
            && var plan := PlanOf(b.snapshot, now, selection, built.value.value);
               var review := ReviewAll(b.o, built.value.trace, plan.targets, b.instance, b.account);
               Intact(plan) && review.Ok? && SafeToApply(review.value.items)
               && var run := RunBatch(b.o, review.value.trace, plan.targets, b.instance, b.account);
                  SelectionGone(s, World(initial, clock, run.trace), selected) && IsCompleteSuccess(run.items)
  {
    hide World, Honest, PlanRuns, ReviewAll, RunBatch, Selectable, WellFormed, Intact, PlanOf, TrueState,
      ExactlyPurged, FreshTarget, SelectionGone, ItemSucceeded, StoredBytes, ReclaimedBytes, ItemsTell, Prepared;
    var s := World(initial, clock, t);
    HonestPlanRuns(b, initial, clock, t, selected);
    var built := PlanRuns(b, t, selected).value;
    var plan := PlanOf(b.snapshot, now, selection, built.value);
    FreshPlanIsReady(s, b.snapshot, selected, selection, now);
    HonestReview(b.o, initial, clock, built.trace, plan.targets, b.instance, b.account);
    var review := ReviewAll(b.o, built.trace, plan.targets, b.instance, b.account).value;
    HonestPurge(b.o, initial, clock, review.trace, plan.targets, b.instance, b.account);
    SelectionIsGone(s, World(initial, clock, RunBatch(b.o, review.trace, plan.targets, b.instance, b.account).trace),
        selected, plan.targets, b.snapshot);
  }

  lemma SelectionIsGone(s: Inventory, left: Inventory, selected: seq<WorkflowRun>, targets: seq<Target>,
                        snapshot: Snapshot)
    requires WellFormed(s) && ExactlyPurged(s, left, targets)
    requires forall run :: run in selected ==> Selectable(s, snapshot, run)
    requires forall target :: target in targets ==> FreshTarget(s, selected, target)
    requires forall run :: run in selected ==> exists target :: target in targets && target.run == run
    ensures SelectionGone(s, left, selected)
  {
    hide WellFormed, FreshTarget, TakenBySome, Selectable;
    var refs := set run | run in selected :: Ref(run.repository, run.id);
    assert RefsOf(targets) == refs by {
      forall target | target in targets ensures target.run in selected { FreshRun(s, selected, target); }
      forall run | run in selected ensures Ref(run.repository, run.id) in RefsOf(targets) {
        var target :| target in targets && target.run == run;
      }
    }
    assert refs <= s.runs.Keys by {
      forall run | run in selected ensures Ref(run.repository,
          run.id) in s.runs { SelectableIsThere(s, snapshot, run); }
    }
    forall x | x in s.artifacts
      ensures TakenBySome(s, targets, x) <==> Ref(x.artifact.repository, x.runId) in refs
    {
      TakenMeansOwned(s, selected, targets, snapshot, x);
    }
  }

  lemma SelectableIsThere(s: Inventory, snapshot: Snapshot, run: WorkflowRun)
    requires Selectable(s, snapshot, run)
    ensures Ref(run.repository, run.id) in s.runs
  {
  }

  lemma FreshRun(s: Inventory, selected: seq<WorkflowRun>, target: Target)
    requires FreshTarget(s, selected, target)
    ensures target.run in selected
  {
  }

  lemma TakenMeansOwned(s: Inventory, selected: seq<WorkflowRun>, targets: seq<Target>, snapshot: Snapshot, x: Owned)
    requires WellFormed(s) && x in s.artifacts
    requires forall run :: run in selected ==> Selectable(s, snapshot, run)
    requires forall target :: target in targets ==> FreshTarget(s, selected, target)
    requires forall run :: run in selected ==> exists target :: target in targets && target.run == run
    ensures TakenBySome(s, targets, x) <==> exists run :: run in selected && OwnedBy(x, Ref(run.repository, run.id))
  {
    hide WellFormed, Selectable, FreshTarget, Takes, OwnedBy;
    if TakenBySome(s, targets, x) {
      var target :| target in targets && RefOf(target) in s.runs && Takes(target, x);
      FreshRun(s, selected, target);
      TakenIsOwned(s, selected, target, x);
    }
    if run :| run in selected && OwnedBy(x, Ref(run.repository, run.id)) {
      var target :| target in targets && target.run == run;
      SelectableIsThere(s, snapshot, run);
      TakenIsOwned(s, selected, target, x);
    }
  }

  /** A fresh target takes exactly the artifacts its run owns. */
  lemma TakenIsOwned(s: Inventory, selected: seq<WorkflowRun>, target: Target, x: Owned)
    requires WellFormed(s) && x in s.artifacts && FreshTarget(s, selected, target)
    ensures Takes(target, x) <==> OwnedBy(x, RefOf(target))
  {
    hide Listing;
    var listed := Listing(s.artifacts, RefOf(target));
    ListingMembers(s.artifacts, RefOf(target));
    forall a ensures a in target.artifacts <==> a in listed {
      MembersSurvive(target.artifacts, listed, a);
    }
    if Takes(target, x) {
      var a :| a in target.artifacts && a.id == x.artifact.id;
      var owned := Owned(a, target.run.id);
      var i :| 0 <= i < |s.artifacts| && s.artifacts[i] == owned;
      var j :| 0 <= j < |s.artifacts| && s.artifacts[j] == x;
      assert i == j;
    }
  }
}

/** Immutable workflow-run purge plans: `RunPurgePlan` of `run_purge.rs`. */
module RunPurgePlans {
  import opened Prelude
  import opened Domain
  import opened Sorting

  const PLAN_SCHEMA_VERSION: nat := 1

  datatype SelectionMode = ExplicitRunIds | AllCompleted | PolicyMode

  datatype Selection = Selection(
    mode: SelectionMode,
    requestedRunIds: seq<nat>,
    olderThanSeconds: Option<U64>,
    workflow: Option<string>,
    branch: Option<string>,
    event: Option<string>,
    conclusion: Option<string>,
    policyHash: Option<string>)

  datatype Target = Target(run: WorkflowRun, artifacts: seq<Artifact>, deleteLogs: bool)

  datatype Summary = Summary(runCount: nat, artifactCount: U64, artifactBytes: U64)

  datatype Plan = Plan(
    schemaVersion: nat,
    createdAt: Moment,
    scannedAt: Moment,
    account: Account,
    scope: ScanScope,
    selection: Selection,
    summary: Summary,
    targets: seq<Target>)

  datatype Snapshot = Snapshot(
    account: Account,
    scope: ScanScope,
    scannedAt: Moment,
    runs: seq<WorkflowRun>,
    issueCount: nat)

  datatype PlanError =
    | IncompleteSnapshot(issueCount: nat)
    | UnsupportedPlanSchema(found: nat)
    | RunNotCompleted(repository: string, runId: nat, status: string)
    | RunNotInSnapshot(repository: string, runId: nat)
    | DuplicateRunTarget(repository: string, runId: nat)
    | ArtifactRepositoryMismatch(repository: string, runId: nat, artifactId: nat)
    | ArtifactRunMismatch(repository: string, runId: nat, artifactId: nat, artifactRunId: nat)
    | DuplicateArtifactTarget(repository: string, runId: nat, artifactId: nat)
    | PlanSummaryMismatch

  // --- what a plan must satisfy ------------------------------------------------------------------

  datatype RunKey = RunKey(repository: string, id: nat)

  function KeyOf(t: Target): RunKey { RunKey(t.run.repository.fullName, t.run.id) }

  predicate ArtifactFits(run: WorkflowRun, a: Artifact) {
    a.repository == run.repository && (a.workflowRun.Some? ==> a.workflowRun.value.id == run.id)
  }

  ghost predicate DistinctArtifacts(artifacts: seq<Artifact>) {
    forall i, j :: 0 <= i < j < |artifacts| ==> artifacts[i].id != artifacts[j].id
  }

  ghost predicate TargetFits(t: Target) {
    && t.run.IsCompleted()
    && (forall a :: a in t.artifacts ==> ArtifactFits(t.run, a))
    && DistinctArtifacts(t.artifacts)
  }

  ghost predicate DistinctRuns(targets: seq<Target>) {
    forall i, j :: 0 <= i < j < |targets| ==> KeyOf(targets[i]) != KeyOf(targets[j])
  }

  ghost predicate TargetsFit(targets: seq<Target>) {
    DistinctRuns(targets) && forall t :: t in targets ==> TargetFits(t)
  }

  function SizeOf(a: Artifact): nat { a.sizeInBytes }

  function ArtifactsIn(t: Target): nat { |t.artifacts| }

  function BytesIn(t: Target): nat { SumBy(t.artifacts, SizeOf) }

  function SummaryOf(targets: seq<Target>): Summary {
    Summary(|targets|, Cap(SumBy(targets, ArtifactsIn)), Cap(SumBy(targets, BytesIn)))
  }

  /** What `validate_integrity` accepts. */
  ghost predicate Intact(plan: Plan) {
    && plan.schemaVersion == PLAN_SCHEMA_VERSION
    && TargetsFit(plan.targets)
    && plan.summary == SummaryOf(plan.targets)
  }

  // --- the order of a plan -----------------------------------------------------------------------

  predicate TargetLe(a: Target, b: Target) {
    PairLe(a.run.repository.fullName, a.run.id, b.run.repository.fullName, b.run.id)
  }

  predicate ArtifactLe(a: Artifact, b: Artifact) { a.id <= b.id }

  function WithSortedArtifacts(t: Target): Target { t.(artifacts := Sort(t.artifacts, ArtifactLe)) }

  function PrepareTargets(targets: seq<Target>): (r: seq<Target>)
    ensures |r| == |targets|
  {
    seq(|targets|, i requires 0 <= i < |targets| => WithSortedArtifacts(targets[i]))
  }

  function PlanOf(snapshot: Snapshot, createdAt: Moment, selection: Selection, targets: seq<Target>): Plan {
    Plan(PLAN_SCHEMA_VERSION, createdAt, snapshot.scannedAt, snapshot.account, snapshot.scope, selection,
         SummaryOf(PrepareTargets(targets)), Sort(PrepareTargets(targets), TargetLe))
  }

  lemma TargetLeIsPreorder()
    ensures TotalPreorder(TargetLe)
    ensures TotalPreorder(ArtifactLe)
  {
    forall a: Target, b: Target ensures TargetLe(a, b) || TargetLe(b, a) {
      PairLeTotal(a.run.repository.fullName, a.run.id, b.run.repository.fullName, b.run.id);
    }
    forall a: Target, b: Target, c: Target | TargetLe(a, b) && TargetLe(b, c) ensures TargetLe(a, c) {
      PairLeTransitive(a.run.repository.fullName, a.run.id, b.run.repository.fullName, b.run.id,
          c.run.repository.fullName, c.run.id);
    }
  }

  lemma SortingArtifactsKeepsFit(t: Target)
    ensures TargetFits(t) <==> TargetFits(WithSortedArtifacts(t))
    ensures multiset(WithSortedArtifacts(t).artifacts) == multiset(t.artifacts)
  {
    var sorted := Sort(t.artifacts, ArtifactLe);
    SortPermutes(t.artifacts, ArtifactLe);
    forall a ensures a in sorted <==> a in t.artifacts {
      MembersSurvive(sorted, t.artifacts, a);
    }
    if DistinctArtifacts(t.artifacts) {
      DistinctArtifactsSurvive(t.artifacts, sorted);
    }
    if DistinctArtifacts(sorted) {
      DistinctArtifactsSurvive(sorted, t.artifacts);
    }
  }

  /** Distinct ids stay distinct under any rearrangement, and so do distinct runs. */
  lemma DistinctArtifactsSurvive(xs: seq<Artifact>, ys: seq<Artifact>)
    requires DistinctArtifacts(xs) && multiset(xs) == multiset(ys)
    ensures DistinctArtifacts(ys)
  {
    var id := (a: Artifact) => a.id;
    DistinctSurvives(xs, ys, id);
    assert forall i, j :: 0 <= i < j < |ys| ==> id(ys[i]) != id(ys[j]);
  }

  lemma DistinctRunsSurvive(xs: seq<Target>, ys: seq<Target>)
    requires DistinctRuns(xs) && multiset(xs) == multiset(ys)
    ensures DistinctRuns(ys)
  {
    DistinctSurvives(xs, ys, KeyOf);
  }

  lemma SortingKeepsTotals(t: Target)
    ensures ArtifactsIn(WithSortedArtifacts(t)) == ArtifactsIn(t) && BytesIn(WithSortedArtifacts(t)) == BytesIn(t)
  {
    hide SumBy;
    SortPermutes(t.artifacts, ArtifactLe);
    SumByPermutation(Sort(t.artifacts, ArtifactLe), t.artifacts, SizeOf);
  }

  /** Sorting each target's artifacts changes no total. */
  lemma {:induction false} SummariesAgree(targets: seq<Target>)
    ensures SumBy(PrepareTargets(targets), ArtifactsIn) == SumBy(targets, ArtifactsIn)
    ensures SumBy(PrepareTargets(targets), BytesIn) == SumBy(targets, BytesIn)
  {
    hide ArtifactsIn, BytesIn, WithSortedArtifacts;
    if targets != [] {
      var n := |targets| - 1;
      SummariesAgree(targets[..n]);
      assert PrepareTargets(targets)[..n] == PrepareTargets(targets[..n]);
      SortingKeepsTotals(targets[n]);
    }
  }

  lemma PreparedFit(targets: seq<Target>)
    requires TargetsFit(targets)
    ensures TargetsFit(PrepareTargets(targets))
  {
    var prepared := PrepareTargets(targets);
    forall t | t in prepared ensures TargetFits(t) {
      var i :| 0 <= i < |prepared| && prepared[i] == t;
      assert targets[i] in targets;
      SortingArtifactsKeepsFit(targets[i]);
    }
  }

  lemma RearrangedFit(xs: seq<Target>, ys: seq<Target>)
    requires TargetsFit(xs) && multiset(xs) == multiset(ys)
    ensures TargetsFit(ys)
  {
    DistinctRunsSurvive(xs, ys);
    forall t | t in ys ensures TargetFits(t) {
      MembersSurvive(xs, ys, t);
    }
  }

  lemma PermutedSummary(xs: seq<Target>, ys: seq<Target>)
    requires multiset(xs) == multiset(ys)
    ensures SummaryOf(xs) == SummaryOf(ys)
  {
    SumByPermutation(xs, ys, ArtifactsIn);
    SumByPermutation(xs, ys, BytesIn);
    assert |multiset(xs)| == |xs| && |multiset(ys)| == |ys|;
  }

  /**
   * Every plan built from fitting targets passes its own integrity check after sorting, and its
   * summary is that of the targets as they were requested.
   */
  lemma PlanOfIsIntact(snapshot: Snapshot, createdAt: Moment, selection: Selection, targets: seq<Target>)
    requires TargetsFit(targets)
    ensures Intact(PlanOf(snapshot, createdAt, selection, targets))
    ensures PlanOf(snapshot, createdAt, selection, targets).summary == SummaryOf(targets)
  {
    SummariesAgree(targets);
    hide TargetFits, SumBy, Sort;
    var prepared := PrepareTargets(targets);
    SortPermutes(prepared, TargetLe);
    PreparedFit(targets);
    RearrangedFit(prepared, Sort(prepared, TargetLe));
    PermutedSummary(prepared, Sort(prepared, TargetLe));
  }

  predicate StrictlyBefore(a: Target, b: Target) { TargetLe(a, b) && KeyOf(a) != KeyOf(b) }

  /** Plans list their runs in strictly increasing (repository, id) order, drawn from the selection. */
  lemma PlanIsStrictlyOrdered(snapshot: Snapshot, createdAt: Moment, selection: Selection, targets: seq<Target>)
    requires TargetsFit(targets)
    ensures var planned := PlanOf(snapshot, createdAt, selection, targets).targets;
            && multiset(planned) == multiset(PrepareTargets(targets))
            && forall i, j :: 0 <= i < j < |planned| ==> StrictlyBefore(planned[i], planned[j])
  {
    var prepared := PrepareTargets(targets);
    PreparedFit(targets);
    SortPermutes(prepared, TargetLe);
    TargetLeIsPreorder();
    SortSorts(prepared, TargetLe);
    DistinctRunsSurvive(prepared, Sort(prepared, TargetLe));
  }

  /** A planned target is the requested one with its artifacts in ascending id order, and nothing else. */
  ghost predicate PreparedFrom(planned: Target, requested: Target) {
    && planned.run == requested.run && planned.deleteLogs == requested.deleteLogs
    && multiset(planned.artifacts) == multiset(requested.artifacts)
    && forall i, j :: 0 <= i < j < |planned.artifacts| ==> planned.artifacts[i].id <= planned.artifacts[j].id
  }

  lemma PreparedSays(t: Target)
    ensures PreparedFrom(WithSortedArtifacts(t), t)
  {
    SortPermutes(t.artifacts, ArtifactLe);
    TargetLeIsPreorder();
    SortSorts(t.artifacts, ArtifactLe);
    var sorted := Sort(t.artifacts, ArtifactLe);
    assert forall i, j :: 0 <= i < j < |sorted| ==> ArtifactLe(sorted[i], sorted[j]);
  }

  /** What a plan carries, field by field. */
  lemma PlanSays(snapshot: Snapshot, createdAt: Moment, selection: Selection, targets: seq<Target>)
    ensures var p := PlanOf(snapshot, createdAt, selection, targets);
            && p.schemaVersion == 1 && p.createdAt == createdAt && p.scannedAt == snapshot.scannedAt
            && p.account == snapshot.account && p.scope == snapshot.scope && p.selection == selection
            && p.summary.runCount == |targets|
            && p.summary.artifactCount == Cap(SumBy(targets, (t: Target) => |t.artifacts|))
            && p.summary.artifactBytes
               == Cap(SumBy(targets, (t: Target) => SumBy(t.artifacts, (a: Artifact) => a.sizeInBytes)))
            && |PrepareTargets(targets)| == |targets| && multiset(p.targets) == multiset(PrepareTargets(targets))
            && forall i :: 0 <= i < |targets| ==> PreparedFrom(PrepareTargets(targets)[i], targets[i])
  {
    hide SumBy, Sort, PreparedFrom;
    var prepared := PrepareTargets(targets);
    SortPermutes(prepared, TargetLe);
    SummariesAgree(targets);
    SumSame(targets, ArtifactsIn, (t: Target) => |t.artifacts|);
    forall t: Target ensures BytesIn(t) == SumBy(t.artifacts, (a: Artifact) => a.sizeInBytes) {
      SumSame(t.artifacts, SizeOf, (a: Artifact) => a.sizeInBytes);
    }
    SumSame(targets, BytesIn, (t: Target) => SumBy(t.artifacts, (a: Artifact) => a.sizeInBytes));
    forall i | 0 <= i < |targets| ensures PreparedFrom(prepared[i], targets[i]) {
      PreparedSays(targets[i]);
    }
  }

  lemma {:induction false} SumSame<T(!new)>(xs: seq<T>, f: T -> nat, g: T -> nat)
    requires forall x :: f(x) == g(x)
    ensures SumBy(xs, f) == SumBy(xs, g)
  {
    if xs != [] {
      SumSame(xs[..|xs| - 1], f, g);
    }
  }

  // --- the source's loops -------------------------------------------------------------------------

  /** An error names something that is really wrong with the targets. */
  ghost predicate Explains(error: PlanError, targets: seq<Target>) {
    match error
    case RunNotCompleted(repository, id, status) =>
      exists t :: t in targets && KeyOf(t) == RunKey(repository, id) && t.run.status == status && !t.run.IsCompleted()
    case DuplicateRunTarget(repository, id) =>
      exists i, j :: 0 <= i < j < |targets| && KeyOf(targets[i]) == KeyOf(targets[j]) == RunKey(repository, id)
    case ArtifactRepositoryMismatch(repository, id, artifactId) =>
      exists t, a :: t in targets && a in t.artifacts && KeyOf(t) == RunKey(repository, id)
                     && a.id == artifactId && a.repository != t.run.repository
    case ArtifactRunMismatch(repository, id, artifactId, owner) =>
      exists t, a :: t in targets && a in t.artifacts && KeyOf(t) == RunKey(repository, id) && a.id == artifactId
                     && a.workflowRun.Some? && a.workflowRun.value.id == owner != t.run.id
    case DuplicateArtifactTarget(repository, id, artifactId) =>
      exists t :: t in targets && KeyOf(t) == RunKey(repository, id) && HasDuplicate(t.artifacts, artifactId)
    case _ => true
  }

  ghost predicate HasDuplicate(artifacts: seq<Artifact>, id: nat) {
    exists i, j :: 0 <= i < j < |artifacts| && artifacts[i].id == artifacts[j].id == id
  }

  datatype Totals = Totals(count: U64, bytes: U64)

  function TotalsOf(targets: seq<Target>): Totals {
    Totals(Cap(SumBy(targets, ArtifactsIn)), Cap(SumBy(targets, BytesIn)))
  }

  /** One more target's artifacts on top of the running totals. */
  function PlusTarget(before: Totals, t: Target): Totals {
    Totals(Cap(before.count + |t.artifacts|), Cap(before.bytes + BytesIn(t)))
  }

  lemma TotalsAppend(targets: seq<Target>, t: Target)
    ensures TotalsOf(targets + [t]) == PlusTarget(TotalsOf(targets), t)
  {
    var more := targets + [t];
    assert more[..|more| - 1] == targets;
  }

  /** `seen` holds exactly the keys of `targets`, which are distinct and fit so far. */
  ghost predicate CheckedSoFar(targets: seq<Target>, seen: set<RunKey>) {
    && TargetsFit(targets)
    && (forall t :: t in targets ==> KeyOf(t) in seen)
    && (forall key :: key in seen ==> exists t :: t in targets && KeyOf(t) == key)
  }

  lemma CheckedOneMore(targets: seq<Target>, seen: set<RunKey>, t: Target)
    requires CheckedSoFar(targets, seen) && TargetFits(t) && KeyOf(t) !in seen
    ensures CheckedSoFar(targets + [t], seen + {KeyOf(t)})
  {
    hide TargetFits;
    var more := targets + [t];
    forall i, j | 0 <= i < j < |more|
      ensures KeyOf(more[i]) != KeyOf(more[j])
    {
      if j < |targets| {
        assert more[i] == targets[i] && more[j] == targets[j];
      } else {
        assert more[i] in targets;
      }
    }
    assert t in more;
    assert forall x :: x in targets ==> x in more;
  }

  /** A repeated key is a real duplicate. */
  lemma SeenTwice(targets: seq<Target>, i: nat, seen: set<RunKey>)
    requires i < |targets| && CheckedSoFar(targets[..i], seen) && KeyOf(targets[i]) in seen
    ensures Explains(DuplicateRunTarget(targets[i].run.repository.fullName, targets[i].run.id), targets)
    ensures !DistinctRuns(targets)
  {
    hide TargetFits;
    var t :| t in targets[..i] && KeyOf(t) == KeyOf(targets[i]);
    var k :| 0 <= k < i && targets[..i][k] == t;
    assert targets[k] == t;
  }

  lemma UnfitTarget(targets: seq<Target>, i: nat)
    requires i < |targets| && !TargetFits(targets[i])
    ensures !TargetsFit(targets)
  {
    assert targets[i] in targets;
  }

  /** The first `i` artifacts fit, `seen` holds their ids, and the running totals cover them. */
  ghost predicate ArtifactsChecked(t: Target, before: Totals, i: nat, seen: set<nat>, totals: Totals)
    requires i <= |t.artifacts|
  {
    && (forall id :: id in seen <==> exists k :: 0 <= k < i && t.artifacts[k].id == id)
    && (forall k :: 0 <= k < i ==> ArtifactFits(t.run, t.artifacts[k]))
    && DistinctArtifacts(t.artifacts[..i])
    && totals == Totals(Cap(before.count + i), Cap(before.bytes + SumBy(t.artifacts[..i], SizeOf)))
  }

  lemma OneMoreChecked(t: Target, before: Totals, i: nat, seen: set<nat>, totals: Totals)
    requires i < |t.artifacts| && ArtifactsChecked(t, before, i, seen, totals)
    requires var a := t.artifacts[i]; ArtifactFits(t.run, a) && a.id !in seen
    ensures var a := t.artifacts[i];
            ArtifactsChecked(t, before, i + 1, seen + {a.id},
                Totals(SaturatingAdd(totals.count, 1), SaturatingAdd(totals.bytes, a.sizeInBytes)))
  {
    hide ArtifactFits;
    var artifacts := t.artifacts;
    assert artifacts[..i + 1][..i] == artifacts[..i];
    forall k | 0 <= k < i ensures artifacts[k].id != artifacts[i].id {
      assert artifacts[k].id in seen;
    }
  }

  lemma AllChecked(t: Target, before: Totals, seen: set<nat>, totals: Totals)
    requires t.run.IsCompleted() && ArtifactsChecked(t, before, |t.artifacts|, seen, totals)
    ensures TargetFits(t) && totals == PlusTarget(before, t)
  {
    hide ArtifactFits;
    assert t.artifacts[..|t.artifacts|] == t.artifacts;
  }

  /** The inner loop both checks share: one target's artifacts, with a set of the ids seen. */
  method CheckArtifacts(t: Target, before: Totals) returns (r: Result<Totals, PlanError>)
    requires t.run.IsCompleted()
    ensures r.Ok? <==> TargetFits(t)
    ensures r.Ok? ==> r.value == PlusTarget(before, t)
    ensures r.Err? ==> Explains(r.error, [t]) && IsArtifactError(r.error)
  {
    hide SumBy;
    var seen: set<nat> := {};
    var totals := before;
    assert t in [t];
    NoneChecked(t, before);
    for i := 0 to |t.artifacts|
      invariant ArtifactsChecked(t, before, i, seen, totals)
    {
      var a := t.artifacts[i];
      assert a in t.artifacts;
      if a.repository != t.run.repository {
        return Err(ArtifactRepositoryMismatch(t.run.repository.fullName, t.run.id, a.id));
      }
      if a.workflowRun.Some? && a.workflowRun.value.id != t.run.id {
        return Err(ArtifactRunMismatch(t.run.repository.fullName, t.run.id, a.id, a.workflowRun.value.id));
      }
      if a.id in seen {
        assert HasDuplicate(t.artifacts, a.id);
        return Err(DuplicateArtifactTarget(t.run.repository.fullName, t.run.id, a.id));
      }
      OneMoreChecked(t, before, i, seen, totals);
      seen := seen + {a.id};
      totals := Totals(SaturatingAdd(totals.count, 1), SaturatingAdd(totals.bytes, a.sizeInBytes));
    }
    AllChecked(t, before, seen, totals);
    r := Ok(totals);
  }

  lemma NoneChecked(t: Target, before: Totals)
    ensures ArtifactsChecked(t, before, 0, {}, before)
  {
  }

  predicate IsArtifactError(error: PlanError) {
    error.ArtifactRepositoryMismatch? || error.ArtifactRunMismatch? || error.DuplicateArtifactTarget?
  }

  lemma ExplainsWider(error: PlanError, targets: seq<Target>, i: nat)
    requires i < |targets| && Explains(error, [targets[i]])
    requires IsArtifactError(error)
    ensures Explains(error, targets)
  {
    assert targets[i] in targets;
    assert forall t :: t in [targets[i]] ==> t == targets[i];
  }

  /** `validate_integrity`. */
  method ValidateIntegrity(plan: Plan) returns (r: Result<(), PlanError>)
    ensures r.Ok? <==> Intact(plan)
    ensures r.Err? ==> Explains(r.error, plan.targets)
    ensures r == Err(PlanSummaryMismatch) <==>
            plan.schemaVersion == PLAN_SCHEMA_VERSION && TargetsFit(plan.targets)
                && plan.summary != SummaryOf(plan.targets)
  {
    if plan.schemaVersion != PLAN_SCHEMA_VERSION {
      SummaryExplains(plan.targets);
      return Err(UnsupportedPlanSchema(plan.schemaVersion));
    }
    hide TargetFits, BytesIn, SumBy, Explains;
    var totals := Totals(0, 0);
    var seen: set<RunKey> := {};
    ghost var targets := plan.targets;
    EmptyTotals();
    for i := 0 to |plan.targets|
      invariant CheckedSoFar(targets[..i], seen)
      invariant totals == TotalsOf(targets[..i])
    {
      var t := plan.targets[i];
      assert targets[..i + 1] == targets[..i] + [t];
      if !t.run.IsCompleted() {
        NotCompletedExplains(targets, i);
        return Err(RunNotCompleted(t.run.repository.fullName, t.run.id, t.run.status));
      }
      if KeyOf(t) in seen {
        SeenTwice(targets, i, seen);
        return Err(DuplicateRunTarget(t.run.repository.fullName, t.run.id));
      }
      var checked := CheckArtifacts(t, totals);
      if checked.Err? {
        UnfitTarget(targets, i);
        ExplainsWider(checked.error, targets, i);
        return Err(checked.error);
      }
      CheckedOneMore(targets[..i], seen, t);
      TotalsAppend(targets[..i], t);
      seen := seen + {KeyOf(t)};
      totals := checked.value;
    }
    assert targets[..|targets|] == targets;
    if plan.summary != Summary(|plan.targets|, totals.count, totals.bytes) {
      SummaryExplains(targets);
      return Err(PlanSummaryMismatch);
    }
    r := Ok(());
  }

  lemma EmptyTotals()
    ensures TotalsOf([]) == Totals(0, 0)
  {
  }

  lemma SummaryExplains(targets: seq<Target>)
    ensures Explains(PlanSummaryMismatch, targets)
    ensures forall found :: Explains(UnsupportedPlanSchema(found), targets)
  {
  }

  lemma NotCompletedExplains(targets: seq<Target>, i: nat)
    requires i < |targets| && !targets[i].run.IsCompleted()
    ensures !TargetsFit(targets)
    ensures var t := targets[i]; Explains(RunNotCompleted(t.run.repository.fullName, t.run.id, t.run.status), targets)
  {
    assert targets[i] in targets;
  }

  /** Why one requested target is refused, its own check aside. */
  ghost predicate UnpreparedFor(error: PlanError, t: Target, seen: set<RunKey>) {
    || error.RunNotInSnapshot?
    || (error == RunNotCompleted(t.run.repository.fullName, t.run.id, t.run.status) && !t.run.IsCompleted())
    || (error == DuplicateRunTarget(t.run.repository.fullName, t.run.id) && KeyOf(t) in seen)
    || (IsArtifactError(error) && Explains(error, [WithSortedArtifacts(t)]))
  }

  /** Such an error is a real fault of the requested targets, their artifacts in sorted order. */
  lemma RefusalExplains(error: PlanError, requested: seq<Target>, i: nat, seen: set<RunKey>)
    requires i < |requested| && CheckedSoFar(requested[..i], seen) && UnpreparedFor(error, requested[i], seen)
             && !error.RunNotInSnapshot?
    ensures Explains(error, PrepareTargets(requested))
  {
    hide TargetFits, Sort, WorkflowRun.IsCompleted;
    var all, t := PrepareTargets(requested), requested[i];
    assert all[i] == WithSortedArtifacts(t);
    if IsArtifactError(error) && Explains(error, [WithSortedArtifacts(t)]) {
      ExplainsWider(error, all, i);
    } else if error.RunNotCompleted? {
      NotCompletedExplains(all, i);
    } else {
      SeenTwice(requested, i, seen);
      var j, k :| 0 <= j < k < |requested| && KeyOf(requested[j]) == KeyOf(requested[k]) == KeyOf(t);
      assert KeyOf(all[j]) == KeyOf(all[k]) == KeyOf(t);
    }
  }

  lemma Refusal(snapshot: Snapshot, error: PlanError, requested: seq<Target>, i: nat, seen: set<RunKey>)
    requires i < |requested| && CheckedSoFar(requested[..i], seen) && UnpreparedFor(error, requested[i], seen)
    requires !(TargetFits(requested[i]) && requested[i].run in snapshot.runs && KeyOf(requested[i]) !in seen)
    ensures !(TargetsFit(requested) && forall t :: t in requested ==> t.run in snapshot.runs)
    ensures error.RunNotInSnapshot? || (!error.IncompleteSnapshot? && Explains(error, PrepareTargets(requested)))
  {
    hide TargetFits, Explains, WorkflowRun.IsCompleted;
    assert requested[i] in requested;
    if KeyOf(requested[i]) in seen {
      SeenTwice(requested, i, seen);
    }
    if !error.RunNotInSnapshot? {
      RefusalExplains(error, requested, i, seen);
    }
  }

  /** One turn of the loop: everything that can be wrong with one requested target. */
  method PrepareTarget(snapshot: Snapshot, t: Target, seen: set<RunKey>, before: Totals)
    returns (r: Result<Totals, PlanError>)
    ensures r.Ok? <==> TargetFits(t) && t.run in snapshot.runs && KeyOf(t) !in seen
    ensures r.Ok? ==> r.value == PlusTarget(before, WithSortedArtifacts(t))
    ensures r.Err? ==> UnpreparedFor(r.error, t, seen)
    ensures r.Err? && r.error.RunNotInSnapshot? ==>
            KeyOf(t) == RunKey(r.error.repository, r.error.runId) && t.run !in snapshot.runs
  {
    hide BytesIn, SumBy, Explains, Sort;
    if !t.run.IsCompleted() {
      return Err(RunNotCompleted(t.run.repository.fullName, t.run.id, t.run.status));
    }
    if t.run !in snapshot.runs {
      return Err(RunNotInSnapshot(t.run.repository.fullName, t.run.id));
    }
    if KeyOf(t) in seen {
      return Err(DuplicateRunTarget(t.run.repository.fullName, t.run.id));
    }
    SortingArtifactsKeepsFit(t);
    r := CheckArtifacts(WithSortedArtifacts(t), before);
  }

  lemma PlanAssembled(snapshot: Snapshot, createdAt: Moment, selection: Selection, requested: seq<Target>,
                      totals: Totals)
    requires totals == TotalsOf(PrepareTargets(requested))
    ensures PlanOf(snapshot, createdAt, selection, requested)
         == Plan(PLAN_SCHEMA_VERSION, createdAt, snapshot.scannedAt, snapshot.account, snapshot.scope, selection,
                 Summary(|requested|, totals.count, totals.bytes), Sort(PrepareTargets(requested), TargetLe))
  {
    hide BytesIn, SumBy, Sort;
  }

  /** `RunPurgePlan::new`: checks while sorting each target's artifacts, then sorts the targets. */
  method NewPlan(snapshot: Snapshot, createdAt: Moment, selection: Selection, requested: seq<Target>)
    returns (r: Result<Plan, PlanError>)
    ensures r.Ok? <==> snapshot.issueCount == 0 && TargetsFit(requested) && forall t :: t in requested ==>
            t.run in snapshot.runs
    ensures r.Ok? ==> r.value == PlanOf(snapshot, createdAt, selection, requested) && Intact(r.value)
    ensures r.Ok? ==> r.value.summary == SummaryOf(requested)
    ensures r == Err(IncompleteSnapshot(snapshot.issueCount)) <==> snapshot.issueCount != 0
    ensures r.Err? && r.error.RunNotInSnapshot? ==>
              exists t :: t in requested && KeyOf(t) == RunKey(r.error.repository, r.error.runId)
                  && t.run !in snapshot.runs
    ensures r.Err? && snapshot.issueCount == 0 ==>
            r.error.RunNotInSnapshot? || Explains(r.error, PrepareTargets(requested))
  {
    if snapshot.issueCount != 0 {
      return Err(IncompleteSnapshot(snapshot.issueCount));
    }
    hide TargetFits, BytesIn, SumBy, Explains, Sort, Intact, PlanOf, WorkflowRun.IsCompleted, EqIgnoreAsciiCase,
         UnpreparedFor;
    var targets: seq<Target> := [];
    var totals := Totals(0, 0);
    var seen: set<RunKey> := {};
    EmptyTotals();
    for i := 0 to |requested|
      invariant targets == PrepareTargets(requested[..i])
      invariant CheckedSoFar(requested[..i], seen)
      invariant forall t :: t in requested[..i] ==> t.run in snapshot.runs
      invariant totals == TotalsOf(targets)
    {
      var t := requested[i];
      assert t in requested;
      assert requested[..i + 1] == requested[..i] + [t];
      var prepared := PrepareTarget(snapshot, t, seen, totals);
      if prepared.Err? {
        Refusal(snapshot, prepared.error, requested, i, seen);
        return Err(prepared.error);
      }
      CheckedOneMore(requested[..i], seen, t);
      TotalsAppend(targets, WithSortedArtifacts(t));
      seen := seen + {KeyOf(t)};
      totals := prepared.value;
      targets := targets + [WithSortedArtifacts(t)];
      assert targets == PrepareTargets(requested[..i + 1]);
    }
    assert requested[..|requested|] == requested;
    PlanOfIsIntact(snapshot, createdAt, selection, requested);
    PlanAssembled(snapshot, createdAt, selection, requested, totals);
    r := Ok(Plan(PLAN_SCHEMA_VERSION, createdAt, snapshot.scannedAt, snapshot.account, snapshot.scope, selection,
                 Summary(|targets|, totals.count, totals.bytes), Sort(targets, TargetLe)));
  }
}

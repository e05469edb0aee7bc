/** Artifact cleanup plans: `planner.rs` and `CleanupPlan::new` of `cleanup.rs`. */
module CleanupPlans {
  import opened Prelude
  import opened Domain
  import opened Sorting
  import opened ArtifactEngine
  import E = RunEngine

  datatype CleanupTarget = CleanupTarget(artifact: Artifact, reasons: seq<E.Reason>)

  datatype CleanupSummary = CleanupSummary(
    sourceCount: nat,
    sourceBytes: U64,
    keep: nat,
    shielded: nat,
    review: nat,
    delete: nat,
    reclaimable: U64)

  datatype CleanupPlan = CleanupPlan(scannedAt: Moment, account: Account, scope: ScanScope, policyHash: string,
      summary: CleanupSummary, targets: seq<CleanupTarget>)

  datatype Scan = Scan(account: Account, scope: ScanScope, scannedAt: Moment, artifacts: seq<Artifact>, issueCount: nat)

  datatype CleanupError =
    | IncompleteScan(issueCount: nat)
    | EmptyPolicyHash
    | SummaryMismatch
    | DuplicateCleanupTarget(repository: string, id: nat)
    | TargetNotInScan(repository: string, id: nat)
    | ClassificationMismatch

  function SizeOf(a: Artifact): nat { a.sizeInBytes }

  /** `total_bytes` adds with `sum`, which wraps around in a release build. */
  function TotalBytes(artifacts: seq<Artifact>): U64 { SumBy(artifacts, SizeOf) % (U64_MAX + 1) }

  function TargetSize(t: CleanupTarget): nat { t.artifact.sizeInBytes }

  datatype ArtifactKey = ArtifactKey(repository: string, id: nat)

  function KeyOf(t: CleanupTarget): ArtifactKey { ArtifactKey(t.artifact.repository.fullName, t.artifact.id) }

  function ArtifactKeyOf(a: Artifact): ArtifactKey { ArtifactKey(a.repository.fullName, a.id) }

  predicate CleanupLe(a: CleanupTarget, b: CleanupTarget) {
    PairLe(KeyOf(a).repository, KeyOf(a).id, KeyOf(b).repository, KeyOf(b).id)
  }

  // --- CleanupPlan::new ---------------------------------------------------------------------------------------

  predicate SummaryFits(scan: Scan, summary: CleanupSummary, targets: seq<CleanupTarget>) {
    && summary.sourceCount == |scan.artifacts|
    && summary.sourceBytes == TotalBytes(scan.artifacts)
    && Cap(summary.keep + summary.shielded + summary.review + summary.delete) == summary.sourceCount
    && summary.delete == |targets|
    && summary.reclaimable == SaturatingTotal(targets, TargetSize)
  }

  ghost predicate DistinctTargets(targets: seq<CleanupTarget>) {
    forall i, j :: 0 <= i < j < |targets| ==> KeyOf(targets[i]) != KeyOf(targets[j])
  }

  function PlanWith(scan: Scan, hash: string, summary: CleanupSummary, targets: seq<CleanupTarget>): CleanupPlan {
    CleanupPlan(scan.scannedAt, scan.account, scan.scope, hash, summary, Sort(targets, CleanupLe))
  }

  lemma CapOnce(a: nat, b: nat, c: nat, d: nat)
    ensures SaturatingAdd(SaturatingAdd(SaturatingAdd(Cap(a), Cap(b)), Cap(c)), Cap(d)) == Cap(a + b + c + d)
  {
    hide SaturatingAdd, Cap;
    CapTwo(a, b);
    CapTwo(a + b, c);
    CapTwo(a + b + c, d);
  }

  lemma CapTwo(a: nat, b: nat)
    ensures SaturatingAdd(Cap(a), Cap(b)) == Cap(a + b)
  {
  }

  method TotalTargetBytes(targets: seq<CleanupTarget>) returns (bytes: U64)
    ensures bytes == SaturatingTotal(targets, TargetSize)
  {
    bytes := 0;
    for i := 0 to |targets|
      invariant bytes == SaturatingTotal(targets[..i], TargetSize)
    {
      assert targets[..i + 1][..i] == targets[..i];
      bytes := SaturatingAdd(bytes, targets[i].artifact.sizeInBytes);
    }
    assert targets[..|targets|] == targets;
  }

  /** The summary checks, in the source's order. */
  method CheckSummary(scan: Scan, summary: CleanupSummary, targets: seq<CleanupTarget>) returns (fits: bool)
    ensures fits <==> SummaryFits(scan, summary, targets)
  {
    hide SaturatingTotal, SumBy, Cap, TotalBytes, SaturatingAdd;
    var classified := SaturatingAdd(SaturatingAdd(SaturatingAdd(Cap(summary.keep), Cap(summary.shielded)),
        Cap(summary.review)), Cap(summary.delete));
    CapOnce(summary.keep, summary.shielded, summary.review, summary.delete);
    if summary.sourceCount != |scan.artifacts| || summary.sourceBytes != TotalBytes(scan.artifacts)
       || classified != summary.sourceCount || summary.delete != |targets|
    {
      return false;
    }
    var bytes := TotalTargetBytes(targets);
    fits := summary.reclaimable == bytes;
  }

  /** One pass over the targets with a set of the identities seen. */
  method CheckTargets(scan: Scan, targets: seq<CleanupTarget>) returns (r: Result<(), CleanupError>)
    ensures r.Ok? <==> DistinctTargets(targets) && forall k :: 0 <= k < |targets| ==>
            targets[k].artifact in scan.artifacts
    ensures r.Err? ==> r.error.DuplicateCleanupTarget? || r.error.TargetNotInScan?
  {
    hide KeyOf;
    var seen: set<ArtifactKey> := {};
    for i := 0 to |targets|
      invariant seen == set k | 0 <= k < i :: KeyOf(targets[k])
      invariant forall j, k :: 0 <= j < k < i ==> KeyOf(targets[j]) != KeyOf(targets[k])
      invariant forall k :: 0 <= k < i ==> targets[k].artifact in scan.artifacts
    {
      var key := KeyOf(targets[i]);
      if key in seen {
        return Err(DuplicateCleanupTarget(key.repository, key.id));
      }
      seen := seen + {key};
      if targets[i].artifact !in scan.artifacts {
        return Err(TargetNotInScan(key.repository, key.id));
      }
    }
    r := Ok(());
  }

  /** `CleanupPlan::new` */
  method NewCleanupPlan(isBlank: string -> bool, scan: Scan, hash: string, summary: CleanupSummary,
                        targets: seq<CleanupTarget>)
    returns (r: Result<CleanupPlan, CleanupError>)
    ensures r.Ok? <==>
            scan.issueCount == 0 && !isBlank(hash) && SummaryFits(scan, summary, targets)
            && DistinctTargets(targets)
            && forall k :: 0 <= k < |targets| ==> targets[k].artifact in scan.artifacts
    ensures r.Ok? ==> r.value == PlanWith(scan, hash, summary, targets)
    ensures r == Err(IncompleteScan(scan.issueCount)) <==> scan.issueCount != 0
    ensures r == Err(SummaryMismatch) <==>
            scan.issueCount == 0 && !isBlank(hash) && !SummaryFits(scan, summary, targets)
    ensures r != Err(ClassificationMismatch)
  {
    hide SummaryFits, DistinctTargets, PlanWith;
    if scan.issueCount != 0 {
      return Err(IncompleteScan(scan.issueCount));
    }
    if isBlank(hash) {
      return Err(EmptyPolicyHash);
    }
    var fits := CheckSummary(scan, summary, targets);
    if !fits {
      return Err(SummaryMismatch);
    }
    var checked := CheckTargets(scan, targets);
    if checked.Err? {
      return Err(checked.error);
    }
    r := Ok(PlanWith(scan, hash, summary, targets));
  }

  // --- the planner ------------------------------------------------------------------------------------------------

  predicate SameItem(a: Artifact, d: ArtifactDecision) { a.id == d.artifactId && a.repository.fullName == d.repository }

  function DeleteTargets(artifacts: seq<Artifact>, decisions: seq<ArtifactDecision>): seq<CleanupTarget>
    requires |artifacts| == |decisions|
  {
    if artifacts == [] then []
    else
      var n := |artifacts| - 1;
      DeleteTargets(artifacts[..n], decisions[..n])
      + if decisions[n].decision == E.Delete then [CleanupTarget(artifacts[n], decisions[n].reasons)] else []
  }

  /** The zip: identities are compared pair by pair, and the Delete pairs become targets. */
  method CollectTargets(artifacts: seq<Artifact>, decisions: seq<ArtifactDecision>)
    returns (r: Result<seq<CleanupTarget>, CleanupError>)
    ensures r.Ok? <==> |artifacts| == |decisions| && forall k :: 0 <= k < |artifacts| ==>
            SameItem(artifacts[k], decisions[k])
    ensures r.Ok? ==> r.value == DeleteTargets(artifacts, decisions)
    ensures r.Err? ==> r.error == ClassificationMismatch
  {
    if |decisions| != |artifacts| {
      return Err(ClassificationMismatch);
    }
    var targets: seq<CleanupTarget> := [];
    for i := 0 to |artifacts|
      invariant forall k :: 0 <= k < i ==> SameItem(artifacts[k], decisions[k])
      invariant targets == DeleteTargets(artifacts[..i], decisions[..i])
    {
      assert artifacts[..i + 1][..i] == artifacts[..i] && decisions[..i + 1][..i] == decisions[..i];
      if !SameItem(artifacts[i], decisions[i]) {
        return Err(ClassificationMismatch);
      }
      if decisions[i].decision == E.Delete {
        targets := targets + [CleanupTarget(artifacts[i], decisions[i].reasons)];
      }
    }
    assert artifacts[..|artifacts|] == artifacts && decisions[..|decisions|] == decisions;
    r := Ok(targets);
  }

  function CountOf(decisions: seq<ArtifactDecision>, d: E.Decision): nat {
    |Filter(decisions, (item: ArtifactDecision) => item.decision == d)|
  }

  function DecisionSize(d: ArtifactDecision): nat { d.sizeInBytes }

  predicate IsDelete(d: ArtifactDecision) { d.decision == E.Delete }

  function ReclaimableBytes(decisions: seq<ArtifactDecision>): U64 {
    SaturatingTotal(Filter(decisions, IsDelete), DecisionSize)
  }

  function SummaryOf(artifacts: seq<Artifact>, decisions: seq<ArtifactDecision>): CleanupSummary {
    CleanupSummary(|artifacts|, TotalBytes(artifacts), CountOf(decisions, E.Keep), CountOf(decisions, E.Shielded),
                   CountOf(decisions, E.ManualReview), CountOf(decisions, E.Delete), ReclaimableBytes(decisions))
  }

  lemma {:induction false} CountsCoverScan(decisions: seq<ArtifactDecision>)
    ensures CountOf(decisions, E.Keep) + CountOf(decisions, E.Shielded) + CountOf(decisions, E.ManualReview)
            + CountOf(decisions, E.Delete) == |decisions|
  {
    if decisions != [] {
      CountsCoverScan(decisions[..|decisions| - 1]);
    }
  }

  /** Targets and Delete decisions go hand in hand: as many, and as many bytes. */
  lemma {:induction false} TargetsMatch(artifacts: seq<Artifact>, decisions: seq<ArtifactDecision>)
    requires |artifacts| == |decisions| && forall k :: 0 <= k < |artifacts| ==>
             decisions[k].sizeInBytes == artifacts[k].sizeInBytes
    ensures |DeleteTargets(artifacts, decisions)| == |Filter(decisions, IsDelete)|
    ensures SaturatingTotal(DeleteTargets(artifacts, decisions), TargetSize) == ReclaimableBytes(decisions)
  {
    if artifacts != [] {
      hide SaturatingTotal;
      var n := |artifacts| - 1;
      TargetsMatch(artifacts[..n], decisions[..n]);
      var before, chosen := DeleteTargets(artifacts[..n], decisions[..n]), Filter(decisions[..n], IsDelete);
      if decisions[n].decision == E.Delete {
        var target := CleanupTarget(artifacts[n], decisions[n].reasons);
        TotalAppend(before, target, TargetSize);
        TotalAppend(chosen, decisions[n], DecisionSize);
        assert DeleteTargets(artifacts, decisions) == before + [target];
        assert Filter(decisions, IsDelete) == chosen + [decisions[n]];
      } else {
        assert DeleteTargets(artifacts, decisions) == before && Filter(decisions, IsDelete) == chosen;
      }
    }
  }

  lemma TargetsMatchCounts(artifacts: seq<Artifact>, decisions: seq<ArtifactDecision>)
    requires |artifacts| == |decisions| && forall k :: 0 <= k < |artifacts| ==>
             decisions[k].sizeInBytes == artifacts[k].sizeInBytes
    ensures |DeleteTargets(artifacts, decisions)| == CountOf(decisions, E.Delete)
    ensures SaturatingTotal(DeleteTargets(artifacts, decisions), TargetSize) == ReclaimableBytes(decisions)
  {
    hide Filter, DeleteTargets, SaturatingTotal;
    TargetsMatch(artifacts, decisions);
    FilterCongruence(decisions, IsDelete, (item: ArtifactDecision) => item.decision == E.Delete);
  }

  lemma {:induction false} TargetsMeaning(artifacts: seq<Artifact>, decisions: seq<ArtifactDecision>)
    requires |artifacts| == |decisions|
    ensures forall t :: t in DeleteTargets(artifacts, decisions) <==>
              exists k :: 0 <= k < |artifacts| && decisions[k].decision == E.Delete
                  && t == CleanupTarget(artifacts[k], decisions[k].reasons)
  {
    if artifacts != [] {
      var n := |artifacts| - 1;
      var a, d := artifacts[..n], decisions[..n];
      TargetsMeaning(a, d);
      forall t ensures t in DeleteTargets(artifacts, decisions) <==>
              exists k :: 0 <= k < |artifacts| && decisions[k].decision == E.Delete
                  && t == CleanupTarget(artifacts[k], decisions[k].reasons)
      {
        if t in DeleteTargets(a, d) {
          var k :| 0 <= k < n && d[k].decision == E.Delete && t == CleanupTarget(a[k], d[k].reasons);
          assert decisions[k].decision == E.Delete && t == CleanupTarget(artifacts[k], decisions[k].reasons);
        }
        if k :| 0 <= k < |artifacts| && decisions[k].decision == E.Delete
                && t == CleanupTarget(artifacts[k], decisions[k].reasons) {
          if k < n {
            assert d[k] == decisions[k] && a[k] == artifacts[k];
          }
        }
      }
    }
  }

  ghost predicate DistinctArtifacts(artifacts: seq<Artifact>) {
    forall i, j :: 0 <= i < j < |artifacts| ==> ArtifactKeyOf(artifacts[i]) != ArtifactKeyOf(artifacts[j])
  }

  lemma {:induction false} DistinctScanDistinctTargets(artifacts: seq<Artifact>, decisions: seq<ArtifactDecision>)
    requires |artifacts| == |decisions| && DistinctArtifacts(artifacts)
    ensures DistinctTargets(DeleteTargets(artifacts, decisions))
  {
    hide KeyOf, ArtifactKeyOf;
    if artifacts != [] {
      var n := |artifacts| - 1;
      var before := DeleteTargets(artifacts[..n], decisions[..n]);
      DistinctScanDistinctTargets(artifacts[..n], decisions[..n]);
      TargetsMeaning(artifacts[..n], decisions[..n]);
      forall i | 0 <= i < |before| ensures KeyOf(before[i]) != ArtifactKeyOf(artifacts[n]) {
        assert before[i] in before;
        var k :| 0 <= k < n && before[i] == CleanupTarget(artifacts[..n][k], decisions[..n][k].reasons);
        KeysAgree(before[i]);
        assert artifacts[..n][k] == artifacts[k];
      }
      KeysAgree(CleanupTarget(artifacts[n], decisions[n].reasons));
    }
  }

  lemma KeysAgree(t: CleanupTarget)
    ensures KeyOf(t) == ArtifactKeyOf(t.artifact)
  {
  }

  lemma ClassifiedItems(cx: ArtifactContext, artifacts: seq<Artifact>, kept: Kept)
    ensures var decisions := Classified(cx, artifacts, kept);
            forall k :: 0 <= k < |artifacts| ==>
                SameItem(artifacts[k], decisions[k]) && decisions[k].sizeInBytes == artifacts[k].sizeInBytes
  {
    forall k | 0 <= k < |artifacts|
      ensures var d := ClassifyArtifact(cx, artifacts[k], kept);
              SameItem(artifacts[k], d)
              && d.sizeInBytes == artifacts[k].sizeInBytes
    {
      OwnItem(cx, artifacts[k], kept);
    }
  }

  lemma OwnItem(cx: ArtifactContext, a: Artifact, kept: Kept)
    ensures var d := ClassifyArtifact(cx, a, kept); SameItem(a, d) && d.sizeInBytes == a.sizeInBytes
  {
    AgedItem(cx, a);
    hide ClassifyByAge;
  }

  lemma AgedItem(cx: ArtifactContext, a: Artifact)
    ensures var d := ClassifyByAge(cx, a); SameItem(a, d) && d.sizeInBytes == a.sizeInBytes
  {
  }

  /** A planner's own summary and targets always satisfy `CleanupPlan::new`, byte totals included. */
  lemma OwnSummaryFits(scan: Scan, cx: ArtifactContext, kept: Kept)
    requires |scan.artifacts| <= U64_MAX
    ensures var decisions := Classified(cx, scan.artifacts, kept);
            var targets := DeleteTargets(scan.artifacts, decisions);
            && SummaryFits(scan, SummaryOf(scan.artifacts, decisions), targets)
            && forall k :: 0 <= k < |targets| ==> targets[k].artifact in scan.artifacts
  {
    hide ClassifyArtifact;
    var decisions := Classified(cx, scan.artifacts, kept);
    var targets := DeleteTargets(scan.artifacts, decisions);
    ClassifiedItems(cx, scan.artifacts, kept);
    CountsCoverScan(decisions);
    TargetsMatchCounts(scan.artifacts, decisions);
    TargetsMeaning(scan.artifacts, decisions);
    forall k | 0 <= k < |targets| ensures targets[k].artifact in scan.artifacts {
      assert targets[k] in targets;
    }
  }

  /**
   * `build_cleanup_plan`. The in-memory scan holds at most 2^64 - 1 artifacts. A plan is built exactly
   * when the scan is complete, the hash is not blank, and no two Delete artifacts share an identity.
   */
  method BuildCleanupPlan(isBlank: string -> bool, cx: ArtifactContext, scan: Scan, hash: string)
    returns (r: Result<CleanupPlan, CleanupError>, kept: Kept)
    requires cx.scannedAt == scan.scannedAt && |scan.artifacts| <= U64_MAX
    ensures RecordsIds(kept, cx.globs, cx.config.rules, scan.artifacts)
    ensures var decisions := Classified(cx, scan.artifacts, kept);
            var targets := DeleteTargets(scan.artifacts, decisions);
            && (r.Ok? <==> scan.issueCount == 0 && !isBlank(hash) && DistinctTargets(targets))
            && (r.Ok? ==> r.value == PlanWith(scan, hash, SummaryOf(scan.artifacts, decisions), targets))
            && r != Err(SummaryMismatch) && r != Err(ClassificationMismatch)
  {
    hide Classified, SummaryFits, RecordsIds, DistinctTargets, PlanWith, DeleteTargets;
    var decisions;
    decisions, kept := ClassifyArtifacts(cx, scan.artifacts);
    ClassifiedItems(cx, scan.artifacts, kept);
    var targets := CollectTargets(scan.artifacts, decisions);
    OwnSummaryFits(scan, cx, kept);
    var plan := NewCleanupPlan(isBlank, scan, hash, SummaryOf(scan.artifacts, decisions), targets.value);
    r := plan;
  }

  /**
   * What such a plan deletes: exactly the condemned artifacts of the scan, in strictly increasing
   * (repository, id) order. A complete scan with distinct identities always yields one.
   */
  lemma PlanTargetsMeaning(isBlank: string -> bool, cx: ArtifactContext, scan: Scan, hash: string, kept: Kept)
    requires RecordsIds(kept, cx.globs, cx.config.rules, scan.artifacts)
    ensures var decisions := Classified(cx, scan.artifacts, kept);
            var targets := DeleteTargets(scan.artifacts, decisions);
            var plan := PlanWith(scan, hash, SummaryOf(scan.artifacts, decisions), targets);
            && (forall a :: (exists t :: t in plan.targets && t.artifact == a) <==>
               a in scan.artifacts && ArtifactCondemned(cx, a, kept))
            && SortedBy(plan.targets, CleanupLe)
            && (DistinctArtifacts(scan.artifacts) ==> DistinctTargets(targets) && DistinctTargets(plan.targets))
  {
    hide ArtifactCondemned, ClassifyArtifact, CleanupLe, KeyOf, ArtifactKeyOf;
    var artifacts, decisions := scan.artifacts, Classified(cx, scan.artifacts, kept);
    var targets := DeleteTargets(artifacts, decisions);
    var sorted := Sort(targets, CleanupLe);
    CleanupLeIsPreorder();
    SortSorts(targets, CleanupLe);
    SortPermutes(targets, CleanupLe);
    TargetsMeaning(artifacts, decisions);
    forall a ensures (exists t :: t in sorted && t.artifact == a) <==>
        a in artifacts && ArtifactCondemned(cx, a, kept) {
      ArtifactDeleteMeaning(cx, a, kept);
      if t :| t in sorted && t.artifact == a {
        MembersSurvive(sorted, targets, t);
        var k :| 0 <= k < |artifacts| && decisions[k].decision == E.Delete
            && t == CleanupTarget(artifacts[k], decisions[k].reasons);
      }
      if a in artifacts && ArtifactCondemned(cx, a, kept) {
        var k :| 0 <= k < |artifacts| && artifacts[k] == a;
        var t := CleanupTarget(artifacts[k], decisions[k].reasons);
        assert t in targets;
        MembersSurvive(sorted, targets, t);
      }
    }
    if DistinctArtifacts(artifacts) {
      DistinctScanDistinctTargets(artifacts, decisions);
      DistinctSurvives(targets, sorted, KeyOf);
    }
  }

  lemma CleanupLeIsPreorder()
    ensures TotalPreorder(CleanupLe)
  {
    forall a: CleanupTarget, b: CleanupTarget ensures CleanupLe(a, b) || CleanupLe(b, a) {
      PairLeTotal(KeyOf(a).repository, KeyOf(a).id, KeyOf(b).repository, KeyOf(b).id);
    }
    forall a: CleanupTarget, b: CleanupTarget, c: CleanupTarget | CleanupLe(a, b) && CleanupLe(b, c)
        ensures CleanupLe(a, c) {
      PairLeTransitive(KeyOf(a).repository, KeyOf(a).id, KeyOf(b).repository, KeyOf(b).id, KeyOf(c).repository,
          KeyOf(c).id);
    }
  }

  // --- what a plan carries ------------------------------------------------------------------------------------------

  /** The places of the decisions of one kind. */
  function Places(decisions: seq<ArtifactDecision>, d: E.Decision): set<nat> {
    set i: nat | i < |decisions| && decisions[i].decision == d
  }

  lemma PlacesNext(decisions: seq<ArtifactDecision>, d: E.Decision)
    requires decisions != []
    ensures var n := |decisions| - 1;
            |Places(decisions, d)| == |Places(decisions[..n], d)| + if decisions[n].decision == d then 1 else 0
  {
    var n := |decisions| - 1;
    var before := Places(decisions[..n], d);
    assert Places(decisions, d) == if decisions[n].decision == d then before + {n} else before;
  }

  lemma {:induction false} CountedPlaces(decisions: seq<ArtifactDecision>, d: E.Decision)
    ensures CountOf(decisions, d) == |Places(decisions, d)|
  {
    if decisions == [] {
      assert Places(decisions, d) == {};
    } else {
      hide Places;
      CountedPlaces(decisions[..|decisions| - 1], d);
      PlacesNext(decisions, d);
    }
  }

  lemma SumNext(decisions: seq<ArtifactDecision>, d: ArtifactDecision)
    ensures SumBy(decisions + [d], DecisionSize) == SumBy(decisions, DecisionSize) + d.sizeInBytes
  {
    assert (decisions + [d])[..|decisions|] == decisions;
  }

  lemma {:induction false} FilteredSum(decisions: seq<ArtifactDecision>)
    ensures SumBy(Filter(decisions, IsDelete), DecisionSize)
         == SumBy(decisions, (d: ArtifactDecision) => if d.decision == E.Delete then d.sizeInBytes else 0)
  {
    if decisions != [] {
      var n := |decisions| - 1;
      FilteredSum(decisions[..n]);
      var before := Filter(decisions[..n], IsDelete);
      if IsDelete(decisions[n]) {
        SumNext(before, decisions[n]);
      } else {
        assert Filter(decisions, IsDelete) == before;
      }
    }
  }

  /** The summary counts each kind of decision, and the bytes of the deleted ones, exactly up to 64 bits. */
  lemma SummarySays(artifacts: seq<Artifact>, decisions: seq<ArtifactDecision>)
    ensures var s := SummaryOf(artifacts, decisions);
            && s.sourceCount == |artifacts|
            && s.sourceBytes == SumBy(artifacts, (a: Artifact) => a.sizeInBytes) % 0x1_0000_0000_0000_0000
            && s.keep == |Places(decisions, E.Keep)| && s.shielded == |Places(decisions, E.Shielded)|
            && s.review == |Places(decisions, E.ManualReview)| && s.delete == |Places(decisions, E.Delete)|
            && s.reclaimable == Cap(SumBy(decisions, (d: ArtifactDecision) =>
                 if d.decision == E.Delete then d.sizeInBytes else 0))
  {
    hide Places, CountOf, SumBy;
    CountedPlaces(decisions, E.Keep);
    CountedPlaces(decisions, E.Shielded);
    CountedPlaces(decisions, E.ManualReview);
    CountedPlaces(decisions, E.Delete);
    FilteredSum(decisions);
    SaturatingTotalIsCappedSum(Filter(decisions, IsDelete), DecisionSize);
    SizesSum(artifacts);
  }

  lemma {:induction false} SizesSum(artifacts: seq<Artifact>)
    ensures SumBy(artifacts, SizeOf) == SumBy(artifacts, (a: Artifact) => a.sizeInBytes)
  {
    if artifacts != [] {
      SizesSum(artifacts[..|artifacts| - 1]);
    }
  }

  /** A plan carries the scan's time, account and scope, the policy's hash, and the given targets sorted. */
  lemma CleanupPlanSays(scan: Scan, hash: string, summary: CleanupSummary, targets: seq<CleanupTarget>)
    ensures var p := PlanWith(scan, hash, summary, targets);
            && p.scannedAt == scan.scannedAt && p.account == scan.account && p.scope == scan.scope
            && p.policyHash == hash && p.summary == summary && multiset(p.targets) == multiset(targets)
            && forall i, j :: 0 <= i < j < |p.targets| ==>
                 var a, b := p.targets[i].artifact, p.targets[j].artifact;
                 if a.repository.fullName == b.repository.fullName then a.id <= b.id
                 else TextLe(a.repository.fullName, b.repository.fullName)
  {
    hide TextLe, Sort;
    SortPermutes(targets, CleanupLe);
    CleanupLeIsPreorder();
    SortSorts(targets, CleanupLe);
    var sorted := Sort(targets, CleanupLe);
    assert forall i, j :: 0 <= i < j < |sorted| ==> CleanupLe(sorted[i], sorted[j]);
  }
}

/**
 * Whole purges of an honest store: the batch removes exactly the planned runs with their logs and
 * artifacts, and the bytes it reports are the bytes the store lost.
 */
module RunPurgeRefinement {
  import opened Prelude
  import opened Domain
  import opened RunProtections
  import opened RunPurgePlans
  import opened RunPurgeRemote
  import opened RunPurgeExecution
  import opened RunPurgeExecutor
  import opened RunPurgeSafety
  import opened RunPurgeHonest
  import opened RunPurgeRevalidation
  import opened RunPurgePlanning

  // --- one purge leaves the other targets alone -----------------------------------------------------------

  function PurgedAll(s: Inventory, targets: seq<Target>): Inventory {
    if targets == [] then s else Purged(PurgedAll(s, targets[..|targets| - 1]), targets[|targets| - 1])
  }

  /** Everything a target depends on is the same in both stores. */
  ghost predicate Undisturbed(s: Inventory, later: Inventory, target: Target) {
    var run := RefOf(target);
    && RunIn(later, run) == RunIn(s, run)
    && (run in later.logs <==> run in s.logs)
    && Listing(later.artifacts, run) == Listing(s.artifacts, run)
    && forall a :: a in target.artifacts ==>
         Find(later.artifacts, run.repository, a.id) == Find(s.artifacts, run.repository, a.id)
  }

  /** Either gone already, or exactly as planned. */
  ghost predicate Settled(s: Inventory, target: Target) {
    RefOf(target) in s.runs ==> AsPlanned(s, target)
  }

  lemma StaysSettled(s: Inventory, later: Inventory, target: Target)
    requires Undisturbed(s, later, target) && Settled(s, target)
    ensures Settled(later, target)
  {
  }

  /** What one purge takes from the artifacts belonged to its own run. */
  lemma OnlyOwnArtifacts(s: Inventory, target: Target, x: Owned, a: Artifact)
    requires AsPlanned(s, target) && TargetFits(target) && DistinctOwned(s.artifacts)
    requires x in s.artifacts && a in target.artifacts && IsAt(x, target.run.repository, a.id)
    ensures x == Owned(a, target.run.id)
  {
    hide NoDrift;
    ReadyFinds(s, target, a);
    FindMeaning(s.artifacts, target.run.repository, a.id);
  }

  lemma PurgeDisturbsNoOther(s: Inventory, target: Target, other: Target)
    requires Settled(s, target) && Settled(s, other) && TargetFits(target) && TargetFits(other)
             && DistinctOwned(s.artifacts)
    requires KeyOf(target) != KeyOf(other)
    requires RefOf(target) in s.runs && RefOf(other) in s.runs
    ensures Undisturbed(s, Purged(s, target), other)
  {
    hide NoDrift, AsPlanned, TargetFits, DistinctOwned, RemoveAll, Listing, Find;
    var repository, later := target.run.repository, RemoveAll(s.artifacts, target.run.repository, target.artifacts);
    forall x, a | x in s.artifacts && a in target.artifacts && IsAt(x, repository, a.id)
      ensures x == Owned(a, target.run.id)
    {
      OnlyOwnArtifacts(s, target, x, a);
    }
    ListingKeptAll(s.artifacts, repository, target.artifacts, RefOf(other));
    forall a | a in other.artifacts
      ensures Find(later, other.run.repository, a.id) == Find(s.artifacts, other.run.repository, a.id)
    {
      SurvivorFound(s, target, other, a);
    }
  }

  lemma SurvivorFound(s: Inventory, target: Target, other: Target, a: Artifact)
    requires AsPlanned(s, target) && AsPlanned(s, other) && TargetFits(target) && TargetFits(other)
             && DistinctOwned(s.artifacts)
    requires KeyOf(target) != KeyOf(other) && a in other.artifacts
    ensures Find(RemoveAll(s.artifacts, target.run.repository, target.artifacts), other.run.repository, a.id)
         == Find(s.artifacts, other.run.repository, a.id)
  {
    hide NoDrift, RemoveAll, Listing, Find;
    var later := RemoveAll(s.artifacts, target.run.repository, target.artifacts);
    RemoveAllMembers(s.artifacts, target.run.repository, target.artifacts);
    FindMeaning(s.artifacts, other.run.repository, a.id);
    FindMeaning(later, other.run.repository, a.id);
    ReadyFinds(s, other, a);
    var found := Find(s.artifacts, other.run.repository, a.id);
    if found.Some? {
      forall b | b in target.artifacts && IsAt(found.value, target.run.repository, b.id)
        ensures false
      {
        OnlyOwnArtifacts(s, target, found.value, b);
      }
    }
  }

  // --- every target on its turn -----------------------------------------------------------------------------

  /** What a whole purge starts from: a distinct, fitting plan that a review found settled. */
  ghost predicate Prepared(s: Inventory, targets: seq<Target>) {
    && TargetsFit(targets) && DistinctOwned(s.artifacts)
    && forall target :: target in targets ==> Settled(s, target) && target.deleteLogs
  }

  /** Target `j` before its turn: nothing it depends on has changed. */
  ghost predicate Waiting(s: Inventory, later: Inventory, target: Target) {
    && (RefOf(target) in later.runs <==> RefOf(target) in s.runs)
    && (RefOf(target) in s.runs ==> Undisturbed(s, later, target))
    && Settled(later, target)
    && DistinctOwned(later.artifacts)
  }

  lemma WaitsOn(s: Inventory, later: Inventory, target: Target, other: Target)
    requires Waiting(s, later, target) && Waiting(s, later, other)
    requires TargetFits(target) && TargetFits(other) && KeyOf(target) != KeyOf(other) && Settled(s, other)
    ensures Waiting(s, Purged(later, target), other)
  {
    hide AsPlanned, TargetFits, DistinctOwned, RemoveAll, Listing, Find;
    if RefOf(target) in later.runs {
      RemoveAllMembers(later.artifacts, target.run.repository, target.artifacts);
      if RefOf(other) in later.runs {
        PurgeDisturbsNoOther(later, target, other);
        StaysSettled(later, Purged(later, target), other);
      }
    }
  }

  lemma {:induction false} EachWaits(s: Inventory, targets: seq<Target>, i: nat, j: nat)
    requires Prepared(s, targets) && i <= j < |targets|
    ensures Waiting(s, PurgedAll(s, targets[..i]), targets[j])
    decreases i
  {
    hide Settled, TargetFits, DistinctOwned, Purged;
    assert targets[j] in targets;
    if i == 0 {
      AtTheStart(s, targets[j]);
    } else {
      EachWaits(s, targets, i - 1, i - 1);
      EachWaits(s, targets, i - 1, j);
      assert targets[..i][..i - 1] == targets[..i - 1];
      assert targets[i - 1] in targets;
      WaitsOn(s, PurgedAll(s, targets[..i - 1]), targets[i - 1], targets[j]);
    }
  }

  lemma AtTheStart(s: Inventory, target: Target)
    requires Settled(s, target) && DistinctOwned(s.artifacts)
    ensures Waiting(s, PurgedAll(s, []), target)
  {
  }

  /** What a target's item says, judged by a store before it. */
  ghost predicate ItemTells(item: Item, target: Target, s: Inventory) {
    if RefOf(target) in s.runs then CleanItem(item, target, s) else item == AbsentItem(target)
  }

  lemma TellsTheSame(item: Item, target: Target, s: Inventory, later: Inventory)
    requires Waiting(s, later, target) && ItemTells(item, target, later)
    ensures ItemTells(item, target, s)
  {
  }

  lemma NoLimitMentioned(item: Item, target: Target, s: Inventory)
    requires ItemTells(item, target, s)
    ensures !HitRateLimit(item) && ItemSucceeded(item)
  {
    hide Find;
  }

  lemma HonestNext(o: Oracle, initial: Inventory, clock: Clock, b: Batch, target: Target, key: ProtectionKey)
    requires Honest(o, initial, clock) && b.halt.None? && target.deleteLogs && TargetFits(target)
    requires var s := World(initial, clock, b.trace); Settled(s, target) && DistinctOwned(s.artifacts)
    ensures var s, r := World(initial, clock, b.trace), NextTarget(o, b, target, key);
            && r.halt.None? && r.items[..|b.items|] == b.items
            && ItemTells(r.items[|b.items|], target, s)
            && World(initial, clock, r.trace) == Purged(s, target)
  {
    hide World, RunTarget, HitRateLimit, BlockedItem, AbsentItem, CleanItem, TargetFits, DistinctOwned, AsPlanned,
      ItemSucceeded, RemoveAll;
    var s := World(initial, clock, b.trace);
    var e := HeadroomRead(o.remaining(b.trace));
    var t1 := b.trace + [e];
    WorldAppend(initial, clock, b.trace, e);
    if RefOf(target) in s.runs {
      HonestTarget(o, initial, clock, t1, target, key);
    } else {
      HonestAbsentTarget(o, initial, clock, t1, target, key);
    }
    NoLimitMentioned(RunTarget(o, t1, target, key).value, target, s);
  }

  ghost predicate ItemsTell(items: seq<Item>, targets: seq<Target>, s: Inventory) {
    |items| == |targets| && forall k :: 0 <= k < |items| ==> ItemTells(items[k], targets[k], s)
  }

  lemma {:induction false} HonestBatch(o: Oracle, initial: Inventory, clock: Clock, t: Trace, targets: seq<Target>,
                                      instance: string, account: Account, i: nat)
    requires Honest(o, initial, clock) && i <= |targets|
    requires Prepared(World(initial, clock, t), targets)
    ensures var s, b := World(initial, clock, t), RunBatch(o, t, targets[..i], instance, account);
            && b.halt.None?
            && ItemsTell(b.items, targets[..i], s)
            && World(initial, clock, b.trace) == PurgedAll(s, targets[..i])
    decreases i
  {
    hide World, Honest, NextTarget, ItemTells, TargetFits, DistinctOwned, Settled, Purged;
    if i != 0 {
      HonestBatch(o, initial, clock, t, targets, instance, account, i - 1);
      var s := World(initial, clock, t);
      var target := targets[i - 1];
      assert target in targets;
      assert targets[..i][..i - 1] == targets[..i - 1];
      EachWaits(s, targets, i - 1, i - 1);
      var b := RunBatch(o, t, targets[..i - 1], instance, account);
      var r := RunBatch(o, t, targets[..i], instance, account);
      HonestNext(o, initial, clock, b, target, KeyForRun(instance, account, target.run));
      TellsTheSame(r.items[i - 1], target, s, PurgedAll(s, targets[..i - 1]));
      assert forall k :: 0 <= k < i - 1 ==> r.items[k] == b.items[k];
    }
  }

  // --- what is left, object by object --------------------------------------------------------------------------

  function RefsOf(targets: seq<Target>): set<Ref> { set target | target in targets :: RefOf(target) }

  function PresentRefs(s: Inventory, targets: seq<Target>): set<Ref> { RefsOf(targets) * s.runs.Keys }

  ghost predicate Takes(target: Target, x: Owned) {
    x.artifact.repository == target.run.repository && exists a :: a in target.artifacts && a.id == x.artifact.id
  }

  /** `x` is a planned artifact of some planned run that was there. */
  ghost predicate TakenBySome(s: Inventory, targets: seq<Target>, x: Owned) {
    exists target :: target in targets && RefOf(target) in s.runs && Takes(target, x)
  }

  ghost predicate ExactlyPurged(s: Inventory, later: Inventory, targets: seq<Target>) {
    && later.runs == s.runs - RefsOf(targets)
    && later.logs == s.logs - PresentRefs(s, targets)
    && forall x :: x in later.artifacts <==> x in s.artifacts && !TakenBySome(s, targets, x)
  }

  lemma RefsAppend(targets: seq<Target>, n: nat)
    requires n < |targets|
    ensures RefsOf(targets[..n + 1]) == RefsOf(targets[..n]) + {RefOf(targets[n])}
    ensures DistinctRuns(targets) ==> RefOf(targets[n]) !in RefsOf(targets[..n])
  {
  }

  lemma TakenAppend(s: Inventory, targets: seq<Target>, n: nat, x: Owned)
    requires n < |targets|
    ensures TakenBySome(s, targets[..n + 1], x)
            <==> TakenBySome(s, targets[..n], x) || (RefOf(targets[n]) in s.runs && Takes(targets[n], x))
  {
  }

  lemma PurgedOnce(s: Inventory, target: Target)
    requires RefOf(target) in s.runs
    ensures forall x :: x in Purged(s, target).artifacts <==> x in s.artifacts && !Takes(target, x)
  {
    RemoveAllMembers(s.artifacts, target.run.repository, target.artifacts);
  }

  /** The fold of purges leaves exactly the objects nobody planned to delete. */
  lemma {:induction false} PurgedAllMeaning(s: Inventory, targets: seq<Target>, i: nat)
    requires DistinctRuns(targets) && i <= |targets|
    ensures ExactlyPurged(s, PurgedAll(s, targets[..i]), targets[..i])
    decreases i
  {
    hide RefsOf, TakenBySome, Takes, RemoveAll;
    if i == 0 {
      NothingPlanned(s);
    } else {
      var n := i - 1;
      PurgedAllMeaning(s, targets, n);
      assert targets[..i][..n] == targets[..n];
      RefsAppend(targets, n);
      forall x ensures TakenBySome(s, targets[..i], x)
                       <==> TakenBySome(s, targets[..n], x) || (RefOf(targets[n]) in s.runs && Takes(targets[n], x)) {
        TakenAppend(s, targets, n, x);
      }
      var before := PurgedAll(s, targets[..n]);
      if RefOf(targets[n]) in before.runs {
        PurgedOnce(before, targets[n]);
      }
    }
  }

  lemma NothingPlanned(s: Inventory)
    ensures ExactlyPurged(s, PurgedAll(s, []), [])
  {
  }

  // --- bytes -------------------------------------------------------------------------------------------------------

  function OwnedSize(x: Owned): nat { x.artifact.sizeInBytes }

  function StoredBytes(artifacts: seq<Owned>): nat { SumBy(artifacts, OwnedSize) }

  lemma StoredAppend(artifacts: seq<Owned>, x: Owned)
    ensures StoredBytes(artifacts + [x]) == StoredBytes(artifacts) + x.artifact.sizeInBytes
  {
  }

  lemma {:induction false} WithoutBytes(artifacts: seq<Owned>, repository: RepositoryRef, id: nat)
    requires DistinctOwned(artifacts)
    ensures var found := Find(artifacts, repository, id);
            StoredBytes(Without(artifacts, repository, id))
                + (if found.Some? then OwnedSize(found.value) else 0) == StoredBytes(artifacts)
  {
    if artifacts != [] {
      var n := |artifacts| - 1;
      var last := artifacts[n];
      if IsAt(last, repository, id) {
        WithoutNothing(artifacts[..n], repository, id);
        assert Without(artifacts, repository, id) == artifacts[..n];
      } else {
        WithoutBytes(artifacts[..n], repository, id);
        StoredAppend(Without(artifacts[..n], repository, id), last);
      }
    }
  }

  lemma ResultsAppend(results: seq<ArtifactResult>, i: nat)
    requires i < |results|
    ensures SumBy(results[..i + 1], DeletedBytes) == SumBy(results[..i], DeletedBytes) + DeletedBytes(results[i])
  {
    assert results[..i + 1][..i] == results[..i];
  }

  /** Bytes reported plus bytes still stored stay the same, artifact by artifact. */
  lemma {:induction false} RemovedBytes(s: Inventory, target: Target, results: seq<ArtifactResult>, i: nat)
    requires AsPlanned(s, target) && TargetFits(target) && DistinctOwned(s.artifacts)
    requires ReportsStore(results, target.artifacts, s, target.run.repository) && i <= |target.artifacts|
    ensures SumBy(results[..i], DeletedBytes)
            + StoredBytes(RemoveAll(s.artifacts, target.run.repository, target.artifacts[..i]))
         == StoredBytes(s.artifacts)
    decreases i
  {
    hide AsPlanned, TargetFits, DistinctOwned, Find, Without, StoredBytes, SumBy;
    if i == 0 {
      EmptySum();
    } else {
      var n := i - 1;
      RemovedBytes(s, target, results, n);
      assert target.artifacts[..i][..n] == target.artifacts[..n];
      var before := s.(artifacts := RemoveAll(s.artifacts, target.run.repository, target.artifacts[..n]));
      NextArtifactStands(s, target, n, before);
      RemoveAllMembers(s.artifacts, target.run.repository, target.artifacts[..n]);
      WithoutBytes(before.artifacts, target.run.repository, target.artifacts[n].id);
      ResultsAppend(results, n);
    }
  }

  lemma EmptySum()
    ensures SumBy<ArtifactResult>([], DeletedBytes) == 0
  {
  }

  lemma {:induction false} NothingDeleted(results: seq<ArtifactResult>)
    requires forall i :: 0 <= i < |results| ==> results[i].state != Deleted
    ensures SumBy(results, DeletedBytes) == 0
  {
    if results != [] {
      NothingDeleted(results[..|results| - 1]);
    }
  }

  lemma ItemBytes(s: Inventory, target: Target, item: Item)
    requires Settled(s, target) && TargetFits(target) && DistinctOwned(s.artifacts) && ItemTells(item, target, s)
    ensures SumBy(item.artifacts, DeletedBytes) + StoredBytes(Purged(s, target).artifacts) == StoredBytes(s.artifacts)
  {
    hide AsPlanned, TargetFits, DistinctOwned, Find, StoredBytes, SumBy, RemoveAll;
    if RefOf(target) in s.runs {
      RemovedBytes(s, target, item.artifacts, |target.artifacts|);
      assert target.artifacts[..|target.artifacts|] == target.artifacts
             && item.artifacts[..|item.artifacts|] == item.artifacts;
    } else {
      NothingDeleted(item.artifacts);
    }
  }

  lemma {:induction false} BatchBytes(s: Inventory, targets: seq<Target>, items: seq<Item>, i: nat)
    requires Prepared(s, targets) && i <= |targets| && ItemsTell(items, targets, s)
    ensures SumBy(AllResults(items[..i]), DeletedBytes)
            + StoredBytes(PurgedAll(s, targets[..i]).artifacts) == StoredBytes(s.artifacts)
    decreases i
  {
    hide Settled, TargetFits, DistinctOwned, Find, StoredBytes, SumBy, Purged, ItemTells;
    if i == 0 {
      EmptySum();
    } else {
      var n := i - 1;
      BatchBytes(s, targets, items, n);
      assert targets[..i][..n] == targets[..n] && items[..i][..n] == items[..n];
      assert targets[n] in targets;
      EachWaits(s, targets, n, n);
      TellsLater(items[n], targets[n], s, PurgedAll(s, targets[..n]));
      ItemBytes(PurgedAll(s, targets[..n]), targets[n], items[n]);
      SumByConcat(AllResults(items[..n]), items[n].artifacts, DeletedBytes);
    }
  }

  lemma TellsLater(item: Item, target: Target, s: Inventory, later: Inventory)
    requires Waiting(s, later, target) && ItemTells(item, target, s)
    ensures ItemTells(item, target, later)
  {
  }

  // --- the main theorem ----------------------------------------------------------------------------------------------

  /**
   * Executing a settled plan against an honest store removes exactly the planned runs, their logs and
   * their planned artifacts, leaves everything else alone, reports complete success without halting,
   * and reports as reclaimed the bytes the store lost (capped at 64 bits).
   */
  lemma HonestPurge(o: Oracle, initial: Inventory, clock: Clock, t: Trace, targets: seq<Target>, instance: string,
                    account: Account)
    requires Honest(o, initial, clock) && Prepared(World(initial, clock, t), targets)
    ensures var s, b := World(initial, clock, t), RunBatch(o, t, targets, instance, account);
            var left := World(initial, clock, b.trace);
            && ExactlyPurged(s, left, targets)
            && b.halt.None? && IsCompleteSuccess(b.items)
            && ItemsTell(b.items, targets, s)
            && StoredBytes(left.artifacts) <= StoredBytes(s.artifacts)
            && ReclaimedBytes(b.items) == Cap(StoredBytes(s.artifacts) - StoredBytes(left.artifacts))
  {
    hide World, Honest, RunBatch, PurgedAll, ExactlyPurged, ItemTells, StoredBytes, SumBy, TargetFits,
      DistinctOwned, Settled, ItemSucceeded;
    var s, b := World(initial, clock, t), RunBatch(o, t, targets, instance, account);
    assert targets[..|targets|] == targets && b.items[..|b.items|] == b.items;
    HonestBatch(o, initial, clock, t, targets, instance, account, |targets|);
    PurgedAllMeaning(s, targets, |targets|);
    BatchBytes(s, targets, b.items, |targets|);
    SaturatingTotalIsCappedSum(AllResults(b.items), DeletedBytes);
    forall k | 0 <= k < |b.items| ensures ItemSucceeded(b.items[k]) {
      NoLimitMentioned(b.items[k], targets[k], s);
    }
  }

  /** Executing the same plan once more changes nothing and reports every target as already absent. */
  lemma PurgeTwice(o: Oracle, initial: Inventory, clock: Clock, t: Trace, later: Trace, targets: seq<Target>,
                   instance: string, account: Account)
    requires Honest(o, initial, clock) && Prepared(World(initial, clock, t), targets)
    requires World(initial, clock, later) == World(initial, clock, RunBatch(o, t, targets, instance, account).trace)
    ensures var again := RunBatch(o, later, targets, instance, account);
            && (forall i :: 0 <= i < |targets| ==> again.items[i] == AbsentItem(targets[i]))
            && World(initial, clock, again.trace) == World(initial, clock, later)
  {
    hide World, Honest, RunBatch, ExactlyPurged, TargetFits, DistinctOwned, Settled, AbsentItem, StoredBytes,
      ReclaimedBytes;
    var s, left := World(initial, clock, t), World(initial, clock, later);
    HonestPurge(o, initial, clock, t, targets, instance, account);
    AllAbsent(s, left, targets);
    assert targets[..|targets|] == targets;
    AbsentBatch(o, initial, clock, later, targets, instance, account);
  }

  lemma AllAbsent(s: Inventory, left: Inventory, targets: seq<Target>)
    requires ExactlyPurged(s, left, targets)
    ensures forall target :: target in targets ==> RefOf(target) !in left.runs
  {
  }

  lemma {:induction false} AbsentBatch(o: Oracle, initial: Inventory, clock: Clock, t: Trace, targets: seq<Target>,
                                       instance: string, account: Account)
    requires Honest(o, initial, clock)
    requires forall target :: target in targets ==> RefOf(target) !in World(initial, clock, t).runs
    ensures var b := RunBatch(o, t, targets, instance, account);
            && b.halt.None?
            && (forall i :: 0 <= i < |targets| ==> b.items[i] == AbsentItem(targets[i]))
            && World(initial, clock, b.trace) == World(initial, clock, t)
    decreases |targets|
  {
    hide World, RunTarget, HitRateLimit, BlockedItem, AbsentItem;
    if targets != [] {
      var n := |targets| - 1;
      assert forall target :: target in targets[..n] ==> target in targets;
      AbsentBatch(o, initial, clock, t, targets[..n], instance, account);
      var b := RunBatch(o, t, targets[..n], instance, account);
      var e := HeadroomRead(o.remaining(b.trace));
      WorldAppend(initial, clock, b.trace, e);
      assert targets[n] in targets;
      HonestAbsentTarget(o, initial, clock, b.trace + [e], targets[n], KeyForRun(instance, account, targets[n].run));
      AbsentMentionsNothing(targets[n]);
    }
  }

  lemma AbsentMentionsNothing(target: Target)
    ensures !HitRateLimit(AbsentItem(target))
  {
  }
}

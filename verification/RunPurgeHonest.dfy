/**
 * The purge executor against an honest store: deletes take effect, lookups tell the truth, and only
 * a run's `updated_at` may move when its own logs or artifacts go. `clock` decides how it moves.
 */
module RunPurgeHonest {
  import opened Prelude
  import opened Domain
  import opened Sorting
  import opened RunProtections
  import opened RunPurgePlans
  import opened RunPurgeRemote
  import opened RunPurgeExecution
  import opened RunPurgeSafety
  import opened RunPurgeBatch

  // --- the store ---------------------------------------------------------------------------------------

  datatype Ref = Ref(repository: RepositoryRef, id: nat)

  datatype Owned = Owned(artifact: Artifact, runId: nat)

  datatype Inventory = Inventory(runs: map<Ref, WorkflowRun>, logs: set<Ref>, artifacts: seq<Owned>)

  function RefOf(target: Target): Ref { Ref(target.run.repository, target.run.id) }

  predicate IsAt(owned: Owned, repository: RepositoryRef, id: nat) {
    owned.artifact.repository == repository && owned.artifact.id == id
  }

  predicate OwnedBy(owned: Owned, run: Ref) {
    owned.artifact.repository == run.repository && owned.runId == run.id
  }

  ghost predicate DistinctOwned(artifacts: seq<Owned>) {
    forall i, j :: 0 <= i < j < |artifacts| ==>
        !IsAt(artifacts[j], artifacts[i].artifact.repository, artifacts[i].artifact.id)
  }

  function Listing(artifacts: seq<Owned>, run: Ref): seq<Artifact> {
    if artifacts == [] then []
    else
      var n := |artifacts| - 1;
      Listing(artifacts[..n], run) + if OwnedBy(artifacts[n], run) then [artifacts[n].artifact] else []
  }

  function Find(artifacts: seq<Owned>, repository: RepositoryRef, id: nat): Option<Owned> {
    if artifacts == [] then None
    else
      var n := |artifacts| - 1;
      if IsAt(artifacts[n], repository, id) then Some(artifacts[n]) else Find(artifacts[..n], repository, id)
  }

  function Without(artifacts: seq<Owned>, repository: RepositoryRef, id: nat): seq<Owned> {
    if artifacts == [] then []
    else
      var n := |artifacts| - 1;
      Without(artifacts[..n], repository, id) + if IsAt(artifacts[n], repository, id) then [] else [artifacts[n]]
  }

  function Touch(s: Inventory, run: Ref, now: Moment): Inventory {
    if run in s.runs then s.(runs := s.runs[run := s.runs[run].(updatedAt := now)]) else s
  }

  /** What one request does to the store; lookups and listings do nothing. */
  function Effect(s: Inventory, e: Event, now: Moment): Inventory {
    match e
    case LogsDelete(repository, id, _) =>
      var run := Ref(repository, id);
      if run in s.logs then Touch(s.(logs := s.logs - {run}), run, now) else s
    case ArtifactDelete(repository, id, _) =>
      var found := Find(s.artifacts, repository, id);
      if found.Some? then Touch(s.(artifacts := Without(s.artifacts, repository, id)),
          Ref(repository, found.value.runId), now)
      else s
    case RunDelete(repository, id, _) => s.(runs := s.runs - {Ref(repository, id)})
    case _ => s
  }

  type Clock = Trace -> Moment

  function World(initial: Inventory, clock: Clock, t: Trace): Inventory {
    if t == [] then initial
    else Effect(World(initial, clock, t[..|t| - 1]), t[|t| - 1], clock(t))
  }

  lemma WorldAppend(initial: Inventory, clock: Clock, t: Trace, e: Event)
    ensures World(initial, clock, t + [e]) == Effect(World(initial, clock, t), e, clock(t + [e]))
  {
  }

  function Outcome(present: bool): ProviderResult<DeleteOutcome> { Ok(if present then DeletedNow else WasAbsent) }

  function RunIn(s: Inventory, run: Ref): Option<WorkflowRun> { if run in s.runs then Some(s.runs[run]) else None }

  function ArtifactIn(s: Inventory, repository: RepositoryRef, id: nat): Option<Artifact> {
    match Find(s.artifacts, repository, id)
    case None => None
    case Some(owned) => Some(owned.artifact)
  }

  /** Truthful answers at every point, no protections, and headroom that lasts. */
  ghost predicate Honest(o: Oracle, initial: Inventory, clock: Clock) {
    && (forall t :: !LowHeadroom(o.remaining(t)))
    && (forall t :: o.snapshot(t) == Ok([]))
    && (forall t, key :: o.acquire(t, key) == None)
    && (forall t, key, run :: o.assess(t, key, run) == Ok(NoEntry))
    && (forall t, repository, id ::
       o.run(t, repository, id) == Ok(RunIn(World(initial, clock, t), Ref(repository, id))))
    && (forall t, repository, id ::
       o.artifacts(t, repository, id) == Ok(Listing(World(initial, clock, t).artifacts, Ref(repository, id))))
    && (forall t, repository, id ::
       o.artifact(t, repository, id) == Ok(ArtifactIn(World(initial, clock, t), repository, id)))
    && (forall t, repository, id ::
       o.deleteLogs(t, repository, id) == Outcome(Ref(repository, id) in World(initial, clock, t).logs))
    && (forall t, repository, id ::
       o.deleteArtifact(t, repository, id) == Outcome(ArtifactIn(World(initial, clock, t), repository, id).Some?))
    && (forall t, repository, id ::
       o.deleteRun(t, repository, id) == Outcome(Ref(repository, id) in World(initial, clock, t).runs))
  }

  // --- what a target needs, and what it leaves -----------------------------------------------------------

  /** Revalidated as ready: the run is exactly as planned, nothing drifted, no planned id moved to another run. */
  ghost predicate AsPlanned(s: Inventory, target: Target) {
    && RefOf(target) in s.runs && s.runs[RefOf(target)] == target.run
    && NoDrift(target.artifacts, Listing(s.artifacts, RefOf(target)))
    && forall a :: a in target.artifacts && Find(s.artifacts, target.run.repository, a.id).Some? ==>
         Find(s.artifacts, target.run.repository, a.id).value.runId == target.run.id
  }

  function RemoveAll(artifacts: seq<Owned>, repository: RepositoryRef, planned: seq<Artifact>): seq<Owned> {
    if planned == [] then artifacts
    else
      var n := |planned| - 1;
      Without(RemoveAll(artifacts, repository, planned[..n]), repository, planned[n].id)
  }

  /** The store with the planned run, its logs and its planned artifacts gone; nothing if the run was. */
  function Purged(s: Inventory, target: Target): Inventory {
    if RefOf(target) in s.runs then
      Inventory(s.runs - {RefOf(target)}, s.logs - {RefOf(target)},
          RemoveAll(s.artifacts, target.run.repository, target.artifacts))
    else s
  }

  // --- facts about the list of artifacts -------------------------------------------------------------------

  lemma {:induction false} WithoutMembers(artifacts: seq<Owned>, repository: RepositoryRef, id: nat)
    ensures forall x :: x in Without(artifacts, repository, id) <==> x in artifacts && !IsAt(x, repository, id)
    ensures DistinctOwned(artifacts) ==> DistinctOwned(Without(artifacts, repository, id))
  {
    if artifacts != [] {
      var n := |artifacts| - 1;
      WithoutMembers(artifacts[..n], repository, id);
      assert artifacts == artifacts[..n] + [artifacts[n]];
      var rest := Without(artifacts[..n], repository, id);
      if DistinctOwned(artifacts) && !IsAt(artifacts[n], repository, id) {
        forall i | 0 <= i < |rest|
          ensures !IsAt(artifacts[n], rest[i].artifact.repository, rest[i].artifact.id)
        {
          assert rest[i] in artifacts[..n];
        }
      }
    }
  }

  lemma {:induction false} FindMeaning(artifacts: seq<Owned>, repository: RepositoryRef, id: nat)
    ensures var found := Find(artifacts, repository, id);
            && (found.None? <==> forall x :: x in artifacts ==> !IsAt(x, repository, id))
            && (found.Some? ==> found.value in artifacts && IsAt(found.value, repository, id))
            && (DistinctOwned(artifacts) ==> forall x :: x in artifacts && IsAt(x, repository, id) ==> found == Some(x))
  {
    if artifacts != [] {
      var n := |artifacts| - 1;
      FindMeaning(artifacts[..n], repository, id);
      assert artifacts == artifacts[..n] + [artifacts[n]];
    }
  }

  lemma {:induction false} ListingMembers(artifacts: seq<Owned>, run: Ref)
    ensures forall a :: a in Listing(artifacts, run) ==> Owned(a, run.id) in artifacts && a.repository == run.repository
    ensures forall x :: x in artifacts && OwnedBy(x, run) ==> x.artifact in Listing(artifacts, run)
  {
    if artifacts != [] {
      var n := |artifacts| - 1;
      ListingMembers(artifacts[..n], run);
      assert artifacts == artifacts[..n] + [artifacts[n]];
      var before, last := Listing(artifacts[..n], run),
          if OwnedBy(artifacts[n], run) then [artifacts[n].artifact] else [];
      assert Listing(artifacts, run) == before + last;
      forall a | a in before + last
        ensures Owned(a, run.id) in artifacts && a.repository == run.repository
      {
        if a in before {
          assert Owned(a, run.id) in artifacts[..n];
        } else {
          assert artifacts[n] == Owned(a, run.id);
        }
      }
    }
  }

  lemma {:induction false} RemoveAllMembers(artifacts: seq<Owned>, repository: RepositoryRef, planned: seq<Artifact>)
    ensures forall x :: x in RemoveAll(artifacts, repository, planned) <==>
              x in artifacts && !(x.artifact.repository == repository && exists a ::
                  a in planned
                  && a.id == x.artifact.id)
    ensures DistinctOwned(artifacts) ==> DistinctOwned(RemoveAll(artifacts, repository, planned))
  {
    if planned != [] {
      var n := |planned| - 1;
      RemoveAllMembers(artifacts, repository, planned[..n]);
      WithoutMembers(RemoveAll(artifacts, repository, planned[..n]), repository, planned[n].id);
      assert planned == planned[..n] + [planned[n]];
    }
  }

  /** Removing artifacts that are not this run's leaves its listing as it was. */
  lemma {:induction false} ListingKept(artifacts: seq<Owned>, repository: RepositoryRef, id: nat, run: Ref)
    requires forall x :: x in artifacts && IsAt(x, repository, id) ==> !OwnedBy(x, run)
    ensures Listing(Without(artifacts, repository, id), run) == Listing(artifacts, run)
  {
    if artifacts != [] {
      var n := |artifacts| - 1;
      assert artifacts == artifacts[..n] + [artifacts[n]];
      ListingKept(artifacts[..n], repository, id, run);
      var rest := Without(artifacts[..n], repository, id);
      if IsAt(artifacts[n], repository, id) {
        assert Without(artifacts, repository, id) == rest;
      } else {
        ListingAppend(rest, artifacts[n], run);
      }
    }
  }

  lemma ListingAppend(artifacts: seq<Owned>, last: Owned, run: Ref)
    ensures Listing(artifacts + [last], run) == Listing(artifacts, run)
            + if OwnedBy(last, run) then [last.artifact] else []
  {
  }

  lemma {:induction false} ListingKeptAll(artifacts: seq<Owned>, repository: RepositoryRef, planned: seq<Artifact>,
                                          run: Ref)
    requires forall x, a :: x in artifacts && a in planned && IsAt(x, repository, a.id) ==> !OwnedBy(x, run)
    ensures Listing(RemoveAll(artifacts, repository, planned), run) == Listing(artifacts, run)
  {
    if planned != [] {
      var n := |planned| - 1;
      assert planned == planned[..n] + [planned[n]];
      ListingKeptAll(artifacts, repository, planned[..n], run);
      RemoveAllMembers(artifacts, repository, planned[..n]);
      ListingKept(RemoveAll(artifacts, repository, planned[..n]), repository, planned[n].id, run);
    }
  }

  /** In a ready target, whatever stands under a planned id is exactly the planned artifact. */
  lemma ReadyFinds(s: Inventory, target: Target, a: Artifact)
    requires AsPlanned(s, target) && DistinctOwned(s.artifacts) && a in target.artifacts && TargetFits(target)
    ensures var found := Find(s.artifacts, target.run.repository, a.id);
            found.Some? ==> found.value == Owned(a, target.run.id)
  {
    var run := RefOf(target);
    var found := Find(s.artifacts, run.repository, a.id);
    FindMeaning(s.artifacts, run.repository, a.id);
    if found.Some? {
      var listed := Listing(s.artifacts, run);
      ListingMembers(s.artifacts, run);
      assert OwnedBy(found.value, run);
      assert found.value.artifact in listed;
      ByIdMeaning(listed, a.id);
      var current := ById(listed, a.id).value;
      assert IsAt(Owned(current, run.id), run.repository, a.id);
    }
  }

  /** After the planned artifacts are gone, a ready run lists nothing. */
  lemma NothingLeft(s: Inventory, target: Target)
    requires AsPlanned(s, target)
    ensures Listing(RemoveAll(s.artifacts, target.run.repository, target.artifacts), RefOf(target)) == []
  {
    hide RemoveAll, Listing;
    var run := RefOf(target);
    var left := RemoveAll(s.artifacts, target.run.repository, target.artifacts);
    RemoveAllMembers(s.artifacts, target.run.repository, target.artifacts);
    ListingMembers(left, run);
    ListingMembers(s.artifacts, run);
    forall a ensures !(Owned(a, run.id) in left && a.repository == run.repository) {
      if Owned(a, run.id) in s.artifacts && a.repository == run.repository {
        assert Owned(a, run.id).artifact in Listing(s.artifacts, run);
      }
    }
    SomeMember(Listing(left, run));
  }

  // --- one target ------------------------------------------------------------------------------------------

  /** Same runs, except that one run's `updated_at` may have moved. */
  ghost predicate Near(a: Inventory, b: Inventory, run: Ref) {
    && run in a.runs && a.runs.Keys == b.runs.Keys
    && (forall r :: r in a.runs && r != run ==> a.runs[r] == b.runs[r])
    && b.runs[run].HasSamePurgeIdentity(a.runs[run])
  }

  lemma TouchIsNear(a: Inventory, b: Inventory, run: Ref, now: Moment)
    requires Near(a, b, run)
    ensures Near(a, Touch(b, run, now), run)
    ensures Touch(b, run, now).logs == b.logs && Touch(b, run, now).artifacts == b.artifacts
  {
  }

  /** A step's report when the object was there, or was not. */
  function Reported(present: bool): StepResult { Step(if present then Deleted else AlreadyAbsent, None) }

  lemma HonestLogs(o: Oracle, initial: Inventory, clock: Clock, t: Trace, target: Target)
    requires Honest(o, initial, clock) && target.deleteLogs && RefOf(target) in World(initial, clock, t).runs
    ensures var s, r := World(initial, clock, t), PurgeLogs(o, t, target);
            var s' := World(initial, clock, r.trace);
            && r.value == Reported(RefOf(target) in s.logs)
            && Near(s, s', RefOf(target)) && s'.logs == s.logs - {RefOf(target)} && s'.artifacts == s.artifacts
  {
    hide World;
    var s := World(initial, clock, t);
    var outcome := o.deleteLogs(t, target.run.repository, target.run.id);
    var e := LogsDelete(target.run.repository, target.run.id, outcome);
    WorldAppend(initial, clock, t, e);
    TouchIsNear(s, s.(logs := s.logs - {RefOf(target)}), RefOf(target), clock(t + [e]));
  }

  /** One planned artifact: removed if it is there, reported accordingly. */
  lemma HonestArtifact(o: Oracle, initial: Inventory, clock: Clock, t: Trace, start: Inventory, run: Ref, a: Artifact)
    requires Honest(o, initial, clock) && a.repository == run.repository
    requires var s := World(initial, clock, t);
             && Near(start, s, run)
             && (Find(s.artifacts, run.repository, a.id).Some? ==>
                Find(s.artifacts, run.repository, a.id).value == Owned(a, run.id))
    ensures var s, r := World(initial, clock, t), PurgeArtifact(o, t, a);
            var s' := World(initial, clock, r.trace);
            var present := Find(s.artifacts, run.repository, a.id).Some?;
            && r.value == ArtifactResult(a, Reported(present).state, None, None)
            && Near(start, s', run) && s'.logs == s.logs
            && s'.artifacts == Without(s.artifacts, run.repository, a.id)
  {
    hide World, Without;
    var s := World(initial, clock, t);
    var lookup := ArtifactLookedUp(a.repository, a.id, o.artifact(t, a.repository, a.id));
    var t1 := t + [lookup];
    WorldAppend(initial, clock, t, lookup);
    if Find(s.artifacts, run.repository, a.id).Some? {
      var delete := ArtifactDelete(a.repository, a.id, o.deleteArtifact(t1, a.repository, a.id));
      WorldAppend(initial, clock, t1, delete);
      TouchIsNear(start, s.(artifacts := Without(s.artifacts, a.repository, a.id)), run, clock(t1 + [delete]));
    } else {
      FindMeaning(s.artifacts, run.repository, a.id);
      WithoutNothing(s.artifacts, run.repository, a.id);
    }
  }

  lemma {:induction false} WithoutNothing(artifacts: seq<Owned>, repository: RepositoryRef, id: nat)
    requires forall x :: x in artifacts ==> !IsAt(x, repository, id)
    ensures Without(artifacts, repository, id) == artifacts
  {
    if artifacts != [] {
      var n := |artifacts| - 1;
      assert artifacts == artifacts[..n] + [artifacts[n]];
      WithoutNothing(artifacts[..n], repository, id);
    }
  }

  /** What the artifact stage reports, judged by the store before it. */
  ghost predicate ReportsStore(results: seq<ArtifactResult>, planned: seq<Artifact>, s: Inventory,
                               repository: RepositoryRef) {
    && |results| == |planned|
    && forall i :: 0 <= i < |planned| ==>
         results[i] == ArtifactResult(planned[i], Reported(Find(s.artifacts, repository, planned[i].id).Some?).state,
             None, None)
  }

  lemma {:induction false} HonestArtifacts(o: Oracle, initial: Inventory, clock: Clock, t: Trace, before: Inventory,
                                           target: Target, i: nat)
    requires Honest(o, initial, clock) && TargetFits(target) && i <= |target.artifacts|
    requires var s := World(initial, clock, t);
             Near(before, s, RefOf(target)) && s.artifacts == before.artifacts
    requires AsPlanned(before, target) && DistinctOwned(before.artifacts)
    ensures var s, r := World(initial, clock, t), PurgeArtifacts(o, t, target.artifacts[..i]);
            var s' := World(initial, clock, r.trace);
            && ReportsStore(r.value, target.artifacts[..i], before, target.run.repository)
            && Near(before, s', RefOf(target)) && s'.logs == s.logs
            && s'.artifacts == RemoveAll(before.artifacts, target.run.repository, target.artifacts[..i])
  {
    hide World, Honest, Near, AsPlanned, PurgeArtifact, TargetFits, NoDrift, DistinctOwned;
    if i != 0 {
      var planned := target.artifacts;
      HonestArtifacts(o, initial, clock, t, before, target, i - 1);
      assert planned[..i][..i - 1] == planned[..i - 1];
      var prior := PurgeArtifacts(o, t, planned[..i - 1]);
      var s := World(initial, clock, prior.trace);
      NextArtifactStands(before, target, i - 1, s);
      HonestArtifact(o, initial, clock, prior.trace, before, RefOf(target), planned[i - 1]);
    }
  }

  /** Removing earlier planned artifacts does not disturb the next one. */
  lemma NextArtifactStands(before: Inventory, target: Target, i: nat, s: Inventory)
    requires TargetFits(target) && i < |target.artifacts|
    requires AsPlanned(before, target) && DistinctOwned(before.artifacts)
    requires s.artifacts == RemoveAll(before.artifacts, target.run.repository, target.artifacts[..i])
    ensures var a, repository := target.artifacts[i], target.run.repository;
            && a.repository == repository
            && Find(s.artifacts, repository, a.id) == Find(before.artifacts, repository, a.id)
            && (Find(s.artifacts, repository, a.id).Some? ==>
               Find(s.artifacts, repository, a.id).value == Owned(a, target.run.id))
  {
    hide NoDrift;
    var a, repository := target.artifacts[i], target.run.repository;
    assert a in target.artifacts;
    ReadyFinds(before, target, a);
    RemoveAllMembers(before.artifacts, repository, target.artifacts[..i]);
    FindMeaning(before.artifacts, repository, a.id);
    FindMeaning(s.artifacts, repository, a.id);
    forall b | b in target.artifacts[..i] ensures b.id != a.id {
      var j :| 0 <= j < i && target.artifacts[j] == b;
    }
  }

  lemma HonestRun(o: Oracle, initial: Inventory, clock: Clock, t: Trace, before: Inventory, target: Target)
    requires Honest(o, initial, clock)
    requires Near(before, World(initial, clock, t), RefOf(target)) && before.runs[RefOf(target)] == target.run
    ensures var s, r := World(initial, clock, t), PurgeRun(o, t, target);
            && r.value == Step(Deleted, None)
            && World(initial, clock, r.trace) == s.(runs := before.runs - {RefOf(target)})
  {
    hide World, WorkflowRun.HasSamePurgeIdentity;
    var s := World(initial, clock, t);
    var repository, id := target.run.repository, target.run.id;
    IdentitySymmetric(s.runs[RefOf(target)], target.run);
    var e1 := RunLookedUp(repository, id, o.run(t, repository, id));
    WorldAppend(initial, clock, t, e1);
    var t1 := t + [e1];
    var e2 := RunDelete(repository, id, o.deleteRun(t1, repository, id));
    WorldAppend(initial, clock, t1, e2);
    var t2 := t1 + [e2];
    var e3 := RunLookedUp(repository, id, o.run(t2, repository, id));
    WorldAppend(initial, clock, t2, e3);
    assert s.runs - {RefOf(target)} == before.runs - {RefOf(target)};
  }

  lemma IdentitySymmetric(a: WorkflowRun, b: WorkflowRun)
    ensures a.HasSamePurgeIdentity(b) <==> b.HasSamePurgeIdentity(a)
  {
  }

  /** What a fully successful item says: no errors, and each object reported by whether it was there. */
  ghost predicate CleanItem(item: Item, target: Target, s: Inventory) {
    && item.plannedRun == target.run
    && item.logs == Reported(RefOf(target) in s.logs)
    && ReportsStore(item.artifacts, target.artifacts, s, target.run.repository)
    && item.residual == []
    && item.run == Step(Deleted, None)
  }

  lemma HonestCleanup(o: Oracle, initial: Inventory, clock: Clock, t: Trace, target: Target)
    requires Honest(o, initial, clock) && TargetFits(target) && target.deleteLogs
    requires var s := World(initial, clock, t); AsPlanned(s, target) && DistinctOwned(s.artifacts)
    ensures var s, r := World(initial, clock, t), Cleanup(o, t, target);
            CleanItem(r.value, target, s) && World(initial, clock, r.trace) == Purged(s, target)
  {
    hide World, PurgeLogs, PurgeRun, TargetFits, NoDrift, DistinctOwned, Near, MarkResiduals, RemoveAll;
    var s := World(initial, clock, t);
    var logs := PurgeLogs(o, t, target);
    HonestLogs(o, initial, clock, t, target);
    assert target.artifacts[..|target.artifacts|] == target.artifacts;
    var artifacts := PurgeArtifacts(o, logs.trace, target.artifacts);
    HonestArtifacts(o, initial, clock, logs.trace, s, target, |target.artifacts|);
    NothingLeft(s, target);
    var t2 := artifacts.trace;
    var list := ArtifactsListed(target.run.repository, target.run.id,
        o.artifacts(t2, target.run.repository, target.run.id));
    WorldAppend(initial, clock, t2, list);
    HonestRun(o, initial, clock, t2 + [list], s, target);
  }

  /** A ready target is purged completely, and nothing else in the store changes. */
  lemma HonestTarget(o: Oracle, initial: Inventory, clock: Clock, t: Trace, target: Target, key: ProtectionKey)
    requires Honest(o, initial, clock) && TargetFits(target) && target.deleteLogs
    requires var s := World(initial, clock, t); AsPlanned(s, target) && DistinctOwned(s.artifacts)
    ensures var s, r := World(initial, clock, t), RunTarget(o, t, target, key);
            CleanItem(r.value, target, s) && World(initial, clock, r.trace) == Purged(s, target)
  {
    hide World, Cleanup, CleanItem, Purged, TargetFits, NoDrift, DistinctOwned, BlockedItem, AbsentItem,
      ArtifactDrift, Drifted;
    var s := World(initial, clock, t);
    var repository, id := target.run.repository, target.run.id;
    var e0 := LeaseAcquired(key, o.acquire(t, key));
    WorldAppend(initial, clock, t, e0);
    var t1 := t + [e0];
    var e1 := ProtectionAssessed(key, o.assess(t1, key, target.run));
    WorldAppend(initial, clock, t1, e1);
    var t2 := t1 + [e1];
    var e2 := RunLookedUp(repository, id, o.run(t2, repository, id));
    WorldAppend(initial, clock, t2, e2);
    var t3 := t2 + [e2];
    var e3 := ArtifactsListed(repository, id, o.artifacts(t3, repository, id));
    WorldAppend(initial, clock, t3, e3);
    var t4 := t3 + [e3];
    DriftMeaning(target.artifacts, Listing(s.artifacts, RefOf(target)));
    HonestCleanup(o, initial, clock, t4, target);
    WorldAppend(initial, clock, Cleanup(o, t4, target).trace, LeaseReleased(key));
  }

  /** A run that is already absent is reported so, and the store is left alone. */
  lemma HonestAbsentTarget(o: Oracle, initial: Inventory, clock: Clock, t: Trace, target: Target, key: ProtectionKey)
    requires Honest(o, initial, clock) && RefOf(target) !in World(initial, clock, t).runs
    ensures RunTarget(o, t, target, key).value == AbsentItem(target)
    ensures World(initial, clock, RunTarget(o, t, target, key).trace) == World(initial, clock, t)
  {
    hide World, CheckDrift, BlockedItem, AbsentItem;
    var repository, id := target.run.repository, target.run.id;
    var e0 := LeaseAcquired(key, o.acquire(t, key));
    WorldAppend(initial, clock, t, e0);
    var t1 := t + [e0];
    var e1 := ProtectionAssessed(key, o.assess(t1, key, target.run));
    WorldAppend(initial, clock, t1, e1);
    var t2 := t1 + [e1];
    var e2 := RunLookedUp(repository, id, o.run(t2, repository, id));
    WorldAppend(initial, clock, t2, e2);
    WorldAppend(initial, clock, t2 + [e2], LeaseReleased(key));
  }
}

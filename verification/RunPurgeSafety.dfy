/**
 * What the purge executor can be trusted with, whatever the provider and the protection store
 * answer. A segment is the part of the history one target adds.
 */
module RunPurgeSafety {
  import opened Prelude
  import opened Domain
  import opened Sorting
  import opened RunProtections
  import opened RunPurgePlans
  import opened RunPurgeRemote
  import opened RunPurgeExecution

  // --- drift, declaratively ------------------------------------------------------------------------

  /** Every planned artifact still listed is unchanged, and nothing unplanned is listed. */
  ghost predicate NoDrift(planned: seq<Artifact>, current: seq<Artifact>) {
    && (forall a :: a in planned && ById(current, a.id).Some? ==> ById(current, a.id).value == a)
    && (forall c :: c in current ==> exists a :: a in planned && a.id == c.id)
  }

  lemma {:induction false} ByIdMeaning(artifacts: seq<Artifact>, id: nat)
    ensures ById(artifacts, id).None? <==> forall a :: a in artifacts ==> a.id != id
    ensures ById(artifacts, id).Some? ==> ById(artifacts, id).value in artifacts && ById(artifacts, id).value.id == id
  {
    if artifacts != [] {
      var n := |artifacts| - 1;
      ByIdMeaning(artifacts[..n], id);
      assert artifacts == artifacts[..n] + [artifacts[n]];
    }
  }

  lemma EmptyIds(artifacts: seq<Artifact>)
    ensures Sort(IdsOf(artifacts), IdLe) == [] <==> artifacts == []
  {
  }

  /** The three sorted lists stop the purge exactly when something drifted. */
  lemma DriftMeaning(planned: seq<Artifact>, current: seq<Artifact>)
    ensures Drifted(ArtifactDrift(planned, current)) <==> !NoDrift(planned, current)
  {
    var isChanged := (a: Artifact) => ById(current, a.id).Some? && ById(current, a.id).value != a;
    var isUnexpected := (a: Artifact) => ById(planned, a.id).None?;
    var changed, unexpected := Filter(planned, isChanged), Filter(current, isUnexpected);
    EmptyIds(changed);
    EmptyIds(unexpected);
    assert changed == [] <==> forall a :: a in planned ==> !isChanged(a) by {
      if changed != [] { assert changed[0] in changed; }
    }
    assert unexpected == [] <==> forall c :: c in current ==> !isUnexpected(c) by {
      if unexpected != [] { assert unexpected[0] in unexpected; }
    }
    forall c | c in current ensures isUnexpected(c) <==> !exists a :: a in planned && a.id == c.id {
      ByIdMeaning(planned, c.id);
    }
  }

  // --- what a history shows --------------------------------------------------------------------------

  predicate LookupGone<T>(found: ProviderResult<Option<T>>) {
    found == Ok(None) || (found.Err? && found.error.NotFound?)
  }

  predicate DeleteGone(outcome: ProviderResult<DeleteOutcome>) {
    outcome.Ok? || outcome.error.NotFound?
  }

  function LookupOf(a: Artifact): Event { ArtifactLookedUp(a.repository, a.id, Ok(Some(a))) }

  predicate DeletesArtifact(e: Event, a: Artifact) {
    e.ArtifactDelete? && e.repository == a.repository && e.id == a.id
  }

  /** By position `k` the provider has said that the artifact is gone. */
  ghost predicate AnsweredGone(d: Trace, k: nat, a: Artifact)
    requires k <= |d|
  {
    exists i :: 0 <= i < k && SaysGone(d[i], a)
  }

  predicate SaysGone(e: Event, a: Artifact) {
    || (e.ArtifactLookedUp? && e.repository == a.repository && e.id == a.id && LookupGone(e.artifact))
    || (DeletesArtifact(e, a) && DeleteGone(e.outcome))
  }

  /** Lease held, unprotected, the run as planned, and no drift: the first four events of a segment. */
  ghost predicate Cleared(d: Trace, target: Target, key: ProtectionKey) {
    && |d| >= 4
    && d[0] == LeaseAcquired(key, None)
    && d[1] == ProtectionAssessed(key, Ok(NoEntry))
    && d[2] == RunLookedUp(target.run.repository, target.run.id, Ok(Some(target.run)))
    && d[3].ArtifactsListed? && d[3].repository == target.run.repository && d[3].id == target.run.id
    && d[3].artifacts.Ok? && NoDrift(target.artifacts, d[3].artifacts.value)
  }

  ghost predicate LogsAnsweredGone(d: Trace, target: Target) {
    && |d| >= 5
    && d[4].LogsDelete? && d[4].repository == target.run.repository && d[4].id == target.run.id
    && DeleteGone(d[4].outcome)
  }

  /** Everything the plan promises before the run itself is deleted at position `k`. */
  ghost predicate MayDeleteRun(d: Trace, k: nat, target: Target, key: ProtectionKey)
    requires k <= |d|
  {
    && Cleared(d, target, key)
    && LogsAnsweredGone(d, target)
    && k >= 7
    && (forall a :: a in target.artifacts ==> AnsweredGone(d, k - 2, a))
    && d[k - 2] == ArtifactsListed(target.run.repository, target.run.id, Ok([]))
    && d[k - 1].RunLookedUp? && d[k - 1].repository == target.run.repository && d[k - 1].id == target.run.id
    && d[k - 1].run.Ok? && d[k - 1].run.value.Some? && target.run.HasSamePurgeIdentity(d[k - 1].run.value.value)
  }

  ghost predicate MayDeleteArtifact(d: Trace, k: nat, target: Target, key: ProtectionKey)
    requires k < |d|
  {
    && Cleared(d, target, key)
    && k >= 5
    && exists a :: a in target.artifacts && d[k - 1] == LookupOf(a) && DeletesArtifact(d[k], a)
  }

  ghost predicate MayDeleteLogs(d: Trace, k: nat, target: Target, key: ProtectionKey) {
    Cleared(d, target, key) && k == 4 && target.deleteLogs
  }

  ghost predicate Justified(d: Trace, k: nat, target: Target, key: ProtectionKey)
    requires k < |d|
  {
    match d[k]
    case LogsDelete(repository, id, _) =>
      repository == target.run.repository && id == target.run.id && MayDeleteLogs(d, k, target, key)
    case ArtifactDelete(_, _, _) => MayDeleteArtifact(d, k, target, key)
    case RunDelete(repository, id, _) =>
      repository == target.run.repository && id == target.run.id && MayDeleteRun(d, k, target, key)
    case _ => true
  }

  /** The same destructive request twice. */
  predicate SameDelete(a: Event, b: Event) {
    || (a.LogsDelete? && b.LogsDelete?)
    || (a.RunDelete? && b.RunDelete?)
    || (a.ArtifactDelete? && b.ArtifactDelete? && a.id == b.id)
  }

  ghost predicate NoRepeatedDelete(d: Trace) {
    forall i, j :: 0 <= i < j < |d| ==> !SameDelete(d[i], d[j])
  }

  // --- the stages' histories ------------------------------------------------------------------------

  /** The artifact stage: lookups, each delete right after seeing exactly the planned artifact. */
  ghost predicate ArtifactPhase(mid: Trace, artifacts: seq<Artifact>, results: seq<ArtifactResult>)
    requires |results| == |artifacts|
  {
    && (forall k :: 0 <= k < |mid| ==> mid[k].ArtifactLookedUp? || mid[k].ArtifactDelete?)
    && (forall k :: 0 <= k < |mid| && mid[k].ArtifactDelete? ==>
          k >= 1 && exists a :: a in artifacts && mid[k - 1] == LookupOf(a) && DeletesArtifact(mid[k], a))
    && (forall i :: 0 <= i < |artifacts| && IsGone(results[i].state) ==> AnsweredGone(mid, |mid|, artifacts[i]))
    && (DistinctArtifacts(artifacts) ==> NoRepeatedDelete(mid))
  }

  lemma ArtifactEvents(o: Oracle, t: Trace, a: Artifact) returns (step: Trace)
    ensures PurgeArtifact(o, t, a).trace == t + step
    ensures ArtifactPhase(step, [a], [PurgeArtifact(o, t, a).value])
    ensures 1 <= |step| <= 2 && step[0].ArtifactLookedUp? && (|step| == 2 ==> DeletesArtifact(step[1], a))
  {
    var found := o.artifact(t, a.repository, a.id);
    var lookup := ArtifactLookedUp(a.repository, a.id, found);
    assert a in [a];
    if found == Ok(Some(a)) {
      var outcome := o.deleteArtifact(t + [lookup], a.repository, a.id);
      var delete := ArtifactDelete(a.repository, a.id, outcome);
      step := [lookup, delete];
      assert t + [lookup] + [delete] == t + step;
      assert step[0] == LookupOf(a) && DeletesArtifact(step[1], a);
      if DeleteGone(outcome) {
        assert SaysGone(step[1], a);
      }
    } else {
      step := [lookup];
      if LookupGone(found) {
        assert SaysGone(step[0], a);
      }
    }
  }

  /** Two artifact phases one after the other make a longer one. */
  lemma JoinPhases(mid: Trace, artifacts: seq<Artifact>, results: seq<ArtifactResult>,
                   step: Trace, a: Artifact, result: ArtifactResult)
    requires |results| == |artifacts| && ArtifactPhase(mid, artifacts, results)
    requires ArtifactPhase(step, [a], [result])
    requires 1 <= |step| <= 2 && step[0].ArtifactLookedUp? && (|step| == 2 ==> DeletesArtifact(step[1], a))
    ensures ArtifactPhase(mid + step, artifacts + [a], results + [result])
  {
    var all, both, n := artifacts + [a], mid + step, |mid|;
    forall k | 0 <= k < |both| && both[k].ArtifactDelete?
      ensures k >= 1 && exists x :: x in all && both[k - 1] == LookupOf(x) && DeletesArtifact(both[k], x)
    {
      if k < n {
        var x :| x in artifacts && mid[k - 1] == LookupOf(x) && DeletesArtifact(mid[k], x);
        assert x in all && both[k - 1] == LookupOf(x) && DeletesArtifact(both[k], x);
      } else {
        assert k == n + 1;
        var x :| x in [a] && step[0] == LookupOf(x) && DeletesArtifact(step[1], x);
        assert x in all && both[k - 1] == LookupOf(x) && DeletesArtifact(both[k], x);
      }
    }
    JoinAnswers(mid, artifacts, results, step, a, result);
    if DistinctArtifacts(all) {
      JoinDistinct(mid, artifacts, results, step, a);
    }
  }

  lemma JoinAnswers(mid: Trace, artifacts: seq<Artifact>, results: seq<ArtifactResult>,
                    step: Trace, a: Artifact, result: ArtifactResult)
    requires |results| == |artifacts| && ArtifactPhase(mid, artifacts, results)
    requires ArtifactPhase(step, [a], [result])
    ensures var all, both := artifacts + [a], mid + step;
            forall i :: 0 <= i < |all| && IsGone((results + [result])[i].state) ==> AnsweredGone(both, |both|, all[i])
  {
    var all, both := artifacts + [a], mid + step;
    forall i | 0 <= i < |all| && IsGone((results + [result])[i].state)
      ensures AnsweredGone(both, |both|, all[i])
    {
      if i < |artifacts| {
        assert AnsweredGone(mid, |mid|, artifacts[i]);
        AnswerMoves(mid, [], step, artifacts[i]);
        assert [] + mid + step == both;
      } else {
        assert [a][0] == a && [result][0] == result;
        assert AnsweredGone(step, |step|, a);
        AnswerMoves(step, mid, [], a);
        assert mid + step + [] == both;
      }
    }
  }

  lemma JoinDistinct(mid: Trace, artifacts: seq<Artifact>, results: seq<ArtifactResult>, step: Trace, a: Artifact)
    requires |results| == |artifacts| && ArtifactPhase(mid, artifacts, results)
    requires 1 <= |step| <= 2 && step[0].ArtifactLookedUp? && (|step| == 2 ==> DeletesArtifact(step[1], a))
    requires DistinctArtifacts(artifacts + [a])
    ensures NoRepeatedDelete(mid + step)
  {
    var all, both, n := artifacts + [a], mid + step, |mid|;
    forall i, j | 0 <= i < j < |artifacts| ensures artifacts[i].id != artifacts[j].id {
      assert all[i] == artifacts[i] && all[j] == artifacts[j];
    }
    assert NoRepeatedDelete(mid);
    forall i, j | 0 <= i < j < |both|
      ensures !SameDelete(both[i], both[j])
    {
      if j >= n && i < n && both[i].ArtifactDelete? && both[j].ArtifactDelete? {
        var x :| x in artifacts && mid[i - 1] == LookupOf(x) && DeletesArtifact(mid[i], x);
        var k :| 0 <= k < |artifacts| && artifacts[k] == x;
        assert all[k].id != all[|artifacts|].id;
      } else if j < n {
        assert !SameDelete(mid[i], mid[j]);
      }
    }
  }

  lemma AnswerMoves(d: Trace, before: Trace, after: Trace, a: Artifact)
    requires AnsweredGone(d, |d|, a)
    ensures AnsweredGone(before + d + after, |before| + |d|, a)
  {
    var i :| 0 <= i < |d| && SaysGone(d[i], a);
    var all := before + d + after;
    assert all[|before| + i] == d[i];
  }

  lemma {:induction false} ArtifactsEvents(o: Oracle, t: Trace, artifacts: seq<Artifact>) returns (mid: Trace)
    ensures PurgeArtifacts(o, t, artifacts).trace == t + mid
    ensures ArtifactPhase(mid, artifacts, PurgeArtifacts(o, t, artifacts).value)
    decreases |artifacts|
  {
    hide PurgeArtifact, ArtifactPhase;
    if artifacts == [] {
      mid := [];
      EmptyPhase();
    } else {
      var n := |artifacts| - 1;
      var before := PurgeArtifacts(o, t, artifacts[..n]);
      var init := ArtifactsEvents(o, t, artifacts[..n]);
      var step := ArtifactEvents(o, before.trace, artifacts[n]);
      JoinPhases(init, artifacts[..n], before.value, step, artifacts[n],
          PurgeArtifact(o, before.trace, artifacts[n]).value);
      mid := init + step;
      assert artifacts == artifacts[..n] + [artifacts[n]];
      assert t + init + step == t + mid;
    }
  }

  lemma EmptyPhase()
    ensures ArtifactPhase([], [], [])
  {
  }

  /** The run stage: identity check, at most one delete, and the report read off its answers. */
  ghost predicate RunPhase(tail: Trace, target: Target, run: StepResult) {
    && 1 <= |tail| <= 3
    && (forall k :: 0 <= k < |tail| ==>
          ((tail[k].RunLookedUp? || tail[k].RunDelete?) && tail[k].repository == target.run.repository
              && tail[k].id == target.run.id))
    && (forall k :: 0 <= k < |tail| ==> (tail[k].RunDelete? <==> k == 1))
    && (|tail| >= 2 ==>
       tail[0].run.Ok? && tail[0].run.value.Some?
       && target.run.HasSamePurgeIdentity(tail[0].run.value.value))
    && (|tail| == 3 <==> |tail| >= 2 && tail[1].outcome == Ok(DeletedNow))
    && (run.state == Deleted <==> |tail| == 3 && LookupGone(tail[2].run))
    && (run.state == VerificationFailed <==> |tail| == 3 && !LookupGone(tail[2].run))
    && (run.state == DeleteFailed <==> |tail| == 2 && !DeleteGone(tail[1].outcome))
    && (run.state == AlreadyAbsent <==> LookupGone(tail[0].run) || (|tail| == 2 && DeleteGone(tail[1].outcome)))
    && (run.state == Changed <==> |tail| == 1 && tail[0].run.Ok? && tail[0].run.value.Some?)
    && (run.state == RevalidationFailed <==> |tail| == 1 && tail[0].run.Err? && !tail[0].run.error.NotFound?)
  }

  lemma RunEvents(o: Oracle, t: Trace, target: Target) returns (tail: Trace)
    ensures PurgeRun(o, t, target).trace == t + tail
    ensures RunPhase(tail, target, PurgeRun(o, t, target).value)
  {
    hide WorkflowRun.HasSamePurgeIdentity;
    var repository, id := target.run.repository, target.run.id;
    var found := o.run(t, repository, id);
    var lookup := RunLookedUp(repository, id, found);
    if found.Ok? && found.value.Some? && target.run.HasSamePurgeIdentity(found.value.value) {
      var outcome := o.deleteRun(t + [lookup], repository, id);
      var delete := RunDelete(repository, id, outcome);
      if outcome == Ok(DeletedNow) {
        var after := o.run(t + [lookup] + [delete], repository, id);
        tail := [lookup, delete, RunLookedUp(repository, id, after)];
        assert t + [lookup] + [delete] + [RunLookedUp(repository, id, after)] == t + tail;
      } else {
        tail := [lookup, delete];
        assert t + [lookup] + [delete] == t + tail;
      }
    } else {
      tail := [lookup];
    }
  }

  /** What follows the artifact stage: nothing, one listing, or an empty listing and the run stage. */
  ghost predicate FinalPhase(rest: Trace, target: Target, item: Item) {
    || (rest == [] && item.run.state == Blocked)
    || (|rest| == 1 && rest[0].ArtifactsListed? && (item.run.state == Blocked || item.run.state == VerificationFailed))
    || (|rest| >= 2 && rest[0] == ArtifactsListed(target.run.repository, target.run.id, Ok([]))
       && RunPhase(rest[1..], target, item.run))
  }

  lemma FinalEvents(o: Oracle, t: Trace, target: Target, logs: StepResult, artifacts: seq<ArtifactResult>)
    returns (rest: Trace)
    ensures var f := Finish(o, t, target, logs, artifacts); f.trace == t + rest && FinalPhase(rest, target, f.value)
    ensures |rest| >= 2 ==> AllGone(logs, artifacts)
  {
    hide PurgeRun, RunPhase, MarkResiduals;
    if !AllGone(logs, artifacts) {
      rest := [];
    } else {
      var listed := o.artifacts(t, target.run.repository, target.run.id);
      var list := ArtifactsListed(target.run.repository, target.run.id, listed);
      if listed == Ok([]) {
        var tail := RunEvents(o, t + [list], target);
        rest := [list] + tail;
        assert rest[1..] == tail;
        assert t + [list] + tail == t + rest;
        RunPhaseLength(tail, target, PurgeRun(o, t + [list], target).value);
      } else {
        rest := [list];
      }
    }
  }

  lemma RunPhaseLength(tail: Trace, target: Target, run: StepResult)
    requires RunPhase(tail, target, run)
    ensures 1 <= |tail| <= 3
  {
  }

  // --- one target's whole segment -------------------------------------------------------------------

  /** A segment that reached cleanup, cut into its phases. */
  datatype Phases = Phases(opening: Trace, logs: Trace, mid: Trace, rest: Trace)

  function Whole(p: Phases, key: ProtectionKey): Trace {
    p.opening + p.logs + p.mid + p.rest + [LeaseReleased(key)]
  }

  ghost predicate LogsPhase(logs: Trace, target: Target, result: StepResult) {
    || (logs == [] && !target.deleteLogs && result.state == Blocked)
    || (|logs| == 1 && target.deleteLogs && logs[0].LogsDelete? && logs[0].repository == target.run.repository
        && logs[0].id == target.run.id && (IsGone(result.state) <==> DeleteGone(logs[0].outcome)))
  }

  ghost predicate CleanupPhases(p: Phases, target: Target, item: Item) {
    && LogsPhase(p.logs, target, item.logs)
    && (exists results :: |results| == |target.artifacts| && ArtifactPhase(p.mid, target.artifacts, results)
          && (|p.rest| >= 2 ==> item.artifacts == results))
    && FinalPhase(p.rest, target, item)
    && (|p.rest| >= 2 ==> AllGone(item.logs, item.artifacts))
  }

  lemma CleanupEvents(o: Oracle, t: Trace, target: Target, opening: Trace) returns (p: Phases)
    ensures p.opening == opening
    ensures Cleanup(o, t, target).trace == t + p.logs + p.mid + p.rest
    ensures CleanupPhases(p, target, Cleanup(o, t, target).value)
  {
    hide ArtifactPhase, FinalPhase, MarkResiduals, PurgeRun;
    var logs := PurgeLogs(o, t, target);
    var artifacts := PurgeArtifacts(o, logs.trace, target.artifacts);
    var mid := ArtifactsEvents(o, logs.trace, target.artifacts);
    var rest := FinalEvents(o, artifacts.trace, target, logs.value, artifacts.value);
    var outcome := o.deleteLogs(t, target.run.repository, target.run.id);
    var first: Trace := if target.deleteLogs then [LogsDelete(target.run.repository, target.run.id, outcome)] else [];
    p := Phases(opening, first, mid, rest);
    assert logs.trace == t + first;
    FinishKeepsResults(o, artifacts.trace, target, logs.value, artifacts.value, rest);
  }

  lemma FinishKeepsResults(o: Oracle, t: Trace, target: Target, logs: StepResult, artifacts: seq<ArtifactResult>,
                           rest: Trace)
    requires Finish(o, t, target, logs, artifacts).trace == t + rest
    ensures Finish(o, t, target, logs, artifacts).value.logs == logs
    ensures |rest| >= 2 ==> Finish(o, t, target, logs, artifacts).value.artifacts == artifacts
  {
  }

  /** Which segments of the history a target can leave behind. */
  ghost predicate SegmentOf(d: Trace, target: Target, key: ProtectionKey, item: Item) {
    || (item.run.state != Deleted && QuietSegment(d, key))
    || (exists p: Phases ::
       d == Whole(p, key) && |p.opening| == 4 && Cleared(p.opening, target, key)
       && CleanupPhases(p, target, item))
  }

  /** Nothing destructive, and the lease given back if it was ever taken. */
  predicate QuietSegment(d: Trace, key: ProtectionKey) {
    && (forall k :: 0 <= k < |d| ==> !d[k].IsDelete() && !d[k].HeadroomRead? && (d[k].LeaseReleased? ==> k == |d| - 1))
    && |d| >= 1 && d[0].LeaseAcquired? && d[0].key == key
    && (d[0].failure == None ==> d[|d| - 1] == LeaseReleased(key))
    && (d[0].failure.Some? ==> |d| == 1)
  }

  lemma DriftEvents(o: Oracle, t: Trace, target: Target, key: ProtectionKey, opening: Trace) returns (d: Trace)
    requires opening == [LeaseAcquired(key, None), ProtectionAssessed(key, Ok(NoEntry)),
                         RunLookedUp(target.run.repository, target.run.id, Ok(Some(target.run)))]
    ensures CheckDrift(o, t, target).trace == t + d
    ensures SegmentOf(opening + d + [LeaseReleased(key)], target, key, CheckDrift(o, t, target).value)
  {
    hide Cleanup, CleanupPhases, BlockedItem, ArtifactDrift, NoDrift, Drifted, Cleared;
    var listed := o.artifacts(t, target.run.repository, target.run.id);
    var list := ArtifactsListed(target.run.repository, target.run.id, listed);
    if listed.Ok? && !Drifted(ArtifactDrift(target.artifacts, listed.value)) {
      DriftMeaning(target.artifacts, listed.value);
      var p := CleanupEvents(o, t + [list], target, opening + [list]);
      d := [list] + p.logs + p.mid + p.rest;
      assert t + [list] + p.logs + p.mid + p.rest == t + d;
      assert opening + d + [LeaseReleased(key)] == Whole(p, key);
      ClearedByListing(target, key, listed.value, p.opening);
    } else {
      d := [list];
      BlockedIsNotDeleted(target);
    }
  }

  lemma ClearedByListing(target: Target, key: ProtectionKey, listed: seq<Artifact>, opening: Trace)
    requires opening == [LeaseAcquired(key, None), ProtectionAssessed(key, Ok(NoEntry)),
                         RunLookedUp(target.run.repository, target.run.id, Ok(Some(target.run)))]
                        + [ArtifactsListed(target.run.repository, target.run.id, Ok(listed))]
    requires NoDrift(target.artifacts, listed)
    ensures |opening| == 4 && Cleared(opening, target, key)
  {
  }

  lemma BlockedIsNotDeleted(target: Target)
    ensures forall state, error :: state != Deleted ==> BlockedItem(target, state, error).run.state != Deleted
    ensures AbsentItem(target).run.state != Deleted
  {
  }

  /** Every run of `execute_target`, against every oracle, leaves one of these segments. */
  lemma TargetEvents(o: Oracle, t: Trace, target: Target, key: ProtectionKey) returns (d: Trace)
    ensures RunTarget(o, t, target, key).trace == t + d
    ensures SegmentOf(d, target, key, RunTarget(o, t, target, key).value)
  {
    hide CheckDrift, CleanupPhases, BlockedItem, AbsentItem, ProtectionBlockReason;
    BlockedIsNotDeleted(target);
    var failure := o.acquire(t, key);
    var acquired := LeaseAcquired(key, failure);
    if failure.Some? {
      d := [acquired];
      return;
    }
    var t1 := t + [acquired];
    var assessed := o.assess(t1, key, target.run);
    var e1 := ProtectionAssessed(key, assessed);
    OnlyNoEntryPasses(assessed);
    if assessed != Ok(NoEntry) {
      d := [acquired, e1, LeaseReleased(key)];
      assert t1 + [e1] + [LeaseReleased(key)] == t + d;
      return;
    }
    var t2 := t1 + [e1];
    var found := o.run(t2, target.run.repository, target.run.id);
    var e2 := RunLookedUp(target.run.repository, target.run.id, found);
    if found != Ok(Some(target.run)) {
      d := [acquired, e1, e2, LeaseReleased(key)];
      assert t2 + [e2] + [LeaseReleased(key)] == t + d;
    } else {
      var opening := [acquired, e1, e2];
      var rest := DriftEvents(o, t2 + [e2], target, key, opening);
      d := opening + rest + [LeaseReleased(key)];
      assert t2 + [e2] + rest + [LeaseReleased(key)] == t + d;
    }
  }

  lemma OnlyNoEntryPasses(assessed: Result<Assessment, ProtectionError>)
    ensures assessed.Ok? ==> (ProtectionBlockReason(assessed.value).None? <==> assessed.value == NoEntry)
  {
  }

  // --- the safety theorem ----------------------------------------------------------------------------

  lemma ClearedByPrefix(d: Trace, opening: Trace, target: Target, key: ProtectionKey)
    requires |opening| == 4 && opening <= d && Cleared(opening, target, key)
    ensures Cleared(d, target, key)
  {
  }

  /** The five parts of a segment, by position. */
  lemma WholeAt(p: Phases, key: ProtectionKey, k: nat)
    requires |p.opening| == 4 && k < |Whole(p, key)|
    ensures var d := Whole(p, key);
            var a, b, c := 4 + |p.logs|, 4 + |p.logs| + |p.mid|, 4 + |p.logs| + |p.mid| + |p.rest|;
            && k <= c && |d| == c + 1
            && (k < 4 ==> d[k] == p.opening[k])
            && (4 <= k < a ==> d[k] == p.logs[k - 4])
            && (a <= k < b ==> d[k] == p.mid[k - a])
            && (b <= k < c ==> d[k] == p.rest[k - b])
            && (k == c ==> d[k] == LeaseReleased(key))
  {
  }

  lemma WholeLength(p: Phases, key: ProtectionKey)
    requires |p.opening| == 4
    ensures |Whole(p, key)| == 4 + |p.logs| + |p.mid| + |p.rest| + 1
    ensures p.opening <= Whole(p, key)
  {
  }

  /** Where each kind of event can stand in a segment that reached cleanup. */
  lemma PhaseAt(p: Phases, target: Target, key: ProtectionKey, item: Item, k: nat)
    requires |p.opening| == 4 && Cleared(p.opening, target, key) && CleanupPhases(p, target, item)
    requires k < |Whole(p, key)|
    ensures var d := Whole(p, key);
            var a, b, c := 4 + |p.logs|, 4 + |p.logs| + |p.mid|, 4 + |p.logs| + |p.mid| + |p.rest|;
            && (k < 4 ==> d[k] == p.opening[k] && !d[k].IsDelete() && !d[k].LeaseReleased?)
            && (4 <= k < a ==> k == 4 && d[k] == p.logs[0] && d[k].LogsDelete? && |p.logs| == 1)
            && (a <= k < b ==> d[k] == p.mid[k - a] && (d[k].ArtifactLookedUp? || d[k].ArtifactDelete?))
            && (b <= k < c ==>
               d[k] == p.rest[k - b] && !d[k].LogsDelete? && !d[k].ArtifactDelete?
               && !d[k].LeaseReleased?)
            && (b <= k < c && d[k].RunDelete? ==> k == b + 2 && |p.rest| >= 3)
            && (k == c ==> d[k] == LeaseReleased(key))
            && k <= c
            && !d[k].HeadroomRead?
  {
    hide NoDrift, Whole, RunPhase, AllGone;
    WholeAt(p, key, k);
    var b := 4 + |p.logs| + |p.mid|;
    if b <= k < b + |p.rest| {
      RestAt(p.rest, target, item, k - b);
    }
  }

  lemma RestAt(rest: Trace, target: Target, item: Item, k: nat)
    requires FinalPhase(rest, target, item) && k < |rest|
    ensures rest[k].ArtifactsListed? || rest[k].RunLookedUp? || rest[k].RunDelete?
    ensures rest[k].RunDelete? ==> k == 2 && |rest| >= 3
  {
  }

  /** A lemma for the longest case: at the run DELETE, every promise has been kept. */
  lemma RunDeleteJustified(p: Phases, target: Target, key: ProtectionKey, item: Item)
    requires |p.opening| == 4 && Cleared(p.opening, target, key) && CleanupPhases(p, target, item)
    requires |p.rest| >= 3 && |p.logs| == 1
    ensures MayDeleteRun(Whole(p, key), 4 + |p.logs| + |p.mid| + 2, target, key)
  {
    hide NoDrift, Whole, AnsweredGone, Cleared;
    var d := Whole(p, key);
    var b := 4 + |p.logs| + |p.mid|;
    WholeLength(p, key);
    ClearedByPrefix(d, p.opening, target, key);
    WholeAt(p, key, 4);
    WholeAt(p, key, b);
    WholeAt(p, key, b + 1);
    assert p.rest[1] == p.rest[1..][0];
    AllAnswered(p, target, key, item);
  }

  lemma AllAnswered(p: Phases, target: Target, key: ProtectionKey, item: Item)
    requires |p.opening| == 4 && CleanupPhases(p, target, item) && |p.rest| >= 3
    ensures var b := 4 + |p.logs| + |p.mid|;
            b <= |Whole(p, key)| && forall a :: a in target.artifacts ==> AnsweredGone(Whole(p, key), b, a)
  {
    hide LogsPhase, FinalPhase, AnsweredGone;
    WholeLength(p, key);
    forall a | a in target.artifacts
      ensures AnsweredGone(Whole(p, key), 4 + |p.logs| + |p.mid|, a)
    {
      var i :| 0 <= i < |target.artifacts| && target.artifacts[i] == a;
      assert AnsweredGone(p.mid, |p.mid|, a);
      AnswerMoves(p.mid, p.opening + p.logs, p.rest + [LeaseReleased(key)], a);
      assert Whole(p, key) == p.opening + p.logs + p.mid + (p.rest + [LeaseReleased(key)]);
    }
  }

  lemma RunPhaseNeedsLogs(p: Phases, target: Target, item: Item)
    requires CleanupPhases(p, target, item) && |p.rest| >= 2
    ensures |p.logs| == 1
  {
  }

  /**
   * Against a provider and a store that answer arbitrarily, a destructive request is issued only
   * when this target's own history already shows everything that allows it.
   */
  lemma EveryDeleteIsJustified(o: Oracle, t: Trace, target: Target, key: ProtectionKey, d: Trace, k: nat)
    requires RunTarget(o, t, target, key).trace == t + d
    requires k < |d|
    ensures Justified(d, k, target, key)
  {
    var e := TargetEvents(o, t, target, key);
    assert (t + d)[|t|..] == d && (t + e)[|t|..] == e;
    var item := RunTarget(o, t, target, key).value;
    if !QuietSegment(d, key) || item.run.state == Deleted {
      var p: Phases :| d == Whole(p, key) && |p.opening| == 4 && Cleared(p.opening, target, key)
          && CleanupPhases(p, target, item);
      JustifiedInPhases(p, target, key, item, k);
    }
  }

  lemma JustifiedInPhases(p: Phases, target: Target, key: ProtectionKey, item: Item, k: nat)
    requires |p.opening| == 4 && Cleared(p.opening, target, key) && CleanupPhases(p, target, item)
    requires k < |Whole(p, key)|
    ensures Justified(Whole(p, key), k, target, key)
  {
    hide NoDrift, Cleared, Whole, ArtifactPhase, MayDeleteRun, MayDeleteArtifact;
    var d := Whole(p, key);
    PhaseAt(p, target, key, item, k);
    WholeLength(p, key);
    ClearedByPrefix(d, p.opening, target, key);
    if d[k].RunDelete? {
      RunPhaseNeedsLogs(p, target, item);
      RunDeleteJustified(p, target, key, item);
      assert p.rest[2] == p.rest[1..][1];
    } else if d[k].ArtifactDelete? {
      ArtifactDeleteJustified(p, target, key, item, k);
    }
  }

  lemma ArtifactDeleteJustified(p: Phases, target: Target, key: ProtectionKey, item: Item, k: nat)
    requires |p.opening| == 4 && Cleared(p.opening, target, key) && CleanupPhases(p, target, item)
    requires k < |Whole(p, key)| && Whole(p, key)[k].ArtifactDelete?
    ensures MayDeleteArtifact(Whole(p, key), k, target, key)
  {
    hide NoDrift, Cleared, FinalPhase, Whole, LogsPhase;
    var d := Whole(p, key);
    WholeLength(p, key);
    ClearedByPrefix(d, p.opening, target, key);
    PhaseAt(p, target, key, item, k);
    WholeAt(p, key, k - 1);
    var a := 4 + |p.logs|;
    var x :| x in target.artifacts && p.mid[k - a - 1] == LookupOf(x) && DeletesArtifact(p.mid[k - a], x);
    assert d[k - 1] == LookupOf(x) && DeletesArtifact(d[k], x);
  }

  /** No object is deleted twice while one target is executed. */
  lemma EachDeleteOnce(o: Oracle, t: Trace, target: Target, key: ProtectionKey, d: Trace)
    requires RunTarget(o, t, target, key).trace == t + d
    requires DistinctArtifacts(target.artifacts)
    ensures NoRepeatedDelete(d)
  {
    var e := TargetEvents(o, t, target, key);
    assert (t + d)[|t|..] == d && (t + e)[|t|..] == e;
    var item := RunTarget(o, t, target, key).value;
    if !QuietSegment(d, key) || item.run.state == Deleted {
      var p: Phases :| d == Whole(p, key) && |p.opening| == 4 && Cleared(p.opening, target, key)
          && CleanupPhases(p, target, item);
      hide SameDelete, Whole, CleanupPhases, Cleared;
      forall i, j | 0 <= i < j < |d|
        ensures !SameDelete(d[i], d[j])
      {
        OnceInPhases(p, target, key, item, i, j);
      }
    }
  }

  lemma OnceInPhases(p: Phases, target: Target, key: ProtectionKey, item: Item, i: nat, j: nat)
    requires |p.opening| == 4 && Cleared(p.opening, target, key) && CleanupPhases(p, target, item)
    requires i < j < |Whole(p, key)| && DistinctArtifacts(target.artifacts)
    ensures !SameDelete(Whole(p, key)[i], Whole(p, key)[j])
  {
    PhaseAt(p, target, key, item, i);
    PhaseAt(p, target, key, item, j);
    var results :| |results| == |target.artifacts| && ArtifactPhase(p.mid, target.artifacts, results)
      && (|p.rest| >= 2 ==> item.artifacts == results);
    RepeatFree(p.mid, target.artifacts, results);
    hide Whole, LogsPhase, CleanupPhases, Cleared, ArtifactPhase, FinalPhase, DistinctArtifacts;
  }

  lemma RepeatFree(mid: Trace, artifacts: seq<Artifact>, results: seq<ArtifactResult>)
    requires |results| == |artifacts| && ArtifactPhase(mid, artifacts, results) && DistinctArtifacts(artifacts)
    ensures NoRepeatedDelete(mid)
  {
  }

  /** The lease covers every destructive request: taken first, given back last, never in between. */
  ghost predicate LeaseCovers(d: Trace, key: ProtectionKey) {
    && |d| >= 1 && d[0].LeaseAcquired? && d[0].key == key
    && (d[0].failure == None ==> d[|d| - 1] == LeaseReleased(key))
    && (forall k :: 0 <= k < |d| && d[k].LeaseReleased? ==> k == |d| - 1)
    && ((exists k :: 0 <= k < |d| && d[k].IsDelete()) ==>
          d[0].failure == None && |d| >= 2 && d[1] == ProtectionAssessed(key, Ok(NoEntry)))
  }

  lemma DeletesHappenUnderLease(o: Oracle, t: Trace, target: Target, key: ProtectionKey, d: Trace)
    requires RunTarget(o, t, target, key).trace == t + d
    ensures LeaseCovers(d, key)
  {
    var e := TargetEvents(o, t, target, key);
    assert (t + d)[|t|..] == d && (t + e)[|t|..] == e;
    var item := RunTarget(o, t, target, key).value;
    if !QuietSegment(d, key) {
      var p: Phases :| d == Whole(p, key) && |p.opening| == 4 && Cleared(p.opening, target, key)
          && CleanupPhases(p, target, item);
      CoveredInPhases(p, target, key, item);
    }
  }

  lemma CoveredInPhases(p: Phases, target: Target, key: ProtectionKey, item: Item)
    requires |p.opening| == 4 && Cleared(p.opening, target, key) && CleanupPhases(p, target, item)
    ensures LeaseCovers(Whole(p, key), key)
  {
    var d := Whole(p, key);
    WholeLength(p, key);
    WholeAt(p, key, 0);
    WholeAt(p, key, 1);
    WholeAt(p, key, |d| - 1);
    hide NoDrift, Whole, CleanupPhases;
    forall k | 0 <= k < |d| && d[k].LeaseReleased?
      ensures k == |d| - 1
    {
      PhaseAt(p, target, key, item, k);
    }
  }

  /** A run is reported deleted exactly when DELETE said so and the very next lookup found nothing. */
  lemma DeletedMeansVerified(o: Oracle, t: Trace, target: Target, key: ProtectionKey, d: Trace)
    requires RunTarget(o, t, target, key).trace == t + d
    ensures RunTarget(o, t, target, key).value.run.state == Deleted
            <==> exists k :: 0 <= k && k + 2 < |d|
                   && d[k] == RunDelete(target.run.repository, target.run.id, Ok(DeletedNow))
                   && d[k + 1].RunLookedUp? && d[k + 1].id == target.run.id && LookupGone(d[k + 1].run)
  {
    var e := TargetEvents(o, t, target, key);
    assert (t + d)[|t|..] == d && (t + e)[|t|..] == e;
    var item := RunTarget(o, t, target, key).value;
    if !QuietSegment(d, key) || item.run.state == Deleted {
      var p: Phases :| d == Whole(p, key) && |p.opening| == 4 && Cleared(p.opening, target, key)
          && CleanupPhases(p, target, item);
      DeletedInPhases(p, target, key, item);
    }
  }

  lemma DeletedInPhases(p: Phases, target: Target, key: ProtectionKey, item: Item)
    requires |p.opening| == 4 && Cleared(p.opening, target, key) && CleanupPhases(p, target, item)
    ensures var d := Whole(p, key);
            item.run.state == Deleted
            <==> exists k :: 0 <= k && k + 2 < |d|
                   && d[k] == RunDelete(target.run.repository, target.run.id, Ok(DeletedNow))
                   && d[k + 1].RunLookedUp? && d[k + 1].id == target.run.id && LookupGone(d[k + 1].run)
  {
    hide NoDrift, Cleared, ArtifactPhase;
    var d := Whole(p, key);
    var b := 4 + |p.logs| + |p.mid|;
    if item.run.state == Deleted {
      assert p.rest[2] == p.rest[1..][1] && p.rest[3] == p.rest[1..][2];
      assert d[b + 2] == p.rest[2] && d[b + 3] == p.rest[3];
    }
    if k :| 0 <= k && k + 2 < |d| && d[k] == RunDelete(target.run.repository, target.run.id, Ok(DeletedNow))
            && d[k + 1].RunLookedUp? && d[k + 1].id == target.run.id && LookupGone(d[k + 1].run) {
      PhaseAt(p, target, key, item, k);
      PhaseAt(p, target, key, item, k + 1);
      assert p.rest[2] == p.rest[1..][1];
      assert |p.rest| >= 4 && p.rest[3] == p.rest[1..][2];
    }
  }
}

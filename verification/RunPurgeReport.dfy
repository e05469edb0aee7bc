/** What a purge report tells: each reported state stands for exactly one kind of answers, both ways. */
module RunPurgeReports {
  import opened Prelude
  import opened Domain
  import opened RunProtections
  import opened RunPurgePlans
  import opened RunPurgeRemote
  import opened RunPurgeExecution
  import opened RunPurgeSafety

  // --- artifacts and logs -----------------------------------------------------------------------------------

  /** One artifact's answers: a lookup, and a DELETE exactly if it returned the planned artifact. */
  ghost predicate ArtifactAnswers(step: Trace, a: Artifact) {
    && 1 <= |step| <= 2
    && step[0].ArtifactLookedUp? && step[0].repository == a.repository && step[0].id == a.id
    && (|step| == 2 <==> step[0].artifact == Ok(Some(a)))
    && (|step| == 2 ==> DeletesArtifact(step[1], a))
  }

  ghost predicate ArtifactTold(step: Trace, a: Artifact, result: ArtifactResult)
    requires ArtifactAnswers(step, a)
  {
    && result.planned == a
    && match result.state
       case Deleted => |step| == 2 && step[1].outcome == Ok(DeletedNow)
       case AlreadyAbsent => LookupGone(step[0].artifact)
            || (|step| == 2 && DeleteGone(step[1].outcome) && step[1].outcome != Ok(DeletedNow))
       case DeleteFailed => |step| == 2 && !DeleteGone(step[1].outcome)
       case Changed => |step| == 1 && step[0].artifact.Ok? && step[0].artifact.value.Some?
            && result.current == step[0].artifact.value
       case RevalidationFailed => |step| == 1 && step[0].artifact.Err? && !step[0].artifact.error.NotFound?
       case _ => false
  }

  /** Each artifact's state is read off its own answers; a different artifact is never deleted. */
  lemma ArtifactReportIsExact(o: Oracle, t: Trace, a: Artifact) returns (step: Trace)
    ensures PurgeArtifact(o, t, a).trace == t + step && ArtifactAnswers(step, a)
    ensures ArtifactTold(step, a, PurgeArtifact(o, t, a).value)
  {
    var found := o.artifact(t, a.repository, a.id);
    var lookup := ArtifactLookedUp(a.repository, a.id, found);
    if found == Ok(Some(a)) {
      var delete := ArtifactDelete(a.repository, a.id, o.deleteArtifact(t + [lookup], a.repository, a.id));
      step := [lookup, delete];
      assert t + [lookup] + [delete] == t + step;
    } else {
      step := [lookup];
    }
  }

  /** Logs: never touched without the plan's permission, and reported by the one answer given. */
  lemma LogsReportIsExact(o: Oracle, t: Trace, target: Target)
    ensures var r, outcome := PurgeLogs(o, t, target), o.deleteLogs(t, target.run.repository, target.run.id);
            && (r.trace == t <==> !target.deleteLogs)
            && (r.value.state == Blocked <==> !target.deleteLogs)
            && (target.deleteLogs ==>
                  && (r.value.state == Deleted <==> outcome == Ok(DeletedNow))
                  && (r.value.state == AlreadyAbsent <==> DeleteGone(outcome) && outcome != Ok(DeletedNow))
                  && (r.value.state == DeleteFailed <==> !DeleteGone(outcome)))
  {
  }

  // --- the check after the dependencies -------------------------------------------------------------------------

  lemma {:induction false} FindArtifactMeaning(artifacts: seq<Artifact>, id: nat)
    ensures FindArtifact(artifacts, id).Some? <==> exists a :: a in artifacts && a.id == id
    ensures FindArtifact(artifacts, id).Some? ==> FindArtifact(artifacts, id).value in artifacts
  {
    if artifacts != [] {
      assert artifacts == [artifacts[0]] + artifacts[1..];
      FindArtifactMeaning(artifacts[1..], id);
    }
  }

  /**
   * If the fresh listing is not empty the run is kept, whatever was said before; a planned artifact is
   * then reported as not verified exactly when its id is still listed, and as before otherwise.
   */
  lemma ResidualReportIsExact(o: Oracle, t: Trace, target: Target, logs: StepResult, results: seq<ArtifactResult>,
                              residual: seq<Artifact>)
    requires AllGone(logs, results) && residual != []
             && o.artifacts(t, target.run.repository, target.run.id) == Ok(residual)
    ensures var f := Finish(o, t, target, logs, results);
            && f.trace == t + [ArtifactsListed(target.run.repository, target.run.id, Ok(residual))]
            && f.value.run.state == Blocked && f.value.residual == residual && |f.value.artifacts| == |results|
            && forall i :: 0 <= i < |results| ==>
                 var listed := exists a :: a in residual && a.id == results[i].planned.id;
                 && (f.value.artifacts[i].state == VerificationFailed <==> listed)
                 && (!listed ==> f.value.artifacts[i] == results[i])
  {
    hide PurgeRun, FindArtifact;
    forall i | 0 <= i < |results| ensures FindArtifact(residual, results[i].planned.id).Some? <==>
        exists a :: a in residual && a.id == results[i].planned.id {
      FindArtifactMeaning(residual, results[i].planned.id);
    }
  }

  // --- targets that never reach cleanup -----------------------------------------------------------------------------

  /** The run's state in a segment that stopped before any destructive request. */
  ghost predicate StoppedEarly(d: Trace, target: Target, key: ProtectionKey, state: State) {
    match state
    case Blocked =>
      || (|d| == 1 && d[0].LeaseAcquired? && d[0].failure.Some?)
      || (|d| == 3 && d[1].ProtectionAssessed? && d[1].assessment != Ok(NoEntry))
    case AlreadyAbsent => |d| == 4 && d[2].RunLookedUp? && LookupGone(d[2].run)
    case Changed =>
      || (|d| == 4 && d[2].RunLookedUp? && d[2].run.Ok? && d[2].run.value.Some? && d[2].run.value.value != target.run)
      || (|d| == 5 && d[3].ArtifactsListed? && d[3].artifacts.Ok? && !NoDrift(target.artifacts, d[3].artifacts.value))
    case RevalidationFailed =>
      || (|d| == 4 && d[2].RunLookedUp? && d[2].run.Err? && !d[2].run.error.NotFound?)
      || (|d| == 5 && d[3].ArtifactsListed? && d[3].artifacts.Err?)
    case _ => false
  }

  lemma BlockedState(target: Target, state: State, error: Option<Message>)
    ensures BlockedItem(target, state, error).run.state == state && AbsentItem(target).run.state == AlreadyAbsent
  {
  }

  lemma DriftReport(o: Oracle, t: Trace, target: Target, key: ProtectionKey, opening: Trace)
    requires |opening| == 3
    requires var listed := o.artifacts(t, target.run.repository, target.run.id);
             listed.Err? || !NoDrift(target.artifacts, listed.value)
    ensures var r := CheckDrift(o, t, target);
            var list := ArtifactsListed(target.run.repository, target.run.id,
                o.artifacts(t, target.run.repository, target.run.id));
            r.trace == t + [list] && StoppedEarly(opening + [list] + [LeaseReleased(key)], target, key,
                r.value.run.state)
  {
    hide Cleanup, BlockedItem, ArtifactDrift, NoDrift, Drifted;
    var listed := o.artifacts(t, target.run.repository, target.run.id);
    if listed.Err? {
      BlockedState(target, RevalidationFailed, Some(ProviderSaid(listed.error)));
    } else {
      DriftMeaning(target.artifacts, listed.value);
      BlockedState(target, Changed, Some(DriftFound(ArtifactDrift(target.artifacts, listed.value))));
    }
    var list := ArtifactsListed(target.run.repository, target.run.id, listed);
    assert (opening + [list] + [LeaseReleased(key)])[3] == list;
  }

  /** The lease, the protection and the lookup allow the purge to go on. */
  ghost predicate GoesOn(o: Oracle, t: Trace, target: Target, key: ProtectionKey) {
    var t1 := t + [LeaseAcquired(key, None)];
    var t2 := t1 + [ProtectionAssessed(key, Ok(NoEntry))];
    o.acquire(t, key) == None && o.assess(t1, key, target.run) == Ok(NoEntry)
    && o.run(t2, target.run.repository, target.run.id) == Ok(Some(target.run))
  }

  /**
   * Whatever stops a target before its first destructive request, the reported state names the answer
   * that stopped it: lease or protection, absence, difference or drift, or a failed reading.
   */
  lemma EarlyStopIsExact(o: Oracle, t: Trace, target: Target, key: ProtectionKey) returns (d: Trace)
    requires GoesOn(o, t, target, key) ==>
               var t3 := t + [LeaseAcquired(key, None)] + [ProtectionAssessed(key, Ok(NoEntry))]
                         + [RunLookedUp(target.run.repository, target.run.id, Ok(Some(target.run)))];
               var listed := o.artifacts(t3, target.run.repository, target.run.id);
               listed.Err? || !NoDrift(target.artifacts, listed.value)
    ensures RunTarget(o, t, target, key).trace == t + d
    ensures StoppedEarly(d, target, key, RunTarget(o, t, target, key).value.run.state)
  {
    hide CheckDrift, BlockedItem, AbsentItem, ProtectionBlockReason, NoDrift;
    forall state, error ensures BlockedItem(target, state, error).run.state
        == state { BlockedState(target, state, error); }
    BlockedState(target, Blocked, None);
    var failure := o.acquire(t, key);
    var acquired := LeaseAcquired(key, failure);
    if failure.Some? {
      d := [acquired];
      return;
    }
    var t1 := t + [acquired];
    var assessed := o.assess(t1, key, target.run);
    var e1 := ProtectionAssessed(key, assessed);
    OnlyNoEntryPasses(assessed);
    if assessed != Ok(NoEntry) {
      d := [acquired, e1, LeaseReleased(key)];
      assert t1 + [e1] + [LeaseReleased(key)] == t + d;
      return;
    }
    var t2 := t1 + [e1];
    var found := o.run(t2, target.run.repository, target.run.id);
    var e2 := RunLookedUp(target.run.repository, target.run.id, found);
    if found != Ok(Some(target.run)) {
      d := [acquired, e1, e2, LeaseReleased(key)];
      assert t2 + [e2] + [LeaseReleased(key)] == t + d;
    } else {
      var opening: Trace := [acquired, e1, e2];
      DriftReport(o, t2 + [e2], target, key, opening);
      var list := ArtifactsListed(target.run.repository, target.run.id,
          o.artifacts(t2 + [e2], target.run.repository, target.run.id));
      d := opening + [list] + [LeaseReleased(key)];
      assert t2 + [e2] + [list] + [LeaseReleased(key)] == t + d;
    }
  }
}

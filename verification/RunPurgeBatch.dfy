/** The whole batch: rate-limit containment, and the safety theorem lifted to every target. */
module RunPurgeBatch {
  import opened Prelude
  import opened Domain
  import opened RunProtections
  import opened RunPurgePlans
  import opened RunPurgeRemote
  import opened RunPurgeExecution
  import opened RunPurgeMessages
  import opened RunPurgeSafety

  // --- what makes the batch see a rate limit ----------------------------------------------------------

  /** Some request between two points of the history was refused by the rate limit. */
  ghost predicate LimitedSince(t: Trace, later: Trace) {
    exists k :: |t| <= k < |later| && later[k].WasRateLimited()
  }

  predicate AnswerTells<A>(answer: ProviderResult<A>) {
    answer.Err? && !answer.error.NotFound? && HasPhrase(answer.error.message)
  }

  predicate AssessmentTells(a: Result<Assessment, ProtectionError>) {
    match a
    case Ok(NoEntry) => false
    case Ok(Protected(entry)) => HasPhrase(entry.reason)
    case Ok(Review(_, explanation)) => HasPhrase(explanation)
    case Err(failure) => FailureTells(failure)
  }

  /**
   * The report repeats free text from this answer, and the text contains the phrase. `NotFound`
   * counts as absence and is not repeated, except from a listing.
   */
  predicate RepeatsPhrase(e: Event) {
    match e
    case LeaseAcquired(_, failure) => failure.Some? && FailureTells(failure.value)
    case ProtectionAssessed(_, a) => AssessmentTells(a)
    case RunLookedUp(_, _, a) => AnswerTells(a)
    case ArtifactsListed(_, _, a) => a.Err? && HasPhrase(a.error.message)
    case ArtifactLookedUp(_, _, a) => AnswerTells(a)
    case ArtifactDelete(_, _, a) => AnswerTells(a)
    case LogsDelete(_, _, a) => AnswerTells(a)
    case RunDelete(_, _, a) => AnswerTells(a)
    case _ => false
  }

  /** Such an answer makes the batch believe in a rate limit. */
  predicate LooksLimited(e: Event) { e.WasRateLimited() || RepeatsPhrase(e) }

  ghost predicate LooksLimitedSince(t: Trace, later: Trace) {
    exists k :: |t| <= k < |later| && LooksLimited(later[k])
  }

  lemma LimitSplits(t: Trace, mid: Trace, later: Trace)
    requires t <= mid <= later
    ensures LooksLimitedSince(t, later) <==> LooksLimitedSince(t, mid) || LooksLimitedSince(mid, later)
  {
    if LooksLimitedSince(t, mid) {
      var k :| |t| <= k < |mid| && LooksLimited(mid[k]);
      assert later[k] == mid[k];
    }
    if LooksLimitedSince(t, later) && !LooksLimitedSince(mid, later) {
      var k :| |t| <= k < |later| && LooksLimited(later[k]);
      assert mid[k] == later[k];
    }
  }

  lemma LimitOnce(t: Trace, e: Event)
    ensures LooksLimitedSince(t, t + [e]) <==> LooksLimited(e)
    ensures !LooksLimitedSince(t, t)
  {
    if LooksLimited(e) {
      assert (t + [e])[|t|] == e;
    }
  }

  /** One answer, and the stages after it. */
  lemma LimitAfter(t: Trace, e: Event, later: Trace)
    requires t + [e] <= later
    ensures LooksLimitedSince(t, later) <==> LooksLimited(e) || LooksLimitedSince(t + [e], later)
  {
    LimitSplits(t, t + [e], later);
    LimitOnce(t, e);
  }

  lemma Mentioned(m: Message)
    requires !IsHaltNotice(m)
    ensures MentionsRateLimit(Some(m)) <==> Tells(m)
  {
    MessageTells(m);
  }

  lemma DeleteStepTells(outcome: ProviderResult<DeleteOutcome>)
    ensures MentionsRateLimit(DeleteStep(outcome).error)
            <==> outcome.Err? && !outcome.error.NotFound? && ErrorTells(outcome.error)
    ensures MentionsRateLimit(DeleteStep(outcome).error) ==> !IsGone(DeleteStep(outcome).state)
  {
    hide MentionsRateLimit, ErrorTells;
    if outcome.Err? && !outcome.error.NotFound? {
      Mentioned(ProviderSaid(outcome.error));
    }
    NothingMentioned();
  }

  lemma NothingMentioned()
    ensures !MentionsRateLimit(None) && !MentionsRateLimit(Some(NotStarted))
            && !MentionsRateLimit(Some(ArtifactStillExists))
  {
    hide Message.Text;
    Mentioned(NotStarted);
    Mentioned(ArtifactStillExists);
  }

  lemma LogsTell(o: Oracle, t: Trace, target: Target)
    ensures var r := PurgeLogs(o, t, target);
            && t <= r.trace
            && (LooksLimitedSince(t, r.trace) <==> MentionsRateLimit(r.value.error))
            && (MentionsRateLimit(r.value.error) ==> !IsGone(r.value.state))
  {
    hide MentionsRateLimit, DeleteStep, HasPhrase;
    var outcome := o.deleteLogs(t, target.run.repository, target.run.id);
    LimitOnce(t, LogsDelete(target.run.repository, target.run.id, outcome));
    DeleteStepTells(outcome);
    Mentioned(LogsNotAuthorized);
  }

  lemma ArtifactTells(o: Oracle, t: Trace, a: Artifact)
    ensures var r := PurgeArtifact(o, t, a);
            && t <= r.trace
            && (LooksLimitedSince(t, r.trace) <==> MentionsRateLimit(r.value.error))
            && (MentionsRateLimit(r.value.error) ==> !IsGone(r.value.state))
  {
    hide MentionsRateLimit, DeleteStep, HasPhrase;
    var found := o.artifact(t, a.repository, a.id);
    var lookup := ArtifactLookedUp(a.repository, a.id, found);
    NothingMentioned();
    LimitOnce(t, lookup);
    if found == Ok(Some(a)) {
      var t1 := t + [lookup];
      var outcome := o.deleteArtifact(t1, a.repository, a.id);
      var delete := ArtifactDelete(a.repository, a.id, outcome);
      LimitOnce(t1, delete);
      LimitAfter(t, lookup, t1 + [delete]);
      DeleteStepTells(outcome);
    } else if found.Err? {
      Mentioned(ProviderSaid(found.error));
    }
  }

  ghost predicate SomeResultMentions(results: seq<ArtifactResult>) {
    exists i :: 0 <= i < |results| && MentionsRateLimit(results[i].error)
  }

  /** A result that mentions a rate limit is not reported as gone. */
  ghost predicate MentionedStay(results: seq<ArtifactResult>) {
    forall i :: 0 <= i < |results| && MentionsRateLimit(results[i].error) ==> !IsGone(results[i].state)
  }

  lemma {:induction false} ArtifactsTell(o: Oracle, t: Trace, artifacts: seq<Artifact>)
    ensures var r := PurgeArtifacts(o, t, artifacts);
            && t <= r.trace
            && (LooksLimitedSince(t, r.trace) <==> SomeResultMentions(r.value))
            && MentionedStay(r.value)
    decreases |artifacts|
  {
    hide MentionsRateLimit, PurgeArtifact, LooksLimitedSince;
    LimitOnce(t, LeaseReleased(ProtectionKey("", "", 0, 0)));
    if artifacts != [] {
      var n := |artifacts| - 1;
      var before := PurgeArtifacts(o, t, artifacts[..n]);
      var last := PurgeArtifact(o, before.trace, artifacts[n]);
      ArtifactsTell(o, t, artifacts[..n]);
      ArtifactTells(o, before.trace, artifacts[n]);
      LimitSplits(t, before.trace, last.trace);
      ResultsAppend(before.value, last.value);
    }
  }

  lemma ResultsAppend(results: seq<ArtifactResult>, last: ArtifactResult)
    ensures SomeResultMentions(results + [last]) <==> SomeResultMentions(results) || MentionsRateLimit(last.error)
    ensures MentionedStay(results) && (MentionsRateLimit(last.error) ==> !IsGone(last.state)) ==>
            MentionedStay(results + [last])
  {
    hide MentionsRateLimit;
    var all := results + [last];
    assert all[|results|] == last;
    if SomeResultMentions(results) {
      var i :| 0 <= i < |results| && MentionsRateLimit(results[i].error);
      assert all[i] == results[i];
    }
  }

  lemma VerifyTells(o: Oracle, t: Trace, target: Target)
    ensures var r := VerifyAbsence(o, t, target);
            t <= r.trace && (LooksLimitedSince(t, r.trace) <==> MentionsRateLimit(r.value.error))
  {
    hide MentionsRateLimit, HasPhrase;
    var found := o.run(t, target.run.repository, target.run.id);
    LimitOnce(t, RunLookedUp(target.run.repository, target.run.id, found));
    NothingMentioned();
    Mentioned(RunStillExists);
    if found.Err? {
      Mentioned(AfterDeleteUnverified(found.error));
    }
  }

  lemma RunTells(o: Oracle, t: Trace, target: Target)
    ensures var r := PurgeRun(o, t, target);
            t <= r.trace && (LooksLimitedSince(t, r.trace) <==> MentionsRateLimit(r.value.error))
  {
    hide MentionsRateLimit, VerifyAbsence, WorkflowRun.HasSamePurgeIdentity, DeleteStep, HasPhrase, LooksLimitedSince;
    var repository, id := target.run.repository, target.run.id;
    var found := o.run(t, repository, id);
    var lookup := RunLookedUp(repository, id, found);
    var t1 := t + [lookup];
    LimitOnce(t, lookup);
    NothingMentioned();
    Mentioned(IdentityChanged);
    if found.Ok? && found.value.Some? && target.run.HasSamePurgeIdentity(found.value.value) {
      var outcome := o.deleteRun(t1, repository, id);
      var delete := RunDelete(repository, id, outcome);
      LimitOnce(t1, delete);
      VerifyTells(o, t1 + [delete], target);
      DeleteStepTells(outcome);
      var r := PurgeRun(o, t, target);
      LimitAfter(t, lookup, r.trace);
      LimitAfter(t1, delete, r.trace);
      LimitOnce(t1 + [delete], delete);
    } else if found.Err? {
      Mentioned(ProviderSaid(found.error));
    }
  }

  lemma MarksTellNothing(results: seq<ArtifactResult>, residual: seq<Artifact>)
    requires !SomeResultMentions(results)
    ensures !SomeResultMentions(MarkResiduals(results, residual))
  {
    hide MentionsRateLimit, FindArtifact;
    NothingMentioned();
  }

  lemma FinishTells(o: Oracle, t: Trace, target: Target, logs: StepResult, artifacts: seq<ArtifactResult>)
    requires (MentionsRateLimit(logs.error) ==> !IsGone(logs.state)) && MentionedStay(artifacts)
    ensures var f := Finish(o, t, target, logs, artifacts);
            && t <= f.trace
            && (HitRateLimit(f.value) <==>
               LooksLimitedSince(t, f.trace) || MentionsRateLimit(logs.error) || SomeResultMentions(artifacts))
  {
    hide MentionsRateLimit, PurgeRun, MarkResiduals, HasPhrase, LooksLimitedSince;
    var listed := o.artifacts(t, target.run.repository, target.run.id);
    var list := ArtifactsListed(target.run.repository, target.run.id, listed);
    LimitOnce(t, list);
    Mentioned(CleanupIncomplete);
    if AllGone(logs, artifacts) {
      assert !MentionsRateLimit(logs.error) && !SomeResultMentions(artifacts);
      if listed.Err? {
        Mentioned(DependenciesUnverified(listed.error));
      } else if listed.value != [] {
        Mentioned(DependenciesRemain(listed.value));
        MarksTellNothing(artifacts, listed.value);
      } else {
        RunTells(o, t + [list], target);
        LimitAfter(t, list, Finish(o, t, target, logs, artifacts).trace);
      }
    }
  }

  lemma CleanupTells(o: Oracle, t: Trace, target: Target)
    ensures var r := Cleanup(o, t, target); t <= r.trace && (LooksLimitedSince(t, r.trace) <==> HitRateLimit(r.value))
  {
    hide MentionsRateLimit, Finish, PurgeLogs, PurgeArtifacts, HitRateLimit, LooksLimitedSince;
    var logs := PurgeLogs(o, t, target);
    var artifacts := PurgeArtifacts(o, logs.trace, target.artifacts);
    LogsTell(o, t, target);
    ArtifactsTell(o, logs.trace, target.artifacts);
    FinishTells(o, artifacts.trace, target, logs.value, artifacts.value);
    LimitSplits(t, logs.trace, artifacts.trace);
    LimitSplits(t, artifacts.trace, Cleanup(o, t, target).trace);
  }

  lemma BlockedTells(target: Target, state: State, error: Option<Message>)
    ensures HitRateLimit(BlockedItem(target, state, error)) <==> MentionsRateLimit(error)
    ensures !HitRateLimit(AbsentItem(target))
  {
    hide MentionsRateLimit;
    NothingMentioned();
  }

  lemma DriftTells(o: Oracle, t: Trace, target: Target)
    ensures var r := CheckDrift(o, t, target);
            t <= r.trace
            && (LooksLimitedSince(t, r.trace) <==> HitRateLimit(r.value))
  {
    hide HasPhrase, Cleanup, ArtifactDrift, Drifted, BlockedItem, HitRateLimit, MentionsRateLimit, LooksLimitedSince;
    var listed := o.artifacts(t, target.run.repository, target.run.id);
    var list := ArtifactsListed(target.run.repository, target.run.id, listed);
    LimitOnce(t, list);
    if listed.Err? {
      Mentioned(ProviderSaid(listed.error));
      BlockedTells(target, RevalidationFailed, Some(ProviderSaid(listed.error)));
    } else {
      var drift := ArtifactDrift(target.artifacts, listed.value);
      Mentioned(DriftFound(drift));
      BlockedTells(target, Changed, Some(DriftFound(drift)));
      CleanupTells(o, t + [list], target);
      LimitAfter(t, list, CheckDrift(o, t, target).trace);
    }
  }

  lemma PreflightTells(o: Oracle, t: Trace, target: Target)
    ensures var r := Preflight(o, t, target); t <= r.trace && (LooksLimitedSince(t, r.trace) <==> HitRateLimit(r.value))
  {
    hide HasPhrase, CheckDrift, BlockedItem, AbsentItem, HitRateLimit, MentionsRateLimit, LooksLimitedSince;
    var found := o.run(t, target.run.repository, target.run.id);
    var lookup := RunLookedUp(target.run.repository, target.run.id, found);
    LimitOnce(t, lookup);
    NothingMentioned();
    BlockedTells(target, Changed, None);
    if found.Err? {
      Mentioned(ProviderSaid(found.error));
      BlockedTells(target, RevalidationFailed, Some(ProviderSaid(found.error)));
    } else {
      DriftTells(o, t + [lookup], target);
      LimitAfter(t, lookup, Preflight(o, t, target).trace);
    }
  }

  lemma UnderLeaseTells(o: Oracle, t: Trace, target: Target, key: ProtectionKey)
    ensures var r := UnderLease(o, t, target, key);
            t <= r.trace
            && (LooksLimitedSince(t, r.trace) <==> HitRateLimit(r.value))
  {
    hide HasPhrase, Preflight, BlockedItem, HitRateLimit, MentionsRateLimit, LooksLimitedSince;
    var assessed := o.assess(t, key, target.run);
    var e := ProtectionAssessed(key, assessed);
    LimitOnce(t, e);
    match assessed
    case Err(failure) =>
      Mentioned(LeaseFailed(failure));
      BlockedTells(target, Blocked, Some(LeaseFailed(failure)));
    case Ok(NoEntry) =>
      PreflightTells(o, t + [e], target);
      LimitAfter(t, e, UnderLease(o, t, target, key).trace);
    case Ok(Protected(entry)) =>
      Mentioned(ProtectedFor(entry.reason));
      BlockedTells(target, Blocked, Some(ProtectedFor(entry.reason)));
    case Ok(Review(code, explanation)) =>
      Mentioned(NeedsReview(code, explanation));
      BlockedTells(target, Blocked, Some(NeedsReview(code, explanation)));
  }

  /**
   * On every path of `execute_target` and for every oracle: the report looks like a rate limit exactly
   * when a request was refused by one, or an answer the report repeats contains the phrase.
   */
  lemma TargetTells(o: Oracle, t: Trace, target: Target, key: ProtectionKey)
    ensures var r := RunTarget(o, t, target, key);
            t <= r.trace && (LooksLimitedSince(t, r.trace) <==> HitRateLimit(r.value))
  {
    hide HasPhrase, UnderLease, BlockedItem, HitRateLimit, MentionsRateLimit, LooksLimitedSince;
    var failure := o.acquire(t, key);
    var e := LeaseAcquired(key, failure);
    LimitOnce(t, e);
    if failure.Some? {
      Mentioned(LeaseFailed(failure.value));
      BlockedTells(target, Blocked, Some(LeaseFailed(failure.value)));
    } else {
      UnderLeaseTells(o, t + [e], target, key);
      var held := UnderLease(o, t + [e], target, key);
      LimitOnce(held.trace, LeaseReleased(key));
      LimitSplits(t + [e], held.trace, held.trace + [LeaseReleased(key)]);
      LimitAfter(t, e, held.trace + [LeaseReleased(key)]);
    }
  }

  /** So on every path the words of a real rate limit reach the report. */
  lemma TargetMentions(o: Oracle, t: Trace, target: Target, key: ProtectionKey)
    ensures t <= RunTarget(o, t, target, key).trace
    ensures LimitedSince(t, RunTarget(o, t, target, key).trace) ==> HitRateLimit(RunTarget(o, t, target, key).value)
  {
    hide RunTarget, HitRateLimit, RepeatsPhrase;
    TargetTells(o, t, target, key);
  }

  // --- the batch ---------------------------------------------------------------------------------------

  /** One more target only appends: an item, a mark, and possibly history. */
  lemma NextAppends(o: Oracle, b: Batch, target: Target, key: ProtectionKey)
    ensures var r := NextTarget(o, b, target, key);
            && b.trace <= r.trace
            && r.items[..|b.items|] == b.items
            && r.marks == b.marks + [|r.trace|]
            && (b.halt.Some? ==>
               r.trace == b.trace && r.halt == b.halt
               && r.items == b.items + [BlockedItem(target, Blocked, b.halt)])
  {
    hide RunTarget, BlockedItem, HitRateLimit;
    TargetMentions(o, b.trace + [HeadroomRead(o.remaining(b.trace))], target, key);
  }

  lemma {:induction false} BatchGrows(o: Oracle, t: Trace, targets: seq<Target>, instance: string, account: Account)
    ensures var b := RunBatch(o, t, targets, instance, account);
            && t <= b.trace && b.marks[|targets|] == |b.trace|
    decreases |targets|
  {
    hide NextTarget;
    if targets != [] {
      var n := |targets| - 1;
      BatchGrows(o, t, targets[..n], instance, account);
      NextAppends(o, RunBatch(o, t, targets[..n], instance, account), targets[n],
          KeyForRun(instance, account, targets[n].run));
    }
  }

  /** A batch over fewer targets is the beginning of a batch over more. */
  lemma {:induction false} BatchPrefix(o: Oracle, t: Trace, targets: seq<Target>, instance: string, account: Account,
                                       i: nat)
    requires i <= |targets|
    ensures var b := RunBatch(o, t, targets, instance, account);
            var p := RunBatch(o, t, targets[..i], instance, account);
            && p.items == b.items[..i] && p.marks == b.marks[..i + 1] && p.trace <= b.trace && |p.trace| == b.marks[i]
    decreases |targets|
  {
    hide NextTarget;
    if i == |targets| {
      assert targets[..i] == targets;
      BatchGrows(o, t, targets, instance, account);
    } else {
      var n := |targets| - 1;
      BatchPrefix(o, t, targets[..n], instance, account, i);
      assert targets[..n][..i] == targets[..i];
      NextAppends(o, RunBatch(o, t, targets[..n], instance, account), targets[n],
          KeyForRun(instance, account, targets[n].run));
    }
  }

  /** Once there is a halt reason, nothing more is said to the provider. */
  lemma {:induction false} HaltFreezes(o: Oracle, t: Trace, targets: seq<Target>, instance: string, account: Account,
                                       i: nat)
    requires i <= |targets|
    requires RunBatch(o, t, targets[..i], instance, account).halt.Some?
    ensures var b := RunBatch(o, t, targets, instance, account);
            var p := RunBatch(o, t, targets[..i], instance, account);
            b.trace == p.trace && b.halt == p.halt
    decreases |targets|
  {
    hide NextTarget;
    if i == |targets| {
      assert targets[..i] == targets;
    } else {
      var n := |targets| - 1;
      assert targets[..n][..i] == targets[..i];
      HaltFreezes(o, t, targets[..n], instance, account, i);
      NextAppends(o, RunBatch(o, t, targets[..n], instance, account), targets[n],
          KeyForRun(instance, account, targets[n].run));
    }
  }

  /** The last turn of a prefix is one turn of the loop. */
  lemma LastTurn(o: Oracle, t: Trace, targets: seq<Target>, instance: string, account: Account, i: nat)
    requires i < |targets|
    ensures RunBatch(o, t, targets[..i + 1], instance, account)
         == NextTarget(o, RunBatch(o, t, targets[..i], instance, account), targets[i],
             KeyForRun(instance, account, targets[i].run))
  {
    hide NextTarget;
    assert targets[..i + 1][..i] == targets[..i];
  }

  /** Every target after a halt is blocked by that reason and adds nothing to the history. */
  lemma HaltBlocks(o: Oracle, t: Trace, targets: seq<Target>, instance: string, account: Account, i: nat, j: nat)
    requires i <= j < |targets|
    requires RunBatch(o, t, targets[..i], instance, account).halt.Some?
    ensures var b := RunBatch(o, t, targets, instance, account);
            && b.halt.Some?
            && b.items[j] == BlockedItem(targets[j], Blocked, b.halt)
            && b.marks[j] == b.marks[j + 1] == |b.trace|
  {
    hide NextTarget, BlockedItem, RunBatch;
    LastTurn(o, t, targets, instance, account, j);
    assert targets[..j][..i] == targets[..i] && targets[..j + 1][..j] == targets[..j]
           && targets[..j + 1][..i] == targets[..i];
    HaltFreezes(o, t, targets, instance, account, i);
    HaltFreezes(o, t, targets[..j], instance, account, i);
    HaltFreezes(o, t, targets[..j + 1], instance, account, i);
    BatchPrefix(o, t, targets, instance, account, j);
    BatchPrefix(o, t, targets, instance, account, j + 1);
    NextAppends(o, RunBatch(o, t, targets[..j], instance, account), targets[j],
        KeyForRun(instance, account, targets[j].run));
  }

  /** Target `i` met trouble: low headroom before it, or a rate limit inside it. */
  ghost predicate Troubled(b: Batch, i: nat)
    requires i + 1 < |b.marks|
  {
    exists k :: b.marks[i] <= k < b.marks[i + 1] && k < |b.trace| && IsTrouble(b.trace[k])
  }

  predicate IsTrouble(e: Event) { e.WasRateLimited() || (e.HeadroomRead? && LowHeadroom(e.remaining)) }

  lemma TargetNeverReadsHeadroom(o: Oracle, t: Trace, target: Target, key: ProtectionKey, k: nat)
    requires |t| <= k < |RunTarget(o, t, target, key).trace|
    ensures !RunTarget(o, t, target, key).trace[k].HeadroomRead?
  {
    hide RunTarget, Cleared, CleanupPhases;
    var d := TargetEvents(o, t, target, key);
    var item := RunTarget(o, t, target, key).value;
    if !QuietSegment(d, key) {
      var p: Phases :| d == Whole(p, key) && |p.opening| == 4 && Cleared(p.opening, target, key)
          && CleanupPhases(p, target, item);
      PhaseAt(p, target, key, item, k - |t|);
    }
  }

  /** Trouble inside one turn of the loop always leaves a halt reason. */
  lemma TroubleInTurn(o: Oracle, b: Batch, target: Target, key: ProtectionKey, k: nat)
    requires |b.trace| <= k < |NextTarget(o, b, target, key).trace|
    requires IsTrouble(NextTarget(o, b, target, key).trace[k])
    ensures NextTarget(o, b, target, key).halt.Some?
  {
    hide RunTarget, BlockedItem, HitRateLimit;
    var remaining := o.remaining(b.trace);
    var t1 := b.trace + [HeadroomRead(remaining)];
    if b.halt.None? && !LowHeadroom(remaining) {
      TargetMentions(o, t1, target, key);
      var ran := RunTarget(o, t1, target, key);
      assert ran.trace[|b.trace|] == HeadroomRead(remaining);
      assert k >= |t1|;
      TargetNeverReadsHeadroom(o, t1, target, key, k);
      assert LimitedSince(t1, ran.trace);
    }
  }

  lemma TroubleHalts(o: Oracle, t: Trace, targets: seq<Target>, instance: string, account: Account, i: nat)
    requires i < |targets|
    requires Troubled(RunBatch(o, t, targets, instance, account), i)
    ensures RunBatch(o, t, targets[..i + 1], instance, account).halt.Some?
  {
    hide NextTarget;
    var b := RunBatch(o, t, targets, instance, account);
    BatchPrefix(o, t, targets, instance, account, i);
    BatchPrefix(o, t, targets, instance, account, i + 1);
    var p, q := RunBatch(o, t, targets[..i], instance, account), RunBatch(o, t, targets[..i + 1], instance, account);
    assert targets[..i + 1][..i] == targets[..i];
    var k :| b.marks[i] <= k < b.marks[i + 1] && k < |b.trace| && IsTrouble(b.trace[k]);
    assert q.trace[k] == b.trace[k];
    TroubleInTurn(o, p, targets[i], KeyForRun(instance, account, targets[i].run), k);
  }

  /**
   * Containment: after a rate limit inside target `i`, or low headroom in front of it, every later
   * target is reported blocked and adds nothing to the history: no lookup, no DELETE.
   */
  lemma RateLimitContained(o: Oracle, t: Trace, targets: seq<Target>, instance: string, account: Account, i: nat,
                           j: nat)
    requires i < j < |targets|
    requires Troubled(RunBatch(o, t, targets, instance, account), i)
    ensures var b := RunBatch(o, t, targets, instance, account);
            && b.halt.Some?
            && b.items[j] == BlockedItem(targets[j], Blocked, b.halt)
            && b.marks[j] == b.marks[j + 1] == |b.trace|
  {
    hide RunBatch, BlockedItem;
    TroubleHalts(o, t, targets, instance, account, i);
    HaltBlocks(o, t, targets, instance, account, i + 1, j);
  }

  /** The headroom guard alone: a target reached with 250 requests or fewer is not attempted. */
  lemma LowHeadroomBlocks(o: Oracle, t: Trace, targets: seq<Target>, instance: string, account: Account, i: nat)
    requires i < |targets|
    requires var p := RunBatch(o, t, targets[..i], instance, account);
             p.halt.None? && LowHeadroom(o.remaining(p.trace))
    ensures var b := RunBatch(o, t, targets, instance, account);
            var p := RunBatch(o, t, targets[..i], instance, account);
            && b.items[i] == BlockedItem(targets[i], Blocked, b.halt)
            && b.trace == p.trace + [HeadroomRead(o.remaining(p.trace))]
  {
    hide RunTarget, BlockedItem, HitRateLimit;
    assert targets[..i + 1][..i] == targets[..i];
    var q := RunBatch(o, t, targets[..i + 1], instance, account);
    assert q.halt.Some? && q.items[i] == BlockedItem(targets[i], Blocked, q.halt);
    HaltFreezes(o, t, targets, instance, account, i + 1);
    BatchPrefix(o, t, targets, instance, account, i + 1);
  }

  // --- the report matches the plan -----------------------------------------------------------------------

  /** An item speaks of exactly its target: the run, and the artifacts one for one in order. */
  ghost predicate Reports(item: Item, target: Target) {
    && item.plannedRun == target.run
    && |item.artifacts| == |target.artifacts|
    && forall i :: 0 <= i < |target.artifacts| ==> item.artifacts[i].planned == target.artifacts[i]
  }

  lemma {:induction false} ArtifactsReported(o: Oracle, t: Trace, artifacts: seq<Artifact>)
    ensures forall i :: 0 <= i < |artifacts| ==> PurgeArtifacts(o, t, artifacts).value[i].planned == artifacts[i]
    decreases |artifacts|
  {
    hide DeleteStep;
    if artifacts != [] {
      ArtifactsReported(o, t, artifacts[..|artifacts| - 1]);
    }
  }

  lemma CleanupReported(o: Oracle, t: Trace, target: Target)
    ensures Reports(Cleanup(o, t, target).value, target)
  {
    hide PurgeRun, PurgeLogs;
    var logs := PurgeLogs(o, t, target);
    ArtifactsReported(o, logs.trace, target.artifacts);
  }

  lemma BlockedReported(target: Target, state: State, error: Option<Message>)
    ensures Reports(BlockedItem(target, state, error), target)
    ensures Reports(AbsentItem(target), target)
  {
  }

  lemma TargetReported(o: Oracle, t: Trace, target: Target, key: ProtectionKey)
    ensures Reports(RunTarget(o, t, target, key).value, target)
  {
    hide Cleanup, BlockedItem, AbsentItem, ArtifactDrift, Reports;
    forall state: State, error ensures Reports(BlockedItem(target, state, error), target) {
      BlockedReported(target, state, error);
    }
    BlockedReported(target, Blocked, None);
    forall u: Trace ensures Reports(Cleanup(o, u, target).value, target) {
      CleanupReported(o, u, target);
    }
  }

  lemma {:induction false} BatchReported(o: Oracle, t: Trace, targets: seq<Target>, instance: string, account: Account)
    ensures var b := RunBatch(o, t, targets, instance, account);
            |b.items| == |targets| && forall i :: 0 <= i < |targets| ==> Reports(b.items[i], targets[i])
    decreases |targets|
  {
    hide RunTarget, BlockedItem, HitRateLimit, Reports;
    if targets != [] {
      var n := |targets| - 1;
      var b := RunBatch(o, t, targets[..n], instance, account);
      BatchReported(o, t, targets[..n], instance, account);
      forall state: State, error ensures Reports(BlockedItem(targets[n], state, error), targets[n]) {
        BlockedReported(targets[n], state, error);
      }
      TargetReported(o, b.trace + [HeadroomRead(o.remaining(b.trace))], targets[n],
          KeyForRun(instance, account, targets[n].run));
    }
  }

  // --- safety of the whole batch --------------------------------------------------------------------------

  /** The part of the history target `i` added, after the headroom reading in front of it. */
  function SegmentAt(b: Batch, i: nat): Trace
    requires i + 1 < |b.marks| && b.marks[i] < b.marks[i + 1] <= |b.trace|
  {
    b.trace[b.marks[i] + 1..b.marks[i + 1]]
  }

  /** A position of the history belongs to a target's own segment. */
  ghost predicate InSegment(b: Batch, i: nat, k: nat) {
    i + 1 < |b.marks| && b.marks[i] < k < b.marks[i + 1] <= |b.trace|
  }

  lemma {:induction false} EveryEventHasATarget(o: Oracle, t: Trace, targets: seq<Target>, instance: string,
                                                account: Account, k: nat)
    requires |t| <= k < |RunBatch(o, t, targets, instance, account).trace|
    ensures exists i ::
            0 <= i < |targets|
            && var b := RunBatch(o, t, targets, instance, account); b.marks[i] <= k < b.marks[i + 1]
    decreases |targets|
  {
    hide NextTarget;
    if targets != [] {
      var n := |targets| - 1;
      BatchPrefix(o, t, targets, instance, account, n);
      BatchGrows(o, t, targets, instance, account);
      var b := RunBatch(o, t, targets, instance, account);
      if k < b.marks[n] {
        EveryEventHasATarget(o, t, targets[..n], instance, account, k);
        var p := RunBatch(o, t, targets[..n], instance, account);
        var i :| 0 <= i < n && p.marks[i] <= k < p.marks[i + 1];
        assert p.marks[i] == b.marks[i] && p.marks[i + 1] == b.marks[i + 1];
      }
    }
  }

  lemma NextShape(o: Oracle, b: Batch, target: Target, key: ProtectionKey)
    ensures var r, t1 := NextTarget(o, b, target, key), b.trace + [HeadroomRead(o.remaining(b.trace))];
            r.trace == b.trace || r.trace == t1 || (t1 <= r.trace && r.trace == RunTarget(o, t1, target, key).trace)
  {
    hide RunTarget, BlockedItem, HitRateLimit;
    TargetMentions(o, b.trace + [HeadroomRead(o.remaining(b.trace))], target, key);
  }

  /** Each turn adds nothing, one headroom reading, or a headroom reading and one target's segment. */
  lemma TurnShape(o: Oracle, t: Trace, targets: seq<Target>, instance: string, account: Account, i: nat)
    requires i < |targets|
    ensures var b := RunBatch(o, t, targets, instance, account);
            var p := RunBatch(o, t, targets[..i], instance, account);
            var t1 := p.trace + [HeadroomRead(o.remaining(p.trace))];
            && b.marks[i] == |p.trace| && b.marks[i] <= b.marks[i + 1] <= |b.trace|
            && (b.marks[i] < b.marks[i + 1] ==> b.trace[b.marks[i]].HeadroomRead?)
            && (b.marks[i] + 1 < b.marks[i + 1] ==>
                  RunTarget(o, t1, targets[i], KeyForRun(instance, account, targets[i].run)).trace == t1
                      + SegmentAt(b, i))
  {
    hide RunTarget, RunBatch, NextTarget;
    var b := RunBatch(o, t, targets, instance, account);
    BatchPrefix(o, t, targets, instance, account, i);
    BatchPrefix(o, t, targets, instance, account, i + 1);
    LastTurn(o, t, targets, instance, account, i);
    var p, q := RunBatch(o, t, targets[..i], instance, account), RunBatch(o, t, targets[..i + 1], instance, account);
    assert b.trace[..b.marks[i + 1]] == q.trace;
    NextShape(o, p, targets[i], KeyForRun(instance, account, targets[i].run));
    var t1 := p.trace + [HeadroomRead(o.remaining(p.trace))];
    if b.marks[i] < b.marks[i + 1] {
      assert q.trace[|p.trace|] == t1[|p.trace|];
      assert q.trace == t1 + q.trace[|t1|..];
      assert q.trace[|t1|..] == SegmentAt(b, i);
    }
  }

  /**
   * Over a whole batch: every destructive request stands in the segment of a planned target, and
   * that segment alone justifies it. In particular only planned runs and artifacts are named.
   */
  lemma EveryBatchDeleteIsJustified(o: Oracle, t: Trace, targets: seq<Target>, instance: string, account: Account,
                                    k: nat)
    requires |t| <= k < |RunBatch(o, t, targets, instance, account).trace|
    requires RunBatch(o, t, targets, instance, account).trace[k].IsDelete()
    ensures var b := RunBatch(o, t, targets, instance, account);
            exists i :: 0 <= i < |targets| && InSegment(b, i, k)
              && Justified(SegmentAt(b, i), k - b.marks[i] - 1, targets[i],
                 KeyForRun(instance, account, targets[i].run))
  {
    hide RunBatch, RunTarget, Justified;
    var b := RunBatch(o, t, targets, instance, account);
    EveryEventHasATarget(o, t, targets, instance, account, k);
    var i :| 0 <= i < |targets| && b.marks[i] <= k < b.marks[i + 1];
    TurnShape(o, t, targets, instance, account, i);
    var p := RunBatch(o, t, targets[..i], instance, account);
    var t1 := p.trace + [HeadroomRead(o.remaining(p.trace))];
    var key := KeyForRun(instance, account, targets[i].run);
    assert k != b.marks[i];
    EveryDeleteIsJustified(o, t1, targets[i], key, SegmentAt(b, i), k - b.marks[i] - 1);
    assert InSegment(b, i, k);
  }
}

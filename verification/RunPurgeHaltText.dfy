/**
 * When the batch stops. It should stop for a refused request or for low headroom, but it also stops
 * for any answer whose free text, repeated in the report, contains the searched phrase: a stored
 * protection reason, an explanation, a store failure, a provider message. This module says exactly
 * when, for a target and for a batch, and shows cases where nothing was refused.
 */
module RunPurgeHaltText {
  import opened Prelude
  import opened Domain
  import opened RunProtections
  import opened RunPurgePlans
  import opened RunPurgeRemote
  import opened RunPurgeExecution
  import opened RunPurgeMessages
  import opened RunPurgeBatch
  import T = Text

  ghost predicate PhraseSince(t: Trace, later: Trace) {
    exists k :: |t| <= k < |later| && RepeatsPhrase(later[k])
  }

  /**
   * For every oracle and target: the report looks like a rate limit exactly when a request was
   * refused by one or a repeated text contains the phrase. Without such texts it is exactly the former.
   */
  lemma TargetHaltsIff(o: Oracle, t: Trace, target: Target, key: ProtectionKey)
    ensures var r := RunTarget(o, t, target, key);
            && (HitRateLimit(r.value) <==> LimitedSince(t, r.trace) || PhraseSince(t, r.trace))
            && (!PhraseSince(t, r.trace) ==> (HitRateLimit(r.value) <==> LimitedSince(t, r.trace)))
  {
    hide RunTarget, HitRateLimit, RepeatsPhrase;
    TargetTells(o, t, target, key);
    var later := RunTarget(o, t, target, key).trace;
    if LooksLimitedSince(t, later) {
      var k :| |t| <= k < |later| && LooksLimited(later[k]);
      assert later[k].WasRateLimited() || RepeatsPhrase(later[k]);
    }
    if PhraseSince(t, later) {
      var k :| |t| <= k < |later| && RepeatsPhrase(later[k]);
      assert LooksLimited(later[k]);
    }
  }

  // --- the batch ----------------------------------------------------------------------------------------

  predicate IsLowReading(e: Event) { e.HeadroomRead? && LowHeadroom(e.remaining) }

  predicate Stops(e: Event) { LooksLimited(e) || IsLowReading(e) }

  ghost predicate StoppedSince(t: Trace, later: Trace) {
    exists k :: |t| <= k < |later| && Stops(later[k])
  }

  lemma StopSplits(t: Trace, mid: Trace, later: Trace)
    requires t <= mid <= later
    ensures StoppedSince(t, later) <==> StoppedSince(t, mid) || StoppedSince(mid, later)
  {
    hide Stops;
    if StoppedSince(t, mid) {
      var k :| |t| <= k < |mid| && Stops(mid[k]);
      assert later[k] == mid[k];
    }
    if StoppedSince(t, later) && !StoppedSince(mid, later) {
      var k :| |t| <= k < |later| && Stops(later[k]);
      assert mid[k] == later[k];
    }
  }

  /** Inside a target's own segment only refusals and texts can stop the batch. */
  lemma SegmentStops(o: Oracle, t: Trace, target: Target, key: ProtectionKey)
    ensures var r := RunTarget(o, t, target, key); StoppedSince(t, r.trace) <==> HitRateLimit(r.value)
  {
    hide RunTarget, HitRateLimit, LooksLimited;
    TargetTells(o, t, target, key);
    var later := RunTarget(o, t, target, key).trace;
    forall k | |t| <= k < |later| ensures Stops(later[k]) <==> LooksLimited(later[k]) {
      TargetNeverReadsHeadroom(o, t, target, key, k);
    }
  }

  /** One turn that was not halted before leaves a halt reason exactly when something in it stops the batch. */
  lemma TurnHaltsIff(o: Oracle, b: Batch, target: Target, key: ProtectionKey)
    requires b.halt.None?
    ensures NextTarget(o, b, target, key).halt.Some? <==> StoppedSince(b.trace, NextTarget(o, b, target, key).trace)
  {
    hide RunTarget, BlockedItem, HitRateLimit, LooksLimited;
    var reading := HeadroomRead(o.remaining(b.trace));
    var t1 := b.trace + [reading];
    assert t1[|b.trace|] == reading;
    ReadingLooksFine(reading);
    if !LowHeadroom(o.remaining(b.trace)) {
      TargetTells(o, t1, target, key);
      SegmentStops(o, t1, target, key);
      StopSplits(b.trace, t1, RunTarget(o, t1, target, key).trace);
      assert !StoppedSince(b.trace, t1);
    }
  }

  lemma ReadingLooksFine(e: Event)
    requires e.HeadroomRead?
    ensures !LooksLimited(e)
  {
  }

  /**
   * For every oracle and every batch: it ends halted exactly when some answer in its history was a
   * rate limit or a low headroom reading, or carried the phrase in a text the report repeats.
   */
  lemma {:induction false} BatchHaltsIff(o: Oracle, t: Trace, targets: seq<Target>, instance: string, account: Account)
    ensures var b := RunBatch(o, t, targets, instance, account); b.halt.Some? <==> StoppedSince(t, b.trace)
    decreases |targets|
  {
    hide NextTarget, Stops;
    if targets != [] {
      var n := |targets| - 1;
      var key := KeyForRun(instance, account, targets[n].run);
      var before := RunBatch(o, t, targets[..n], instance, account);
      BatchHaltsIff(o, t, targets[..n], instance, account);
      BatchGrows(o, t, targets[..n], instance, account);
      NextAppends(o, before, targets[n], key);
      StopSplits(t, before.trace, RunBatch(o, t, targets, instance, account).trace);
      if before.halt.None? {
        TurnHaltsIff(o, before, targets[n], key);
      }
    }
  }

  /** Target `j` of a batch is turned away unattempted exactly when such an answer came before its turn. */
  lemma TurnedAwayIff(o: Oracle, t: Trace, targets: seq<Target>, instance: string, account: Account, j: nat)
    requires j < |targets|
    ensures var b := RunBatch(o, t, targets, instance, account);
            && |t| <= b.marks[j] <= |b.trace|
            && (StoppedSince(t, b.trace[..b.marks[j]]) ==>
               b.marks[j] == b.marks[j + 1] && b.items[j] == BlockedItem(targets[j], Blocked, b.halt))
            && (!StoppedSince(t, b.trace[..b.marks[j]]) ==> b.marks[j] < b.marks[j + 1])
  {
    hide NextTarget, BlockedItem, Stops, RunBatch;
    var b, p := RunBatch(o, t, targets, instance, account), RunBatch(o, t, targets[..j], instance, account);
    BatchPrefix(o, t, targets, instance, account, j);
    BatchPrefix(o, t, targets, instance, account, j + 1);
    BatchGrows(o, t, targets[..j], instance, account);
    assert b.trace[..b.marks[j]] == p.trace;
    BatchHaltsIff(o, t, targets[..j], instance, account);
    if p.halt.Some? {
      HaltBlocks(o, t, targets, instance, account, j, j);
    } else {
      LastTurn(o, t, targets, instance, account, j);
      AttemptReadsHeadroom(o, p, targets[j], KeyForRun(instance, account, targets[j].run));
    }
  }

  lemma AttemptReadsHeadroom(o: Oracle, b: Batch, target: Target, key: ProtectionKey)
    requires b.halt.None?
    ensures |NextTarget(o, b, target, key).trace| > |b.trace|
  {
    hide RunTarget, BlockedItem, HitRateLimit;
    TargetMentions(o, b.trace + [HeadroomRead(o.remaining(b.trace))], target, key);
  }

  /** When no repeated text contains the phrase, the batch halts for rate limits and low headroom alone. */
  lemma OrdinaryBatchHaltsIff(o: Oracle, t: Trace, targets: seq<Target>, instance: string, account: Account)
    requires !PhraseSince(t, RunBatch(o, t, targets, instance, account).trace)
    ensures var b := RunBatch(o, t, targets, instance, account);
            b.halt.Some? <==> exists k :: |t| <= k < |b.trace| && IsTrouble(b.trace[k])
  {
    hide RunBatch, RepeatsPhrase;
    BatchHaltsIff(o, t, targets, instance, account);
    var later := RunBatch(o, t, targets, instance, account).trace;
    assert forall k :: |t| <= k < |later| ==> !RepeatsPhrase(later[k]);
    assert forall k :: |t| <= k < |later| ==> (Stops(later[k]) <==> IsTrouble(later[k]));
  }

  // --- cases where nothing was refused ----------------------------------------------------------------------

  /** For a protected target no request is made at all, and yet a reason with the phrase halts the batch. */
  lemma ProtectionHaltsIff(o: Oracle, t: Trace, target: Target, key: ProtectionKey, e: Protection)
    requires o.acquire(t, key).None? && o.assess(t + [LeaseAcquired(key, None)], key, target.run) == Ok(Protected(e))
    ensures var r := RunTarget(o, t, target, key);
            && !LimitedSince(t, r.trace)
            && (HitRateLimit(r.value) <==> HasPhrase(e.reason))
  {
    hide Preflight, BlockedItem, HitRateLimit, HasPhrase;
    TargetHaltsIff(o, t, target, key);
    var assessed := ProtectionAssessed(key, Ok(Protected(e)));
    var d := [LeaseAcquired(key, None), assessed, LeaseReleased(key)];
    var r := RunTarget(o, t, target, key);
    assert r.trace == t + d;
    assert r.trace[|t| + 1] == assessed && RepeatsPhrase(assessed) == HasPhrase(e.reason);
    assert forall k :: |t| <= k < |r.trace| ==> r.trace[k] == d[k - |t|];
  }

  /** The same in the batch: the next targets are blocked, although the provider refused nothing. */
  lemma ProtectionBlocksBatchIff(o: Oracle, b: Batch, target: Target, key: ProtectionKey, e: Protection)
    requires b.halt.None? && !LowHeadroom(o.remaining(b.trace))
    requires var t := b.trace + [HeadroomRead(o.remaining(b.trace))];
             o.acquire(t, key).None? && o.assess(t + [LeaseAcquired(key, None)], key, target.run) == Ok(Protected(e))
    ensures NextTarget(o, b, target, key).halt.Some? <==> HasPhrase(e.reason)
  {
    hide HasPhrase, BlockedItem, HitRateLimit, RunTarget;
    ProtectionHaltsIff(o, b.trace + [HeadroomRead(o.remaining(b.trace))], target, key, e);
  }

  /** An unprotected target whose first lookup breaks down: the provider's own words decide. */
  lemma TransportErrorHaltsIff(o: Oracle, t: Trace, target: Target, key: ProtectionKey, message: string)
    requires var t1 := t + [LeaseAcquired(key, None)];
             var t2 := t1 + [ProtectionAssessed(key, Ok(NoEntry))];
             && o.acquire(t, key).None? && o.assess(t1, key, target.run) == Ok(NoEntry)
             && o.run(t2, target.run.repository, target.run.id) == Err(Transport(message))
    ensures var r := RunTarget(o, t, target, key);
            && !LimitedSince(t, r.trace)
            && (HitRateLimit(r.value) <==> HasPhrase(message))
  {
    hide BlockedItem, HitRateLimit, HasPhrase, CheckDrift;
    TargetHaltsIff(o, t, target, key);
    var found := RunLookedUp(target.run.repository, target.run.id, Err(Transport(message)));
    var d := [LeaseAcquired(key, None), ProtectionAssessed(key, Ok(NoEntry)), found, LeaseReleased(key)];
    var r := RunTarget(o, t, target, key);
    assert r.trace == t + d;
    assert r.trace[|t| + 2] == found && RepeatsPhrase(found) == HasPhrase(message);
    assert forall k :: |t| <= k < |r.trace| ==> r.trace[k] == d[k - |t|];
  }

  /** A reason a user may store: it passes validation and halts the batch. */
  lemma SuchAReasonIsAllowed(unicode: Unicode)
    requires !unicode.isBlank(RATE_LIMIT_PHRASE) && !unicode.hasControl(RATE_LIMIT_PHRASE)
    ensures exists e :: ValidProtection(unicode, e) && HasPhrase(e.reason)
  {
    var repository := RepositoryRef(1, "a/b");
    var e := Protection(ProtectionKey("github", "x", 1, 1), Account("github", "u"), repository, 1, "s", 1, 0, 0,
        RATE_LIMIT_PHRASE);
    assert T.OccursAt(RATE_LIMIT_PHRASE, RATE_LIMIT_PHRASE, 0);
    assert repository.fullName[1..] == "/b" && repository.fullName[1..][1..] == "b";
    assert CountSlashes("b") == 0 && CountSlashes("/b") == 1;
    assert CountSlashes(repository.fullName) == 1;
    assert ValidProtection(unicode, e);
  }
}

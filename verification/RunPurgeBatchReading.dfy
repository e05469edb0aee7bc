/**
 * The report of a whole batch, read off the batch's history: what every item says, how many bytes were
 * really given back, when the batch was a success, and why it stopped.
 */
module RunPurgeBatchReading {
  import opened Prelude
  import opened Domain
  import opened RunProtections
  import opened RunPurgePlans
  import opened RunPurgeRemote
  import opened RunPurgeExecution
  import opened RunPurgeSafety
  import opened RunPurgeReports
  import opened RunPurgeBatch
  import opened RunPurgeHaltText
  import opened RunPurgeReading

  // --- every item -------------------------------------------------------------------------------------

  /** The target was not attempted: nothing was started, and the run's error says why. */
  ghost predicate NotAttempted(item: Item, target: Target, error: Option<Message>) {
    && item.plannedRun == target.run
    && DependenciesAre(item, target, Blocked, Some(NotStarted))
    && item.run == StepResult(Blocked, error)
  }

  predicate Fits(b: Batch, i: nat) { i + 1 < |b.marks| && b.marks[i] <= b.marks[i + 1] <= |b.trace| }

  ghost predicate Marked(b: Batch, n: nat) { |b.items| == n && forall i :: 0 <= i < n ==> Fits(b, i) }

  /** What a turn added after its headroom reading; empty if the target was not attempted. */
  function Attempt(b: Batch, i: nat): Trace
    requires Fits(b, i)
  {
    if b.marks[i] == b.marks[i + 1] then [] else SegmentAt(b, i)
  }

  /** What item `i` must say, given the history of its turn. */
  ghost predicate TurnTold(b: Batch, i: nat, target: Target, key: ProtectionKey)
    requires Fits(b, i) && i < |b.items|
  {
    if b.marks[i] == b.marks[i + 1] then b.halt.Some? && NotAttempted(b.items[i], target, b.halt)
    else
      && b.trace[b.marks[i]].HeadroomRead?
      && var remaining := b.trace[b.marks[i]].remaining;
         if LowHeadroom(remaining) then
           && Attempt(b, i) == []
           && NotAttempted(b.items[i], target, Some(HaltedByHeadroom(remaining.value)))
         else Attempt(b, i) != [] && Told(Attempt(b, i), target, key, b.items[i])
  }

  lemma NotAttemptedSays(target: Target, error: Option<Message>)
    ensures NotAttempted(BlockedItem(target, Blocked, error), target, error)
  {
    hide BlockedItem, DependenciesAre;
    BlockedSays(target, Blocked, error);
  }

  lemma TargetLeavesHistory(o: Oracle, t: Trace, target: Target, key: ProtectionKey)
    ensures t < RunTarget(o, t, target, key).trace
  {
    hide UnderLease, BlockedItem;
    UnderLeaseGrows(o, t + [LeaseAcquired(key, None)], target, key);
  }

  lemma UnderLeaseGrows(o: Oracle, t: Trace, target: Target, key: ProtectionKey)
    ensures t <= UnderLease(o, t, target, key).trace
  {
    UnderLeaseTells(o, t, target, key);
  }

  /** One turn of the loop that was not halted before it. */
  lemma FreshTurn(o: Oracle, b: Batch, target: Target, key: ProtectionKey)
    requires b.halt.None?
    ensures var r, t1 := NextTarget(o, b, target, key), b.trace + [HeadroomRead(o.remaining(b.trace))];
            if LowHeadroom(o.remaining(b.trace)) then
              && r.trace == t1
              && NotAttempted(r.items[|b.items|], target, Some(HaltedByHeadroom(o.remaining(b.trace).value)))
              && r.halt == Some(HaltedByHeadroom(o.remaining(b.trace).value))
            else
              && t1 < r.trace && Told(r.trace[|t1|..], target, key, r.items[|b.items|])
              && (r.halt == None || r.halt == Some(HaltedByLimit))
  {
    hide RunTarget, BlockedItem, HitRateLimit, Told, NotAttempted;
    var remaining := o.remaining(b.trace);
    var t1 := b.trace + [HeadroomRead(remaining)];
    if LowHeadroom(remaining) {
      NotAttemptedSays(target, Some(HaltedByHeadroom(remaining.value)));
    } else {
      TargetLeavesHistory(o, t1, target, key);
      var later := RunTarget(o, t1, target, key).trace;
      assert later == t1 + later[|t1|..];
      SegmentIsTold(o, t1, target, key, later[|t1|..]);
    }
  }

  /** For every provider and batch, each item says exactly what the history of its own turn says. */
  lemma EveryItemIsTold(o: Oracle, t: Trace, targets: seq<Target>, instance: string, account: Account, i: nat)
    requires i < |targets|
    ensures var b := RunBatch(o, t, targets, instance, account);
            && Marked(b, |targets|)
            && TurnTold(b, i, targets[i], KeyForRun(instance, account, targets[i].run))
  {
    hide RunBatch, NextTarget, BlockedItem, Told, NotAttempted;
    var b := RunBatch(o, t, targets, instance, account);
    var key := KeyForRun(instance, account, targets[i].run);
    BatchIsMarked(o, t, targets, instance, account);
    BatchPrefix(o, t, targets, instance, account, i);
    BatchPrefix(o, t, targets, instance, account, i + 1);
    LastTurn(o, t, targets, instance, account, i);
    var p, q := RunBatch(o, t, targets[..i], instance, account), RunBatch(o, t, targets[..i + 1], instance, account);
    if p.halt.Some? {
      HaltBlocks(o, t, targets, instance, account, i, i);
      NotAttemptedSays(targets[i], b.halt);
    } else {
      FreshTurn(o, p, targets[i], key);
      assert q.items[i] == b.items[i];
      assert q.trace == b.trace[..|q.trace|];
      assert b.trace[|p.trace|] == q.trace[|p.trace|];
      assert SegmentAt(b, i) == q.trace[|p.trace| + 1..];
    }
  }

  lemma BatchIsMarked(o: Oracle, t: Trace, targets: seq<Target>, instance: string, account: Account)
    ensures Marked(RunBatch(o, t, targets, instance, account), |targets|)
  {
    hide RunBatch, RunTarget;
    var b := RunBatch(o, t, targets, instance, account);
    forall i | 0 <= i < |targets| ensures Fits(b, i) {
      TurnShape(o, t, targets, instance, account, i);
    }
  }

  // --- the totals of the report ---------------------------------------------------------------------------

  /** The bytes of the first `n` targets whose artifacts were answered deleted in the history. */
  function BytesGiven(b: Batch, targets: seq<Target>, n: nat): nat
    requires n <= |targets| == |b.items| && forall i :: 0 <= i < |targets| ==> Fits(b, i)
  {
    if n == 0 then 0
    else
      BytesGiven(b, targets, n - 1) + BytesGone(Attempt(b, n - 1), b.items[n - 1].residual, targets[n - 1].artifacts)
  }

  lemma {:induction false} NothingGone(artifacts: seq<Artifact>, residual: seq<Artifact>)
    ensures BytesGone([], residual, artifacts) == 0
  {
    if artifacts != [] {
      NothingGone(artifacts[..|artifacts| - 1], residual);
      SameBytes([], residual, artifacts);
    }
  }

  lemma SameBytes(d: Trace, residual: seq<Artifact>, artifacts: seq<Artifact>)
    requires artifacts != []
    ensures var a, init := artifacts[|artifacts| - 1], artifacts[..|artifacts| - 1];
            BytesGone(d, residual, artifacts) == BytesGone(d, residual, init)
              + if ArtifactDelete(a.repository, a.id, Ok(DeletedNow)) in d && !ListedAgain(residual, a)
                then a.sizeInBytes else 0
  {
    hide ListedAgain;
    var counted := (a: Artifact) =>
      if ArtifactDelete(a.repository, a.id, Ok(DeletedNow)) in d && !ListedAgain(residual, a) then a.sizeInBytes else 0;
    var init := artifacts[..|artifacts| - 1];
    SameTotals(init, counted, init, (a: Artifact) =>
      if ArtifactDelete(a.repository, a.id, Ok(DeletedNow)) in d && !ListedAgain(residual, a)
        then a.sizeInBytes else 0);
  }

  lemma {:induction false} NothingCounted(results: seq<ArtifactResult>)
    requires forall i :: 0 <= i < |results| ==> results[i].state != Deleted
    ensures SumBy(results, DeletedBytes) == 0
  {
    if results != [] {
      NothingCounted(results[..|results| - 1]);
    }
  }

  lemma BytesOfItem(b: Batch, i: nat, target: Target, key: ProtectionKey)
    requires Fits(b, i) && i < |b.items| && TurnTold(b, i, target, key) && DistinctArtifacts(target.artifacts)
    ensures SumBy(b.items[i].artifacts, DeletedBytes) == BytesGone(Attempt(b, i), b.items[i].residual, target.artifacts)
  {
    hide Told, BytesGone, SumBy;
    if Attempt(b, i) == [] {
      NothingCounted(b.items[i].artifacts);
      NothingGone(target.artifacts, b.items[i].residual);
    } else {
      DeletedBytesAreGone(Attempt(b, i), target, key, b.items[i]);
    }
  }

  ghost predicate BatchTold(b: Batch, targets: seq<Target>, instance: string, account: Account) {
    Marked(b, |targets|) && forall i :: 0 <= i < |targets| ==>
      TurnTold(b, i, targets[i], KeyForRun(instance, account, targets[i].run))
  }

  lemma BatchIsTold(o: Oracle, t: Trace, targets: seq<Target>, instance: string, account: Account)
    ensures BatchTold(RunBatch(o, t, targets, instance, account), targets, instance, account)
  {
    hide RunBatch, TurnTold;
    BatchIsMarked(o, t, targets, instance, account);
    forall i | 0 <= i < |targets|
      ensures TurnTold(RunBatch(o, t, targets, instance, account), i, targets[i],
                       KeyForRun(instance, account, targets[i].run))
    {
      EveryItemIsTold(o, t, targets, instance, account, i);
    }
  }

  lemma {:induction false} BytesAddUp(b: Batch, targets: seq<Target>, instance: string, account: Account, n: nat)
    requires BatchTold(b, targets, instance, account) && n <= |targets|
    requires forall i :: 0 <= i < |targets| ==> DistinctArtifacts(targets[i].artifacts)
    ensures SumBy(AllResults(b.items[..n]), DeletedBytes) == BytesGiven(b, targets, n)
    decreases n
  {
    hide TurnTold, BytesGone, DistinctArtifacts;
    if n > 0 {
      BytesAddUp(b, targets, instance, account, n - 1);
      assert b.items[..n][..n - 1] == b.items[..n - 1];
      SumByConcat(AllResults(b.items[..n - 1]), b.items[n - 1].artifacts, DeletedBytes);
      BytesOfItem(b, n - 1, targets[n - 1], KeyForRun(instance, account, targets[n - 1].run));
    }
  }

  /**
   * The reclaimed bytes of a batch: the sizes of exactly those artifacts whose own DELETE was answered
   * "deleted" and that the final listing did not show again, capped at 64 bits.
   */
  lemma ReclaimedBytesAreGone(o: Oracle, t: Trace, targets: seq<Target>, instance: string, account: Account)
    requires forall i :: 0 <= i < |targets| ==> DistinctArtifacts(targets[i].artifacts)
    ensures var b := RunBatch(o, t, targets, instance, account);
            BatchTold(b, targets, instance, account)
            && ReclaimedBytes(b.items) == Cap(BytesGiven(b, targets, |targets|))
  {
    hide RunBatch, TurnTold, DistinctArtifacts;
    var b := RunBatch(o, t, targets, instance, account);
    BatchIsTold(o, t, targets, instance, account);
    BytesAddUp(b, targets, instance, account, |targets|);
    assert b.items[..|targets|] == b.items;
    SaturatingTotalIsCappedSum(AllResults(b.items), DeletedBytes);
  }

  /** Target `i` succeeded: it was attempted, and its history reads as absence or as a complete purge. */
  ghost predicate TurnSucceeded(b: Batch, i: nat, target: Target, key: ProtectionKey)
    requires Fits(b, i)
  {
    Attempt(b, i) != [] && Succeeded(Attempt(b, i), target, key)
  }

  lemma ItemSucceededIff(b: Batch, i: nat, target: Target, key: ProtectionKey)
    requires Fits(b, i) && i < |b.items| && TurnTold(b, i, target, key)
    ensures ItemSucceeded(b.items[i]) <==> TurnSucceeded(b, i, target, key)
  {
    hide Told, Succeeded;
    if Attempt(b, i) != [] {
      SuccessIff(Attempt(b, i), target, key, b.items[i]);
    }
  }

  /** A batch is a complete success exactly when every single target's history reads as one. */
  lemma CompleteSuccessIff(o: Oracle, t: Trace, targets: seq<Target>, instance: string, account: Account)
    ensures var b := RunBatch(o, t, targets, instance, account);
            && Marked(b, |targets|)
            && (IsCompleteSuccess(b.items) <==> forall i :: 0 <= i < |targets| ==>
                  TurnSucceeded(b, i, targets[i], KeyForRun(instance, account, targets[i].run)))
  {
    hide RunBatch, TurnTold, TurnSucceeded, ItemSucceeded;
    var b := RunBatch(o, t, targets, instance, account);
    BatchIsTold(o, t, targets, instance, account);
    forall i | 0 <= i < |targets|
      ensures ItemSucceeded(b.items[i]) <==> TurnSucceeded(b, i, targets[i],
          KeyForRun(instance, account, targets[i].run))
    {
      ItemSucceededIff(b, i, targets[i], KeyForRun(instance, account, targets[i].run));
    }
  }

  // --- why the batch stopped ------------------------------------------------------------------------------

  /** The reason is the last thing that happened: a low reading, or a target that met the limit. */
  ghost predicate HaltSays(t: Trace, later: Trace, halt: Option<Message>) {
    if !StoppedSince(t, later) then halt == None
    else if |later| > 0 && IsLowReading(later[|later| - 1]) then
      halt == Some(HaltedByHeadroom(later[|later| - 1].remaining.value))
    else halt == Some(HaltedByLimit)
  }

  lemma TurnHaltSays(o: Oracle, t: Trace, b: Batch, target: Target, key: ProtectionKey)
    requires t <= b.trace && b.halt.None? && !StoppedSince(t, b.trace)
    ensures t <= NextTarget(o, b, target, key).trace
    ensures HaltSays(t, NextTarget(o, b, target, key).trace, NextTarget(o, b, target, key).halt)
  {
    hide RunTarget, NextTarget, Told, NotAttempted, StoppedSince;
    var r, t1 := NextTarget(o, b, target, key), b.trace + [HeadroomRead(o.remaining(b.trace))];
    FreshTurn(o, b, target, key);
    StopSplits(t, b.trace, r.trace);
    TurnHaltsIff(o, b, target, key);
    if !LowHeadroom(o.remaining(b.trace)) {
      LastEventIsTheTargets(o, b, target, key);
    }
  }

  lemma LastEventIsTheTargets(o: Oracle, b: Batch, target: Target, key: ProtectionKey)
    requires b.halt.None? && !LowHeadroom(o.remaining(b.trace))
    ensures var r := NextTarget(o, b, target, key); r.trace != [] && !r.trace[|r.trace| - 1].HeadroomRead?
  {
    hide RunTarget, BlockedItem, HitRateLimit;
    var t1 := b.trace + [HeadroomRead(o.remaining(b.trace))];
    TargetLeavesHistory(o, t1, target, key);
    TargetNeverReadsHeadroom(o, t1, target, key, |RunTarget(o, t1, target, key).trace| - 1);
  }

  /** For every provider and batch, the halt reason names what stopped it. */
  lemma {:induction false} HaltReasonIsExact(o: Oracle, t: Trace, targets: seq<Target>, instance: string,
                                             account: Account)
    ensures var b := RunBatch(o, t, targets, instance, account); t <= b.trace && HaltSays(t, b.trace, b.halt)
    decreases |targets|
  {
    hide NextTarget, StoppedSince;
    BatchHaltsIff(o, t, targets, instance, account);
    if targets != [] {
      var n := |targets| - 1;
      var before := RunBatch(o, t, targets[..n], instance, account);
      var key := KeyForRun(instance, account, targets[n].run);
      HaltReasonIsExact(o, t, targets[..n], instance, account);
      NextAppends(o, before, targets[n], key);
      if before.halt.None? {
        BatchHaltsIff(o, t, targets[..n], instance, account);
        TurnHaltSays(o, t, before, targets[n], key);
      }
    }
  }
}

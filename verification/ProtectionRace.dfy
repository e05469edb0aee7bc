/**
 * The purge executor racing with people who protect and unprotect runs. One history interleaves the
 * executor's own events with the other processes' lease and commit steps; a lease excludes by lock
 * file, and a lock file is picked by hashing the key, so `lock` is an arbitrary function here.
 */
module ProtectionRace {
  import opened Prelude
  import opened Domain
  import opened RunProtections
  import opened RunPurgePlans
  import opened RunPurgeRemote
  import opened RunPurgeExecution
  import opened RunPurgeSafety
  import opened RunPurgeBatch

  datatype Change = Protect(protection: Protection) | Unprotect(key: ProtectionKey)

  datatype Action =
    | Executor(event: Event)
    | Lease(actor: nat, key: ProtectionKey)
    | Commit(actor: nat, change: Change)
    | Free(actor: nat, key: ProtectionKey)

  type History = seq<Action>

  datatype Who = TheExecutor | Other(actor: nat)

  /** Where and as whom everybody works, and which lock file a key is hashed to. */
  datatype Site = Site(instance: string, account: Account, unicode: Unicode, lock: ProtectionKey -> nat)

  function KeyOfChange(change: Change): ProtectionKey {
    match change
    case Protect(p) => p.key
    case Unprotect(key) => key
  }

  /** What the executor itself has seen. */
  function Seen(h: History): Trace {
    if h == [] then []
    else
      var n := |h| - 1;
      Seen(h[..n]) + if h[n].Executor? then [h[n].event] else []
  }

  function Holder(site: Site, h: History, lock: nat): Option<Who> {
    if h == [] then None
    else
      var before := Holder(site, h[..|h| - 1], lock);
      match h[|h| - 1]
      case Executor(LeaseAcquired(key, None)) => if site.lock(key) == lock then Some(TheExecutor) else before
      case Executor(LeaseReleased(key)) => if site.lock(key) == lock then None else before
      case Lease(actor, key) => if site.lock(key) == lock then Some(Other(actor)) else before
      case Free(actor, key) => if site.lock(key) == lock then None else before
      case _ => before
  }

  function RemoveKey(entries: seq<Protection>, key: ProtectionKey): seq<Protection> {
    if entries == [] then []
    else
      var n := |entries| - 1;
      RemoveKey(entries[..n], key) + if entries[n].key == key then [] else [entries[n]]
  }

  function Apply(entries: seq<Protection>, change: Change): seq<Protection> {
    match change
    case Protect(p) => entries + [p]
    case Unprotect(key) => RemoveKey(entries, key)
  }

  /** The committed protections. */
  function Entries(h: History): seq<Protection> {
    if h == [] then []
    else
      var before := Entries(h[..|h| - 1]);
      match h[|h| - 1]
      case Commit(_, change) => Apply(before, change)
      case _ => before
  }

  predicate HasKey(entries: seq<Protection>, key: ProtectionKey) {
    exists i :: 0 <= i < |entries| && entries[i].key == key
  }

  /** An assessment is honest when it is what the lease answers about some run from the committed entries. */
  ghost predicate HonestlyAssessed(site: Site, entries: seq<Protection>, key: ProtectionKey, a: Assessment) {
    exists run :: LeaseAssess(key, entries, site.instance, site.account, run) == Ok(a)
  }

  /** What the store lets happen next. */
  ghost predicate Allowed(site: Site, h: History, action: Action) {
    match action
    case Executor(LeaseAcquired(key, None)) => Holder(site, h, site.lock(key)) == None
    case Executor(LeaseReleased(key)) => Holder(site, h, site.lock(key)) == Some(TheExecutor)
    case Executor(ProtectionAssessed(key, Ok(a))) => HonestlyAssessed(site, Entries(h), key, a)
    case Executor(_) => true
    case Lease(actor, key) => Holder(site, h, site.lock(key)) == None
    case Free(actor, key) => Holder(site, h, site.lock(key)) == Some(Other(actor))
    case Commit(actor, change) =>
      && Holder(site, h, site.lock(KeyOfChange(change))) == Some(Other(actor))
      && (change.Protect? ==>
         ValidProtection(site.unicode, change.protection)
         && !HasKey(Entries(h), change.protection.key))
  }

  ghost predicate Legal(site: Site, h: History) {
    h == [] || (Legal(site, h[..|h| - 1]) && Allowed(site, h[..|h| - 1], h[|h| - 1]))
  }

  // --- histories and their prefixes ------------------------------------------------------------------------

  lemma {:induction false} LegalPrefix(site: Site, h: History, n: nat)
    requires Legal(site, h) && n <= |h|
    ensures Legal(site, h[..n])
    ensures n < |h| ==> Allowed(site, h[..n], h[n])
    decreases |h|
  {
    if n == |h| {
      assert h[..n] == h;
    } else if n < |h| - 1 {
      LegalPrefix(site, h[..|h| - 1], n);
      assert h[..|h| - 1][..n] == h[..n];
    }
  }

  lemma SeenNext(h: History, n: nat)
    requires n < |h|
    ensures Seen(h[..n + 1]) == Seen(h[..n]) + if h[n].Executor? then [h[n].event] else []
  {
    assert h[..n + 1][..n] == h[..n];
  }

  lemma {:induction false} SeenPrefix(h: History, n: nat)
    requires n <= |h|
    ensures Seen(h[..n]) <= Seen(h)
    decreases |h|
  {
    if n == |h| {
      assert h[..n] == h;
    } else {
      SeenPrefix(h[..|h| - 1], n);
      assert h[..|h| - 1][..n] == h[..n];
    }
  }

  /** The executor's q-th event has a place in the common history. */
  lemma {:induction false} PlaceOf(h: History, q: nat) returns (x: nat)
    requires q < |Seen(h)|
    ensures x < |h| && h[x] == Executor(Seen(h)[q]) && |Seen(h[..x])| == q
    decreases |h|
  {
    var n := |h| - 1;
    if q < |Seen(h[..n])| {
      x := PlaceOf(h[..n], q);
      assert h[..n][..x] == h[..x];
    } else {
      x := n;
    }
  }

  // --- while the executor holds the lease ---------------------------------------------------------------------

  /** Between two places the executor gave no lease back. */
  ghost predicate NoReleaseBetween(h: History, a: nat, n: nat)
    requires n <= |h|
  {
    forall x :: a <= x < n ==> !(h[x].Executor? && h[x].event.LeaseReleased?)
  }

  lemma {:induction false} StaysHeld(site: Site, h: History, a: nat, n: nat, key: ProtectionKey)
    requires Legal(site, h) && a < n <= |h|
    requires h[a] == Executor(LeaseAcquired(key, None)) && NoReleaseBetween(h, a, n)
    ensures Holder(site, h[..n], site.lock(key)) == Some(TheExecutor)
    decreases n
  {
    hide HonestlyAssessed, ValidProtection, HasKey, Entries;
    assert h[..n][..n - 1] == h[..n - 1];
    if n > a + 1 {
      StaysHeld(site, h, a, n - 1, key);
      LegalPrefix(site, h, n - 1);
    }
  }

  lemma {:induction false} RemoveKeyMembers(entries: seq<Protection>, key: ProtectionKey)
    ensures forall e :: e in RemoveKey(entries, key) <==> e in entries && e.key != key
  {
    if entries != [] {
      var n := |entries| - 1;
      RemoveKeyMembers(entries[..n], key);
      assert entries == entries[..n] + [entries[n]];
    }
  }

  /** A change touches entries of its own key only. */
  lemma ApplyMembers(entries: seq<Protection>, change: Change, e: Protection)
    requires e.key != KeyOfChange(change)
    ensures e in Apply(entries, change) <==> e in entries
  {
    if change.Unprotect? {
      RemoveKeyMembers(entries, change.key);
    }
  }

  /** While the executor holds a lease, no entry whose key uses the same lock file comes or goes. */
  lemma {:induction false} NothingCommitted(site: Site, h: History, a: nat, c: nat, n: nat, key: ProtectionKey,
                                            e: Protection)
    requires Legal(site, h) && a < c <= n <= |h|
    requires h[a] == Executor(LeaseAcquired(key, None)) && NoReleaseBetween(h, a, n)
    requires site.lock(e.key) == site.lock(key)
    ensures e in Entries(h[..n]) <==> e in Entries(h[..c])
    decreases n
  {
    hide HonestlyAssessed, ValidProtection, HasKey, Apply, Holder;
    if n > c {
      NothingCommitted(site, h, a, c, n - 1, key, e);
      assert h[..n][..n - 1] == h[..n - 1];
      StaysHeld(site, h, a, n - 1, key);
      LegalPrefix(site, h, n - 1);
      if h[n - 1].Commit? {
        ApplyMembers(Entries(h[..n - 1]), h[n - 1].change, e);
      }
    }
  }

  lemma AssessedFree(site: Site, entries: seq<Protection>, key: ProtectionKey)
    requires HonestlyAssessed(site, entries, key, NoEntry)
    ensures forall e :: e in entries ==> !SameRunId(e, key)
  {
    hide Assess;
    var run :| LeaseAssess(key, entries, site.instance, site.account, run) == Ok(NoEntry);
    NoEntryMeaning(entries, site.instance, site.account, run);
  }

  /** Every entry for the run id, under whatever repository id, uses another lock file than the run's own key. */
  ghost predicate OnlyElsewhere(site: Site, entries: seq<Protection>, key: ProtectionKey) {
    forall e :: e in entries && SameRunId(e, key) ==> site.lock(e.key) != site.lock(key)
  }

  /** In particular the run's own key is not protected. */
  lemma ElsewhereIsNotHere(site: Site, entries: seq<Protection>, key: ProtectionKey)
    requires OnlyElsewhere(site, entries, key)
    ensures !HasKey(entries, key)
  {
    assert forall i :: 0 <= i < |entries| ==> entries[i] in entries;
    assert forall e :: e in entries && e.key == key ==> SameRunId(e, key);
  }

  /** One target's segment, from the lease to a delete: what the history in front of the delete protects. */
  lemma SegmentIsFree(site: Site, h: History, n: nat, start: nat, d: Trace, key: ProtectionKey, k: nat)
    requires Legal(site, h) && n < |h| && h[n].Executor?
    requires LeaseCovers(d, key) && 2 <= k < |d| && d[k].IsDelete()
    requires start + k < |Seen(h)| && Seen(h)[start..start + k + 1] == d[..k + 1] && |Seen(h[..n])| == start + k
    ensures OnlyElsewhere(site, Entries(h[..n]), key)
  {
    hide Legal, HonestlyAssessed, Entries, HasKey;
    var seen := Seen(h);
    assert forall j :: 0 <= j <= k ==> seen[start + j] == seen[start..start + k + 1][j] == d[..k + 1][j] == d[j];
    var a := PlaceOf(h, start);
    var c := PlaceOf(h, start + 1);
    Ordered(h, a, c);
    Ordered(h, c, n);
    LegalPrefix(site, h, c);
    NoReleaseInside(h, a, n, start, d, key, k);
    FreeAt(site, h, c, key);
    forall e | e in Entries(h[..n]) && SameRunId(e, key) ensures site.lock(e.key) != site.lock(key) {
      if site.lock(e.key) == site.lock(key) {
        NothingCommitted(site, h, a, c, n, key, e);
      }
    }
  }

  lemma FreeAt(site: Site, h: History, c: nat, key: ProtectionKey)
    requires c < |h| && h[c] == Executor(ProtectionAssessed(key, Ok(NoEntry))) && Allowed(site, h[..c], h[c])
    ensures forall e :: e in Entries(h[..c]) ==> !SameRunId(e, key)
  {
    AssessedFree(site, Entries(h[..c]), key);
  }

  lemma SeenGrows(h: History, y: nat, x: nat)
    requires y <= x <= |h|
    ensures |Seen(h[..y])| <= |Seen(h[..x])|
  {
    SeenPrefix(h[..x], y);
    assert h[..x][..y] == h[..y];
  }

  lemma Ordered(h: History, x: nat, y: nat)
    requires x < |h| && y <= |h| && |Seen(h[..x])| < |Seen(h[..y])|
    ensures x < y
  {
    if y <= x {
      SeenGrows(h, y, x);
    }
  }

  lemma NoReleaseInside(h: History, a: nat, n: nat, start: nat, d: Trace, key: ProtectionKey, k: nat)
    requires a < n < |h| && LeaseCovers(d, key) && 2 <= k < |d| && d[k].IsDelete()
    requires start + k < |Seen(h)| && Seen(h)[start..start + k + 1] == d[..k + 1]
    requires |Seen(h[..a])| == start && |Seen(h[..n])| == start + k
    ensures NoReleaseBetween(h, a, n)
  {
    forall x | a <= x < n && h[x].Executor? ensures !h[x].event.LeaseReleased? {
      SeenNext(h, x);
      SeenPrefix(h, x + 1);
      SeenPrefix(h[..x], a);
      assert h[..x][..a] == h[..a];
      SeenPrefix(h[..n], x + 1);
      assert h[..n][..x + 1] == h[..x + 1];
      var q := |Seen(h[..x])|;
      assert start <= q < start + k;
      assert Seen(h)[q] == h[x].event;
      assert Seen(h)[start..start + k + 1][q - start] == h[x].event;
      assert d[q - start] == d[..k + 1][q - start];
    }
  }

  // --- the theorem ----------------------------------------------------------------------------------------------

  /** The executor works through a batch; it may have been cut off anywhere. */
  ghost predicate Executes(site: Site, o: Oracle, t: Trace, targets: seq<Target>, h: History) {
    t + Seen(h) <= RunBatch(o, t, targets, site.instance, site.account).trace
  }

  /** The executor's event at place `n` of the history is a destructive request for target `i`. */
  ghost predicate DeletesFor(site: Site, o: Oracle, t: Trace, targets: seq<Target>, h: History, n: nat, i: nat) {
    && n < |h| && h[n].Executor? && h[n].event.IsDelete() && i < |targets|
    && InSegment(RunBatch(o, t, targets, site.instance, site.account), i, |t| + |Seen(h[..n])|)
  }

  /** The executor's own event is at the matching place of the batch's history. */
  lemma EventAt(t: Trace, all: Trace, h: History, n: nat)
    requires n < |h| && h[n].Executor? && t + Seen(h) <= all
    ensures |Seen(h[..n])| < |Seen(h)| && all[|t| + |Seen(h[..n])|] == h[n].event
  {
    SeenNext(h, n);
    SeenPrefix(h, n + 1);
    assert (t + Seen(h))[|t| + |Seen(h[..n])|] == Seen(h)[|Seen(h[..n])|] == h[n].event;
  }

  /** A target's segment is one stretch of the executor's work under one lease. */
  lemma SegmentLeased(o: Oracle, t: Trace, targets: seq<Target>, instance: string, account: Account, i: nat, k: nat)
    requires i < |targets| && InSegment(RunBatch(o, t, targets, instance, account), i, k)
    ensures var b := RunBatch(o, t, targets, instance, account);
            |t| <= b.marks[i] && LeaseCovers(SegmentAt(b, i), KeyForRun(instance, account, targets[i].run))
  {
    hide RunBatch, RunTarget, LeaseCovers;
    TurnShape(o, t, targets, instance, account, i);
    var b, p := RunBatch(o, t, targets, instance, account), RunBatch(o, t, targets[..i], instance, account);
    var t1 := p.trace + [HeadroomRead(o.remaining(p.trace))];
    DeletesHappenUnderLease(o, t1, targets[i], KeyForRun(instance, account, targets[i].run), SegmentAt(b, i));
    BatchGrows(o, t, targets[..i], instance, account);
  }

  /**
   * However protecting and purging interleave, wherever the executor is cut off and whatever the
   * provider answers: every destructive request is for one planned target, and each entry then in
   * force for that run id uses another lock file. So no protection of that exact run is in force.
   */
  lemma NoDeleteWhileProtected(site: Site, o: Oracle, t: Trace, targets: seq<Target>, h: History, n: nat)
    requires Legal(site, h) && n < |h| && h[n].Executor? && h[n].event.IsDelete()
    requires Executes(site, o, t, targets, h)
    ensures exists i: nat :: DeletesFor(site, o, t, targets, h, n, i)
              && OnlyElsewhere(site, Entries(h[..n]), KeyForRun(site.instance, site.account, targets[i].run))
              && !HasKey(Entries(h[..n]), KeyForRun(site.instance, site.account, targets[i].run))
  {
    hide Legal, RunBatch, HasKey, Entries, OnlyElsewhere, Seen, Executes, DeletesFor;
    var i := DeleteHasTarget(site, o, t, targets, h, n);
    InsideTargets(site, o, t, targets, h, n, i);
    TargetIsFree(site, o, t, targets, h, n, i);
    ElsewhereIsNotHere(site, Entries(h[..n]), KeyForRun(site.instance, site.account, targets[i].run));
  }

  lemma InsideTargets(site: Site, o: Oracle, t: Trace, targets: seq<Target>, h: History, n: nat, i: nat)
    requires DeletesFor(site, o, t, targets, h, n, i)
    ensures i < |targets| && n < |h|
  {
  }

  lemma DeleteHasTarget(site: Site, o: Oracle, t: Trace, targets: seq<Target>, h: History, n: nat) returns (i: nat)
    requires n < |h| && h[n].Executor? && h[n].event.IsDelete() && Executes(site, o, t, targets, h)
    ensures DeletesFor(site, o, t, targets, h, n, i)
  {
    hide RunBatch, Justified, Seen;
    var b := RunBatch(o, t, targets, site.instance, site.account);
    EventAt(t, b.trace, h, n);
    var q := |t| + |Seen(h[..n])|;
    EveryBatchDeleteIsJustified(o, t, targets, site.instance, site.account, q);
    i :| 0 <= i < |targets| && InSegment(b, i, q)
      && Justified(SegmentAt(b, i), q - b.marks[i] - 1, targets[i],
         KeyForRun(site.instance, site.account, targets[i].run));
  }

  lemma TargetIsFree(site: Site, o: Oracle, t: Trace, targets: seq<Target>, h: History, n: nat, i: nat)
    requires Legal(site, h) && Executes(site, o, t, targets, h) && DeletesFor(site, o, t, targets, h, n, i)
    ensures OnlyElsewhere(site, Entries(h[..n]), KeyForRun(site.instance, site.account, targets[i].run))
  {
    hide Legal, RunBatch, HasKey, Entries, OnlyElsewhere, Seen, LeaseCovers;
    var b := RunBatch(o, t, targets, site.instance, site.account);
    var key := KeyForRun(site.instance, site.account, targets[i].run);
    EventAt(t, b.trace, h, n);
    var q := |t| + |Seen(h[..n])|;
    SegmentLeased(o, t, targets, site.instance, site.account, i, q);
    var d, k := SegmentAt(b, i), q - b.marks[i] - 1;
    assert d[k] == b.trace[q];
    Aligned(t, Seen(h), b.trace, b.marks[i] + 1, b.marks[i + 1], k);
    DeletesComeThird(d, key, k);
    SegmentIsFree(site, h, n, b.marks[i] + 1 - |t|, d, key, k);
  }

  /** The same stretch of a history read from two ends. */
  lemma Aligned(t: Trace, seen: Trace, all: Trace, from: nat, to: nat, k: nat)
    requires t + seen <= all && |t| <= from <= from + k < to <= |all| && from + k < |t| + |seen|
    ensures seen[from - |t|..from - |t| + k + 1] == all[from..to][..k + 1]
  {
    var both := t + seen;
    assert both == all[..|both|];
    assert seen[from - |t|..from - |t| + k + 1] == both[from..from + k + 1];
  }

  lemma DeletesComeThird(d: Trace, key: ProtectionKey, k: nat)
    requires LeaseCovers(d, key) && k < |d| && d[k].IsDelete()
    ensures k >= 2
  {
  }

  // --- the store keeps its promises ----------------------------------------------------------------------------------

  /** The committed entries always form a valid index, and every entry stays until its own key is unprotected. */
  lemma {:induction false} EntriesStayValid(site: Site, h: History)
    requires Legal(site, h)
    ensures DistinctKeys(Entries(h)) && forall e :: e in Entries(h) ==> ValidProtection(site.unicode, e)
  {
    hide HonestlyAssessed, ValidProtection, Holder;
    if h != [] {
      EntriesStayValid(site, h[..|h| - 1]);
      if h[|h| - 1].Commit? {
        ApplyKeepsValid(site, Entries(h[..|h| - 1]), h[|h| - 1].change);
      }
    }
  }

  lemma ApplyKeepsValid(site: Site, entries: seq<Protection>, change: Change)
    requires DistinctKeys(entries) && forall e :: e in entries ==> ValidProtection(site.unicode, e)
    requires change.Protect? ==>
             ValidProtection(site.unicode, change.protection)
             && !HasKey(entries, change.protection.key)
    ensures DistinctKeys(Apply(entries, change)) && forall e :: e in Apply(entries, change) ==>
            ValidProtection(site.unicode, e)
  {
    hide ValidProtection;
    if change.Unprotect? {
      RemoveKeyKeeps(entries, change.key);
      RemoveKeyMembers(entries, change.key);
    }
  }

  lemma {:induction false} RemoveKeyKeeps(entries: seq<Protection>, key: ProtectionKey)
    requires DistinctKeys(entries)
    ensures DistinctKeys(RemoveKey(entries, key))
  {
    if entries != [] {
      var n := |entries| - 1;
      RemoveKeyKeeps(entries[..n], key);
      RemoveKeyMembers(entries[..n], key);
      var rest := RemoveKey(entries[..n], key);
      forall i | 0 <= i < |rest| ensures rest[i].key != entries[n].key {
        assert rest[i] in entries[..n];
      }
    }
  }

  lemma {:induction false} ProtectionIsNeverLost(site: Site, h: History, a: nat, e: Protection)
    requires Legal(site, h) && a <= |h| && e in Entries(h[..a])
    requires forall x :: a <= x < |h| && h[x].Commit? ==> h[x].change != Unprotect(e.key)
    ensures e in Entries(h)
    decreases |h|
  {
    hide HonestlyAssessed, ValidProtection, Holder;
    if a == |h| {
      assert h[..a] == h;
    } else {
      var n := |h| - 1;
      assert h[..n][..a] == h[..a];
      ProtectionIsNeverLost(site, h[..n], a, e);
      if h[n].Commit? && h[n].change.Unprotect? {
        RemoveKeyMembers(Entries(h[..n]), h[n].change.key);
      }
    }
  }

  // --- the limit of the lease ----------------------------------------------------------------------------------------

  function Execs(events: Trace): History { seq(|events|, i requires 0 <= i < |events| => Executor(events[i])) }

  predicate IsUnguarded(e: Event) { !e.LeaseAcquired? && !e.ProtectionAssessed? && !e.LeaseReleased? }

  /** Whatever the executor asks between its assessment and its release is always possible. */
  lemma {:induction false} UnguardedRun(site: Site, h: History, events: Trace)
    requires forall i :: 0 <= i < |events| ==> IsUnguarded(events[i])
    ensures Seen(h + Execs(events)) == Seen(h) + events
    ensures Entries(h + Execs(events)) == Entries(h)
    ensures Legal(site, h + Execs(events)) <==> Legal(site, h)
    decreases |events|
  {
    if events == [] {
      assert h + Execs(events) == h;
    } else {
      var n := |events| - 1;
      UnguardedRun(site, h, events[..n]);
      var all := h + Execs(events);
      assert all[..|all| - 1] == h + Execs(events[..n]);
      assert all[|all| - 1] == Executor(events[n]);
      assert events == events[..n] + [events[n]];
    }
  }

  /** A provider that finds everything as planned and deletes what it is asked to. */
  function Obliging(run: WorkflowRun): Oracle {
    Oracle(
      (t: Trace) => Ok(Account("", "")),
      (t: Trace) => None,
      (t: Trace) => Ok([]),
      (t: Trace, key: ProtectionKey) => None,
      (t: Trace, key: ProtectionKey, r: WorkflowRun) => Ok(NoEntry),
      (t: Trace, repository: RepositoryRef, id: nat) => Ok(Some(run)),
      (t: Trace, repository: RepositoryRef, id: nat) => Ok([]),
      (t: Trace, repository: RepositoryRef, id: nat) => Ok(None),
      (t: Trace, repository: RepositoryRef, id: nat) => Ok(DeletedNow),
      (t: Trace, repository: RepositoryRef, id: nat) => Ok(DeletedNow),
      (t: Trace, repository: RepositoryRef, id: nat) => Ok(DeletedNow))
  }

  function Bare(run: WorkflowRun): Target { Target(run, [], true) }

  function Opening(key: ProtectionKey): Trace {
    [HeadroomRead(None), LeaseAcquired(key, None), ProtectionAssessed(key, Ok(NoEntry))]
  }

  /** From the first lookup to the run's own DELETE. */
  function UpToDelete(run: WorkflowRun): Trace {
    var repository, id := run.repository, run.id;
    [RunLookedUp(repository, id, Ok(Some(run))), ArtifactsListed(repository, id, Ok([])),
        LogsDelete(repository, id, Ok(DeletedNow)),
     ArtifactsListed(repository, id, Ok([])), RunLookedUp(repository, id, Ok(Some(run))),
         RunDelete(repository, id, Ok(DeletedNow))]
  }

  function AfterDelete(run: WorkflowRun, key: ProtectionKey): Trace {
    [RunLookedUp(run.repository, run.id, Ok(Some(run))), LeaseReleased(key)]
  }

  lemma BareCleanup(t: Trace, run: WorkflowRun)
    ensures var u := UpToDelete(run);
            Cleanup(Obliging(run), t + [u[0]] + [u[1]], Bare(run)).trace == t + u
                + [RunLookedUp(run.repository, run.id, Ok(Some(run)))]
  {
    var u := UpToDelete(run);
    var t1 := t + [u[0]] + [u[1]];
    assert PurgeLogs(Obliging(run), t1, Bare(run)).trace == t1 + [u[2]];
    assert t1 + [u[2]] + [u[3]] + [u[4]] + [u[5]] == t + u;
  }

  lemma BareBatch(run: WorkflowRun, instance: string, account: Account)
    ensures var key := KeyForRun(instance, account, run);
            var b := RunBatch(Obliging(run), [], [Bare(run)], instance, account);
            && b.trace == Opening(key) + UpToDelete(run) + AfterDelete(run, key)
            && b.marks == [0, |b.trace|]
  {
    hide Cleanup, HitRateLimit, ArtifactDrift;
    var o, target, key := Obliging(run), Bare(run), KeyForRun(instance, account, run);
    var t1 := Opening(key)[..1];
    BareCleanup(Opening(key), run);
    var opening, u := Opening(key), UpToDelete(run);
    DriftMeaning([], []);
    assert t1 + [opening[1]] + [opening[2]] == opening;
    assert Preflight(o, opening, target).trace == opening + u + [AfterDelete(run, key)[0]];
    assert RunTarget(o, t1, target, key).trace == opening + u + AfterDelete(run, key);
    assert [target][..0] == [];
    assert RunBatch(o, [], [], instance, account) == Batch([], [], None, [0]);
    assert [] + [HeadroomRead(None)] == t1;
  }

  /** The executor holds the lease and has assessed; somebody protects `p`; the executor goes on to the DELETE. */
  function SlipIn(p: Protection, run: WorkflowRun, key: ProtectionKey): History {
    Execs(Opening(key)) + [Lease(1, p.key), Commit(1, Protect(p))] + Execs(UpToDelete(run))
  }

  lemma OneMore(site: Site, h: History, x: Action, lock: nat)
    ensures Legal(site, h + [x]) <==> Legal(site, h) && Allowed(site, h, x)
    ensures Seen(h + [x]) == Seen(h) + if x.Executor? then [x.event] else []
    ensures !x.Commit? ==> Entries(h + [x]) == Entries(h)
    ensures x.Commit? ==> Entries(h + [x]) == Apply(Entries(h), x.change)
    ensures x.Executor? && IsUnguarded(x.event) ==> Holder(site, h + [x], lock) == Holder(site, h, lock)
    ensures x.Executor? && x.event.ProtectionAssessed? ==> Holder(site, h + [x], lock) == Holder(site, h, lock)
    ensures x.Executor? && x.event.LeaseAcquired? && x.event.failure.None? ==>
              Holder(site, h + [x], lock) == if site.lock(x.event.key)
                  == lock then Some(TheExecutor) else Holder(site, h, lock)
    ensures x.Lease? ==> Holder(site, h + [x], lock) == if site.lock(x.key)
            == lock then Some(Other(x.actor)) else Holder(site, h, lock)
  {
    hide Allowed;
    var all := h + [x];
    assert all[..|all| - 1] == h && all[|all| - 1] == x;
  }

  lemma SlipLegal(site: Site, p: Protection, run: WorkflowRun)
    requires ValidProtection(site.unicode, p)
    ensures var key := KeyForRun(site.instance, site.account, run);
            var h := Execs(Opening(key)) + [Lease(1, p.key), Commit(1, Protect(p))];
            && (Legal(site, h) <==> site.lock(p.key) != site.lock(key))
            && Entries(h) == [p] && Seen(h) == Opening(key)
  {
    hide ValidProtection, Assess, Legal, Seen, Entries, Holder;
    var key := KeyForRun(site.instance, site.account, run);
    var e := Opening(key);
    var h1: History := [Executor(e[0])];
    var h2 := h1 + [Executor(e[1])];
    var h3 := h2 + [Executor(e[2])];
    var h4 := h3 + [Lease(1, p.key)];
    NothingYet(site, site.lock(key));
    NothingYet(site, site.lock(p.key));
    assert [] + [Executor(e[0])] == h1;
    OneMore(site, [], Executor(e[0]), site.lock(key));
    OneMore(site, [], Executor(e[0]), site.lock(p.key));
    OneMore(site, h1, Executor(e[1]), site.lock(p.key));
    NoEntryMeaning([], site.instance, site.account, run);
    assert LeaseAssess(key, [], site.instance, site.account, run) == Ok(NoEntry);
    assert HonestlyAssessed(site, [], key, NoEntry);
    OneMore(site, h2, Executor(e[2]), site.lock(p.key));
    OneMore(site, h3, Lease(1, p.key), site.lock(p.key));
    OneMore(site, h4, Commit(1, Protect(p)), site.lock(p.key));
    assert Execs(e) + [Lease(1, p.key), Commit(1, Protect(p))] == h4 + [Commit(1, Protect(p))];
  }

  lemma NothingYet(site: Site, lock: nat)
    ensures Legal(site, []) && Seen([]) == [] && Entries([]) == [] && Holder(site, [], lock) == None
  {
  }

  /** A destructive request for the run of `key` although `p` is in force. */
  ghost predicate DeletesDespite(site: Site, o: Oracle, t: Trace, targets: seq<Target>, h: History, n: nat, i: nat,
                                 key: ProtectionKey, p: Protection) {
    && Legal(site, h) && Executes(site, o, t, targets, h) && DeletesFor(site, o, t, targets, h, n, i)
    && KeyForRun(site.instance, site.account, targets[i].run) == key && p in Entries(h[..n])
  }

  /**
   * The lease is per key, the assessment per run id: a protection under another repository id would
   * stop the purge if it were there before the assessment, but it can be committed right after it and
   * the run is deleted all the same. This history is possible exactly when the lock files differ.
   */
  lemma OtherRepositorySlipsIn(site: Site, p: Protection, run: WorkflowRun)
    requires ValidProtection(site.unicode, p) && SameRunId(p, KeyForRun(site.instance, site.account, run))
    ensures var key := KeyForRun(site.instance, site.account, run);
            var o, targets, h := Obliging(run), [Bare(run)], SlipIn(p, run, key);
            && (Legal(site, h) <==> site.lock(p.key) != site.lock(key))
            && Executes(site, o, [], targets, h) && DeletesFor(site, o, [], targets, h, 10, 0) && h[10].event.RunDelete?
            && p in Entries(h[..10]) && !Assess(Entries(h[..10]), site.instance, site.account, run).NoEntry?
  {
    hide ValidProtection, Assess, RunBatch, Legal, Obliging;
    var key := KeyForRun(site.instance, site.account, run);
    var before := Execs(Opening(key)) + [Lease(1, p.key), Commit(1, Protect(p))];
    var h, u := SlipIn(p, run, key), UpToDelete(run);
    SlipLegal(site, p, run);
    UnguardedRun(site, before, u);
    UnguardedRun(site, before, u[..5]);
    assert h[..10] == before + Execs(u[..5]);
    BareBatch(run, site.instance, site.account);
    NoEntryMeaning([p], site.instance, site.account, run);
    assert p in [p];
  }

  /**
   * So the property "no destructive request while an entry for the same run id is in force" holds of
   * an entry, over all providers, batches and interleavings, exactly when its key and the run's key
   * use the same lock file.
   */
  lemma SameRunIdIsSafeIff(site: Site, p: Protection, run: WorkflowRun)
    requires ValidProtection(site.unicode, p) && SameRunId(p, KeyForRun(site.instance, site.account, run))
    ensures var key := KeyForRun(site.instance, site.account, run);
            (exists o, t, targets, h, n: nat, i: nat :: DeletesDespite(site, o, t, targets, h, n, i, key, p)) <==>
                site.lock(p.key) != site.lock(key)
  {
    hide ValidProtection, Legal, Executes, DeletesFor, Entries, Obliging, SlipIn, Assess;
    var key := KeyForRun(site.instance, site.account, run);
    if o, t, targets, h, n: nat, i: nat :| DeletesDespite(site, o, t, targets, h, n, i, key, p) {
      TargetIsFree(site, o, t, targets, h, n, i);
    }
    if site.lock(p.key) != site.lock(key) {
      OtherRepositorySlipsIn(site, p, run);
      assert DeletesDespite(site, Obliging(run), [], [Bare(run)], SlipIn(p, run, key), 10, 0, key, p);
    }
  }
}

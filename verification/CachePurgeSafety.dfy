/** What the cache purge executor can be trusted with, whatever the provider answers. */
module CachePurgeSafety {
  import opened Prelude
  import opened Domain
  import opened CachePurges
  import R = RunPurgeExecution
  import M = RunPurgeMessages

  /**
   * One target's part of the history: a lookup, a DELETE if it returned the planned cache, a lookup if that
   * said deleted.
   */
  ghost predicate CacheSteps(d: CacheTrace, c: ActionsCache) {
    && 1 <= |d| <= 3
    && d[0].CacheLookedUp? && Names(d[0], c)
    && (|d| >= 2 <==> d[0].cache == Ok(Some(c)))
    && (|d| >= 2 ==> d[1].CacheDelete? && Names(d[1], c))
    && (|d| == 3 <==> |d| >= 2 && d[1].outcome == Ok(DeletedNow))
    && (|d| == 3 ==> d[2].CacheLookedUp? && Names(d[2], c))
  }

  /** The reported state read off the answers, both ways. */
  ghost predicate CacheReport(d: CacheTrace, c: ActionsCache, state: R.State)
    requires CacheSteps(d, c)
  {
    match state
    case Deleted => |d| == 3 && CacheGone(d[2].cache)
    case VerificationFailed => |d| == 3 && !CacheGone(d[2].cache)
    case DeleteFailed => |d| == 2 && d[1].outcome.Err?
    case AlreadyAbsent => CacheGone(d[0].cache) || (|d| == 2 && d[1].outcome == Ok(WasAbsent))
    case Changed => |d| == 1 && d[0].cache.Ok? && d[0].cache.value.Some?
    case RevalidationFailed => |d| == 1 && d[0].cache.Err? && !d[0].cache.error.NotFound?
    case Blocked => false
  }

  /** The reported state is the one, of the seven, that the answers stand for. */
  ghost predicate ReportIsExact(d: CacheTrace, c: ActionsCache, state: R.State)
    requires CacheSteps(d, c)
  {
    forall other :: CacheReport(d, c, other) <==> other == state
  }

  lemma StatesExclude(d: CacheTrace, c: ActionsCache, state: R.State)
    requires CacheSteps(d, c) && CacheReport(d, c, state)
    ensures ReportIsExact(d, c, state)
  {
  }

  ghost predicate CacheSegment(d: CacheTrace, c: ActionsCache, item: CacheItem) {
    && item.planned == c && CacheSteps(d, c) && ReportIsExact(d, c, item.state)
    && (MentionsLimit(item) <==> exists k :: 0 <= k < |d| && CacheLooksLimited(d[k]))
  }

  /** The report repeats this answer's message and the message contains the searched phrase. */
  predicate CacheRepeatsPhrase(e: CacheEvent) {
    match e
    case CacheLookedUp(_, _, a) => a.Err? && !a.error.NotFound? && R.HasPhrase(a.error.message)
    case CacheDelete(_, _, a) => a.Err? && R.HasPhrase(a.error.message)
    case _ => false
  }

  predicate CacheLooksLimited(e: CacheEvent) { e.WasRateLimited() || CacheRepeatsPhrase(e) }

  predicate Names(e: CacheEvent, c: ActionsCache) {
    (e.CacheLookedUp? || e.CacheDelete?) && e.repository == c.repository && e.id == c.id
  }

  /** The words of an error, wrapped or not, look like a rate limit exactly when it is one or its message says so. */
  lemma ErrorTold(e: ProviderError)
    ensures R.HasPhrase(ProviderSaid(e).Text()) <==> M.ErrorTells(e)
    ensures R.HasPhrase(Unverified(e).Text()) <==> M.ErrorTells(e)
  {
    hide R.HasPhrase, M.Harmless, R.ErrorText;
    M.ErrorTextTells(e);
    M.ReportedHarmless();
    M.UnconfirmedHarmless();
    M.NoPHarmless("cache deletion, but ");
    M.HarmlessJoins(R.REPORTED, "cache deletion, but ");
    M.HarmlessJoins(R.REPORTED + "cache deletion, but ", R.UNCONFIRMED);
    M.PhraseBehind(R.REPORTED + "cache deletion, but " + R.UNCONFIRMED, R.ErrorText(e));
  }

  lemma CacheSentencesTellNothing()
    ensures !R.HasPhrase(PlanOutdated.Text()) && !R.HasPhrase(StillThere.Text())
  {
    hide R.HasPhrase, M.Harmless;
    M.NoPHarmless("cache changed since ");
    M.ShortTail("cache changed since ", "immutable plan was created");
    M.NoPHarmless("GitHub Actions cache still exists ");
    M.ShortTail("GitHub Actions cache still exists ", "after reported deletion");
  }

  lemma VerifySegment(o: CacheOracle, t: CacheTrace, c: ActionsCache)
    ensures var r, found := VerifyCache(o, t, c), o.cache(t, c.repository, c.id);
            && r.trace == t + [CacheLookedUp(c.repository, c.id, found)] && r.item.planned == c
            && r.item.state == (if CacheGone(found) then R.Deleted else R.VerificationFailed)
            && (MentionsLimit(r.item) <==> CacheLooksLimited(CacheLookedUp(c.repository, c.id, found)))
  {
    hide R.HasPhrase, Message.Text;
    var found := o.cache(t, c.repository, c.id);
    CacheSentencesTellNothing();
    if found.Err? {
      ErrorTold(found.error);
    }
  }

  lemma DeleteEvents(o: CacheOracle, t: CacheTrace, c: ActionsCache) returns (d: CacheTrace)
    requires o.cache(t, c.repository, c.id) == Ok(Some(c))
    ensures RunCache(o, t, c).trace == t + d
    ensures CacheSegment(d, c, RunCache(o, t, c).item)
  {
    hide R.HasPhrase, Message.Text, VerifyCache;
    var e1 := CacheLookedUp(c.repository, c.id, Ok(Some(c)));
    var outcome := o.deleteCache(t + [e1], c.repository, c.id);
    var e2 := CacheDelete(c.repository, c.id, outcome);
    hide ReportIsExact;
    if outcome == Ok(DeletedNow) {
      VerifySegment(o, t + [e1] + [e2], c);
      d := [e1, e2, CacheLookedUp(c.repository, c.id, o.cache(t + [e1] + [e2], c.repository, c.id))];
      assert t + [e1] + [e2] + [d[2]] == t + d;
      assert CacheLooksLimited(d[2]) <==> MentionsLimit(RunCache(o, t, c).item);
    } else {
      d := [e1, e2];
      assert t + [e1] + [e2] == t + d;
      if outcome.Err? {
        ErrorTold(outcome.error);
      }
      assert CacheLooksLimited(d[1]) <==> MentionsLimit(RunCache(o, t, c).item);
    }
    StatesExclude(d, c, RunCache(o, t, c).item.state);
  }

  /**
   * Every run of `execute_target` leaves such a segment: at most one DELETE, right after the cache was
   * seen as planned; and the item looks like a rate limit exactly when some answer was one or said so.
   */
  lemma CacheEvents(o: CacheOracle, t: CacheTrace, c: ActionsCache) returns (d: CacheTrace)
    ensures RunCache(o, t, c).trace == t + d
    ensures CacheSegment(d, c, RunCache(o, t, c).item)
  {
    var found := o.cache(t, c.repository, c.id);
    if found == Ok(Some(c)) {
      hide RunCache, CacheSegment;
      d := DeleteEvents(o, t, c);
    } else {
      hide R.HasPhrase, Message.Text, VerifyCache;
      d := [CacheLookedUp(c.repository, c.id, found)];
      CacheSentencesTellNothing();
      if found.Err? {
        ErrorTold(found.error);
      }
      assert CacheLooksLimited(d[0]) <==> MentionsLimit(RunCache(o, t, c).item);
      hide ReportIsExact;
      StatesExclude(d, c, RunCache(o, t, c).item.state);
    }
  }

  predicate CacheTrouble(e: CacheEvent) { e.WasRateLimited() || (e.CacheHeadroomRead? && R.LowHeadroom(e.remaining)) }

  /** An answer after which the batch stops: trouble, or a repeated message with the phrase. */
  predicate CacheStops(e: CacheEvent) { CacheTrouble(e) || CacheRepeatsPhrase(e) }

  ghost predicate CacheStoppedSince(t: CacheTrace, later: CacheTrace) {
    exists k :: |t| <= k < |later| && CacheStops(later[k])
  }

  /** One more turn only appends; after a halt reason it appends nothing but a blocked item. */
  ghost predicate CacheAppends(b: CacheBatch, next: CacheBatch, c: ActionsCache) {
    && |next.items| == |b.items| + 1 && next.items[..|b.items|] == b.items && next.items[|b.items|].planned == c
    && b.trace <= next.trace && next.marks == b.marks + [|next.trace|]
    && (b.halt.Some? ==>
       next.trace == b.trace && next.halt == b.halt
       && next.items[|b.items|] == BlockedCache(c, b.halt.value))
  }

  /** What one turn of the loop adds for its target. */
  ghost predicate CacheTurn(b: CacheBatch, next: CacheBatch, c: ActionsCache) {
    && CacheAppends(b, next, c)
    && (b.halt.None? ==> (next.halt.Some? <==> CacheStoppedSince(b.trace, next.trace)))
    && (forall k :: |b.trace| <= k < |next.trace| && next.trace[k].CacheDelete? ==>
       DeletesAsPlanned(next.trace, k, c) && k == |b.trace| + 2)
  }

  /** A DELETE of the cache right after a lookup that returned exactly the planned cache. */
  ghost predicate DeletesAsPlanned(t: CacheTrace, k: nat, c: ActionsCache) {
    1 <= k < |t| && Names(t[k], c) && t[k - 1] == CacheLookedUp(c.repository, c.id, Ok(Some(c)))
  }

  /** What the segment of an attempted cache means for the turn it ends. */
  lemma SegmentTurn(t1: CacheTrace, d: CacheTrace, c: ActionsCache, item: CacheItem)
    requires CacheSegment(d, c, item) && t1 != [] && t1[|t1| - 1].CacheHeadroomRead?
             && !R.LowHeadroom(t1[|t1| - 1].remaining)
    ensures CacheStoppedSince(t1[..|t1| - 1], t1 + d) <==> MentionsLimit(item)
    ensures forall k :: |t1| - 1 <= k < |t1 + d| && (t1 + d)[k].CacheDelete? ==>
            DeletesAsPlanned(t1 + d, k, c) && k == |t1| + 1
  {
    hide MentionsLimit, R.HasPhrase;
    var all := t1 + d;
    assert !CacheStops(all[|t1| - 1]);
    forall k | 0 <= k < |d| ensures all[|t1| + k] == d[k] && (CacheStops(d[k]) <==> CacheLooksLimited(d[k])) {
    }
    if CacheStoppedSince(t1[..|t1| - 1], all) {
      var k :| |t1| - 1 <= k < |all| && CacheStops(all[k]);
      assert all[k] == d[k - |t1|];
    }
    if k :| 0 <= k < |d| && CacheLooksLimited(d[k]) {
      assert CacheStops(all[|t1| + k]);
    }
  }

  lemma TurnOf(o: CacheOracle, b: CacheBatch, c: ActionsCache)
    ensures CacheTurn(b, NextCache(o, b, c), c)
  {
    hide RunCache, MentionsLimit, BlockedCache, R.HasPhrase, CacheSegment, DeletesAsPlanned;
    BlockedNames(c);
    if b.halt.None? {
      var reading := CacheHeadroomRead(o.remaining(b.trace));
      var t1 := b.trace + [reading];
      assert t1[|b.trace|] == reading && t1[..|t1| - 1] == b.trace;
      if !R.LowHeadroom(o.remaining(b.trace)) {
        var d := CacheEvents(o, t1, c);
        var ran := RunCache(o, t1, c);
        PlannedIn(d, c, ran.item);
        SegmentTurn(t1, d, c, ran.item);
        assert NextCache(o, b, c).trace == t1 + d;
      }
    }
  }

  lemma PlannedIn(d: CacheTrace, c: ActionsCache, item: CacheItem)
    requires CacheSegment(d, c, item)
    ensures item.planned == c
  {
  }

  lemma AppendOf(o: CacheOracle, b: CacheBatch, c: ActionsCache)
    ensures CacheAppends(b, NextCache(o, b, c), c)
  {
    hide NextCache, CacheAppends, DeletesAsPlanned;
    TurnOf(o, b, c);
  }

  lemma BlockedNames(c: ActionsCache)
    ensures forall reason :: BlockedCache(c, reason).planned == c
  {
  }

  /** A batch over fewer caches is the beginning of a batch over more. */
  lemma {:induction false} CachePrefix(o: CacheOracle, t: CacheTrace, targets: seq<ActionsCache>, i: nat)
    requires i <= |targets|
    ensures var b, p := RunCaches(o, t, targets), RunCaches(o, t, targets[..i]);
            t <= p.trace <= b.trace && p.items == b.items[..i] && p.marks == b.marks[..i + 1] && |p.trace| == b.marks[i]
    decreases |targets|
  {
    hide NextCache, BlockedCache, CacheTrouble, DeletesAsPlanned;
    if targets == [] {
      assert targets[..i] == targets;
    } else {
      var n := |targets| - 1;
      AppendOf(o, RunCaches(o, t, targets[..n]), targets[n]);
      if i == |targets| {
        assert targets[..i] == targets;
        CachePrefix(o, t, targets[..n], n);
      } else {
        CachePrefix(o, t, targets[..n], i);
        assert targets[..n][..i] == targets[..i];
      }
    }
  }

  /** Frozen: the history ended with the prefix, and every later cache is reported as blocked. */
  ghost predicate Frozen(p: CacheBatch, b: CacheBatch, targets: seq<ActionsCache>) {
    && b.trace == p.trace && b.halt == p.halt && p.halt.Some?
    && |p.items| <= |b.items| == |targets| && |b.marks| == |targets| + 1
    && forall j :: |p.items| <= j < |targets| ==>
       b.items[j] == BlockedCache(targets[j], p.halt.value) && b.marks[j + 1] == |p.trace|
  }

  lemma {:induction false} HaltFreezesCaches(o: CacheOracle, t: CacheTrace, targets: seq<ActionsCache>, i: nat)
    requires i <= |targets| && RunCaches(o, t, targets[..i]).halt.Some?
    ensures Frozen(RunCaches(o, t, targets[..i]), RunCaches(o, t, targets), targets)
    decreases |targets|
  {
    hide NextCache, BlockedCache, CacheTrouble, DeletesAsPlanned;
    if i == |targets| {
      assert targets[..i] == targets;
    } else {
      var n := |targets| - 1;
      var before := RunCaches(o, t, targets[..n]);
      assert targets[..n][..i] == targets[..i];
      HaltFreezesCaches(o, t, targets[..n], i);
      AppendOf(o, before, targets[n]);
      FrozenAppend(RunCaches(o, t, targets[..i]), before, NextCache(o, before, targets[n]), targets);
    }
  }

  lemma FrozenAppend(p: CacheBatch, before: CacheBatch, b: CacheBatch, targets: seq<ActionsCache>)
    requires targets != [] && Frozen(p, before, targets[..|targets| - 1])
             && CacheAppends(before, b, targets[|targets| - 1])
    ensures Frozen(p, b, targets)
  {
  }

  /** Report items match plan targets one for one, in order. */
  lemma {:induction false} CachesReported(o: CacheOracle, t: CacheTrace, targets: seq<ActionsCache>)
    ensures forall i :: 0 <= i < |targets| ==> RunCaches(o, t, targets).items[i].planned == targets[i]
    decreases |targets|
  {
    hide NextCache;
    if targets != [] {
      var n := |targets| - 1;
      CachesReported(o, t, targets[..n]);
      var before := RunCaches(o, t, targets[..n]);
      TurnOf(o, before, targets[n]);
      assert forall i :: 0 <= i < n ==> RunCaches(o, t, targets).items[i] == before.items[i];
    }
  }

  /** The turn of target `i` inside the whole batch. */
  lemma TurnAt(o: CacheOracle, t: CacheTrace, targets: seq<ActionsCache>, i: nat)
    requires i < |targets|
    ensures var p, q := RunCaches(o, t, targets[..i]), RunCaches(o, t, targets[..i + 1]);
            && q == NextCache(o, p, targets[i]) && CacheTurn(p, q, targets[i])
            && |p.trace| == RunCaches(o, t, targets).marks[i] && |q.trace| == RunCaches(o, t, targets).marks[i + 1]
            && q.trace <= RunCaches(o, t, targets).trace
  {
    hide NextCache, CacheTurn;
    assert targets[..i + 1][..i] == targets[..i];
    TurnOf(o, RunCaches(o, t, targets[..i]), targets[i]);
    CachePrefix(o, t, targets, i);
    CachePrefix(o, t, targets, i + 1);
  }

  lemma TroubleHaltsCaches(o: CacheOracle, t: CacheTrace, targets: seq<ActionsCache>, i: nat, k: nat)
    requires i < |targets|
    requires var b := RunCaches(o, t, targets);
             b.marks[i] <= k < b.marks[i + 1] && k < |b.trace|
             && CacheTrouble(b.trace[k])
    ensures RunCaches(o, t, targets[..i + 1]).halt.Some?
  {
    hide RunCaches, NextCache, BlockedCache, CacheTrouble, DeletesAsPlanned;
    TurnAt(o, t, targets, i);
    assert RunCaches(o, t, targets[..i + 1]).trace[k] == RunCaches(o, t, targets).trace[k];
  }

  lemma CacheStopSplits(t: CacheTrace, mid: CacheTrace, later: CacheTrace)
    requires t <= mid <= later
    ensures CacheStoppedSince(t, later) <==> CacheStoppedSince(t, mid) || CacheStoppedSince(mid, later)
  {
    hide CacheStops;
    if CacheStoppedSince(t, mid) {
      var k :| |t| <= k < |mid| && CacheStops(mid[k]);
      assert later[k] == mid[k];
    }
    if CacheStoppedSince(t, later) && !CacheStoppedSince(mid, later) {
      var k :| |t| <= k < |later| && CacheStops(later[k]);
      assert mid[k] == later[k];
    }
  }

  /**
   * For every oracle: the batch ends halted exactly when some answer was a rate limit or a low headroom
   * reading, or carried the searched phrase in a message the report repeats.
   */
  lemma {:induction false} CacheBatchHaltsIff(o: CacheOracle, t: CacheTrace, targets: seq<ActionsCache>)
    ensures RunCaches(o, t, targets).halt.Some? <==> CacheStoppedSince(t, RunCaches(o, t, targets).trace)
    decreases |targets|
  {
    hide NextCache, BlockedCache, CacheStops, DeletesAsPlanned, CacheStoppedSince;
    if targets == [] {
      NeverStopped(t);
    } else {
      var n := |targets| - 1;
      var before, b := RunCaches(o, t, targets[..n]), RunCaches(o, t, targets);
      CacheBatchHaltsIff(o, t, targets[..n]);
      CachePrefix(o, t, targets, n);
      TurnOf(o, before, targets[n]);
      CacheStopSplits(t, before.trace, b.trace);
      NeverStopped(b.trace);
    }
  }

  lemma NeverStopped(t: CacheTrace)
    ensures !CacheStoppedSince(t, t)
  {
  }

  /** A rate limit or low headroom in the turn of cache `i` blocks every later cache, with no request for it. */
  lemma CacheRateLimitContained(o: CacheOracle, t: CacheTrace, targets: seq<ActionsCache>, i: nat, j: nat, k: nat)
    requires i < j < |targets|
    requires var b := RunCaches(o, t, targets);
             b.marks[i] <= k < b.marks[i + 1] && k < |b.trace|
             && CacheTrouble(b.trace[k])
    ensures var b := RunCaches(o, t, targets);
            && b.halt.Some? && b.items[j] == BlockedCache(targets[j], b.halt.value)
            && b.marks[j] == b.marks[j + 1] == |b.trace|
  {
    hide RunCaches, NextCache, BlockedCache, CacheTrouble, DeletesAsPlanned;
    hide CacheTurn;
    TroubleHaltsCaches(o, t, targets, i, k);
    TurnAt(o, t, targets, i);
    var q, b := RunCaches(o, t, targets[..i + 1]), RunCaches(o, t, targets);
    HaltFreezesCaches(o, t, targets, i + 1);
    assert b.marks[i + 1] == |q.trace|;
    if j > i + 1 {
      assert b.items[j - 1] == BlockedCache(targets[j - 1], q.halt.value);
    }
  }

  /**
   * Every DELETE of a batch belongs to one planned cache, seen unchanged just before, at one fixed place of
   * its turn.
   */
  lemma {:induction false} EveryCacheDeleteIsPlanned(o: CacheOracle, t: CacheTrace, targets: seq<ActionsCache>, k: nat)
    requires |t| <= k < |RunCaches(o, t, targets).trace| && RunCaches(o, t, targets).trace[k].CacheDelete?
    ensures var b := RunCaches(o, t, targets);
            exists i :: 0 <= i < |targets| && DeletesAsPlanned(b.trace, k, targets[i]) && k == b.marks[i] + 2
    decreases |targets|
  {
    hide NextCache;
    if targets != [] {
      var n := |targets| - 1;
      var b, before := RunCaches(o, t, targets), RunCaches(o, t, targets[..n]);
      TurnAt(o, t, targets, n);
      assert targets[..n + 1] == targets;
      CachePrefix(o, t, targets, n);
      if k < |before.trace| {
        EveryCacheDeleteIsPlanned(o, t, targets[..n], k);
        var i :| 0 <= i < n && DeletesAsPlanned(before.trace, k, targets[i]) && k == before.marks[i] + 2;
        assert DeletesAsPlanned(b.trace, k, targets[i]) && b.marks[i] == before.marks[i];
      }
    }
  }

  /** In an intact plan no cache is deleted twice, however its repository name is spelled. */
  lemma EachCacheDeletedOnce(o: CacheOracle, t: CacheTrace, targets: seq<ActionsCache>, k: nat, l: nat)
    requires DistinctCaches(targets)
    requires |t| <= k < l < |RunCaches(o, t, targets).trace|
    requires var d := RunCaches(o, t, targets).trace; d[k].CacheDelete? && d[l].CacheDelete?
    ensures var d := RunCaches(o, t, targets).trace;
            Identity(ToAsciiLowercase(d[k].repository.fullName), d[k].id)
                != Identity(ToAsciiLowercase(d[l].repository.fullName), d[l].id)
  {
    hide RunCaches, ToAsciiLowercase, DeletesAsPlanned, IdentityOf;
    EveryCacheDeleteIsPlanned(o, t, targets, k);
    EveryCacheDeleteIsPlanned(o, t, targets, l);
    var b := RunCaches(o, t, targets);
    var i :| 0 <= i < |targets| && DeletesAsPlanned(b.trace, k, targets[i]) && k == b.marks[i] + 2;
    var j :| 0 <= j < |targets| && DeletesAsPlanned(b.trace, l, targets[j]) && l == b.marks[j] + 2;
    NamedBy(b.trace, k, targets[i]);
    NamedBy(b.trace, l, targets[j]);
  }

  lemma NamedBy(t: CacheTrace, k: nat, c: ActionsCache)
    requires DeletesAsPlanned(t, k, c) && t[k].CacheDelete?
    ensures Identity(ToAsciiLowercase(t[k].repository.fullName), t[k].id) == IdentityOf(c)
  {
  }
}

/**
 * The report of a cache purge, read off its history: state, error and the cache that was seen instead, for
 * every planned cache and every provider; and why a batch stopped.
 */
module CachePurgeReading {
  import opened Prelude
  import opened Domain
  import opened CachePurges
  import opened CachePurgeSafety
  import R = RunPurgeExecution

  /** The provider no longer knows the cache. */
  predicate NotThere(found: ProviderResult<Option<ActionsCache>>) {
    match found
    case Ok(None) => true
    case Ok(Some(_)) => false
    case Err(e) => e.NotFound?
  }

  /** Every state stands for one pattern of answers, both ways. */
  ghost predicate StateTold(d: CacheTrace, c: ActionsCache, state: R.State)
    requires CacheSteps(d, c)
  {
    && (state == R.Deleted <==> |d| == 3 && NotThere(d[2].cache))
    && (state == R.VerificationFailed <==> |d| == 3 && !NotThere(d[2].cache))
    && (state == R.DeleteFailed <==> |d| == 2 && d[1].outcome.Err?)
    && (state == R.AlreadyAbsent <==> NotThere(d[0].cache) || (|d| == 2 && d[1].outcome == Ok(WasAbsent)))
    && (state == R.Changed <==> |d| == 1 && d[0].cache.Ok? && d[0].cache.value.Some?)
    && (state == R.RevalidationFailed <==> |d| == 1 && d[0].cache.Err? && !NotThere(d[0].cache))
    && state != R.Blocked
  }

  /** What the item quotes: the last answer's error, and the cache that was seen in place of the planned one. */
  ghost predicate DetailsTold(d: CacheTrace, c: ActionsCache, item: CacheItem)
    requires CacheSteps(d, c)
  {
    match item.state
    case RevalidationFailed =>
      item.current == None && d[0].cache.Err? && item.error == Some(ProviderSaid(d[0].cache.error))
    case Changed => d[0].cache.Ok? && item.current == d[0].cache.value && item.error == Some(PlanOutdated)
    case DeleteFailed =>
      && |d| == 2 && d[1].outcome.Err?
      && item.current == Some(c) && item.error == Some(ProviderSaid(d[1].outcome.error))
    case VerificationFailed =>
      && |d| == 3
      && if d[2].cache.Ok? then item.current == d[2].cache.value && item.error == Some(StillThere)
         else item.current == Some(c) && item.error == Some(Unverified(d[2].cache.error))
    case _ => item.current == None && item.error == None
  }

  ghost predicate CacheTold(d: CacheTrace, c: ActionsCache, item: CacheItem) {
    item.planned == c && CacheSteps(d, c) && StateTold(d, c, item.state) && DetailsTold(d, c, item)
  }

  /** For every provider, `execute_target` reports exactly what its own history says. */
  lemma WholeCacheReportIsExact(o: CacheOracle, t: CacheTrace, c: ActionsCache) returns (d: CacheTrace)
    ensures RunCache(o, t, c).trace == t + d && CacheTold(d, c, RunCache(o, t, c).item)
  {
    var e1 := CacheLookedUp(c.repository, c.id, o.cache(t, c.repository, c.id));
    d := [e1];
    if e1.cache == Ok(Some(c)) {
      var e2 := CacheDelete(c.repository, c.id, o.deleteCache(t + [e1], c.repository, c.id));
      d := [e1, e2];
      assert t + [e1] + [e2] == t + d;
      if e2.outcome == Ok(DeletedNow) {
        var e3 := CacheLookedUp(c.repository, c.id, o.cache(t + [e1] + [e2], c.repository, c.id));
        d := [e1, e2, e3];
        assert t + [e1] + [e2] + [e3] == t + d;
      }
    }
  }

  // --- the batch ----------------------------------------------------------------------------------------------

  predicate TurnFits(b: CacheBatch, i: nat) {
    i + 1 < |b.marks| && i < |b.items| && b.marks[i] <= b.marks[i + 1] <= |b.trace|
  }

  /** What a turn added. */
  function TurnPart(b: CacheBatch, i: nat): CacheTrace
    requires TurnFits(b, i)
  {
    b.trace[b.marks[i]..b.marks[i + 1]]
  }

  /** At most 250 requests are left. */
  predicate FewLeft(e: CacheEvent) { e.CacheHeadroomRead? && e.remaining.Some? && e.remaining.value <= 250 }

  /**
   * What item `i` must say: blocked by the batch's own reason when nothing was asked, blocked for lack of
   * requests when only the headroom was read, and the reading of the answers otherwise.
   */
  ghost predicate CacheTurnTold(b: CacheBatch, i: nat, c: ActionsCache)
    requires TurnFits(b, i)
  {
    var d, item := TurnPart(b, i), b.items[i];
    if d == [] then b.halt.Some? && item == CacheItem(c, R.Blocked, None, b.halt)
    else
      && d[0].CacheHeadroomRead?
      && if FewLeft(d[0]) then
           |d| == 1 && item == CacheItem(c, R.Blocked, None, Some(HaltedByHeadroom(d[0].remaining.value)))
         else CacheTold(d[1..], c, item)
  }

  lemma FreshCacheTurn(o: CacheOracle, b: CacheBatch, c: ActionsCache)
    requires b.halt.None?
    ensures var r, reading := NextCache(o, b, c), CacheHeadroomRead(o.remaining(b.trace));
            && b.trace + [reading] <= r.trace && |r.items| == |b.items| + 1
            && if FewLeft(reading) then
                 && r.trace == b.trace + [reading] && r.halt == Some(HaltedByHeadroom(reading.remaining.value))
                 && r.items[|b.items|] == CacheItem(c, R.Blocked, None, r.halt)
               else
                 && CacheTold(r.trace[|b.trace| + 1..], c, r.items[|b.items|])
                 && (r.halt == None || r.halt == Some(HaltedByLimit))
  {
    hide RunCache, MentionsLimit, CacheTold;
    var t1 := b.trace + [CacheHeadroomRead(o.remaining(b.trace))];
    var d := WholeCacheReportIsExact(o, t1, c);
    assert (t1 + d)[|b.trace| + 1..] == d;
  }

  /** For every provider and batch, each item says exactly what the history of its own turn says. */
  lemma EveryCacheItemIsTold(o: CacheOracle, t: CacheTrace, targets: seq<ActionsCache>, i: nat)
    requires i < |targets|
    ensures TurnFits(RunCaches(o, t, targets), i) && CacheTurnTold(RunCaches(o, t, targets), i, targets[i])
  {
    hide RunCaches, NextCache, CacheTold, CacheTurn, BlockedCache;
    var b, p, q := RunCaches(o, t, targets), RunCaches(o, t, targets[..i]), RunCaches(o, t, targets[..i + 1]);
    TurnAt(o, t, targets, i);
    CachePrefix(o, t, targets, i);
    CachePrefix(o, t, targets, i + 1);
    if p.halt.Some? {
      HaltFreezesCaches(o, t, targets, i);
      BlockedIs(targets[i], p.halt.value);
      if i > 0 {
        assert b.marks[i] == |p.trace|;
      }
    } else {
      FreshCacheTurn(o, p, targets[i]);
      assert q.items[i] == b.items[i];
      assert TurnPart(b, i) == q.trace[|p.trace|..];
      assert TurnPart(b, i)[1..] == q.trace[|p.trace| + 1..];
    }
  }

  lemma BlockedIs(c: ActionsCache, reason: Message)
    ensures BlockedCache(c, reason) == CacheItem(c, R.Blocked, None, Some(reason))
  {
  }

  /** The reason is the last thing that happened: a low reading, or a cache that met the limit. */
  ghost predicate CacheHaltSays(t: CacheTrace, later: CacheTrace, halt: Option<Message>) {
    if !CacheStoppedSince(t, later) then halt == None
    else if |later| > 0 && FewLeft(later[|later| - 1]) then
      halt == Some(HaltedByHeadroom(later[|later| - 1].remaining.value))
    else halt == Some(HaltedByLimit)
  }

  lemma TurnHaltSays(o: CacheOracle, t: CacheTrace, b: CacheBatch, c: ActionsCache)
    requires t <= b.trace && b.halt.None? && !CacheStoppedSince(t, b.trace)
    ensures t <= NextCache(o, b, c).trace && CacheHaltSays(t, NextCache(o, b, c).trace, NextCache(o, b, c).halt)
  {
    hide NextCache, CacheStoppedSince, DeletesAsPlanned;
    FreshCacheTurn(o, b, c);
    TurnOf(o, b, c);
    var r := NextCache(o, b, c);
    CacheStopSplits(t, b.trace, r.trace);
    var rest := r.trace[|b.trace| + 1..];
    if rest != [] {
      assert r.trace[|r.trace| - 1] == rest[|rest| - 1];
    }
  }

  /** For every provider and batch, the halt reason names what stopped it. */
  lemma {:induction false} CacheHaltReasonIsExact(o: CacheOracle, t: CacheTrace, targets: seq<ActionsCache>)
    ensures var b := RunCaches(o, t, targets); t <= b.trace && CacheHaltSays(t, b.trace, b.halt)
    decreases |targets|
  {
    hide NextCache, CacheStoppedSince, DeletesAsPlanned;
    CacheBatchHaltsIff(o, t, targets);
    if targets != [] {
      var n := |targets| - 1;
      var before := RunCaches(o, t, targets[..n]);
      CacheHaltReasonIsExact(o, t, targets[..n]);
      CacheBatchHaltsIff(o, t, targets[..n]);
      AppendOf(o, before, targets[n]);
      if before.halt.None? {
        TurnHaltSays(o, t, before, targets[n]);
      }
    }
  }
}

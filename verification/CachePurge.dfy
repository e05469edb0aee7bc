/** Actions cache purges: `cache_purge.rs`. Plans, the executor and its one-line halt rule. */
module CachePurges {
  import opened Prelude
  import opened Domain
  import opened Sorting
  import T = Text
  import R = RunPurgeExecution

  const CACHE_PLAN_SCHEMA_VERSION: nat := 1

  datatype ActionsCache = ActionsCache(
    id: nat,
    repository: RepositoryRef,
    key: string,
    version: string,
    gitRef: string,
    createdAt: Moment,
    lastAccessedAt: Moment,
    sizeInBytes: U64)

  /** Two spellings of one repository name are one cache. */
  datatype Identity = Identity(repository: string, id: nat)

  function IdentityOf(c: ActionsCache): Identity { Identity(ToAsciiLowercase(c.repository.fullName), c.id) }

  datatype CacheSummary = CacheSummary(count: nat, bytes: U64)

  datatype CachePlan = CachePlan(schemaVersion: nat, isActionsCache: bool, account: Account, summary: CacheSummary,
      targets: seq<ActionsCache>)

  datatype CachePlanError =
    | IncompleteInventory(issueCount: nat)
    | CacheNotInSnapshot(repository: string, id: nat)
    | DuplicateCache(repository: string, id: nat)
    | CacheSummaryMismatch
    | CacheSchemaUnsupported(found: nat)
    | WrongResource

  // --- plans ----------------------------------------------------------------------------------------

  ghost predicate DistinctCaches(targets: seq<ActionsCache>) {
    forall i, j :: 0 <= i < j < |targets| ==> IdentityOf(targets[i]) != IdentityOf(targets[j])
  }

  function CacheSize(c: ActionsCache): nat { c.sizeInBytes }

  function CacheSummaryOf(targets: seq<ActionsCache>): CacheSummary {
    CacheSummary(|targets|, SaturatingTotal(targets, CacheSize))
  }

  ghost predicate IntactCachePlan(plan: CachePlan) {
    && plan.schemaVersion == CACHE_PLAN_SCHEMA_VERSION && plan.isActionsCache
    && DistinctCaches(plan.targets) && plan.summary == CacheSummaryOf(plan.targets)
  }

  predicate CacheLe(a: ActionsCache, b: ActionsCache) {
    PairLe(a.repository.fullName, a.id, b.repository.fullName, b.id)
  }

  lemma CacheLeIsPreorder()
    ensures TotalPreorder(CacheLe)
  {
    forall a: ActionsCache, b: ActionsCache ensures CacheLe(a, b) || CacheLe(b, a) {
      PairLeTotal(a.repository.fullName, a.id, b.repository.fullName, b.id);
    }
    forall a: ActionsCache, b: ActionsCache, c: ActionsCache | CacheLe(a, b) && CacheLe(b, c) ensures CacheLe(a, c) {
      PairLeTransitive(a.repository.fullName, a.id, b.repository.fullName, b.id, c.repository.fullName, c.id);
    }
  }

  lemma CachesSurvive(xs: seq<ActionsCache>, ys: seq<ActionsCache>)
    requires DistinctCaches(xs) && multiset(xs) == multiset(ys)
    ensures DistinctCaches(ys)
  {
    hide IdentityOf;
    DistinctSurvives(xs, ys, IdentityOf);
  }

  /** A repeated identity anywhere in the checked prefix. */
  lemma RepeatFound(targets: seq<ActionsCache>, i: nat, seen: set<Identity>)
    requires i < |targets| && IdentityOf(targets[i]) in seen
    requires forall id :: id in seen ==> exists k :: 0 <= k < i && IdentityOf(targets[k]) == id
    ensures !DistinctCaches(targets)
  {
  }

  /** The saturating fold over the targets' sizes. */
  method TotalBytes(targets: seq<ActionsCache>) returns (bytes: U64)
    ensures bytes == SaturatingTotal(targets, CacheSize)
  {
    bytes := 0;
    for i := 0 to |targets|
      invariant bytes == SaturatingTotal(targets[..i], CacheSize)
    {
      assert targets[..i + 1][..i] == targets[..i];
      bytes := SaturatingAdd(bytes, targets[i].sizeInBytes);
    }
    assert targets[..|targets|] == targets;
  }

  /** The loop both checks share: identities seen so far, and optionally membership of the snapshot. */
  method CheckTargets(targets: seq<ActionsCache>, snapshot: Option<seq<ActionsCache>>)
    returns (r: Result<(), CachePlanError>)
    ensures r.Ok? <==> DistinctCaches(targets) && (snapshot.Some? ==> forall c :: c in targets ==> c in snapshot.value)
    ensures r.Err? ==> r.error.DuplicateCache? || r.error.CacheNotInSnapshot?
    ensures r.Err? && r.error.CacheNotInSnapshot? ==>
              snapshot.Some? && exists c ::
                  c in targets && c !in snapshot.value
                  && c.repository.fullName == r.error.repository && c.id == r.error.id
  {
    hide IdentityOf;
    var seen: set<Identity> := {};
    for i := 0 to |targets|
      invariant DistinctCaches(targets[..i])
      invariant forall k :: 0 <= k < i ==> IdentityOf(targets[k]) in seen
      invariant snapshot.Some? ==> forall k :: 0 <= k < i ==> targets[k] in snapshot.value
      invariant forall id :: id in seen ==> exists k :: 0 <= k < i && IdentityOf(targets[k]) == id
    {
      var cache := targets[i];
      if IdentityOf(cache) in seen {
        RepeatFound(targets, i, seen);
        return Err(DuplicateCache(cache.repository.fullName, cache.id));
      }
      seen := seen + {IdentityOf(cache)};
      if snapshot.Some? && cache !in snapshot.value {
        return Err(CacheNotInSnapshot(cache.repository.fullName, cache.id));
      }
    }
    assert targets[..|targets|] == targets;
    r := Ok(());
  }

  /** `validate_integrity`. */
  method ValidateCachePlan(plan: CachePlan) returns (r: Result<(), CachePlanError>)
    ensures r.Ok? <==> IntactCachePlan(plan)
    ensures r == Err(CacheSummaryMismatch) <==>
              plan.schemaVersion == CACHE_PLAN_SCHEMA_VERSION && plan.isActionsCache && DistinctCaches(plan.targets)
              && plan.summary != CacheSummaryOf(plan.targets)
  {
    if plan.schemaVersion != CACHE_PLAN_SCHEMA_VERSION {
      return Err(CacheSchemaUnsupported(plan.schemaVersion));
    }
    if !plan.isActionsCache {
      return Err(WrongResource);
    }
    var checked := CheckTargets(plan.targets, None);
    if checked.Err? {
      return checked;
    }
    var bytes := TotalBytes(plan.targets);
    if plan.summary != CacheSummary(|plan.targets|, bytes) {
      return Err(CacheSummaryMismatch);
    }
    r := Ok(());
  }

  /** Sorting keeps what the checks look at. */
  lemma SortedTargets(requested: seq<ActionsCache>)
    ensures var targets := Sort(requested, CacheLe);
            && multiset(targets) == multiset(requested) && SortedBy(targets, CacheLe)
            && (DistinctCaches(targets) <==> DistinctCaches(requested))
            && (forall c :: c in targets <==> c in requested)
            && SaturatingTotal(targets, CacheSize) == Cap(SumBy(requested, CacheSize))
  {
    hide IdentityOf, CacheLe;
    var targets := Sort(requested, CacheLe);
    SortPermutes(requested, CacheLe);
    CacheLeIsPreorder();
    SortSorts(requested, CacheLe);
    SumByPermutation(requested, targets, CacheSize);
    SaturatingTotalIsCappedSum(targets, CacheSize);
    if DistinctCaches(requested) { CachesSurvive(requested, targets); }
    if DistinctCaches(targets) { CachesSurvive(targets, requested); }
    forall c ensures c in targets <==> c in requested {
      MembersSurvive(targets, requested, c);
    }
  }

  /** `CachePurgePlan::new`: sorts first, then checks in sorted order. */
  method NewCachePlan(account: Account, issueCount: nat, caches: seq<ActionsCache>, requested: seq<ActionsCache>)
    returns (r: Result<CachePlan, CachePlanError>)
    ensures r.Ok? <==> issueCount == 0 && DistinctCaches(requested) && forall c :: c in requested ==> c in caches
    ensures r.Ok? ==>
            IntactCachePlan(r.value) && multiset(r.value.targets) == multiset(requested)
            && SortedBy(r.value.targets, CacheLe)
    ensures r.Ok? ==> r.value.summary.bytes == Cap(SumBy(requested, CacheSize)) && r.value.account == account
    ensures r.Err? && r.error.CacheNotInSnapshot? ==>
              exists c :: c in requested && c !in caches && c.repository.fullName == r.error.repository
                  && c.id == r.error.id
  {
    hide IdentityOf, CacheLe, Sort, SortedBy, DistinctCaches;
    if issueCount != 0 {
      return Err(IncompleteInventory(issueCount));
    }
    var targets := Sort(requested, CacheLe);
    SortedTargets(requested);
    var checked := CheckTargets(targets, Some(caches));
    if checked.Err? {
      return Err(checked.error);
    }
    var bytes := TotalBytes(targets);
    var plan := CachePlan(CACHE_PLAN_SCHEMA_VERSION, true, account, CacheSummary(|targets|, bytes), targets);
    var intact := ValidateCachePlan(plan);
    r := if intact.Ok? then Ok(plan) else Err(CacheSummaryMismatch);
  }

  // --- the remote --------------------------------------------------------------------------------------

  datatype CacheEvent =
    | CacheAccountRead(account: ProviderResult<Account>)
    | CacheHeadroomRead(remaining: Option<nat>)
    | CacheLookedUp(repository: RepositoryRef, id: nat, cache: ProviderResult<Option<ActionsCache>>)
    | CacheDelete(repository: RepositoryRef, id: nat, outcome: ProviderResult<DeleteOutcome>)
  {
    predicate WasRateLimited() {
      match this
      case CacheLookedUp(_, _, a) => a.Err? && a.error.RateLimited?
      case CacheDelete(_, _, a) => a.Err? && a.error.RateLimited?
      case _ => false
    }
  }

  type CacheTrace = seq<CacheEvent>

  datatype CacheOracle = CacheOracle(
    account: CacheTrace -> ProviderResult<Account>,
    remaining: CacheTrace -> Option<nat>,
    cache: (CacheTrace, RepositoryRef, nat) -> ProviderResult<Option<ActionsCache>>,
    deleteCache: (CacheTrace, RepositoryRef, nat) -> ProviderResult<DeleteOutcome>)

  class CacheRemote {
    const oracle: CacheOracle
    var trace: CacheTrace

    constructor (oracle: CacheOracle)
      ensures this.oracle == oracle && trace == []
    {
      this.oracle := oracle;
      trace := [];
    }

    method ReadAccount() returns (r: ProviderResult<Account>)
      modifies this
      ensures r == oracle.account(old(trace)) && trace == old(trace) + [CacheAccountRead(r)]
    {
      r := oracle.account(trace);
      trace := trace + [CacheAccountRead(r)];
    }

    method ReadHeadroom() returns (r: Option<nat>)
      modifies this
      ensures r == oracle.remaining(old(trace)) && trace == old(trace) + [CacheHeadroomRead(r)]
    {
      r := oracle.remaining(trace);
      trace := trace + [CacheHeadroomRead(r)];
    }

    method LookUp(c: ActionsCache) returns (r: ProviderResult<Option<ActionsCache>>)
      modifies this
      ensures r == oracle.cache(old(trace), c.repository, c.id)
              && trace == old(trace) + [CacheLookedUp(c.repository, c.id, r)]
    {
      r := oracle.cache(trace, c.repository, c.id);
      trace := trace + [CacheLookedUp(c.repository, c.id, r)];
    }

    method Delete(c: ActionsCache) returns (r: ProviderResult<DeleteOutcome>)
      modifies this
      ensures r == oracle.deleteCache(old(trace), c.repository, c.id)
              && trace == old(trace) + [CacheDelete(c.repository, c.id, r)]
    {
      r := oracle.deleteCache(trace, c.repository, c.id);
      trace := trace + [CacheDelete(c.repository, c.id, r)];
    }
  }

  // --- execution -----------------------------------------------------------------------------------------

  /** The sentences of a report; `Text` spells them out. */
  datatype Message =
    | ProviderSaid(error: ProviderError)
    | PlanOutdated
    | StillThere
    | Unverified(error: ProviderError)
    | HaltedByLimit
    | HaltedByHeadroom(remaining: nat)
  {
    function Text(): string {
      match this
      case ProviderSaid(e) => R.ErrorText(e)
      case PlanOutdated => "cache changed since " + "immutable plan was created"
      case StillThere => "GitHub Actions cache still exists " + "after reported deletion"
      case Unverified(e) => R.REPORTED + "cache deletion, but " + R.UNCONFIRMED + R.ErrorText(e)
      case HaltedByLimit =>
        "cache purge halted by GitHub API rate-limit guard after provider rate limit; later targets were not attempted"
      case HaltedByHeadroom(remaining) =>
        "cache purge halted by GitHub API rate-limit guard to preserve " + T.Decimal(R.HEADROOM) + "-request headroom ("
        + T.Decimal(remaining) + " remaining); target was not attempted"
    }
  }

  datatype CacheItem = CacheItem(planned: ActionsCache, state: R.State, current: Option<ActionsCache>,
      error: Option<Message>)

  /** The executor learns of a rate limit only from the words of the item's error. */
  predicate MentionsLimit(item: CacheItem) {
    item.error.Some? && R.HasPhrase(item.error.value.Text())
  }

  datatype CacheRan = CacheRan(item: CacheItem, trace: CacheTrace)

  function BlockedCache(planned: ActionsCache, reason: Message): CacheItem {
    CacheItem(planned, R.Blocked, None, Some(reason))
  }

  predicate CacheGone(found: ProviderResult<Option<ActionsCache>>) {
    found == Ok(None) || (found.Err? && found.error.NotFound?)
  }

  function VerifyCache(o: CacheOracle, t: CacheTrace, planned: ActionsCache): CacheRan {
    var found := o.cache(t, planned.repository, planned.id);
    var t1 := t + [CacheLookedUp(planned.repository, planned.id, found)];
    if CacheGone(found) then CacheRan(CacheItem(planned, R.Deleted, None, None), t1)
    else if found.Ok? then CacheRan(CacheItem(planned, R.VerificationFailed, found.value, Some(StillThere)), t1)
    else CacheRan(CacheItem(planned, R.VerificationFailed, Some(planned), Some(Unverified(found.error))), t1)
  }

  /** `execute_target`. A delete answered with NotFound is a failure here, unlike for runs. */
  function RunCache(o: CacheOracle, t: CacheTrace, planned: ActionsCache): CacheRan {
    var found := o.cache(t, planned.repository, planned.id);
    var t1 := t + [CacheLookedUp(planned.repository, planned.id, found)];
    if CacheGone(found) then CacheRan(CacheItem(planned, R.AlreadyAbsent, None, None), t1)
    else if found.Err? then CacheRan(CacheItem(planned, R.RevalidationFailed, None, Some(ProviderSaid(found.error))),
        t1)
    else if found.value != Some(planned)
      then CacheRan(CacheItem(planned, R.Changed, found.value, Some(PlanOutdated)), t1)
    else
      var outcome := o.deleteCache(t1, planned.repository, planned.id);
      var t2 := t1 + [CacheDelete(planned.repository, planned.id, outcome)];
      match outcome
      case Ok(WasAbsent) => CacheRan(CacheItem(planned, R.AlreadyAbsent, None, None), t2)
      case Err(e) => CacheRan(CacheItem(planned, R.DeleteFailed, Some(planned), Some(ProviderSaid(e))), t2)
      case Ok(DeletedNow) => VerifyCache(o, t2, planned)
  }

  /** The loop's variables; `marks` remembers where each target began. */
  datatype CacheBatch = CacheBatch(items: seq<CacheItem>, trace: CacheTrace, halt: Option<Message>, marks: seq<nat>)

  function NextCache(o: CacheOracle, b: CacheBatch, planned: ActionsCache): (r: CacheBatch)
    ensures |r.items| == |b.items| + 1 && |r.marks| == |b.marks| + 1
  {
    hide RunCache, MentionsLimit;
    if b.halt.Some? then CacheBatch(b.items + [BlockedCache(planned, b.halt.value)], b.trace, b.halt, b.marks
        + [|b.trace|])
    else
      var remaining := o.remaining(b.trace);
      var t1 := b.trace + [CacheHeadroomRead(remaining)];
      if R.LowHeadroom(remaining) then
        var reason := HaltedByHeadroom(remaining.value);
        CacheBatch(b.items + [BlockedCache(planned, reason)], t1, Some(reason), b.marks + [|t1|])
      else
        var ran := RunCache(o, t1, planned);
        CacheBatch(b.items + [ran.item], ran.trace, if MentionsLimit(ran.item) then Some(HaltedByLimit) else None,
                   b.marks + [|ran.trace|])
  }

  function RunCaches(o: CacheOracle, t: CacheTrace, targets: seq<ActionsCache>): (b: CacheBatch)
    ensures |b.items| == |targets| && |b.marks| == |targets| + 1
  {
    hide NextCache;
    if targets == [] then CacheBatch([], t, None, [|t|])
    else NextCache(o, RunCaches(o, t, targets[..|targets| - 1]), targets[|targets| - 1])
  }

  method ExecuteCache(remote: CacheRemote, planned: ActionsCache) returns (item: CacheItem)
    modifies remote
    ensures CacheRan(item, remote.trace) == RunCache(remote.oracle, old(remote.trace), planned)
  {
    var found := remote.LookUp(planned);
    match found {
      case Ok(None) =>
        return CacheItem(planned, R.AlreadyAbsent, None, None);
      case Err(NotFound(_)) =>
        return CacheItem(planned, R.AlreadyAbsent, None, None);
      case Err(e) =>
        return CacheItem(planned, R.RevalidationFailed, None, Some(ProviderSaid(e)));
      case Ok(Some(current)) =>
        if current != planned {
          return CacheItem(planned, R.Changed, Some(current), Some(PlanOutdated));
        }
    }
    var outcome := remote.Delete(planned);
    match outcome {
      case Ok(WasAbsent) =>
        return CacheItem(planned, R.AlreadyAbsent, None, None);
      case Err(e) =>
        return CacheItem(planned, R.DeleteFailed, Some(planned), Some(ProviderSaid(e)));
      case Ok(DeletedNow) =>
    }
    var after := remote.LookUp(planned);
    match after {
      case Ok(None) =>
        item := CacheItem(planned, R.Deleted, None, None);
      case Err(NotFound(_)) =>
        item := CacheItem(planned, R.Deleted, None, None);
      case Ok(Some(still)) =>
        item := CacheItem(planned, R.VerificationFailed, Some(still), Some(StillThere));
      case Err(e) =>
        item := CacheItem(planned, R.VerificationFailed, Some(planned), Some(Unverified(e)));
    }
  }

  /** The loop of `execute`, after the plan, the review and the account were accepted. */
  method ExecuteCaches(remote: CacheRemote, targets: seq<ActionsCache>) returns (items: seq<CacheItem>)
    modifies remote
    ensures var b := RunCaches(remote.oracle, old(remote.trace), targets); items == b.items && remote.trace == b.trace
  {
    hide RunCache, MentionsLimit;
    items := [];
    var halt: Option<Message> := None;
    ghost var start := remote.trace;
    ghost var marks: seq<nat> := [|start|];
    for i := 0 to |targets|
      invariant CacheBatch(items, remote.trace, halt, marks) == RunCaches(remote.oracle, start, targets[..i])
    {
      assert targets[..i + 1][..i] == targets[..i];
      if halt.Some? {
        items := items + [BlockedCache(targets[i], halt.value)];
      } else {
        var remaining := remote.ReadHeadroom();
        if remaining.Some? && remaining.value <= R.HEADROOM {
          halt := Some(HaltedByHeadroom(remaining.value));
          items := items + [BlockedCache(targets[i], halt.value)];
        } else {
          var item := ExecuteCache(remote, targets[i]);
          items := items + [item];
          if MentionsLimit(item) {
            halt := Some(HaltedByLimit);
          }
        }
      }
      marks := marks + [|remote.trace|];
    }
    assert targets[..|targets|] == targets;
  }

  // --- the review and the whole plan ------------------------------------------------------------------------

  datatype CacheReviewState = CacheReady | CacheAbsent | CacheDiffers | CacheUnchecked

  datatype CacheReviewItem = CacheReviewItem(repository: string, id: nat, state: CacheReviewState)

  datatype CacheReview = CacheReview(account: Account, items: seq<CacheReviewItem>)

  datatype CacheExecuteError =
    | CachePlanRejected(problem: CachePlanError)
    | CacheAccountMismatch
    | ReviewTargetMismatch
    | ReviewUnsafe
    | CacheProviderFailed(error: ProviderError)

  predicate ReviewedSafe(item: CacheReviewItem, c: ActionsCache) {
    item.repository == c.repository.fullName && item.id == c.id
        && (item.state == CacheReady || item.state == CacheAbsent)
  }

  /** Every destructive request of a plan needs all of this first. */
  ghost predicate CacheAuthorized(plan: CachePlan, review: CacheReview, account: ProviderResult<Account>) {
    && IntactCachePlan(plan) && review.account == plan.account && account == Ok(plan.account)
    && |review.items| == |plan.targets|
    && forall i :: 0 <= i < |plan.targets| ==> ReviewedSafe(review.items[i], plan.targets[i])
  }

  /** The first item that does not fit the plan, and what is wrong with it. */
  ghost predicate FirstFault(plan: CachePlan, review: CacheReview, i: nat, error: CacheExecuteError) {
    && i < |plan.targets| && |review.items| == |plan.targets|
    && (forall k :: 0 <= k < i ==> ReviewedSafe(review.items[k], plan.targets[k]))
    && var item, planned := review.items[i], plan.targets[i];
       if item.repository != planned.repository.fullName || item.id != planned.id then error == ReviewTargetMismatch
       else (item.state == CacheDiffers || item.state == CacheUnchecked) && error == ReviewUnsafe
  }

  ghost predicate ReviewFault(plan: CachePlan, review: CacheReview, error: CacheExecuteError) {
    if review.account != plan.account then error == CacheAccountMismatch
    else if |review.items| != |plan.targets| then error == ReviewTargetMismatch
    else exists i :: FirstFault(plan, review, i, error)
  }

  /** Why a plan is not executed: the plan, then the review, then the account. */
  ghost predicate CacheRefused(plan: CachePlan, review: CacheReview, account: ProviderResult<Account>,
                               error: CacheExecuteError) {
    if !IntactCachePlan(plan) then error.CachePlanRejected?
    else if error == ReviewTargetMismatch || error == ReviewUnsafe || review.account != plan.account then
      ReviewFault(plan, review, error)
    else if account.Err? then error == CacheProviderFailed(account.error)
    else account.value != plan.account && error == CacheAccountMismatch
  }

  /** `validate_review`: item by item, the first problem decides. */
  method ValidateCacheReview(plan: CachePlan, review: CacheReview) returns (r: Result<(), CacheExecuteError>)
    ensures r.Ok? <==> review.account == plan.account && |review.items| == |plan.targets|
                       && forall i :: 0 <= i < |plan.targets| ==> ReviewedSafe(review.items[i], plan.targets[i])
    ensures r == Err(CacheAccountMismatch) <==> review.account != plan.account
    ensures r.Err? ==> ReviewFault(plan, review, r.error)
  {
    if review.account != plan.account {
      return Err(CacheAccountMismatch);
    }
    if |review.items| != |plan.targets| {
      return Err(ReviewTargetMismatch);
    }
    for i := 0 to |plan.targets|
      invariant forall k :: 0 <= k < i ==> ReviewedSafe(review.items[k], plan.targets[k])
    {
      var item, planned := review.items[i], plan.targets[i];
      if item.repository != planned.repository.fullName || item.id != planned.id {
        assert FirstFault(plan, review, i, ReviewTargetMismatch);
        return Err(ReviewTargetMismatch);
      }
      if item.state != CacheReady && item.state != CacheAbsent {
        assert FirstFault(plan, review, i, ReviewUnsafe);
        return Err(ReviewUnsafe);
      }
    }
    r := Ok(());
  }

  /** `execute`. */
  method ExecuteCachePlan(remote: CacheRemote, plan: CachePlan, review: CacheReview)
    returns (r: Result<seq<CacheItem>, CacheExecuteError>)
    modifies remote
    ensures r.Ok? <==> CacheAuthorized(plan, review, remote.oracle.account(old(remote.trace)))
    ensures r.Ok? ==> var b := RunCaches(remote.oracle, old(remote.trace) + [CacheAccountRead(Ok(plan.account))],
            plan.targets);
              r.value == b.items && remote.trace == b.trace
    ensures r.Err? ==> remote.trace == old(remote.trace)
                       || remote.trace == old(remote.trace)
                          + [CacheAccountRead(remote.oracle.account(old(remote.trace)))]
    ensures r.Err? ==> CacheRefused(plan, review, remote.oracle.account(old(remote.trace)), r.error)
  {
    hide IntactCachePlan, ReviewedSafe, RunCaches;
    var intact := ValidateCachePlan(plan);
    if intact.Err? {
      return Err(CachePlanRejected(intact.error));
    }
    var reviewed := ValidateCacheReview(plan, review);
    if reviewed.Err? {
      return Err(reviewed.error);
    }
    var account := remote.ReadAccount();
    if account.Err? {
      return Err(CacheProviderFailed(account.error));
    }
    if account.value != plan.account {
      return Err(CacheAccountMismatch);
    }
    var items := ExecuteCaches(remote, plan.targets);
    r := Ok(items);
  }
}

/** The loops of the GitHub client: mutation pacing, paginated listing and lookup, bounded retries. */
module GithubClient {
  import opened Prelude
  import opened Domain
  import C = CachePurges

  // --- mutation pacing ---------------------------------------------------------------------------------------

  /** Two seconds, in nanoseconds. */
  const MUTATION_PACING: nat := 2_000_000_000

  datatype HttpMethod = GET | HEAD | OPTIONS | POST | PATCH | PUT | DELETE {
    predicate Mutates() { POST? || PATCH? || PUT? || DELETE? }
  }

  function Max(a: int, b: int): int { if a >= b then a else b }

  /** The slot of the last of a sequence of mutating requests, given when each asked. */
  function SlotOf(nows: seq<Moment>): Moment
    requires nows != []
  {
    var n := |nows| - 1;
    if n == 0 then nows[0] else Max(nows[n], SlotOf(nows[..n]) + MUTATION_PACING)
  }

  class Pacer {
    var lastSlot: Option<Moment>
    ghost var asked: seq<Moment>

    ghost predicate Valid()
      reads this
    {
      lastSlot == if asked == [] then None else Some(SlotOf(asked))
    }

    constructor ()
      ensures Valid() && asked == []
    {
      lastSlot := None;
      asked := [];
    }

    /** `reserve_mutation_delay`; `now` was read before the lock, so it need not grow from call to call. */
    method Reserve(method_: HttpMethod, now: Moment) returns (delay: nat)
      requires Valid()
      modifies this
      ensures Valid()
      ensures asked == if method_.Mutates() then old(asked) + [now] else old(asked)
      ensures method_.Mutates() ==> lastSlot == Some(now + delay) && now + delay == SlotOf(asked)
      ensures !method_.Mutates() ==> delay == 0 && lastSlot == old(lastSlot)
    {
      if !method_.Mutates() {
        return 0;
      }
      assert (asked + [now])[..|asked|] == asked;
      var reserved := now;
      if lastSlot.Some? && lastSlot.value + MUTATION_PACING > now {
        reserved := lastSlot.value + MUTATION_PACING;
      }
      lastSlot := Some(reserved);
      asked := asked + [now];
      delay := reserved - now;
    }
  }

  /** The n-th slot is the largest of `now_i + 2s * (n - i)`: an upper bound of all, and equal to one. */
  lemma {:induction false} SlotIsMaximum(nows: seq<Moment>)
    requires nows != []
    ensures var n := |nows| - 1;
            && (forall i :: 0 <= i <= n ==> nows[i] + 2_000_000_000 * (n - i) <= SlotOf(nows))
            && (exists i :: 0 <= i <= n && nows[i] + 2_000_000_000 * (n - i) == SlotOf(nows))
  {
    var n := |nows| - 1;
    if n > 0 {
      SlotIsMaximum(nows[..n]);
      var i :| 0 <= i <= n - 1 && nows[..n][i] + MUTATION_PACING * (n - 1 - i) == SlotOf(nows[..n]);
      if SlotOf(nows) == nows[n] {
        assert nows[n] + MUTATION_PACING * (n - n) == SlotOf(nows);
      } else {
        assert nows[i] + MUTATION_PACING * (n - i) == SlotOf(nows);
      }
    } else {
      assert nows[0] + MUTATION_PACING * (n - 0) == SlotOf(nows);
    }
  }

  /** Between the slots of two requests lie at least two seconds for each request from one to the other. */
  lemma {:induction false} SlotsAreApart(nows: seq<Moment>, i: nat, j: nat)
    requires i <= j < |nows|
    ensures SlotOf(nows[..j + 1]) >= SlotOf(nows[..i + 1]) + 2_000_000_000 * (j - i)
    decreases j
  {
    if i < j {
      SlotsAreApart(nows, i, j - 1);
      assert nows[..j + 1][..j] == nows[..j];
    }
  }

  /** No window of length `width` holds more than the ceiling of width over two seconds of them. */
  lemma WindowBound(nows: seq<Moment>, i: nat, j: nat, start: Moment, width: nat)
    requires i <= j < |nows|
    requires start <= SlotOf(nows[..i + 1]) && SlotOf(nows[..j + 1]) < start + width
    ensures j - i + 1 <= (width + MUTATION_PACING - 1) / MUTATION_PACING
  {
    SlotsAreApart(nows, i, j);
    assert MUTATION_PACING * (j - i) < width;
  }

  /** A client that waited two seconds since its last slot is not delayed; any other waits exactly until then. */
  lemma DelayedIff(nows: seq<Moment>, now: Moment)
    requires nows != []
    ensures SlotOf(nows + [now]) == now <==> now >= SlotOf(nows) + MUTATION_PACING
    ensures now < SlotOf(nows) + MUTATION_PACING ==> SlotOf(nows + [now]) == SlotOf(nows) + MUTATION_PACING
  {
  }

  // --- pages -----------------------------------------------------------------------------------------------------

  datatype CachePage = CachePage(items: seq<C.ActionsCache>, total: U64)

  /** What the provider answers to page 1, 2, 3, ...: any beginning of it. */
  type Pages = seq<ProviderResult<CachePage>>

  function FirstWithId(caches: seq<C.ActionsCache>, id: nat): Option<C.ActionsCache> {
    if caches == [] then None else if caches[0].id == id then Some(caches[0]) else FirstWithId(caches[1..], id)
  }

  /** `caches`, from the items collected so far; `None` while it would ask for one more page. */
  function ListFrom(collected: seq<C.ActionsCache>, pages: Pages): Option<ProviderResult<seq<C.ActionsCache>>>
    decreases |pages|
  {
    if pages == [] then None
    else if pages[0].Err? then Some(Err(pages[0].error))
    else
      var all := collected + pages[0].value.items;
      if pages[0].value.items == [] || |all| >= pages[0].value.total then Some(Ok(all)) else ListFrom(all, pages[1..])
  }

  /** `cache`, from the number of items inspected so far. */
  function FindFrom(inspected: U64, pages: Pages, id: nat): Option<ProviderResult<Option<C.ActionsCache>>>
    decreases |pages|
  {
    if pages == [] then None
    else if pages[0].Err? then Some(Err(pages[0].error))
    else
      var page := pages[0].value;
      var seen := SaturatingAdd(inspected, Cap(|page.items|));
      if FirstWithId(page.items, id).Some? then Some(Ok(FirstWithId(page.items, id)))
      else if page.items == [] || seen >= page.total then Some(Ok(None))
      else FindFrom(seen, pages[1..], id)
  }

  method ListCaches(pages: Pages) returns (r: Option<ProviderResult<seq<C.ActionsCache>>>)
    ensures r == ListFrom([], pages)
  {
    var caches: seq<C.ActionsCache> := [];
    for i := 0 to |pages|
      invariant ListFrom(caches, pages[i..]) == ListFrom([], pages)
    {
      assert pages[i..][1..] == pages[i + 1..];
      match pages[i] {
        case Err(e) => return Some(Err(e));
        case Ok(page) =>
          var itemCount := |page.items|;
          caches := caches + page.items;
          if itemCount == 0 || |caches| >= page.total {
            return Some(Ok(caches));
          }
      }
    }
    r := None;
  }

  method FindCache(pages: Pages, id: nat) returns (r: Option<ProviderResult<Option<C.ActionsCache>>>)
    ensures r == FindFrom(0, pages, id)
  {
    var inspected: U64 := 0;
    for i := 0 to |pages|
      invariant FindFrom(inspected, pages[i..], id) == FindFrom(0, pages, id)
    {
      assert pages[i..][1..] == pages[i + 1..];
      match pages[i] {
        case Err(e) => return Some(Err(e));
        case Ok(page) =>
          inspected := SaturatingAdd(inspected, Cap(|page.items|));
          var found := FirstWithId(page.items, id);
          if found.Some? {
            return Some(Ok(found));
          }
          if page.items == [] || inspected >= page.total {
            return Some(Ok(None));
          }
      }
    }
    r := None;
  }

  /** All items of the first `n` pages, up to a page that could not be read. */
  function ItemsOf(pages: Pages, n: nat): seq<C.ActionsCache>
    requires n <= |pages|
  {
    if n == 0 then [] else ItemsOf(pages, n - 1) + if pages[n - 1].Ok? then pages[n - 1].value.items else []
  }

  /** Page `k` is the last one asked for: it cannot be read, is empty, or completes the total it claims. */
  predicate EndsListing(pages: Pages, k: nat)
    requires k < |pages|
  {
    pages[k].Err? || pages[k].value.items == [] || |ItemsOf(pages, k + 1)| >= pages[k].value.total
  }

  /** What a listing returns: everything on the pages up to the first that ends it, or that page's error. */
  ghost predicate Listed(pages: Pages, k: nat, r: Option<ProviderResult<seq<C.ActionsCache>>>) {
    && k <= |pages| && (forall j :: 0 <= j < k ==> !EndsListing(pages, j))
    && if k == |pages| then r == None
       else EndsListing(pages, k)
            && r == Some(if pages[k].Err? then Err(pages[k].error) else Ok(ItemsOf(pages, k + 1)))
  }

  lemma {:induction false} ListingFrom(pages: Pages, n: nat) returns (k: nat)
    requires n <= |pages| && forall j :: 0 <= j < n ==> !EndsListing(pages, j)
    ensures Listed(pages, k, ListFrom(ItemsOf(pages, n), pages[n..]))
    decreases |pages| - n
  {
    k := n;
    if n < |pages| {
      assert pages[n..][0] == pages[n] && pages[n..][1..] == pages[n + 1..];
      if !EndsListing(pages, n) {
        k := ListingFrom(pages, n + 1);
      }
    }
  }

  lemma ListingMeaning(pages: Pages) returns (k: nat)
    ensures Listed(pages, k, ListFrom([], pages))
  {
    k := ListingFrom(pages, 0);
    assert pages[0..] == pages;
  }

  /** The first match: at some place, and at no place before it. */
  lemma {:induction false} FirstMeaning(caches: seq<C.ActionsCache>, id: nat)
    ensures FirstWithId(caches, id).None? <==> forall i :: 0 <= i < |caches| ==> caches[i].id != id
    ensures FirstWithId(caches, id).Some? ==>
              exists i :: 0 <= i < |caches| && FirstAt(caches, id, i) && FirstWithId(caches, id) == Some(caches[i])
  {
    if caches != [] {
      FirstMeaning(caches[1..], id);
      if caches[0].id == id {
        assert FirstAt(caches, id, 0);
      } else if FirstWithId(caches[1..], id).Some? {
        var i :| 0 <= i < |caches| - 1 && FirstAt(caches[1..], id, i)
            && FirstWithId(caches[1..], id) == Some(caches[1..][i]);
        assert forall j :: 0 < j <= i ==> caches[j].id == caches[1..][j - 1].id;
        assert FirstAt(caches, id, i + 1);
      }
    }
  }

  predicate FirstAt(caches: seq<C.ActionsCache>, id: nat, i: nat) {
    i < |caches| && caches[i].id == id && forall j :: 0 <= j < i ==> caches[j].id != id
  }

  lemma {:induction false} FirstInConcat(a: seq<C.ActionsCache>, b: seq<C.ActionsCache>, id: nat)
    ensures FirstWithId(a + b, id) == if FirstWithId(a, id).Some? then FirstWithId(a, id) else FirstWithId(b, id)
  {
    if a == [] {
      assert a + b == b;
    } else {
      assert (a + b)[1..] == a[1..] + b;
      FirstInConcat(a[1..], b, id);
    }
  }

  lemma {:induction false} FirstSurvivesListing(collected: seq<C.ActionsCache>, pages: Pages, id: nat)
    requires FirstWithId(collected, id).Some?
    ensures var listed := ListFrom(collected, pages);
            listed.Some? && listed.value.Ok? ==> FirstWithId(listed.value.value, id) == FirstWithId(collected, id)
    decreases |pages|
  {
    if pages != [] && pages[0].Ok? {
      var all := collected + pages[0].value.items;
      FirstInConcat(collected, pages[0].value.items, id);
      FirstSurvivesListing(all, pages[1..], id);
    }
  }

  lemma {:induction false} LookupFollowsListing(collected: seq<C.ActionsCache>, pages: Pages, id: nat)
    requires FirstWithId(collected, id).None?
    ensures Agrees(FindFrom(Cap(|collected|), pages, id), ListFrom(collected, pages), id)
    decreases |pages|
  {
    if pages != [] && pages[0].Ok? {
      var page := pages[0].value;
      var all := collected + page.items;
      FirstInConcat(collected, page.items, id);
      if FirstWithId(page.items, id).Some? {
        FirstSurvivesListing(all, pages[1..], id);
      } else {
        LookupFollowsListing(all, pages[1..], id);
      }
    }
  }

  /** The early exit changes nothing but how many pages are read. */
  predicate Agrees(found: Option<ProviderResult<Option<C.ActionsCache>>>,
                   listed: Option<ProviderResult<seq<C.ActionsCache>>>, id: nat) {
    && (listed.Some? && listed.value.Ok? ==> found == Some(Ok(FirstWithId(listed.value.value, id))))
    && (found.Some? && found.value == Ok(None) ==>
       listed.Some? && listed.value.Ok? && FirstWithId(listed.value.value, id).None?)
    && (found.Some? && found.value.Err? ==> listed == Some(Err(found.value.error)))
    && (found.None? ==> listed.None?)
  }

  /**
   * Against the same pages, whatever totals they claim: the exact lookup gives the first match of the
   * full listing, says not found only if the listing is complete without it, and fails only as the
   * listing fails.
   */
  lemma LookupAgreesWithListing(pages: Pages, id: nat)
    ensures Agrees(FindFrom(0, pages, id), ListFrom([], pages), id)
  {
    LookupFollowsListing([], pages, id);
  }

  /** Readable pages that never claim more than `total`: the loop has ended by page max(total, 1). */
  lemma {:induction false} ListingEnds(collected: seq<C.ActionsCache>, pages: Pages, total: nat)
    requires pages != [] && |collected| + |pages| >= total
    requires forall k :: 0 <= k < |pages| ==> pages[k].Ok? && pages[k].value.total <= total
    ensures ListFrom(collected, pages).Some? && ListFrom(collected, pages).value.Ok?
    decreases |pages|
  {
    var all := collected + pages[0].value.items;
    if !(pages[0].value.items == [] || |all| >= pages[0].value.total) {
      if |pages| == 1 {
        assert |all| < total;
        CountingEnds(collected, pages[0].value, total);
      } else {
        ListingEnds(all, pages[1..], total);
      }
    }
  }

  lemma CountingEnds(collected: seq<C.ActionsCache>, page: CachePage, total: nat)
    requires page.items != [] && |collected| + 1 >= total && page.total <= total
    ensures |collected + page.items| >= page.total
  {
  }

  /** Both loops end on stable pages: with a constant total, no more pages are asked for than there are items. */
  lemma LoopsEnd(pages: Pages, total: nat, id: nat)
    requires |pages| >= Max(total, 1)
    requires forall k :: 0 <= k < |pages| ==> pages[k].Ok? && pages[k].value.total <= total
    ensures ListFrom([], pages).Some? && FindFrom(0, pages, id).Some?
  {
    ListingEnds([], pages, total);
    LookupAgreesWithListing(pages, id);
  }

  // --- retries -------------------------------------------------------------------------------------------------------

  datatype Reply =
    | NoResponse(message: string)
    | Success
    | NotFoundReply(message: string)
    | Unauthorized(message: string)
    | Limited(retryAfter: Option<nat>, message: string)
    | ServerFailure(status: nat, message: string)
    | ForbiddenReply(message: string)
    | OtherReply(status: nat, message: string)

  function MaxAttempts(m: HttpMethod): nat { if m == GET then 4 else 1 }

  function Pow2(n: nat): nat { if n == 0 then 1 else 2 * Pow2(n - 1) }

  /** Seconds to sleep before another attempt, or nothing when this reply is final. */
  function RetryDelay(m: HttpMethod, attempt: nat, reply: Reply): Option<nat> {
    if m != GET || attempt + 1 >= MaxAttempts(m) then None
    else
      match reply
      case NoResponse(_) => Some(Pow2(attempt))
      case ServerFailure(_, _) => Some(Pow2(attempt))
      case Limited(Some(delay), _) => if delay <= 60 then Some(if delay >= 1 then delay else 1) else None
      case _ => None
  }

  function FinalAnswer(reply: Reply, allowNotFound: bool): ProviderResult<Option<()>> {
    match reply
    case NoResponse(m) => Err(Transport(m))
    case Success => Ok(Some(()))
    case NotFoundReply(m) => if allowNotFound then Ok(None) else Err(NotFound(m))
    case Unauthorized(m) => Err(Authentication(m))
    case Limited(delay, m) => Err(RateLimited(delay, if m == "" then "" else ": " + m))
    case ServerFailure(status, m) => Err(HttpStatus(status, m))
    case ForbiddenReply(m) => Err(PermissionDenied(m))
    case OtherReply(status, m) => Err(HttpStatus(status, m))
  }

  datatype Sent = Sent(answer: ProviderResult<Option<()>>, attempts: nat, slept: nat)

  /** `send_with_policy` from attempt `attempt` on; `replies(k)` is what attempt `k` would get. */
  function SendFrom(m: HttpMethod, allowNotFound: bool, replies: nat -> Reply, attempt: nat): Sent
    requires attempt < MaxAttempts(m)
    decreases MaxAttempts(m) - attempt
  {
    var delay := RetryDelay(m, attempt, replies(attempt));
    if delay.None? then Sent(FinalAnswer(replies(attempt), allowNotFound), attempt + 1, 0)
    else
      var later := SendFrom(m, allowNotFound, replies, attempt + 1);
      later.(slept := delay.value + later.slept)
  }

  method SendWithPolicy(m: HttpMethod, allowNotFound: bool, replies: nat -> Reply) returns (r: Sent)
    ensures r == SendFrom(m, allowNotFound, replies, 0)
  {
    var slept: nat := 0;
    var maxAttempts := MaxAttempts(m);
    for attempt := 0 to maxAttempts
      invariant attempt < maxAttempts
      invariant var later := SendFrom(m, allowNotFound, replies, attempt);
                SendFrom(m, allowNotFound, replies, 0) == later.(slept := slept + later.slept)
    {
      var reply := replies(attempt);
      var delay := RetryDelay(m, attempt, reply);
      if delay.None? {
        return Sent(FinalAnswer(reply, allowNotFound), attempt + 1, slept);
      }
      slept := slept + delay.value;
    }
    assert false;
  }

  /**
   * Mutations are sent exactly once and never retried; a read is sent at most four times and
   * sleeps at most a minute between two attempts. The answer is always that of the last reply: the
   * retry budget never runs out without one.
   */
  lemma {:induction false} RetriesAreBounded(m: HttpMethod, allowNotFound: bool, replies: nat -> Reply, attempt: nat)
    requires attempt < MaxAttempts(m)
    ensures var r := SendFrom(m, allowNotFound, replies, attempt);
            && attempt < r.attempts <= 4
            && r.answer == FinalAnswer(replies(r.attempts - 1), allowNotFound)
            && r.slept <= 60 * (r.attempts - 1 - attempt)
            && (m != GET ==> r.attempts == 1 && r.slept == 0)
            && forall k :: attempt <= k < r.attempts - 1 ==> RetryDelay(m, k, replies(k)).Some?
    decreases MaxAttempts(m) - attempt
  {
    hide FinalAnswer, RetryDelay, SendFrom;
    DelayBound(m, attempt, replies(attempt));
    SendUnfolds(m, allowNotFound, replies, attempt);
    if RetryDelay(m, attempt, replies(attempt)).Some? {
      RetriesAreBounded(m, allowNotFound, replies, attempt + 1);
      var r := SendFrom(m, allowNotFound, replies, attempt);
      forall k | attempt <= k < r.attempts - 1 ensures RetryDelay(m, k, replies(k)).Some? {
        assert k == attempt || attempt + 1 <= k;
      }
    }
  }

  /**
   * When a reply is followed by another attempt: only for a read, never after its fourth attempt, and only for
   * a lost connection, a failing server or a rate limit that asks for at most a minute.
   */
  lemma RetryMeaning(m: HttpMethod, attempt: nat, reply: Reply)
    ensures var delay := RetryDelay(m, attempt, reply);
            && (delay.Some? <==>
                  && m == GET && attempt < 3
                  && (reply.NoResponse? || reply.ServerFailure?
                      || (reply.Limited? && reply.retryAfter.Some? && reply.retryAfter.value <= 60)))
            && (delay.Some? && !reply.Limited? ==> delay.value == [1, 2, 4][attempt])
            && (delay.Some? && reply.Limited? ==>
                  delay.value == if reply.retryAfter == Some(0) then 1 else reply.retryAfter.value)
  {
    assert Pow2(0) == 1 && Pow2(1) == 2 && Pow2(2) == 4;
  }

  /** Which answer each final reply stands for, both ways. */
  lemma FinalAnswerMeaning(reply: Reply, allowNotFound: bool)
    ensures var r := FinalAnswer(reply, allowNotFound);
            && (r == Ok(Some(())) <==> reply.Success?)
            && (r == Ok(None) <==> reply.NotFoundReply? && allowNotFound)
            && (r.Err? && r.error.NotFound? <==> reply.NotFoundReply? && !allowNotFound)
            && (r.Err? && r.error.RateLimited? <==> reply.Limited?)
            && (r.Err? && r.error.Authentication? <==> reply.Unauthorized?)
            && (r.Err? && r.error.PermissionDenied? <==> reply.ForbiddenReply?)
            && (r.Err? && r.error.Transport? <==> reply.NoResponse?)
            && (r.Err? && r.error.HttpStatus? <==> reply.ServerFailure? || reply.OtherReply?)
            && (r.Err? && r.error.HttpStatus? ==> r.error.status == reply.status)
            && (r.Err? && r.error.RateLimited? ==> r.error.retryAfterSeconds == reply.retryAfter)
  {
  }

  lemma SendUnfolds(m: HttpMethod, allowNotFound: bool, replies: nat -> Reply, attempt: nat)
    requires attempt < MaxAttempts(m)
    ensures var delay, r := RetryDelay(m, attempt, replies(attempt)), SendFrom(m, allowNotFound, replies, attempt);
            && (delay.None? ==> r == Sent(FinalAnswer(replies(attempt), allowNotFound), attempt + 1, 0))
            && (delay.Some? ==>
                  && attempt + 1 < MaxAttempts(m)
                  && var later := SendFrom(m, allowNotFound, replies, attempt + 1);
                     r == Sent(later.answer, later.attempts, delay.value + later.slept))
  {
    hide FinalAnswer;
  }

  lemma DelayBound(m: HttpMethod, attempt: nat, reply: Reply)
    ensures RetryDelay(m, attempt, reply).Some? ==>
            1 <= RetryDelay(m, attempt, reply).value <= 60 && m == GET && attempt < 3
  {
  }
}

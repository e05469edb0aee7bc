/** Quota-alert deduplication and coverage, over every cycle and every sequence of cycles. */
module AccountUsageSafety {
  import opened Prelude
  import opened Domain
  import opened Sorting
  import opened AccountUsage

  // --- each owner once, each allowance once ------------------------------------------------------------------

  lemma SameOwnerIsEquivalence(a: BillingOwner, b: BillingOwner, c: BillingOwner)
    ensures SameOwner(a, a)
    ensures SameOwner(a, b) ==> SameOwner(b, a)
    ensures SameOwner(a, b) && SameOwner(b, c) ==> SameOwner(a, c)
  {
  }

  ghost predicate PairwiseDifferent(owners: seq<BillingOwner>) {
    forall i, j :: 0 <= i < j < |owners| ==> !SameOwner(owners[i], owners[j])
  }

  /** One representative, in its first spelling, for every configured owner. */
  lemma {:induction false} UniqueOwnersMeaning(allowances: seq<Configured>)
    ensures PairwiseDifferent(UniqueOwners(allowances))
    ensures forall c :: c in allowances ==> Knows(UniqueOwners(allowances), c.owner)
    ensures forall o :: o in UniqueOwners(allowances) ==> exists c :: c in allowances && c.owner == o
  {
    hide SameOwner;
    if allowances != [] {
      var n := |allowances| - 1;
      var before, all := UniqueOwners(allowances[..n]), UniqueOwners(allowances);
      UniqueOwnersMeaning(allowances[..n]);
      SameOwnerIsEquivalence(allowances[n].owner, allowances[n].owner, allowances[n].owner);
      forall c | c in allowances ensures Knows(all, c.owner) {
        if c in allowances[..n] {
          var i :| 0 <= i < |before| && SameOwner(before[i], c.owner);
          assert all[i] == before[i];
        } else if !Knows(before, c.owner) {
          assert all[|before|] == c.owner;
        }
      }
    }
  }

  /** The allowances handed to the owners, one owner after the other. */
  function Handed(owners: seq<BillingOwner>, allowances: seq<Configured>): seq<Configured> {
    if owners == [] then [] else Handed(owners[..|owners| - 1], allowances) + Of(owners[|owners| - 1], allowances)
  }

  lemma OnlyOneKnows(owners: seq<BillingOwner>, owner: BillingOwner)
    requires owners != [] && PairwiseDifferent(owners)
    ensures var n := |owners| - 1;
            && (Knows(owners, owner) <==> Knows(owners[..n], owner) || SameOwner(owner, owners[n]))
            && !(Knows(owners[..n], owner) && SameOwner(owner, owners[n]))
  {
  }

  lemma {:induction false} HandedCount(owners: seq<BillingOwner>, allowances: seq<Configured>, x: Configured)
    requires PairwiseDifferent(owners)
    ensures multiset(Handed(owners, allowances))[x] == if Knows(owners, x.owner) then multiset(allowances)[x] else 0
  {
    hide SameOwner, Knows, Filter;
    if owners == [] {
      NobodyKnown(x.owner);
    } else {
      var n := |owners| - 1;
      HandedCount(owners[..n], allowances, x);
      FilterCounts(allowances, (c: Configured) => SameOwner(c.owner, owners[n]), x);
      OnlyOneKnows(owners, x.owner);
    }
  }

  lemma NobodyKnown(owner: BillingOwner)
    ensures !Knows([], owner)
  {
  }

  /** Every configured allowance is handed to exactly one polled owner, however the owners are spelled. */
  lemma EachAllowanceOnce(allowances: seq<Configured>)
    ensures multiset(Handed(UniqueOwners(allowances), allowances)) == multiset(allowances)
  {
    hide SameOwner;
    UniqueOwnersMeaning(allowances);
    forall x: Configured
      ensures multiset(Handed(UniqueOwners(allowances), allowances))[x] == multiset(allowances)[x]
    {
      HandedCount(UniqueOwners(allowances), allowances, x);
      if multiset(allowances)[x] > 0 {
        assert x in allowances;
      }
    }
  }

  lemma {:induction false} EvaluatedOnce(o: UsageOracle, observation: Observation, allowances: seq<Configured>,
                                         now: Moment)
    ensures var e := EvaluateAll(o, observation, allowances, now);
            && |e.evaluations| + |e.errors| == |allowances|
            && (forall x :: x in e.evaluations <==>
               exists c :: c in allowances && o.evaluate(observation, c.allowance, now) == Ok(x))
            && (forall x :: x in e.candidates <==> exists y :: y in e.evaluations && CandidateOf(y) == Some(x))
  {
    hide CandidateOf;
    if allowances != [] {
      var n := |allowances| - 1;
      EvaluatedOnce(o, observation, allowances[..n], now);
      assert allowances == allowances[..n] + [allowances[n]];
    }
  }

  /** The owners polled since the history had `start` entries. */
  function PolledSince(t: UsageTrace, start: nat): seq<BillingOwner> {
    if |t| <= start then []
    else
      var n := |t| - 1;
      PolledSince(t[..n], start) + if t[n].Polled? then [t[n].owner] else []
  }

  lemma {:induction false} PolledSplits(t: UsageTrace, mid: nat, start: nat)
    requires start <= mid <= |t|
    ensures PolledSince(t, start) == PolledSince(t[..mid], start) + PolledSince(t, mid)
    decreases |t|
  {
    if mid == |t| {
      assert t[..mid] == t;
    } else {
      var n := |t| - 1;
      PolledSplits(t[..n], mid, start);
      assert t[..n][..mid] == t[..mid];
    }
  }

  lemma {:induction false} NotifyingPollsNobody(o: UsageOracle, t: UsageTrace, candidates: seq<Candidate>)
    ensures var r := NotifyAll(o, t, candidates); t <= r.trace && PolledSince(r.trace, |t|) == []
    decreases |candidates|
  {
    hide Notify;
    if candidates != [] {
      var n := |candidates| - 1;
      var before := NotifyAll(o, t, candidates[..n]);
      NotifyingPollsNobody(o, t, candidates[..n]);
      var r := NotifyAll(o, t, candidates);
      OneNotification(o, before.trace, candidates[n]);
      PolledSplits(r.trace, |before.trace|, |t|);
      assert r.trace[..|before.trace|] == before.trace;
    }
  }

  lemma NotifyTrace(o: UsageOracle, t: UsageTrace, c: Candidate)
    ensures var t1 := t + [LookedUp(c.key, o.lookup(t, c.key))];
            var t2 := t1 + [Sent(c.key, o.send(t1, c))];
            var r := Notify(o, t, c).trace;
            r == t1 || r == t2 || r == t2 + [Recorded(c.key, o.record(t2, c.key))]
  {
  }

  lemma OneNotification(o: UsageOracle, t: UsageTrace, c: Candidate)
    ensures var r := Notify(o, t, c); t <= r.trace && PolledSince(r.trace, |t|) == []
  {
    hide PolledSince, Notify;
    NotifyTrace(o, t, c);
    var e1 := LookedUp(c.key, o.lookup(t, c.key));
    var t1 := t + [e1];
    var e2 := Sent(c.key, o.send(t1, c));
    NothingPolled(t, e1, e2, Recorded(c.key, o.record(t1 + [e2], c.key)));
  }

  lemma NothingPolled(t: UsageTrace, e1: UsageEvent, e2: UsageEvent, e3: UsageEvent)
    requires !e1.Polled? && !e2.Polled? && !e3.Polled?
    ensures PolledSince(t + [e1], |t|) == [] && PolledSince(t + [e1] + [e2], |t|) == []
            && PolledSince(t + [e1] + [e2] + [e3], |t|) == []
  {
  }

  lemma NothingPolledYet(t: UsageTrace)
    ensures PolledSince(t, |t|) == []
  {
  }

  lemma PolledNext(t: UsageTrace, e: UsageEvent, start: nat)
    requires start <= |t|
    ensures PolledSince(t + [e], start) == PolledSince(t, start) + if e.Polled? then [e.owner] else []
  {
  }

  /** What a cycle reports about one owner. */
  ghost predicate OwnerReport(p: OwnerPoll, owner: BillingOwner, cycle: Cycle) {
    && p.owner == owner
    && (p.persisted && cycle.thresholds ==> |p.evaluations| + |p.errors| == |Of(owner, cycle.allowances)|)
    && (!p.persisted || !cycle.thresholds ==> p.evaluations == [] && p.errors == [] && p.notifications == [])
  }

  lemma TwoEvents(t: UsageTrace, owner: BillingOwner, e1: UsageEvent, e2: UsageEvent)
    requires e1.Polled? && e1.owner == owner && !e2.Polled?
    ensures PolledSince(t + [e1] + [e2], |t|) == [owner]
  {
    hide PolledSince;
    NothingPolledYet(t);
    PolledNext(t, e1, |t|);
    PolledNext(t + [e1], e2, |t|);
  }

  lemma PollTrace(o: UsageOracle, t: UsageTrace, cycle: Cycle, owner: BillingOwner)
    ensures var observation := o.summary(t, owner, cycle.period);
            var t1 := t + [Polled(owner, observation)];
            var failure := o.persist(t1, observation);
            var t2 := t1 + [Persisted(observation, failure)];
            PollOwner(o, t, cycle, owner).trace
            == if failure.Some? then t2 else NotifyAll(o, t2,
                EvaluatedFor(o, cycle, owner, observation).candidates).trace
  {
  }

  lemma OwnerPolledOnce(o: UsageOracle, t: UsageTrace, cycle: Cycle, owner: BillingOwner)
    ensures t <= PollOwner(o, t, cycle, owner).trace && PolledSince(PollOwner(o, t, cycle, owner).trace, |t|) == [owner]
  {
    hide NotifyAll, PolledSince, EvaluatedFor, PollOwner;
    PollTrace(o, t, cycle, owner);
    var observation := o.summary(t, owner, cycle.period);
    var e1 := Polled(owner, observation);
    var e2 := Persisted(observation, o.persist(t + [e1], observation));
    var t2 := t + [e1] + [e2];
    TwoEvents(t, owner, e1, e2);
    if e2.failure.None? {
      var candidates := EvaluatedFor(o, cycle, owner, observation).candidates;
      NotifyingPollsNobody(o, t2, candidates);
      var later := NotifyAll(o, t2, candidates).trace;
      PolledSplits(later, |t2|, |t|);
      assert later[..|t2|] == t2;
    }
  }

  lemma OwnerReported(o: UsageOracle, t: UsageTrace, cycle: Cycle, owner: BillingOwner)
    ensures OwnerReport(PollOwner(o, t, cycle, owner).value, owner, cycle)
  {
    hide Of, EvaluatedFor;
    var observation := o.summary(t, owner, cycle.period);
    EvaluatedForOwner(o, cycle, owner, observation);
  }

  lemma EvaluatedForOwner(o: UsageOracle, cycle: Cycle, owner: BillingOwner, observation: Observation)
    ensures var e := EvaluatedFor(o, cycle, owner, observation);
            && (cycle.thresholds ==> |e.evaluations| + |e.errors| == |Of(owner, cycle.allowances)|)
            && (!cycle.thresholds ==> e == Evaluated([], [], []))
  {
    hide Of, EvaluateAll;
    EvaluatedOnce(o, observation, Of(owner, cycle.allowances), cycle.now);
  }

  lemma {:induction false} OwnersPolledOnce(o: UsageOracle, t: UsageTrace, cycle: Cycle, owners: seq<BillingOwner>)
    ensures var r := PollOwners(o, t, cycle, owners);
            && t <= r.trace && PolledSince(r.trace, |t|) == owners
            && forall i :: 0 <= i < |owners| ==> OwnerReport(r.value[i], owners[i], cycle)
    decreases |owners|
  {
    hide PollOwner, OwnerReport;
    if owners != [] {
      var n := |owners| - 1;
      OwnersPolledOnce(o, t, cycle, owners[..n]);
      var before, r := PollOwners(o, t, cycle, owners[..n]), PollOwners(o, t, cycle, owners);
      OwnerPolledOnce(o, before.trace, cycle, owners[n]);
      OwnerReported(o, before.trace, cycle, owners[n]);
      PolledSplits(r.trace, |before.trace|, |t|);
      assert r.trace[..|before.trace|] == before.trace;
    }
  }

  /** One cycle asks the provider once for each class of equal owners, and accounts for every allowance once. */
  lemma CycleCoversEverything(o: UsageOracle, t: UsageTrace, cycle: Cycle)
    ensures var r, owners := RunCycle(o, t, cycle), UniqueOwners(cycle.allowances);
            && PolledSince(r.trace, |t|) == owners && PairwiseDifferent(owners)
            && |r.value| == |owners|
            && (forall i :: 0 <= i < |owners| ==> OwnerReport(r.value[i], owners[i], cycle))
            && multiset(Handed(owners, cycle.allowances)) == multiset(cycle.allowances)
  {
    hide OwnerReport, SameOwner;
    OwnersPolledOnce(o, t, cycle, UniqueOwners(cycle.allowances));
    UniqueOwnersMeaning(cycle.allowances);
    EachAllowanceOnce(cycle.allowances);
  }

  // --- what stands behind every delivery ------------------------------------------------------------------------

  predicate NotYet(answer: Result<Receipt, string>) { answer.Ok? && answer.value.state == ReceiptNotDelivered }

  /** A delivery follows at once on a lookup that said not delivered; a receipt follows at once on a delivery. */
  ghost predicate Warranted(o: UsageOracle, t: UsageTrace, k: nat)
    requires k < |t|
  {
    match t[k]
    case LookedUp(key, answer) => answer == o.lookup(t[..k], key)
    case Sent(key, _) => k >= 1 && t[k - 1].LookedUp? && t[k - 1].key == key && NotYet(t[k - 1].answer)
    case Recorded(key, _) => k >= 2 && t[k - 1] == Sent(key, None) && t[k - 2].LookedUp? && t[k - 2].key == key
         && NotYet(t[k - 2].answer)
    case _ => true
  }

  ghost predicate WarrantedSince(o: UsageOracle, t: UsageTrace, start: nat) {
    forall k :: start <= k < |t| ==> Warranted(o, t, k)
  }

  lemma WarrantStays(o: UsageOracle, t: UsageTrace, later: UsageTrace, k: nat)
    requires t <= later && k < |t|
    ensures Warranted(o, t, k) <==> Warranted(o, later, k)
  {
    assert later[..k] == t[..k] && later[k] == t[k];
    assert k >= 1 ==> later[k - 1] == t[k - 1];
    assert k >= 2 ==> later[k - 2] == t[k - 2];
  }

  lemma WarrantsJoin(o: UsageOracle, t: UsageTrace, mid: UsageTrace, later: UsageTrace)
    requires t <= mid <= later && WarrantedSince(o, mid, |t|) && WarrantedSince(o, later, |mid|)
    ensures WarrantedSince(o, later, |t|)
  {
    hide Warranted;
    forall k | |t| <= k < |mid| ensures Warranted(o, later, k) {
      WarrantStays(o, mid, later, k);
    }
  }

  lemma OneWarrant(o: UsageOracle, t: UsageTrace, e: UsageEvent)
    requires Warranted(o, t + [e], |t|)
    ensures WarrantedSince(o, t + [e], |t|)
  {
  }

  lemma NotifyWarranted(o: UsageOracle, t: UsageTrace, c: Candidate)
    ensures t <= Notify(o, t, c).trace && WarrantedSince(o, Notify(o, t, c).trace, |t|)
  {
    var e1 := LookedUp(c.key, o.lookup(t, c.key));
    var t1 := t + [e1];
    assert t1[..|t|] == t;
    OneWarrant(o, t, e1);
    if NotYet(e1.answer) {
      var e2 := Sent(c.key, o.send(t1, c));
      var t2 := t1 + [e2];
      assert t2[|t|] == e1;
      OneWarrant(o, t1, e2);
      WarrantsJoin(o, t, t1, t2);
      if e2.failure.None? {
        var e3 := Recorded(c.key, o.record(t2, c.key));
        var t3 := t2 + [e3];
        assert t3[|t1|] == e2 && t3[|t|] == e1;
        OneWarrant(o, t2, e3);
        WarrantsJoin(o, t, t2, t3);
      }
    }
  }

  lemma {:induction false} NotifyAllWarranted(o: UsageOracle, t: UsageTrace, candidates: seq<Candidate>)
    ensures t <= NotifyAll(o, t, candidates).trace && WarrantedSince(o, NotifyAll(o, t, candidates).trace, |t|)
    decreases |candidates|
  {
    hide Notify, WarrantedSince;
    if candidates == [] {
      NothingToWarrant(o, t);
    } else {
      var n := |candidates| - 1;
      NotifyAllWarranted(o, t, candidates[..n]);
      var before := NotifyAll(o, t, candidates[..n]);
      NotifyWarranted(o, before.trace, candidates[n]);
      WarrantsJoin(o, t, before.trace, NotifyAll(o, t, candidates).trace);
    }
  }

  lemma NothingToWarrant(o: UsageOracle, t: UsageTrace)
    ensures WarrantedSince(o, t, |t|)
  {
  }

  lemma PollWarranted(o: UsageOracle, t: UsageTrace, cycle: Cycle, owner: BillingOwner)
    ensures t <= PollOwner(o, t, cycle, owner).trace && WarrantedSince(o, PollOwner(o, t, cycle, owner).trace, |t|)
  {
    hide EvaluatedFor, NotifyAll, WarrantedSince;
    var observation := o.summary(t, owner, cycle.period);
    var t1 := t + [Polled(owner, observation)];
    OneWarrant(o, t, Polled(owner, observation));
    var e2 := Persisted(observation, o.persist(t1, observation));
    var t2 := t1 + [e2];
    OneWarrant(o, t1, e2);
    WarrantsJoin(o, t, t1, t2);
    if e2.failure.None? {
      var candidates := EvaluatedFor(o, cycle, owner, observation).candidates;
      NotifyAllWarranted(o, t2, candidates);
      WarrantsJoin(o, t, t2, NotifyAll(o, t2, candidates).trace);
    }
  }

  lemma {:induction false} PollsWarranted(o: UsageOracle, t: UsageTrace, cycle: Cycle, owners: seq<BillingOwner>)
    ensures t <= PollOwners(o, t, cycle, owners).trace && WarrantedSince(o, PollOwners(o, t, cycle, owners).trace, |t|)
    decreases |owners|
  {
    hide PollOwner, WarrantedSince;
    if owners == [] {
      NothingToWarrant(o, t);
    } else {
      var n := |owners| - 1;
      PollsWarranted(o, t, cycle, owners[..n]);
      var before := PollOwners(o, t, cycle, owners[..n]);
      PollWarranted(o, before.trace, cycle, owners[n]);
      WarrantsJoin(o, t, before.trace, PollOwners(o, t, cycle, owners).trace);
    }
  }

  /** Over every sequence of cycles, no alert is delivered without a lookup that just said it was not. */
  lemma {:induction false} CyclesWarranted(o: UsageOracle, t: UsageTrace, cycles: seq<Cycle>)
    ensures t <= RunCycles(o, t, cycles).trace && WarrantedSince(o, RunCycles(o, t, cycles).trace, |t|)
    decreases |cycles|
  {
    hide PollOwners, WarrantedSince;
    if cycles == [] {
      NothingToWarrant(o, t);
    } else {
      var n := |cycles| - 1;
      CyclesWarranted(o, t, cycles[..n]);
      var before := RunCycles(o, t, cycles[..n]);
      PollsWarranted(o, before.trace, cycles[n], UniqueOwners(cycles[n].allowances));
      WarrantsJoin(o, t, before.trace, RunCycles(o, t, cycles).trace);
    }
  }

  // --- counting ------------------------------------------------------------------------------------------------------

  function SentTo(t: UsageTrace, key: AlertKey): nat {
    if t == [] then 0 else SentTo(t[..|t| - 1], key) + if t[|t| - 1] == Sent(key, None) then 1 else 0
  }

  function RecordedFor(t: UsageTrace, key: AlertKey): nat {
    if t == [] then 0 else RecordedFor(t[..|t| - 1], key) + if t[|t| - 1] == Recorded(key, None) then 1 else 0
  }

  function DeliveredIn(ns: seq<Notification>, key: AlertKey): nat {
    if ns == [] then 0
    else DeliveredIn(ns[..|ns| - 1], key) + if ns[|ns| - 1] == Notification.Delivered(key) then 1 else 0
  }

  function UnreceiptedIn(ns: seq<Notification>, key: AlertKey): nat {
    if ns == [] then 0
    else
      var last := ns[|ns| - 1];
      UnreceiptedIn(ns[..|ns| - 1], key) + if last.ReceiptFailed? && last.key == key then 1 else 0
  }

  function AllNotifications(polls: seq<OwnerPoll>): seq<Notification> {
    if polls == [] then [] else AllNotifications(polls[..|polls| - 1]) + polls[|polls| - 1].notifications
  }

  /** The books of one key balance between two points of the history. */
  ghost predicate Balanced(t: UsageTrace, later: UsageTrace, ns: seq<Notification>, key: AlertKey) {
    && SentTo(later, key) == SentTo(t, key) + DeliveredIn(ns, key) + UnreceiptedIn(ns, key)
    && RecordedFor(later, key) == RecordedFor(t, key) + DeliveredIn(ns, key)
  }

  lemma CountEvent(t: UsageTrace, e: UsageEvent, key: AlertKey)
    ensures SentTo(t + [e], key) == SentTo(t, key) + if e == Sent(key, None) then 1 else 0
    ensures RecordedFor(t + [e], key) == RecordedFor(t, key) + if e == Recorded(key, None) then 1 else 0
  {
  }

  lemma {:induction false} CountsConcat(a: seq<Notification>, b: seq<Notification>, key: AlertKey)
    ensures DeliveredIn(a + b, key) == DeliveredIn(a, key) + DeliveredIn(b, key)
    ensures UnreceiptedIn(a + b, key) == UnreceiptedIn(a, key) + UnreceiptedIn(b, key)
  {
    if b == [] {
      assert a + b == a;
    } else {
      CountsConcat(a, b[..|b| - 1], key);
      assert (a + b)[..|a + b| - 1] == a + b[..|b| - 1];
    }
  }

  lemma BalanceJoins(t: UsageTrace, mid: UsageTrace, later: UsageTrace, a: seq<Notification>, b: seq<Notification>,
                     key: AlertKey)
    requires Balanced(t, mid, a, key) && Balanced(mid, later, b, key)
    ensures Balanced(t, later, a + b, key)
  {
    CountsConcat(a, b, key);
  }

  lemma OneCounted(n: Notification, key: AlertKey)
    ensures DeliveredIn([n], key) == if n == Notification.Delivered(key) then 1 else 0
    ensures UnreceiptedIn([n], key) == if n.ReceiptFailed? && n.key == key then 1 else 0
  {
  }

  lemma NotifyBalanced(o: UsageOracle, t: UsageTrace, c: Candidate, key: AlertKey)
    ensures Balanced(t, Notify(o, t, c).trace, [Notify(o, t, c).value], key)
  {
    hide SentTo, RecordedFor;
    OneCounted(Notify(o, t, c).value, key);
    hide DeliveredIn, UnreceiptedIn;
    var e1 := LookedUp(c.key, o.lookup(t, c.key));
    CountEvent(t, e1, key);
    var t1 := t + [e1];
    var e2 := Sent(c.key, o.send(t1, c));
    CountEvent(t1, e2, key);
    var t2 := t1 + [e2];
    CountEvent(t2, Recorded(c.key, o.record(t2, c.key)), key);
  }

  lemma {:induction false} NotifyAllBalanced(o: UsageOracle, t: UsageTrace, candidates: seq<Candidate>, key: AlertKey)
    ensures Balanced(t, NotifyAll(o, t, candidates).trace, NotifyAll(o, t, candidates).value, key)
    decreases |candidates|
  {
    hide Notify, Balanced;
    if candidates == [] {
      NothingChanges(t, key);
    } else {
      var n := |candidates| - 1;
      NotifyAllBalanced(o, t, candidates[..n], key);
      var before := NotifyAll(o, t, candidates[..n]);
      NotifyBalanced(o, before.trace, candidates[n], key);
      var last := Notify(o, before.trace, candidates[n]);
      BalanceJoins(t, before.trace, last.trace, before.value, [last.value], key);
    }
  }

  lemma NothingChanges(t: UsageTrace, key: AlertKey)
    ensures Balanced(t, t, [], key)
  {
  }

  lemma PollBalanced(o: UsageOracle, t: UsageTrace, cycle: Cycle, owner: BillingOwner, key: AlertKey)
    ensures Balanced(t, PollOwner(o, t, cycle, owner).trace, PollOwner(o, t, cycle, owner).value.notifications, key)
  {
    hide EvaluatedFor, NotifyAll, SentTo, RecordedFor;
    var observation := o.summary(t, owner, cycle.period);
    var e1 := Polled(owner, observation);
    CountEvent(t, e1, key);
    var t1 := t + [e1];
    CountEvent(t1, Persisted(observation, o.persist(t1, observation)), key);
    var t2 := t1 + [Persisted(observation, o.persist(t1, observation))];
    NotifyAllBalanced(o, t2, EvaluatedFor(o, cycle, owner, observation).candidates, key);
  }

  lemma {:induction false} PollsBalanced(o: UsageOracle, t: UsageTrace, cycle: Cycle, owners: seq<BillingOwner>,
                                         key: AlertKey)
    ensures Balanced(t, PollOwners(o, t, cycle, owners).trace, AllNotifications(PollOwners(o, t, cycle, owners).value),
            key)
    decreases |owners|
  {
    hide PollOwner, Balanced;
    if owners == [] {
      NothingChanges(t, key);
    } else {
      var n := |owners| - 1;
      PollsBalanced(o, t, cycle, owners[..n], key);
      var before := PollOwners(o, t, cycle, owners[..n]);
      PollBalanced(o, before.trace, cycle, owners[n], key);
      var last := PollOwner(o, before.trace, cycle, owners[n]);
      BalanceJoins(t, before.trace, last.trace, AllNotifications(before.value), last.value.notifications, key);
    }
  }

  lemma {:induction false} NotificationsConcat(a: seq<OwnerPoll>, b: seq<OwnerPoll>)
    ensures AllNotifications(a + b) == AllNotifications(a) + AllNotifications(b)
  {
    if b == [] {
      assert a + b == a;
    } else {
      hide AllNotifications;
      var n := |b| - 1;
      NotificationsConcat(a, b[..n]);
      NotificationsAppend(a + b[..n], b[n]);
      NotificationsAppend(b[..n], b[n]);
      assert (a + b[..n]) + [b[n]] == a + b && b[..n] + [b[n]] == b;
      Associative(AllNotifications(a), AllNotifications(b[..n]), b[n].notifications);
    }
  }

  lemma Associative<T>(x: seq<T>, y: seq<T>, z: seq<T>)
    ensures (x + y) + z == x + (y + z)
  {
  }

  lemma NotificationsAppend(polls: seq<OwnerPoll>, last: OwnerPoll)
    ensures AllNotifications(polls + [last]) == AllNotifications(polls) + last.notifications
  {
  }

  /**
   * Over every sequence of cycles: deliveries are the Delivered plus the ReceiptFailed reports, receipts the
   * Delivered ones.
   */
  lemma {:induction false} CyclesBalanced(o: UsageOracle, t: UsageTrace, cycles: seq<Cycle>, key: AlertKey)
    ensures Balanced(t, RunCycles(o, t, cycles).trace, AllNotifications(RunCycles(o, t, cycles).value), key)
    decreases |cycles|
  {
    hide PollOwners, Balanced;
    if cycles == [] {
      NothingChanges(t, key);
    } else {
      var n := |cycles| - 1;
      CyclesBalanced(o, t, cycles[..n], key);
      var before := RunCycles(o, t, cycles[..n]);
      PollsBalanced(o, before.trace, cycles[n], UniqueOwners(cycles[n].allowances), key);
      var last := RunCycle(o, before.trace, cycles[n]);
      BalanceJoins(t, before.trace, last.trace, AllNotifications(before.value), AllNotifications(last.value), key);
      NotificationsConcat(before.value, last.value);
    }
  }

  // --- at most once --------------------------------------------------------------------------------------------------

  /** The one promise asked of the store: a recorded receipt is never later seen as not delivered. */
  ghost predicate Remembers(o: UsageOracle) {
    forall t, key :: RecordedFor(t, key) > 0 ==> !NotYet(o.lookup(t, key))
  }

  lemma {:induction false} RecordedOnce(o: UsageOracle, t: UsageTrace, key: AlertKey)
    requires Remembers(o) && WarrantedSince(o, t, 0)
    ensures RecordedFor(t, key) <= 1
  {
    if t != [] {
      var n := |t| - 1;
      forall k | 0 <= k < n ensures Warranted(o, t[..n], k) {
        WarrantStays(o, t[..n], t, k);
      }
      RecordedOnce(o, t[..n], key);
      if t[n] == Recorded(key, None) {
        assert Warranted(o, t, n) && Warranted(o, t, n - 2);
        assert t[..n][..n - 1] == t[..n - 1] && t[..n - 1][..n - 2] == t[..n - 2];
        assert RecordedFor(t[..n - 2], key) == 0;
        assert RecordedFor(t[..n - 1], key) == RecordedFor(t[..n - 2], key);
        assert RecordedFor(t[..n], key) == RecordedFor(t[..n - 1], key);
      }
    }
  }

  /**
   * With such a store, whatever else fails: over any sequence of polling cycles each alert key is
   * reported as delivered at most once, and was sent once more for every receipt that failed.
   */
  lemma AlertsDeliveredOnce(o: UsageOracle, cycles: seq<Cycle>, key: AlertKey)
    requires Remembers(o)
    ensures var r := RunCycles(o, [], cycles);
            && DeliveredIn(AllNotifications(r.value), key) <= 1
            && SentTo(r.trace, key) == DeliveredIn(AllNotifications(r.value), key)
               + UnreceiptedIn(AllNotifications(r.value), key)
  {
    hide RunCycles, Remembers, Warranted;
    CyclesWarranted(o, [], cycles);
    CyclesBalanced(o, [], cycles, key);
    var r := RunCycles(o, [], cycles);
    assert RecordedFor([], key) == 0 && SentTo([], key) == 0;
    RecordedOnce(o, r.trace, key);
    assert RecordedFor(r.trace, key) == DeliveredIn(AllNotifications(r.value), key);
    assert RecordedFor(r.trace, key) <= 1;
  }
}

/** Quota alerts: `account_usage_monitoring.rs`, one polling cycle and any sequence of cycles. */
module AccountUsage {
  import opened Prelude
  import opened Domain
  import opened Sorting

  datatype OwnerKind = User | Organization

  datatype BillingOwner = BillingOwner(provider: string, kind: OwnerKind, login: string)

  datatype BillingPeriod = BillingPeriod(year: int, month: nat)

  datatype UsageItem = UsageItem(product: string, sku: string, unitType: string, quantity: real)

  datatype Observation = Observation(owner: BillingOwner, period: BillingPeriod, observedAt: Moment, available: bool,
      items: seq<UsageItem>)

  datatype Allowance = Allowance(resourceId: string, product: string, sku: string, unitType: string, quantity: real)

  datatype Configured = Configured(owner: BillingOwner, allowance: Allowance)

  datatype Threshold = WarningThreshold | CriticalThreshold

  datatype AlertKey = AlertKey(owner: BillingOwner, resourceId: string, period: BillingPeriod, threshold: Threshold)

  datatype Level = Healthy | Warning | Critical

  datatype QuotaStatus = Unconfigured | UnknownStatus(message: string) | Known(level: Level)

  datatype Evaluation = Evaluation(owner: BillingOwner, resourceId: Option<string>, status: QuotaStatus,
      alertKey: Option<AlertKey>)

  datatype Candidate = Candidate(key: AlertKey, evaluation: Evaluation)

  datatype ReceiptState = ReceiptDelivered | ReceiptNotDelivered | ReceiptUnknown

  datatype Receipt = Receipt(state: ReceiptState, issues: seq<string>)

  datatype Notification =
    | Delivered(key: AlertKey)
    | SuppressedDuplicate(key: AlertKey)
    | FailClosed(key: AlertKey, issues: seq<string>)
    | DeliveryFailed(key: AlertKey, message: string)
    | ReceiptFailed(key: AlertKey, message: string)

  datatype OwnerPoll = OwnerPoll(
    owner: BillingOwner,
    persisted: bool,
    evaluations: seq<Evaluation>,
    errors: seq<string>,
    notifications: seq<Notification>)

  // --- the world ------------------------------------------------------------------------------------------

  datatype UsageEvent =
    | Polled(owner: BillingOwner, observation: Observation)
    | Persisted(observation: Observation, failure: Option<string>)
    | LookedUp(key: AlertKey, answer: Result<Receipt, string>)
    | Sent(key: AlertKey, failure: Option<string>)
    | Recorded(key: AlertKey, failure: Option<string>)

  type UsageTrace = seq<UsageEvent>

  /** Provider, observation sink, receipt store and delivery, each free to answer anything at any time. */
  datatype UsageOracle = UsageOracle(
    summary: (UsageTrace, BillingOwner, BillingPeriod) -> Observation,
    persist: (UsageTrace, Observation) -> Option<string>,
    lookup: (UsageTrace, AlertKey) -> Result<Receipt, string>,
    send: (UsageTrace, Candidate) -> Option<string>,
    record: (UsageTrace, AlertKey) -> Option<string>,
    evaluate: (Observation, Allowance, Moment) -> Result<Evaluation, string>)

  class UsageWorld {
    const oracle: UsageOracle
    var trace: UsageTrace

    constructor (oracle: UsageOracle)
      ensures this.oracle == oracle && trace == []
    {
      this.oracle := oracle;
      trace := [];
    }

    method Poll(owner: BillingOwner, period: BillingPeriod) returns (r: Observation)
      modifies this
      ensures r == oracle.summary(old(trace), owner, period) && trace == old(trace) + [Polled(owner, r)]
    {
      r := oracle.summary(trace, owner, period);
      trace := trace + [Polled(owner, r)];
    }

    method Persist(observation: Observation) returns (failure: Option<string>)
      modifies this
      ensures failure == oracle.persist(old(trace), observation)
              && trace == old(trace) + [Persisted(observation, failure)]
    {
      failure := oracle.persist(trace, observation);
      trace := trace + [Persisted(observation, failure)];
    }

    method LookUp(key: AlertKey) returns (r: Result<Receipt, string>)
      modifies this
      ensures r == oracle.lookup(old(trace), key) && trace == old(trace) + [LookedUp(key, r)]
    {
      r := oracle.lookup(trace, key);
      trace := trace + [LookedUp(key, r)];
    }

    method Send(candidate: Candidate) returns (failure: Option<string>)
      modifies this
      ensures failure == oracle.send(old(trace), candidate) && trace == old(trace) + [Sent(candidate.key, failure)]
    {
      failure := oracle.send(trace, candidate);
      trace := trace + [Sent(candidate.key, failure)];
    }

    method Record(key: AlertKey) returns (failure: Option<string>)
      modifies this
      ensures failure == oracle.record(old(trace), key) && trace == old(trace) + [Recorded(key, failure)]
    {
      failure := oracle.record(trace, key);
      trace := trace + [Recorded(key, failure)];
    }
  }

  // --- owners ------------------------------------------------------------------------------------------------

  /** `same_billing_owner` */
  predicate SameOwner(a: BillingOwner, b: BillingOwner) {
    a.kind == b.kind && EqIgnoreAsciiCase(a.provider, b.provider) && EqIgnoreAsciiCase(a.login, b.login)
  }

  predicate Knows(owners: seq<BillingOwner>, owner: BillingOwner) {
    exists i :: 0 <= i < |owners| && SameOwner(owners[i], owner)
  }

  function UniqueOwners(allowances: seq<Configured>): seq<BillingOwner> {
    if allowances == [] then []
    else
      var n := |allowances| - 1;
      var before := UniqueOwners(allowances[..n]);
      if Knows(before, allowances[n].owner) then before else before + [allowances[n].owner]
  }

  /** `unique_billing_owners` */
  method FindUniqueOwners(allowances: seq<Configured>) returns (owners: seq<BillingOwner>)
    ensures owners == UniqueOwners(allowances)
  {
    owners := [];
    for i := 0 to |allowances|
      invariant owners == UniqueOwners(allowances[..i])
    {
      assert allowances[..i + 1][..i] == allowances[..i];
      if !Knows(owners, allowances[i].owner) {
        owners := owners + [allowances[i].owner];
      }
    }
    assert allowances[..|allowances|] == allowances;
  }

  function Of(owner: BillingOwner, allowances: seq<Configured>): seq<Configured> {
    Filter(allowances, (c: Configured) => SameOwner(c.owner, owner))
  }

  // --- evaluation -----------------------------------------------------------------------------------------------

  /** `notification_candidate` */
  function CandidateOf(e: Evaluation): Option<Candidate> {
    if (e.status == Known(Warning) || e.status == Known(Critical)) && e.alertKey.Some?
      then Some(Candidate(e.alertKey.value, e)) else None
  }

  datatype Evaluated = Evaluated(evaluations: seq<Evaluation>, errors: seq<string>, candidates: seq<Candidate>)

  function EvaluateAll(o: UsageOracle, observation: Observation, allowances: seq<Configured>, now: Moment): Evaluated {
    if allowances == [] then Evaluated([], [], [])
    else
      var n := |allowances| - 1;
      var before := EvaluateAll(o, observation, allowances[..n], now);
      match o.evaluate(observation, allowances[n].allowance, now)
      case Err(message) => before.(errors := before.errors + [message])
      case Ok(e) =>
        Evaluated(before.evaluations + [e], before.errors,
                  before.candidates + (if CandidateOf(e).Some? then [CandidateOf(e).value] else []))
  }

  // --- one owner ---------------------------------------------------------------------------------------------------

  datatype UsageRan<+R> = UsageRan(value: R, trace: UsageTrace)

  function Notify(o: UsageOracle, t: UsageTrace, c: Candidate): UsageRan<Notification> {
    var answer := o.lookup(t, c.key);
    var t1 := t + [LookedUp(c.key, answer)];
    match answer
    case Err(message) => UsageRan(FailClosed(c.key, [message]), t1)
    case Ok(Receipt(ReceiptDelivered, _)) => UsageRan(SuppressedDuplicate(c.key), t1)
    case Ok(Receipt(ReceiptUnknown, issues)) => UsageRan(FailClosed(c.key, issues), t1)
    case Ok(Receipt(ReceiptNotDelivered, _)) =>
      var sent := o.send(t1, c);
      var t2 := t1 + [Sent(c.key, sent)];
      match sent
      case Some(message) => UsageRan(DeliveryFailed(c.key, message), t2)
      case None =>
        var recorded := o.record(t2, c.key);
        UsageRan(if recorded.Some? then ReceiptFailed(c.key, recorded.value) else Notification.Delivered(c.key),
                 t2 + [Recorded(c.key, recorded)])
  }

  function NotifyAll(o: UsageOracle, t: UsageTrace, candidates: seq<Candidate>): UsageRan<seq<Notification>> {
    if candidates == [] then UsageRan([], t)
    else
      var n := |candidates| - 1;
      var before := NotifyAll(o, t, candidates[..n]);
      var last := Notify(o, before.trace, candidates[n]);
      UsageRan(before.value + [last.value], last.trace)
  }

  /** What one cycle is asked to do. */
  datatype Cycle = Cycle(period: BillingPeriod, now: Moment, allowances: seq<Configured>, thresholds: bool)

  function EvaluatedFor(o: UsageOracle, cycle: Cycle, owner: BillingOwner, observation: Observation): Evaluated {
    if cycle.thresholds then EvaluateAll(o, observation, Of(owner, cycle.allowances), cycle.now)
      else Evaluated([], [], [])
  }

  function PollOwner(o: UsageOracle, t: UsageTrace, cycle: Cycle, owner: BillingOwner): UsageRan<OwnerPoll> {
    var observation := o.summary(t, owner, cycle.period);
    var t1 := t + [Polled(owner, observation)];
    var failure := o.persist(t1, observation);
    var t2 := t1 + [Persisted(observation, failure)];
    if failure.Some? then UsageRan(OwnerPoll(owner, false, [], [], []), t2)
    else
      var evaluated := EvaluatedFor(o, cycle, owner, observation);
      var notified := NotifyAll(o, t2, evaluated.candidates);
      UsageRan(OwnerPoll(owner, true, evaluated.evaluations, evaluated.errors, notified.value), notified.trace)
  }

  function PollOwners(o: UsageOracle, t: UsageTrace, cycle: Cycle,
                      owners: seq<BillingOwner>): (r: UsageRan<seq<OwnerPoll>>)
    ensures |r.value| == |owners|
  {
    if owners == [] then UsageRan([], t)
    else
      var n := |owners| - 1;
      var before := PollOwners(o, t, cycle, owners[..n]);
      var last := PollOwner(o, before.trace, cycle, owners[n]);
      UsageRan(before.value + [last.value], last.trace)
  }

  function RunCycle(o: UsageOracle, t: UsageTrace, cycle: Cycle): UsageRan<seq<OwnerPoll>> {
    PollOwners(o, t, cycle, UniqueOwners(cycle.allowances))
  }

  /** Any sequence of cycles, one after the other. */
  function RunCycles(o: UsageOracle, t: UsageTrace, cycles: seq<Cycle>): UsageRan<seq<OwnerPoll>> {
    if cycles == [] then UsageRan([], t)
    else
      var n := |cycles| - 1;
      var before := RunCycles(o, t, cycles[..n]);
      var last := RunCycle(o, before.trace, cycles[n]);
      UsageRan(before.value + last.value, last.trace)
  }

  // --- the service's loops -------------------------------------------------------------------------------------------

  method EvaluateOwner(world: UsageWorld, observation: Observation, allowances: seq<Configured>, owner: BillingOwner,
                       now: Moment)
    returns (r: Evaluated)
    ensures r == EvaluateAll(world.oracle, observation, Of(owner, allowances), now)
  {
    r := Evaluated([], [], []);
    for i := 0 to |allowances|
      invariant r == EvaluateAll(world.oracle, observation, Of(owner, allowances[..i]), now)
    {
      assert allowances[..i + 1][..i] == allowances[..i];
      var configured := allowances[i];
      ghost var before := Of(owner, allowances[..i]);
      if SameOwner(configured.owner, owner) {
        assert Of(owner, allowances[..i + 1]) == before + [configured];
        assert (before + [configured])[..|before|] == before;
        match world.oracle.evaluate(observation, configured.allowance, now) {
          case Ok(e) =>
            var candidate := CandidateOf(e);
            r := Evaluated(r.evaluations + [e], r.errors, r.candidates
                + (if candidate.Some? then [candidate.value] else []));
          case Err(message) =>
            r := r.(errors := r.errors + [message]);
        }
      } else {
        assert Of(owner, allowances[..i + 1]) == before;
      }
    }
    assert allowances[..|allowances|] == allowances;
  }

  method NotifyOne(world: UsageWorld, c: Candidate) returns (r: Notification)
    modifies world
    ensures UsageRan(r, world.trace) == Notify(world.oracle, old(world.trace), c)
  {
    var answer := world.LookUp(c.key);
    match answer {
      case Err(message) => r := FailClosed(c.key, [message]);
      case Ok(Receipt(ReceiptDelivered, _)) => r := SuppressedDuplicate(c.key);
      case Ok(Receipt(ReceiptUnknown, issues)) => r := FailClosed(c.key, issues);
      case Ok(Receipt(ReceiptNotDelivered, _)) =>
        var sent := world.Send(c);
        match sent {
          case Some(message) => r := DeliveryFailed(c.key, message);
          case None =>
            var recorded := world.Record(c.key);
            r := if recorded.Some? then ReceiptFailed(c.key, recorded.value) else Notification.Delivered(c.key);
        }
    }
  }

  method NotifyEach(world: UsageWorld, candidates: seq<Candidate>) returns (r: seq<Notification>)
    modifies world
    ensures UsageRan(r, world.trace) == NotifyAll(world.oracle, old(world.trace), candidates)
  {
    hide Notify;
    r := [];
    ghost var start := world.trace;
    for i := 0 to |candidates|
      invariant UsageRan(r, world.trace) == NotifyAll(world.oracle, start, candidates[..i])
    {
      assert candidates[..i + 1][..i] == candidates[..i];
      var one := NotifyOne(world, candidates[i]);
      r := r + [one];
    }
    assert candidates[..|candidates|] == candidates;
  }

  method PollOne(world: UsageWorld, cycle: Cycle, owner: BillingOwner) returns (r: OwnerPoll)
    modifies world
    ensures UsageRan(r, world.trace) == PollOwner(world.oracle, old(world.trace), cycle, owner)
  {
    var observation := world.Poll(owner, cycle.period);
    var failure := world.Persist(observation);
    if failure.Some? {
      return OwnerPoll(owner, false, [], [], []);
    }
    var evaluated := Evaluated([], [], []);
    if cycle.thresholds {
      evaluated := EvaluateOwner(world, observation, cycle.allowances, owner, cycle.now);
    }
    var notifications := NotifyEach(world, evaluated.candidates);
    r := OwnerPoll(owner, true, evaluated.evaluations, evaluated.errors, notifications);
  }

  /** `run_cycle` */
  method PollCycle(world: UsageWorld, cycle: Cycle) returns (r: seq<OwnerPoll>)
    modifies world
    ensures UsageRan(r, world.trace) == RunCycle(world.oracle, old(world.trace), cycle)
  {
    hide PollOwner;
    var owners := FindUniqueOwners(cycle.allowances);
    r := [];
    ghost var start := world.trace;
    for i := 0 to |owners|
      invariant UsageRan(r, world.trace) == PollOwners(world.oracle, start, cycle, owners[..i])
    {
      assert owners[..i + 1][..i] == owners[..i];
      var one := PollOne(world, cycle, owners[i]);
      r := r + [one];
    }
    assert owners[..|owners|] == owners;
  }
}

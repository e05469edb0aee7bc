/**
 * What a polling cycle must do, not only what it may: every alert an evaluation calls for is looked up
 * once, delivered if the store says it was not, recorded if it was delivered, and reported accordingly.
 */
module AccountUsageReading {
  import opened Prelude
  import opened Domain
  import opened Sorting
  import opened AccountUsage
  import opened AccountUsageSafety

  // --- one alert --------------------------------------------------------------------------------------------

  /** The level calls for an alert, and the evaluation says under which key. */
  predicate NeedsAlert(e: Evaluation) {
    e.status.Known? && e.status.level != Healthy && e.alertKey.Some?
  }

  /**
   * The answers of one alert: a lookup, a delivery exactly if the store said it was not delivered, and a
   * receipt exactly if the delivery succeeded.
   */
  ghost predicate AlertSteps(o: UsageOracle, t: UsageTrace, step: UsageTrace, e: Evaluation)
    requires NeedsAlert(e)
  {
    var key := e.alertKey.value;
    && 1 <= |step| <= 3
    && step[0] == LookedUp(key, o.lookup(t, key))
    && (|step| >= 2 <==> step[0].answer.Ok? && step[0].answer.value.state == ReceiptNotDelivered)
    && (|step| >= 2 ==> step[1] == Sent(key, o.send(t + step[..1], Candidate(key, e))))
    && (|step| == 3 <==> |step| >= 2 && step[1].failure == None)
    && (|step| == 3 ==> step[2] == Recorded(key, o.record(t + step[..2], key)))
  }

  /** The report of one alert, each kind standing for one pattern of answers. */
  ghost predicate AlertTold(o: UsageOracle, t: UsageTrace, step: UsageTrace, e: Evaluation, n: Notification)
    requires NeedsAlert(e)
  {
    && AlertSteps(o, t, step, e) && n.key == e.alertKey.value
    && (n.Delivered? <==> |step| == 3 && step[2].failure == None)
    && (n.ReceiptFailed? <==> |step| == 3 && step[2].failure.Some?)
    && (n.ReceiptFailed? ==> step[2].failure == Some(n.message))
    && (n.DeliveryFailed? <==> |step| == 2)
    && (n.DeliveryFailed? ==> step[1].failure == Some(n.message))
    && (n.SuppressedDuplicate? <==> step[0].answer.Ok? && step[0].answer.value.state == ReceiptDelivered)
    && (n.FailClosed? <==> step[0].answer.Err? || step[0].answer.value.state == ReceiptUnknown)
    && (n.FailClosed? ==>
          n.issues == if step[0].answer.Err? then [step[0].answer.error] else step[0].answer.value.issues)
  }

  lemma AlertIsTold(o: UsageOracle, t: UsageTrace, e: Evaluation) returns (step: UsageTrace)
    requires NeedsAlert(e)
    ensures var r := Notify(o, t, Candidate(e.alertKey.value, e));
            r.trace == t + step && AlertTold(o, t, step, e, r.value)
  {
    var key := e.alertKey.value;
    var e1 := LookedUp(key, o.lookup(t, key));
    step := [e1];
    if e1.answer.Ok? && e1.answer.value.state == ReceiptNotDelivered {
      var e2 := Sent(key, o.send(t + [e1], Candidate(key, e)));
      step := [e1, e2];
      assert t + [e1] + [e2] == t + step && step[..1] == [e1];
      if e2.failure == None {
        var e3 := Recorded(key, o.record(t + [e1] + [e2], key));
        step := [e1, e2, e3];
        assert step[..1] == [e1] && step[..2] == [e1, e2];
        assert t + [e1] + [e2] == t + step[..2] && t + [e1] + [e2] + [e3] == t + step;
      }
    }
  }

  // --- all alerts of one owner ---------------------------------------------------------------------------------

  function Strung(steps: seq<UsageTrace>): UsageTrace {
    if steps == [] then [] else Strung(steps[..|steps| - 1]) + steps[|steps| - 1]
  }

  /** The evaluations that call for an alert, in order. */
  function Alerts(evaluations: seq<Evaluation>): (r: seq<Evaluation>)
    ensures forall e :: e in r <==> e in evaluations && NeedsAlert(e)
  {
    Filter(evaluations, NeedsAlert)
  }

  /** One notification for every alert, in the same order, each after the alerts before it. */
  ghost predicate Notified(o: UsageOracle, t: UsageTrace, steps: seq<UsageTrace>, alerts: seq<Evaluation>,
                           notifications: seq<Notification>)
  {
    && |steps| == |alerts| == |notifications|
    && forall i :: 0 <= i < |alerts| ==>
         && NeedsAlert(alerts[i])
         && AlertTold(o, t + Strung(steps[..i]), steps[i], alerts[i], notifications[i])
  }

  /** The notifications of one owner: exactly those its evaluations call for. */
  ghost predicate AlertsTold(o: UsageOracle, t: UsageTrace, steps: seq<UsageTrace>, evaluations: seq<Evaluation>,
                             notifications: seq<Notification>)
  {
    Notified(o, t, steps, Alerts(evaluations), notifications)
  }

  /** The candidates stand for exactly the alerts called for. */
  ghost predicate CandidatesFor(candidates: seq<Candidate>, evaluations: seq<Evaluation>) {
    var alerts := Alerts(evaluations);
    && |candidates| == |alerts|
    && forall i :: 0 <= i < |alerts| ==>
         NeedsAlert(alerts[i]) && candidates[i] == Candidate(alerts[i].alertKey.value, alerts[i])
  }

  lemma OneMoreAlert(o: UsageOracle, t: UsageTrace, steps: seq<UsageTrace>, alerts: seq<Evaluation>,
                     notifications: seq<Notification>, step: UsageTrace, e: Evaluation, n: Notification)
    requires Notified(o, t, steps, alerts, notifications)
    requires NeedsAlert(e) && AlertTold(o, t + Strung(steps), step, e, n)
    ensures Notified(o, t, steps + [step], alerts + [e], notifications + [n])
    ensures t + Strung(steps + [step]) == t + Strung(steps) + step
  {
    hide AlertTold, NeedsAlert;
    var all := steps + [step];
    assert all[..|steps|] == steps;
    forall i | 0 <= i < |steps|
      ensures NeedsAlert(alerts[i]) && AlertTold(o, t + Strung(all[..i]), all[i], alerts[i], notifications[i])
    {
      assert all[..i] == steps[..i];
    }
  }

  lemma {:induction false} NotifiedAlerts(o: UsageOracle, t: UsageTrace, candidates: seq<Candidate>,
                                          alerts: seq<Evaluation>)
    returns (steps: seq<UsageTrace>)
    requires |candidates| == |alerts|
    requires forall i :: 0 <= i < |alerts| ==>
               NeedsAlert(alerts[i]) && candidates[i] == Candidate(alerts[i].alertKey.value, alerts[i])
    ensures var r := NotifyAll(o, t, candidates);
            Notified(o, t, steps, alerts, r.value) && r.trace == t + Strung(steps)
    decreases |candidates|
  {
    hide Notify, AlertTold, NeedsAlert, Notified;
    if candidates == [] {
      steps := [];
      NobodyNotified(o, t);
    } else {
      var n := |candidates| - 1;
      var before := NotifyAll(o, t, candidates[..n]);
      steps := NotifiedAlerts(o, t, candidates[..n], alerts[..n]);
      var step := AlertIsTold(o, before.trace, alerts[n]);
      OneMoreAlert(o, t, steps, alerts[..n], before.value, step, alerts[n],
                   Notify(o, before.trace, candidates[n]).value);
      assert alerts[..n] + [alerts[n]] == alerts;
      steps := steps + [step];
    }
  }

  lemma NobodyNotified(o: UsageOracle, t: UsageTrace)
    ensures Notified(o, t, [], [], []) && t + Strung([]) == t
  {
  }

  // --- the evaluations of one owner ------------------------------------------------------------------------------

  /** The allowance is configured for this owner, however either is spelled. */
  predicate Belongs(c: Configured, owner: BillingOwner) {
    && c.owner.kind == owner.kind && EqIgnoreAsciiCase(c.owner.provider, owner.provider)
    && EqIgnoreAsciiCase(c.owner.login, owner.login)
  }

  /** What evaluating this owner's allowances answered, in the order of the configuration. */
  function Results(o: UsageOracle, observation: Observation, allowances: seq<Configured>, owner: BillingOwner,
                   now: Moment): seq<Result<Evaluation, string>> {
    if allowances == [] then []
    else
      var n := |allowances| - 1;
      Results(o, observation, allowances[..n], owner, now)
      + if Belongs(allowances[n], owner) then [o.evaluate(observation, allowances[n].allowance, now)] else []
  }

  function Oks<T, E>(results: seq<Result<T, E>>): seq<T> {
    if results == [] then []
    else
      var n := |results| - 1;
      Oks(results[..n]) + if results[n].Ok? then [results[n].value] else []
  }

  function Errs<T, E>(results: seq<Result<T, E>>): seq<E> {
    if results == [] then []
    else
      var n := |results| - 1;
      Errs(results[..n]) + if results[n].Err? then [results[n].error] else []
  }

  lemma OneMoreResult<T, E>(results: seq<Result<T, E>>, last: Result<T, E>)
    ensures Oks(results + [last]) == Oks(results) + if last.Ok? then [last.value] else []
    ensures Errs(results + [last]) == Errs(results) + if last.Err? then [last.error] else []
  {
    assert (results + [last])[..|results|] == results;
  }

  lemma AlertsAppend(evaluations: seq<Evaluation>, e: Evaluation)
    ensures Alerts(evaluations + [e]) == Alerts(evaluations) + if NeedsAlert(e) then [e] else []
  {
    assert (evaluations + [e])[..|evaluations|] == evaluations;
  }

  lemma CandidateMeaning(e: Evaluation)
    ensures CandidateOf(e) == if NeedsAlert(e) then Some(Candidate(e.alertKey.value, e)) else None
  {
  }

  lemma OneMoreCandidate(candidates: seq<Candidate>, evaluations: seq<Evaluation>, e: Evaluation)
    requires CandidatesFor(candidates, evaluations)
    ensures CandidatesFor(candidates + (if CandidateOf(e).Some? then [CandidateOf(e).value] else []), evaluations + [e])
  {
    hide CandidateOf, NeedsAlert, Alerts;
    CandidateMeaning(e);
    AlertsAppend(evaluations, e);
  }

  lemma EvaluatedNext(o: UsageOracle, observation: Observation, allowances: seq<Configured>, c: Configured,
                      now: Moment)
    ensures var answer, e := o.evaluate(observation, c.allowance, now), EvaluateAll(o, observation, allowances, now);
            EvaluateAll(o, observation, allowances + [c], now)
            == if answer.Err? then e.(errors := e.errors + [answer.error])
               else Evaluated(e.evaluations + [answer.value], e.errors, e.candidates
                        + if CandidateOf(answer.value).Some? then [CandidateOf(answer.value).value] else [])
  {
    hide CandidateOf;
    assert (allowances + [c])[..|allowances|] == allowances;
  }

  lemma OwnedNext(allowances: seq<Configured>, owner: BillingOwner)
    requires allowances != []
    ensures var n := |allowances| - 1;
            Of(owner, allowances) == if Belongs(allowances[n], owner) then Of(owner, allowances[..n]) + [allowances[n]]
                                     else Of(owner, allowances[..n])
  {
  }

  /** Evaluations and errors are the answers in order, and the candidates the alerts they call for. */
  ghost predicate EvaluatedTold(e: Evaluated, results: seq<Result<Evaluation, string>>) {
    e.evaluations == Oks(results) && e.errors == Errs(results) && CandidatesFor(e.candidates, e.evaluations)
  }

  lemma OneMoreEvaluated(o: UsageOracle, observation: Observation, before: seq<Configured>, c: Configured, now: Moment,
                         results: seq<Result<Evaluation, string>>)
    requires EvaluatedTold(EvaluateAll(o, observation, before, now), results)
    ensures EvaluatedTold(EvaluateAll(o, observation, before + [c], now),
                          results + [o.evaluate(observation, c.allowance, now)])
  {
    hide Oks, Errs, CandidateOf, CandidatesFor, EvaluateAll;
    var answer := o.evaluate(observation, c.allowance, now);
    OneMoreResult(results, answer);
    EvaluatedNext(o, observation, before, c, now);
    if answer.Ok? {
      var e := EvaluateAll(o, observation, before, now);
      OneMoreCandidate(e.candidates, e.evaluations, answer.value);
    }
  }

  lemma {:induction false} EvaluationsAreTold(o: UsageOracle, observation: Observation, allowances: seq<Configured>,
                                              owner: BillingOwner, now: Moment)
    ensures EvaluatedTold(EvaluateAll(o, observation, Of(owner, allowances), now),
                          Results(o, observation, allowances, owner, now))
    decreases |allowances|
  {
    if allowances == [] {
      assert Of(owner, allowances) == [];
    } else {
      hide Of, Belongs, EvaluateAll, EvaluatedTold;
      var n := |allowances| - 1;
      EvaluationsAreTold(o, observation, allowances[..n], owner, now);
      OwnedNext(allowances, owner);
      var results := Results(o, observation, allowances[..n], owner, now);
      if Belongs(allowances[n], owner) {
        OneMoreEvaluated(o, observation, Of(owner, allowances[..n]), allowances[n], now, results);
      } else {
        assert Results(o, observation, allowances, owner, now) == results;
      }
    }
  }

  // --- one owner -------------------------------------------------------------------------------------------------

  /** Everything one owner's poll says, given the history before it and the part it added. */
  ghost predicate OwnerTold(o: UsageOracle, t: UsageTrace, d: UsageTrace, cycle: Cycle, owner: BillingOwner,
                            p: OwnerPoll)
  {
    && |d| >= 2
    && d[0] == Polled(owner, o.summary(t, owner, cycle.period))
    && d[1] == Persisted(d[0].observation, o.persist(t + d[..1], d[0].observation))
    && p.owner == owner && (p.persisted <==> d[1].failure == None)
    && if p.persisted && cycle.thresholds then
         var results := Results(o, d[0].observation, cycle.allowances, owner, cycle.now);
         && p.evaluations == Oks(results) && p.errors == Errs(results)
         && exists steps: seq<UsageTrace> ::
              d == d[..2] + Strung(steps) && AlertsTold(o, t + d[..2], steps, p.evaluations, p.notifications)
       else |d| == 2 && p.evaluations == [] && p.errors == [] && p.notifications == []
  }

  lemma AlertsAreTold(o: UsageOracle, t: UsageTrace, candidates: seq<Candidate>, evaluations: seq<Evaluation>)
    returns (steps: seq<UsageTrace>)
    requires CandidatesFor(candidates, evaluations)
    ensures NotifyAll(o, t, candidates).trace == t + Strung(steps)
    ensures AlertsTold(o, t, steps, evaluations, NotifyAll(o, t, candidates).value)
  {
    hide NotifyAll, Alerts, Notified, NeedsAlert, Strung;
    steps := NotifiedAlerts(o, t, candidates, Alerts(evaluations));
  }

  lemma OwnerIsTold(o: UsageOracle, t: UsageTrace, cycle: Cycle, owner: BillingOwner) returns (d: UsageTrace)
    ensures var r := PollOwner(o, t, cycle, owner);
            r.trace == t + d && OwnerTold(o, t, d, cycle, owner, r.value)
  {
    hide NotifyAll, EvaluateAll, Results, AlertsTold, CandidatesFor, Of, Strung, Oks, Errs;
    var observation := o.summary(t, owner, cycle.period);
    var e1 := Polled(owner, observation);
    var e2 := Persisted(observation, o.persist(t + [e1], observation));
    var head := [e1, e2];
    assert t + [e1] + [e2] == t + head && head[..1] == [e1];
    d := head;
    if e2.failure == None {
      if cycle.thresholds {
        var evaluated := EvaluatedFor(o, cycle, owner, observation);
        EvaluationsAreTold(o, observation, cycle.allowances, owner, cycle.now);
        var steps := AlertsAreTold(o, t + head, evaluated.candidates, evaluated.evaluations);
        d := head + Strung(steps);
        assert d[..2] == head && d[..1] == [e1];
        assert t + head + Strung(steps) == t + d;
      } else {
        NobodyToNotify(o, t + head);
      }
    }
  }

  lemma NobodyToNotify(o: UsageOracle, t: UsageTrace)
    ensures NotifyAll(o, t, []) == UsageRan([], t)
  {
  }

  // --- a whole cycle -----------------------------------------------------------------------------------------------

  /** The part of the history between two cuts is what one owner's poll says it is. */
  ghost predicate PollTold(o: UsageOracle, later: UsageTrace, cuts: seq<nat>, cycle: Cycle, owners: seq<BillingOwner>,
                           polls: seq<OwnerPoll>, i: nat)
    requires i < |owners| == |polls| && |cuts| == |owners| + 1
  {
    && cuts[i] <= cuts[i + 1] <= |later|
    && OwnerTold(o, later[..cuts[i]], later[cuts[i]..cuts[i + 1]], cycle, owners[i], polls[i])
  }

  ghost predicate CycleTold(o: UsageOracle, t: UsageTrace, later: UsageTrace, cuts: seq<nat>, cycle: Cycle,
                            owners: seq<BillingOwner>, polls: seq<OwnerPoll>)
  {
    && t <= later && |polls| == |owners| && |cuts| == |owners| + 1 && cuts[0] == |t| && cuts[|owners|] == |later|
    && forall i :: 0 <= i < |owners| ==> PollTold(o, later, cuts, cycle, owners, polls, i)
  }

  lemma OneMoreOwner(o: UsageOracle, t: UsageTrace, later: UsageTrace, cuts: seq<nat>, cycle: Cycle,
                     owners: seq<BillingOwner>, polls: seq<OwnerPoll>, owner: BillingOwner, poll: OwnerPoll,
                     d: UsageTrace)
    requires CycleTold(o, t, later, cuts, cycle, owners, polls) && OwnerTold(o, later, d, cycle, owner, poll)
    ensures CycleTold(o, t, later + d, cuts + [|later + d|], cycle, owners + [owner], polls + [poll])
  {
    hide OwnerTold;
    var all := cuts + [|later + d|];
    forall i | 0 <= i <= |owners| ensures PollTold(o, later + d, all, cycle, owners + [owner], polls + [poll], i) {
      if i < |owners| {
        assert PollTold(o, later, cuts, cycle, owners, polls, i);
        assert (later + d)[..cuts[i]] == later[..cuts[i]];
        assert (later + d)[cuts[i]..cuts[i + 1]] == later[cuts[i]..cuts[i + 1]];
      } else {
        assert (later + d)[..|later|] == later && (later + d)[|later|..|later + d|] == d;
      }
    }
  }

  lemma {:induction false} PollsAreTold(o: UsageOracle, t: UsageTrace, cycle: Cycle, owners: seq<BillingOwner>)
    returns (cuts: seq<nat>)
    ensures var r := PollOwners(o, t, cycle, owners); CycleTold(o, t, r.trace, cuts, cycle, owners, r.value)
    decreases |owners|
  {
    hide PollOwner, OwnerTold;
    if owners == [] {
      cuts := [|t|];
    } else {
      var n := |owners| - 1;
      var before := PollOwners(o, t, cycle, owners[..n]);
      cuts := PollsAreTold(o, t, cycle, owners[..n]);
      var d := OwnerIsTold(o, before.trace, cycle, owners[n]);
      OneMoreOwner(o, t, before.trace, cuts, cycle, owners[..n], before.value, owners[n],
                   PollOwner(o, before.trace, cycle, owners[n]).value, d);
      assert owners[..n] + [owners[n]] == owners;
      cuts := cuts + [|before.trace + d|];
    }
  }

  /**
   * Whatever provider, sink, store and delivery answer, a cycle polls one representative of every configured
   * owner, evaluates all its allowances, and raises every alert the evaluations call for.
   */
  lemma WholeCycleIsExact(o: UsageOracle, t: UsageTrace, cycle: Cycle)
    returns (owners: seq<BillingOwner>, cuts: seq<nat>)
    ensures PairwiseDifferent(owners)
    ensures forall c :: c in cycle.allowances ==> exists i :: 0 <= i < |owners| && Belongs(c, owners[i])
    ensures forall owner :: owner in owners ==> exists c :: c in cycle.allowances && c.owner == owner
    ensures var r := RunCycle(o, t, cycle); CycleTold(o, t, r.trace, cuts, cycle, owners, r.value)
  {
    hide PollOwners, CycleTold, UniqueOwners;
    owners := UniqueOwners(cycle.allowances);
    UniqueOwnersMeaning(cycle.allowances);
    forall c | c in cycle.allowances ensures exists i :: 0 <= i < |owners| && Belongs(c, owners[i]) {
      var i :| 0 <= i < |owners| && SameOwner(owners[i], c.owner);
      assert Belongs(c, owners[i]);
    }
    cuts := PollsAreTold(o, t, cycle, owners);
  }
}

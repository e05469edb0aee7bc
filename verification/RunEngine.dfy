/** Workflow-run classification: `run_engine.rs` above the keep-latest selections and the deadline. */
module RunEngine {
  import opened Prelude
  import opened Domain
  import opened Policy
  import opened BusinessDays
  import opened KeepLatest
  import opened RunProtections
  import opened Sorting

  datatype Retention = ElapsedDays(days: U64) | Weekdays(days: U64)

  datatype Decision = Keep | Delete | Shielded | ManualReview

  datatype ReasonCode =
    | DefaultRetentionActive | DefaultRetentionExpired
    | RuleRetentionActive | RuleRetentionExpired
    | ExplicitProtection | KeepLatestRule | ConflictingRetentionRules | RunNotCompleted
    | LocalProtection | LocalProtectionReview(code: ReviewCode)

  datatype Reason = Reason(code: ReasonCode, ruleId: Option<string>)

  datatype RunDecision = RunDecision(
    identity: Identity,
    decision: Decision,
    retention: Option<Retention>,
    reasons: seq<Reason>)

  /** Everything classification looks at besides the run. */
  datatype Context = Context(
    globs: Globs,
    config: PolicyConfig,
    scannedAt: Moment,
    entries: seq<Protection>,
    instance: string,
    account: Account)

  predicate RetentionExpired(run: WorkflowRun, scannedAt: Moment, retention: Retention) {
    match retention
    case ElapsedDays(days) => ElapsedDaysExpired(run.createdAt, scannedAt, days)
    case Weekdays(days) =>
      var deadline := NaiveDeadline(run.createdAt, days);
      deadline.Some? && scannedAt >= deadline.value
  }

  predicate DeclaresRetention(rule: PolicyRule) { rule.keepDays.Some? || rule.keepBusinessDays.Some? }

  function RetentionOf(rule: PolicyRule): Retention
    requires DeclaresRetention(rule)
  {
    if rule.keepDays.Some? then ElapsedDays(rule.keepDays.value) else Weekdays(rule.keepBusinessDays.value)
  }

  function DefaultRetention(runs: RunDefaults): Retention {
    match runs.keepBusinessDays
    case Some(days) => Weekdays(days)
    case None => ElapsedDays(runs.keepDays.GetOr(DEFAULT_KEEP_DAYS))
  }

  function MatchingRules(cx: Context, run: WorkflowRun): seq<PolicyRule> {
    Filter(cx.config.rules, (rule: PolicyRule) => rule.MatchesWorkflowRun(cx.globs, run))
  }

  function ProtectionRules(cx: Context, run: WorkflowRun): seq<PolicyRule> {
    Filter(MatchingRules(cx, run), (rule: PolicyRule) => rule.protect == Some(true))
  }

  function RetentionRules(cx: Context, run: WorkflowRun): seq<PolicyRule> {
    Filter(MatchingRules(cx, run), DeclaresRetention)
  }

  function MaxSpecificity(rules: seq<PolicyRule>): nat
    requires rules != []
  {
    var last := rules[|rules| - 1].Specificity();
    if |rules| == 1 then last
    else
      var rest := MaxSpecificity(rules[..|rules| - 1]);
      if rest >= last then rest else last
  }

  function MostSpecific(rules: seq<PolicyRule>): seq<PolicyRule>
    requires rules != []
  {
    var top := MaxSpecificity(rules);
    Filter(rules, (rule: PolicyRule) => rule.Specificity() == top)
  }

  function Reasons(code: ReasonCode, rules: seq<PolicyRule>): seq<Reason> {
    seq(|rules|, i requires 0 <= i < |rules| => Reason(code, Some(rules[i].id)))
  }

  lemma {:induction false} MaxSpecificityMeaning(rules: seq<PolicyRule>)
    requires rules != []
    ensures forall rule :: rule in rules ==> rule.Specificity() <= MaxSpecificity(rules)
    ensures exists rule :: rule in rules && rule.Specificity() == MaxSpecificity(rules)
  {
    hide PolicyRule.Specificity;
    var n := |rules| - 1;
    assert rules == rules[..n] + [rules[n]];
    if n == 0 {
      assert rules[0] in rules;
    } else {
      MaxSpecificityMeaning(rules[..n]);
      var rule :| rule in rules[..n] && rule.Specificity() == MaxSpecificity(rules[..n]);
      assert rule in rules && rules[n] in rules;
    }
  }

  lemma MostSpecificMeaning(rules: seq<PolicyRule>)
    requires rules != []
    ensures MostSpecific(rules) != []
    ensures forall rule :: rule in MostSpecific(rules) <==>
              rule in rules && forall other :: other in rules ==> other.Specificity() <= rule.Specificity()
  {
    MaxSpecificityMeaning(rules);
    var best :| best in rules && best.Specificity() == MaxSpecificity(rules);
    assert best in MostSpecific(rules);
  }

  /** `classify_workflow_run`. */
  function ClassifyRun(cx: Context, run: WorkflowRun, selected: Selections): RunDecision
  {
    var identity := IdentityOf(run);
    match Assess(cx.entries, cx.instance, cx.account, run)
    case Protected(entry) => RunDecision(identity, Shielded, None, [Reason(LocalProtection, None)])
    case Review(code, _) => RunDecision(identity, ManualReview, None, [Reason(LocalProtectionReview(code), None)])
    case NoEntry =>
      if !run.IsCompleted() then RunDecision(identity, Keep, None, [Reason(RunNotCompleted, None)])
      else if ProtectionRules(cx, run) != [] then
        RunDecision(identity, Shielded, None, Reasons(ExplicitProtection, ProtectionRules(cx, run)))
      else if identity in selected then
        RunDecision(identity, Keep, None,
                    seq(|selected[identity]|, i requires 0 <= i < |selected[identity]| =>
                        Reason(KeepLatestRule, Some(selected[identity][i]))))
      else ClassifyByRetention(cx, run)
  }

  function ClassifyByRetention(cx: Context, run: WorkflowRun): RunDecision {
    var identity := IdentityOf(run);
    var rules := RetentionRules(cx, run);
    if rules != [] then
      MostSpecificMeaning(rules);
      var best := MostSpecific(rules);
      assert best[0] in best && best[0] in rules;
      if exists rule :: rule in best && RetentionOf(rule) != RetentionOf(best[0]) then
        RunDecision(identity, ManualReview, None, Reasons(ConflictingRetentionRules, best))
      else
        var retention := RetentionOf(best[0]);
        var expired := RetentionExpired(run, cx.scannedAt, retention);
        RunDecision(identity, if expired then Delete else Keep, Some(retention),
                    Reasons(if expired then RuleRetentionExpired else RuleRetentionActive, best))
    else
      var retention := DefaultRetention(cx.config.defaults.runs);
      var expired := RetentionExpired(run, cx.scannedAt, retention);
      RunDecision(identity, if expired then Delete else Keep, Some(retention),
                  [Reason(if expired then DefaultRetentionExpired else DefaultRetentionActive, None)])
  }

  // --- Delete, characterised without the resolver ------------------------------------------------

  ghost predicate MatchesAndRetains(cx: Context, run: WorkflowRun, rule: PolicyRule) {
    rule in cx.config.rules && rule.MatchesWorkflowRun(cx.globs, run) && DeclaresRetention(rule)
  }

  /** A matching retention rule that no matching retention rule beats on selectors. */
  ghost predicate Governs(cx: Context, run: WorkflowRun, rule: PolicyRule) {
    && MatchesAndRetains(cx, run, rule)
    && forall other :: MatchesAndRetains(cx, run, other) ==> other.Specificity() <= rule.Specificity()
  }

  /** The one retention in force, when the governing rules agree on one. */
  ghost predicate InForce(cx: Context, run: WorkflowRun, retention: Retention) {
    if exists rule :: MatchesAndRetains(cx, run, rule)
    then forall rule :: Governs(cx, run, rule) ==> RetentionOf(rule) == retention
    else retention == DefaultRetention(cx.config.defaults.runs)
  }

  ghost predicate PolicyProtects(cx: Context, run: WorkflowRun) {
    exists rule :: rule in cx.config.rules && rule.MatchesWorkflowRun(cx.globs, run) && rule.protect == Some(true)
  }

  ghost predicate Condemned(cx: Context, run: WorkflowRun, selected: Selections) {
    && run.IsCompleted()
    && (forall e :: e in cx.entries ==> !SameRunId(e, KeyForRun(cx.instance, cx.account, run)))
    && !PolicyProtects(cx, run)
    && IdentityOf(run) !in selected
    && exists retention :: InForce(cx, run, retention) && RetentionExpired(run, cx.scannedAt, retention)
  }

  lemma RetentionRulesMeaning(cx: Context, run: WorkflowRun)
    ensures forall rule :: rule in RetentionRules(cx, run) <==> MatchesAndRetains(cx, run, rule)
    ensures forall rule :: rule in ProtectionRules(cx, run) <==>
              rule in cx.config.rules && rule.MatchesWorkflowRun(cx.globs, run) && rule.protect == Some(true)
  {
  }

  lemma SomeGoverns(cx: Context, run: WorkflowRun)
    requires RetentionRules(cx, run) != []
    ensures var best := MostSpecific(RetentionRules(cx, run));
            best != [] && forall rule :: rule in best <==> Governs(cx, run, rule)
  {
    RetentionRulesMeaning(cx, run);
    MostSpecificMeaning(RetentionRules(cx, run));
  }

  /** The resolver finds the retention in force, or a conflict when there is none. */
  lemma ResolverMeaning(cx: Context, run: WorkflowRun)
    ensures var d := ClassifyByRetention(cx, run);
            && (d.retention.Some? ==> InForce(cx, run, d.retention.value))
            && (d.retention.None? ==> d.decision == ManualReview && forall retention :: !InForce(cx, run, retention))
            && (d.retention.Some? ==> (d.decision == Delete <==>
               RetentionExpired(run, cx.scannedAt, d.retention.value)))
            && (d.retention.Some? ==> d.decision == Delete || d.decision == Keep)
  {
    hide RetentionExpired, PolicyRule.Specificity, PolicyRule.MatchesWorkflowRun;
    RetentionRulesMeaning(cx, run);
    var rules := RetentionRules(cx, run);
    if rules == [] {
      assert forall rule :: rule in rules <==> MatchesAndRetains(cx, run, rule);
    } else {
      SomeGoverns(cx, run);
      var best := MostSpecific(rules);
      assert best[0] in best;
      assert Governs(cx, run, best[0]) && MatchesAndRetains(cx, run, best[0]);
    }
  }

  /** At most one retention can be in force. */
  lemma InForceIsUnique(cx: Context, run: WorkflowRun, r1: Retention, r2: Retention)
    requires InForce(cx, run, r1) && InForce(cx, run, r2)
    ensures r1 == r2
  {
    hide RetentionExpired, PolicyRule.Specificity, PolicyRule.MatchesWorkflowRun;
    RetentionRulesMeaning(cx, run);
    if RetentionRules(cx, run) != [] {
      SomeGoverns(cx, run);
      var best := MostSpecific(RetentionRules(cx, run));
      assert best[0] in best;
      assert Governs(cx, run, best[0]) && MatchesAndRetains(cx, run, best[0]);
    } else {
      assert forall rule :: rule in RetentionRules(cx, run) <==> MatchesAndRetains(cx, run, rule);
    }
  }

  /** A run is deleted exactly when every exemption fails and the retention in force has expired. */
  lemma DeleteMeaning(cx: Context, run: WorkflowRun, selected: Selections)
    ensures ClassifyRun(cx, run, selected).decision == Delete <==> Condemned(cx, run, selected)
  {
    hide Assess, ClassifyByRetention, ProtectionRules, PolicyProtects, InForce, RetentionExpired, Reasons;
    NoEntryMeaning(cx.entries, cx.instance, cx.account, run);
    SomeProtectionIff(cx, run);
    ResolverMeaning(cx, run);
    var d := ClassifyByRetention(cx, run);
    forall retention | InForce(cx, run, retention) && d.retention.Some? ensures retention == d.retention.value {
      InForceIsUnique(cx, run, retention, d.retention.value);
    }
  }

  /** Shielded: exactly locally protected, or completed, unknown to the local store and protected by a rule. */
  lemma ShieldedMeaning(cx: Context, run: WorkflowRun, selected: Selections)
    requires DistinctKeys(cx.entries)
    ensures ClassifyRun(cx, run, selected).decision == Shielded <==>
              || (exists e :: e in cx.entries && Matches(e, cx.instance, cx.account, run))
              || ((forall e :: e in cx.entries ==> !SameRunId(e, KeyForRun(cx.instance, cx.account, run)))
                  && run.IsCompleted() && PolicyProtects(cx, run))
  {
    hide ClassifyByRetention, PolicyRule.MatchesWorkflowRun;
    NoEntryMeaning(cx.entries, cx.instance, cx.account, run);
    ResolvedIsNotShielded(cx, run);
    SomeProtectionIff(cx, run);
    var assessed := Assess(cx.entries, cx.instance, cx.account, run);
    forall e ensures assessed == Protected(e) <==> e in cx.entries && Matches(e, cx.instance, cx.account, run) {
      ProtectedMeaning(cx.entries, cx.instance, cx.account, run, e);
    }
    hide Assess;
  }

  lemma ResolvedIsNotShielded(cx: Context, run: WorkflowRun)
    ensures ClassifyByRetention(cx, run).decision != Shielded
  {
  }

  lemma SomeProtectionIff(cx: Context, run: WorkflowRun)
    ensures ProtectionRules(cx, run) != [] <==> PolicyProtects(cx, run)
  {
    RetentionRulesMeaning(cx, run);
    if ProtectionRules(cx, run) != [] {
      assert ProtectionRules(cx, run)[0] in ProtectionRules(cx, run);
    }
  }

  /** Manual review: the local store cannot tell, or nothing exempts the run and no single retention is in force. */
  lemma ReviewMeaning(cx: Context, run: WorkflowRun, selected: Selections)
    ensures ClassifyRun(cx, run, selected).decision == ManualReview <==>
              || Assess(cx.entries, cx.instance, cx.account, run).Review?
              || (Assess(cx.entries, cx.instance, cx.account, run).NoEntry? && run.IsCompleted()
                 && !PolicyProtects(cx, run)
                  && IdentityOf(run) !in selected && forall retention :: !InForce(cx, run, retention))
  {
    hide ClassifyByRetention, PolicyRule.MatchesWorkflowRun, Assess, InForce;
    ResolverMeaning(cx, run);
    SomeProtectionIff(cx, run);
  }

  // --- monotonicity -------------------------------------------------------------------------------

  lemma ExpiryIsPermanent(run: WorkflowRun, earlier: Moment, later: Moment, retention: Retention)
    requires earlier <= later && RetentionExpired(run, earlier, retention)
    ensures RetentionExpired(run, later, retention)
  {
  }

  /** A run marked for deletion stays marked as the scan time moves on. */
  lemma DeleteIsPermanent(cx: Context, later: Moment, run: WorkflowRun, selected: Selections)
    requires cx.scannedAt <= later
    requires ClassifyRun(cx, run, selected).decision == Delete
    ensures ClassifyRun(cx.(scannedAt := later), run, selected).decision == Delete
  {
    var retention := ClassifyByRetention(cx, run).retention.value;
    ExpiryIsPermanent(run, cx.scannedAt, later, retention);
  }

  /** Recording more protections never adds a deletion. */
  lemma ProtectionNeverAddsDelete(cx: Context, more: seq<Protection>, run: WorkflowRun, selected: Selections)
    requires forall e :: e in cx.entries ==> e in more
    requires ClassifyRun(cx.(entries := more), run, selected).decision == Delete
    ensures ClassifyRun(cx, run, selected).decision == Delete
  {
    MoreEntriesNeverUnprotect(cx.entries, more, cx.instance, cx.account, run);
  }

  function InsertRule(config: PolicyConfig, at: nat, rule: PolicyRule): PolicyConfig
    requires at <= |config.rules|
  {
    config.(rules := config.rules[..at] + [rule] + config.rules[at..])
  }

  lemma InsertedMembers(config: PolicyConfig, at: nat, rule: PolicyRule)
    requires at <= |config.rules|
    ensures forall r :: r in InsertRule(config, at, rule).rules <==> r == rule || r in config.rules
  {
  }

  /** Identities retained under some rules are retained when rules are added. */
  lemma SelectionsGrow(globs: Globs, rules: seq<PolicyRule>, more: seq<PolicyRule>, runs: seq<WorkflowRun>,
                       a: Selections, b: Selections)
    requires forall r :: r in rules ==> r in more
    requires Records(a, globs, rules, runs) && Records(b, globs, more, runs)
    ensures a.Keys <= b.Keys
  {
    hide Retains, Records;
    forall identity | identity in a
      ensures identity in b
    {
      RecordedIdentities(a, globs, rules, runs, identity);
      RecordedIdentities(b, globs, more, runs, identity);
      var ruleId :| Selects(globs, rules, runs, identity, ruleId);
      var i :| 0 <= i < |rules| && rules[i].id == ruleId && Retains(globs, rules[i], runs, identity);
      assert rules[i] in more;
      var j :| 0 <= j < |more| && more[j] == rules[i];
      assert Selects(globs, more, runs, identity, ruleId);
    }
  }

  /**
   * A rule that only protects or keeps the latest, put anywhere in the policy, never adds a
   * deletion: `selected` and `after` are the selections before and after it was added.
   */
  lemma SafeRuleNeverAddsDelete(cx: Context, at: nat, rule: PolicyRule, runs: seq<WorkflowRun>, run: WorkflowRun,
                                selected: Selections, after: Selections)
    requires at <= |cx.config.rules| && !DeclaresRetention(rule)
    requires Records(selected, cx.globs, cx.config.rules, runs)
    requires Records(after, cx.globs, InsertRule(cx.config, at, rule).rules, runs)
    requires ClassifyRun(cx.(config := InsertRule(cx.config, at, rule)), run, after).decision == Delete
    ensures ClassifyRun(cx, run, selected).decision == Delete
  {
    var wider := cx.(config := InsertRule(cx.config, at, rule));
    InsertedMembers(cx.config, at, rule);
    SelectionsGrow(cx.globs, cx.config.rules, wider.config.rules, runs, selected, after);
    DeleteMeaning(wider, run, after);
    DeleteMeaning(cx, run, selected);
    assert forall r :: MatchesAndRetains(cx, run, r) <==> MatchesAndRetains(wider, run, r);
    assert forall r :: Governs(cx, run, r) <==> Governs(wider, run, r);
    assert forall retention :: InForce(wider, run, retention) ==> InForce(cx, run, retention);
    assert !PolicyProtects(cx, run);
  }

  // --- the whole snapshot -------------------------------------------------------------------------

  function Count(decisions: seq<RunDecision>, d: Decision): nat {
    |Filter(decisions, (item: RunDecision) => item.decision == d)|
  }

  /** The four decision counts always add up to the size of the snapshot. */
  lemma {:induction false} CountsCover(decisions: seq<RunDecision>)
    ensures Count(decisions, Keep) + Count(decisions, Delete)
            + Count(decisions, Shielded) + Count(decisions, ManualReview) == |decisions|
  {
    if decisions != [] {
      CountsCover(decisions[..|decisions| - 1]);
    }
  }

  function Classification(cx: Context, runs: seq<WorkflowRun>, selected: Selections): (r: seq<RunDecision>)
    ensures |r| == |runs|
  {
    seq(|runs|, i requires 0 <= i < |runs| => ClassifyRun(cx, runs[i], selected))
  }

  /** `classify_workflow_run_snapshot`: selections once, then one decision per run, in order. */
  method ClassifySnapshot(cx: Context, runs: seq<WorkflowRun>)
    returns (decisions: seq<RunDecision>, selected: Selections)
    ensures Records(selected, cx.globs, cx.config.rules, runs)
    ensures decisions == Classification(cx, runs, selected)
  {
    hide ClassifyRun, Records;
    selected := KeepLatestSelections(cx.globs, cx.config.rules, runs);
    decisions := [];
    for i := 0 to |runs|
      invariant |decisions| == i
      invariant forall k :: 0 <= k < i ==> decisions[k] == ClassifyRun(cx, runs[k], selected)
    {
      decisions := decisions + [ClassifyRun(cx, runs[i], selected)];
    }
  }

  function DeleteIdentities(decisions: seq<RunDecision>): set<Identity> {
    set i | 0 <= i < |decisions| && decisions[i].decision == Delete :: decisions[i].identity
  }

  /** The identities handed to purge planning are the condemned runs' identities, no more and no fewer. */
  lemma DeleteIdentitiesMeaning(cx: Context, runs: seq<WorkflowRun>, decisions: seq<RunDecision>, selected: Selections,
                                identity: Identity)
    requires |decisions| == |runs|
    requires forall i :: 0 <= i < |runs| ==> decisions[i] == ClassifyRun(cx, runs[i], selected)
    ensures identity in DeleteIdentities(decisions)
            <==> exists i :: 0 <= i < |runs| && IdentityOf(runs[i]) == identity && Condemned(cx, runs[i], selected)
  {
    forall i | 0 <= i < |runs|
      ensures decisions[i].identity == IdentityOf(runs[i])
      ensures decisions[i].decision == Delete <==> Condemned(cx, runs[i], selected)
    {
      DeleteMeaning(cx, runs[i], selected);
    }
  }
}

/**
 * Retention of runs said in the reader's terms: calendar days, the selectors of a rule, the newest runs of
 * a family. Nothing here goes through the classifier's own helpers, so each of them is pinned to a meaning.
 */
module RetentionMeaning {
  import opened Prelude
  import opened Domain
  import opened Policy
  import opened Sorting
  import opened BusinessDays
  import opened KeepLatest
  import opened RunProtections
  import opened RunEngine

  // --- time ---------------------------------------------------------------------------------------------

  /** Monday to Friday; day 0 is Thursday, 1970-01-01. */
  predicate OnWeekday(day: int) { (day + 3) % 7 <= 4 }

  function WeekdaysIn(from: int, upto: int): set<int> { set d | from < d <= upto && OnWeekday(d) }

  lemma {:induction false} WeekdaysCounted(from: int, upto: int)
    ensures |WeekdaysIn(from, upto)| == BusinessDaysIn(from, upto)
    decreases upto - from
  {
    if upto <= from {
      assert WeekdaysIn(from, upto) == {};
    } else {
      WeekdaysCounted(from, upto - 1);
      var before := WeekdaysIn(from, upto - 1);
      assert WeekdaysIn(from, upto) == if OnWeekday(upto) then before + {upto} else before;
    }
  }

  /** The first day by which exactly `n` weekdays have passed since `day`. */
  ghost predicate IsDueDay(day: int, due: int, n: nat) {
    && due >= day && |WeekdaysIn(day, due)| == n
    && forall d :: day <= d < due ==> |WeekdaysIn(day, d)| < n
  }

  lemma {:induction false} MoreDays(from: int, a: int, b: int)
    requires from <= a <= b
    ensures BusinessDaysIn(from, a) <= BusinessDaysIn(from, b)
    ensures a < b && IsBusinessDay(b) ==> BusinessDaysIn(from, a) < BusinessDaysIn(from, b)
    decreases b - a
  {
    if a < b {
      MoreDays(from, a, b - 1);
    }
  }

  lemma DueDayIsNth(day: int, n: nat)
    ensures IsDueDay(day, NthBusinessDay(day, n), n)
    ensures forall due :: IsDueDay(day, due, n) ==> due == NthBusinessDay(day, n)
  {
    var nth := NthBusinessDay(day, n);
    NthLands(day, n);
    WeekdaysCounted(day, nth);
    forall d | day <= d < nth ensures |WeekdaysIn(day, d)| < n {
      WeekdaysCounted(day, d);
      MoreDays(day, d, nth);
      assert NthBusinessDay(day, 0) == day;
    }
    forall due | IsDueDay(day, due, n) ensures due == nth {
    }
  }

  /**
   * The retention has run out. An elapsed day is 86,400 seconds of whole age since creation, where an age
   * beyond 64 bits would count as enough. A weekday deadline is due at the hour of creation, and a deadline
   * the calendar cannot hold is never due.
   */
  ghost predicate Overdue(createdAt: Moment, scannedAt: Moment, retention: Retention) {
    match retention
    case ElapsedDays(days) =>
      var age := if scannedAt <= createdAt then 0 else (scannedAt - createdAt) / 1_000_000_000;
      age >= days * 86_400 || age >= 0xFFFF_FFFF_FFFF_FFFF
    case Weekdays(days) =>
      var day := createdAt / 86_400_000_000_000;
      exists due :: IsDueDay(day, due, days) && due <= 95_026_236
                    && scannedAt >= createdAt + (due - day) * 86_400_000_000_000
  }

  lemma ExpiryMeaning(run: WorkflowRun, scannedAt: Moment, retention: Retention)
    ensures RetentionExpired(run, scannedAt, retention) <==> Overdue(run.createdAt, scannedAt, retention)
  {
    hide NthBusinessDay, IsDueDay;
    if retention.Weekdays? {
      DueDayIsNth(run.createdAt / 86_400_000_000_000, retention.days);
    }
  }

  /** No moment the calendar can hold is so late that the 64-bit limit matters. */
  lemma OverdueInDays(createdAt: Moment, scannedAt: Moment, days: U64)
    requires Representable(createdAt) && Representable(scannedAt)
    ensures Overdue(createdAt, scannedAt, ElapsedDays(days)) <==>
            days == 0 || scannedAt - createdAt >= days * 86_400_000_000_000
  {
  }

  // --- rules ------------------------------------------------------------------------------------------------

  /** A selector that is not set allows everything; one that is set needs a value it matches. */
  predicate Allows(globs: Globs, selector: Option<string>, value: Option<string>) {
    match (selector, value)
    case (None, _) => true
    case (Some(_), None) => false
    case (Some(pattern), Some(text)) => globs.parses(pattern) && globs.isMatch(pattern, text)
  }

  /** The rule is about workflow runs, and none of its five run selectors excludes this one. */
  predicate Applies(globs: Globs, rule: PolicyRule, run: WorkflowRun) {
    && rule.resource == WorkflowRunResource
    && Allows(globs, rule.repository, Some(run.repository.fullName))
    && Allows(globs, rule.workflow, run.workflowName)
    && Allows(globs, rule.branch, run.headBranch)
    && Allows(globs, rule.event, Some(run.event))
    && Allows(globs, rule.conclusion, run.conclusion)
  }

  /** How many selectors are set. */
  function Selectors(rule: PolicyRule): nat {
    One(rule.repository) + One(rule.workflow) + One(rule.artifact) + One(rule.branch)
    + One(rule.key) + One(rule.gitRef) + One(rule.event) + One(rule.conclusion)
  }

  function One(selector: Option<string>): nat { if selector.Some? then 1 else 0 }

  lemma RuleMeaning(globs: Globs, rule: PolicyRule, run: WorkflowRun)
    ensures rule.MatchesWorkflowRun(globs, run) <==> Applies(globs, rule, run)
    ensures rule.Specificity() == Selectors(rule)
  {
    GivenIsOne(rule.repository);
    GivenIsOne(rule.workflow);
    GivenIsOne(rule.artifact);
    GivenIsOne(rule.branch);
    GivenIsOne(rule.key);
    GivenIsOne(rule.gitRef);
    GivenIsOne(rule.event);
    GivenIsOne(rule.conclusion);
    hide Given, One;
  }

  lemma GivenIsOne(selector: Option<string>)
    ensures |Given(selector)| == One(selector)
  {
  }

  /** The rule asks for this retention; days in the file mean elapsed days. */
  predicate Asks(rule: PolicyRule, retention: Retention) {
    match retention
    case ElapsedDays(days) => rule.keepDays == Some(days)
    case Weekdays(days) => rule.keepDays.None? && rule.keepBusinessDays == Some(days)
  }

  ghost predicate AsksSomething(cx: Context, run: WorkflowRun, rule: PolicyRule) {
    rule in cx.config.rules && Applies(cx.globs, rule, run) && exists retention :: Asks(rule, retention)
  }

  /** No applying rule that asks for a retention has more selectors. */
  ghost predicate Strongest(cx: Context, run: WorkflowRun, rule: PolicyRule) {
    AsksSomething(cx, run, rule)
    && forall other :: AsksSomething(cx, run, other) ==> Selectors(other) <= Selectors(rule)
  }

  /** Without any rule: weekdays if the defaults name them, else elapsed days, thirty of them if none are named. */
  predicate IsDefault(runs: RunDefaults, retention: Retention) {
    match (runs.keepBusinessDays, runs.keepDays)
    case (Some(days), _) => retention == Weekdays(days)
    case (None, Some(days)) => retention == ElapsedDays(days)
    case (None, None) => retention == ElapsedDays(30)
  }

  /** All strongest rules ask for this one retention. */
  ghost predicate Governing(cx: Context, run: WorkflowRun, retention: Retention) {
    if exists rule :: AsksSomething(cx, run, rule)
    then forall rule :: Strongest(cx, run, rule) ==> Asks(rule, retention)
    else IsDefault(cx.config.defaults.runs, retention)
  }

  lemma AsksMeaning(rule: PolicyRule)
    ensures DeclaresRetention(rule) <==> exists retention :: Asks(rule, retention)
    ensures DeclaresRetention(rule) ==> forall retention :: Asks(rule, retention) <==> retention == RetentionOf(rule)
  {
    if DeclaresRetention(rule) {
      assert Asks(rule, RetentionOf(rule));
    }
  }

  lemma GoverningMeaning(cx: Context, run: WorkflowRun)
    ensures forall rule :: AsksSomething(cx, run, rule) <==> MatchesAndRetains(cx, run, rule)
    ensures forall rule :: Strongest(cx, run, rule) <==> Governs(cx, run, rule)
    ensures forall retention :: Governing(cx, run, retention) <==> InForce(cx, run, retention)
  {
    hide Applies, Selectors, PolicyRule.MatchesWorkflowRun, PolicyRule.Specificity, Asks;
    hide DeclaresRetention, RetentionOf;
    forall rule: PolicyRule
      ensures rule.MatchesWorkflowRun(cx.globs, run) <==> Applies(cx.globs, rule, run)
      ensures rule.Specificity() == Selectors(rule)
      ensures DeclaresRetention(rule) <==> exists retention :: Asks(rule, retention)
      ensures DeclaresRetention(rule) ==> forall retention :: Asks(rule, retention) <==> retention == RetentionOf(rule)
    {
      RuleMeaning(cx.globs, rule, run);
      AsksMeaning(rule);
    }
    assert forall rule :: AsksSomething(cx, run, rule) <==> MatchesAndRetains(cx, run, rule);
    assert forall rule :: Strongest(cx, run, rule) <==> Governs(cx, run, rule);
  }

  // --- the decision ------------------------------------------------------------------------------------------

  ghost predicate ShieldedByRule(cx: Context, run: WorkflowRun, rule: PolicyRule) {
    rule in cx.config.rules && Applies(cx.globs, rule, run) && rule.protect == Some(true)
  }

  /** No local entry, no protecting rule and no keep-latest record speaks for this completed run. */
  ghost predicate Unshielded(cx: Context, run: WorkflowRun, selected: Selections) {
    && (forall e :: e in cx.entries ==> !NamesRun(e, cx.instance, cx.account, run))
    && EqIgnoreAsciiCase(run.status, "completed")
    && (forall rule :: !ShieldedByRule(cx, run, rule))
    && Identity(run.repository.fullName, run.id) !in selected
  }

  /** One reason for every rule of the policy that satisfies `p`, in policy order. */
  ghost predicate Cites(reasons: seq<Reason>, code: ReasonCode, rules: seq<PolicyRule>, p: PolicyRule -> bool) {
    if rules == [] then reasons == []
    else if !p(rules[|rules| - 1]) then Cites(reasons, code, rules[..|rules| - 1], p)
    else
      && reasons != [] && reasons[|reasons| - 1] == Reason(code, Some(rules[|rules| - 1].id))
      && Cites(reasons[..|reasons| - 1], code, rules[..|rules| - 1], p)
  }

  /** Everything a decision says, each field fixed by the first cause that applies. */
  ghost predicate DecisionSays(cx: Context, run: WorkflowRun, selected: Selections, d: RunDecision) {
    var identity := Identity(run.repository.fullName, run.id);
    d.identity == identity &&
    if exists e :: e in cx.entries && Matches(e, cx.instance, cx.account, run) then
      d.decision == Shielded && d.retention == None && d.reasons == [Reason(LocalProtection, None)]
    else if exists e :: e in cx.entries && NamesRun(e, cx.instance, cx.account, run) then
      && d.decision == ManualReview && d.retention == None && |d.reasons| == 1 && d.reasons[0].ruleId == None
      && d.reasons[0].code.LocalProtectionReview?
      && ReviewIsDue(cx.entries, cx.instance, cx.account, run, d.reasons[0].code.code)
    else if !EqIgnoreAsciiCase(run.status, "completed") then
      d.decision == Keep && d.retention == None && d.reasons == [Reason(RunNotCompleted, None)]
    else if exists rule :: ShieldedByRule(cx, run, rule) then
      && d.decision == Shielded && d.retention == None
      && Cites(d.reasons, ExplicitProtection, cx.config.rules, rule => ShieldedByRule(cx, run, rule))
    else if identity in selected then
      && d.decision == Keep && d.retention == None && |d.reasons| == |selected[identity]|
      && forall i :: 0 <= i < |d.reasons| ==> d.reasons[i] == Reason(KeepLatestRule, Some(selected[identity][i]))
    else RetentionSays(cx, run, d)
  }

  ghost predicate RetentionSays(cx: Context, run: WorkflowRun, d: RunDecision) {
    if forall retention :: !Governing(cx, run, retention) then
      && d.decision == ManualReview && d.retention == None
      && Cites(d.reasons, ConflictingRetentionRules, cx.config.rules, rule => Strongest(cx, run, rule))
    else
      && d.retention.Some? && Governing(cx, run, d.retention.value)
      && var overdue := Overdue(run.createdAt, cx.scannedAt, d.retention.value);
         && d.decision == (if overdue then Delete else Keep)
         && if exists rule :: AsksSomething(cx, run, rule) then
              Cites(d.reasons, if overdue then RuleRetentionExpired else RuleRetentionActive, cx.config.rules,
                    rule => Strongest(cx, run, rule))
            else d.reasons == [Reason(if overdue then DefaultRetentionExpired else DefaultRetentionActive, None)]
  }

  lemma {:induction false} FilteredAreCited(code: ReasonCode, rules: seq<PolicyRule>, keep: PolicyRule -> bool,
                                            p: PolicyRule -> bool)
    requires forall rule :: rule in rules ==> (keep(rule) <==> p(rule))
    ensures Cites(Reasons(code, Filter(rules, keep)), code, rules, p)
    decreases |rules|
  {
    if rules != [] {
      var n := |rules| - 1;
      FilteredAreCited(code, rules[..n], keep, p);
      var before := Filter(rules[..n], keep);
      assert keep(rules[n]) <==> p(rules[n]);
      if keep(rules[n]) {
        assert Filter(rules, keep) == before + [rules[n]];
        OneMoreReason(code, before, rules[n]);
      } else {
        assert Filter(rules, keep) == before;
      }
    } else {
      assert Reasons(code, Filter(rules, keep)) == [];
    }
  }

  lemma OneMoreReason(code: ReasonCode, rules: seq<PolicyRule>, rule: PolicyRule)
    ensures Reasons(code, rules + [rule]) == Reasons(code, rules) + [Reason(code, Some(rule.id))]
    ensures Reasons(code, rules + [rule])[..|rules|] == Reasons(code, rules)
  {
  }

  lemma {:induction false} FilterTwice(rules: seq<PolicyRule>, p: PolicyRule -> bool, q: PolicyRule -> bool,
                                       both: PolicyRule -> bool)
    requires forall rule :: both(rule) <==> p(rule) && q(rule)
    ensures Filter(Filter(rules, p), q) == Filter(rules, both)
  {
    if rules != [] {
      var n := |rules| - 1;
      FilterTwice(rules[..n], p, q, both);
      var before := Filter(rules[..n], p);
      if p(rules[n]) {
        FilterAppends(before, rules[n], q);
      } else {
        assert Filter(rules, p) == before;
      }
    }
  }

  lemma FilterAppends(rules: seq<PolicyRule>, rule: PolicyRule, q: PolicyRule -> bool)
    ensures Filter(rules + [rule], q) == Filter(rules, q) + if q(rule) then [rule] else []
  {
    assert (rules + [rule])[..|rules|] == rules;
  }

  lemma ShieldingMeaning(cx: Context, run: WorkflowRun)
    ensures PolicyProtects(cx, run) <==> exists rule :: ShieldedByRule(cx, run, rule)
    ensures Cites(Reasons(ExplicitProtection, ProtectionRules(cx, run)), ExplicitProtection, cx.config.rules,
                  rule => ShieldedByRule(cx, run, rule))
  {
    hide Applies, PolicyRule.MatchesWorkflowRun, Reasons, Filter, Cites;
    forall rule: PolicyRule ensures rule.MatchesWorkflowRun(cx.globs, run) <==> Applies(cx.globs, rule, run) {
      RuleMeaning(cx.globs, rule, run);
    }
    var applies := (rule: PolicyRule) => rule.MatchesWorkflowRun(cx.globs, run);
    var both := (rule: PolicyRule) => rule.MatchesWorkflowRun(cx.globs, run) && rule.protect == Some(true);
    FilterTwice(cx.config.rules, applies, (rule: PolicyRule) => rule.protect == Some(true), both);
    FilteredAreCited(ExplicitProtection, cx.config.rules, both, rule => ShieldedByRule(cx, run, rule));
  }

  /** The most specific rules, cited in policy order. */
  lemma StrongestAreCited(cx: Context, run: WorkflowRun, code: ReasonCode)
    requires RetentionRules(cx, run) != []
    ensures Cites(Reasons(code, MostSpecific(RetentionRules(cx, run))), code, cx.config.rules,
                  rule => Strongest(cx, run, rule))
  {
    var rules := RetentionRules(cx, run);
    GoverningMeaning(cx, run);
    SomeGoverns(cx, run);
    var applies := (rule: PolicyRule) => rule.MatchesWorkflowRun(cx.globs, run);
    var asks := (rule: PolicyRule) => rule.MatchesWorkflowRun(cx.globs, run) && DeclaresRetention(rule);
    hide PolicyRule.MatchesWorkflowRun, DeclaresRetention, PolicyRule.Specificity, Applies, Asks;
    hide Reasons, Filter, Cites, MaxSpecificity;
    FilterTwice(cx.config.rules, applies, DeclaresRetention, asks);
    var top := MaxSpecificity(rules);
    var best := (rule: PolicyRule) => asks(rule) && rule.Specificity() == top;
    FilterTwice(cx.config.rules, asks, (rule: PolicyRule) => rule.Specificity() == top, best);
    assert MostSpecific(rules) == Filter(cx.config.rules, best);
    forall rule | rule in cx.config.rules ensures best(rule) <==> Strongest(cx, run, rule) {
      assert rule in MostSpecific(rules) <==> best(rule);
    }
    FilteredAreCited(code, cx.config.rules, best, rule => Strongest(cx, run, rule));
  }

  /** The part of the decision that age decides. */
  lemma RetentionIsTold(cx: Context, run: WorkflowRun)
    ensures RetentionSays(cx, run, ClassifyByRetention(cx, run))
  {
    var d := ClassifyByRetention(cx, run);
    var rules := RetentionRules(cx, run);
    RetentionRulesMeaning(cx, run);
    GoverningMeaning(cx, run);
    ResolverMeaning(cx, run);
    hide Reasons, Filter, Cites, MostSpecific, PolicyRule.MatchesWorkflowRun, PolicyRule.Specificity, Overdue;
    hide Governing, InForce, Applies, Asks, RetentionExpired, DefaultRetention, Strongest, RetentionRules;
    if d.retention.Some? {
      ExpiryMeaning(run, cx.scannedAt, d.retention.value);
    }
    if rules != [] {
      assert rules[0] in rules;
      assert AsksSomething(cx, run, rules[0]);
      StrongestAreCited(cx, run, ConflictingRetentionRules);
      StrongestAreCited(cx, run, RuleRetentionExpired);
      StrongestAreCited(cx, run, RuleRetentionActive);
    }
  }

  /** Every decision, field by field, for every policy, protection index and run. */
  lemma DecisionIsTold(cx: Context, run: WorkflowRun, selected: Selections)
    requires DistinctKeys(cx.entries)
    ensures DecisionSays(cx, run, selected, ClassifyRun(cx, run, selected))
  {
    hide Assess, Matches, NamesRun, Reasons, Cites, ClassifyByRetention, RetentionSays, DistinctKeys;
    hide ProtectionRules, PolicyProtects, ShieldedByRule, EqIgnoreAsciiCase, ReviewIsDue;
    AssessedAs(cx.entries, cx.instance, cx.account, run);
    if Assess(cx.entries, cx.instance, cx.account, run).NoEntry? {
      ShieldingMeaning(cx, run);
      SomeProtectionIff(cx, run);
      RetentionIsTold(cx, run);
      ByRetentionIdentity(cx, run);
    }
  }

  lemma AssessedAs(entries: seq<Protection>, instance: string, account: Account, run: WorkflowRun)
    requires DistinctKeys(entries)
    ensures var r := Assess(entries, instance, account, run);
            if exists e :: e in entries && Matches(e, instance, account, run) then r.Protected?
            else if exists e :: e in entries && NamesRun(e, instance, account, run) then
              r.Review? && ReviewIsDue(entries, instance, account, run, r.code)
            else r == NoEntry
  {
    AssessmentMeaning(entries, instance, account, run);
  }

  lemma ByRetentionIdentity(cx: Context, run: WorkflowRun)
    ensures ClassifyByRetention(cx, run).identity == Identity(run.repository.fullName, run.id)
  {
    hide RetentionRules, DefaultRetention, RetentionExpired, Reasons;
  }

  /** Delete: nothing speaks for the run, and the one governing retention is overdue since its creation. */
  lemma DeleteIsDue(cx: Context, run: WorkflowRun, selected: Selections)
    ensures ClassifyRun(cx, run, selected).decision == Delete <==>
            && Unshielded(cx, run, selected)
            && exists retention :: Governing(cx, run, retention) && Overdue(run.createdAt, cx.scannedAt, retention)
  {
    DeleteMeaning(cx, run, selected);
    NoEntryMeaning(cx.entries, cx.instance, cx.account, run);
    ShieldingMeaning(cx, run);
    GoverningMeaning(cx, run);
    forall retention ensures RetentionExpired(run, cx.scannedAt, retention) <==>
        Overdue(run.createdAt, cx.scannedAt, retention) {
      ExpiryMeaning(run, cx.scannedAt, retention);
    }
    var key := KeyForRun(cx.instance, cx.account, run);
    forall e: Protection ensures SameRunId(e, key) <==> NamesRun(e, cx.instance, cx.account, run) {}
    hide ClassifyRun, RetentionExpired, Overdue, Governing, InForce, PolicyProtects, ShieldedByRule;
    hide SameRunId, NamesRun, EqIgnoreAsciiCase;
  }

  lemma SameRules(cx: Context, run: WorkflowRun, other: WorkflowRun)
    requires other == run.(updatedAt := other.updatedAt)
    ensures MatchingRules(cx, other) == MatchingRules(cx, run)
    ensures ClassifyByRetention(cx, other) == ClassifyByRetention(cx, run)
  {
    FilterCongruence(cx.config.rules, (rule: PolicyRule) => rule.MatchesWorkflowRun(cx.globs, other),
                     (rule: PolicyRule) => rule.MatchesWorkflowRun(cx.globs, run));
    hide MatchingRules, Filter, MostSpecific, Reasons, RetentionOf, DefaultRetention, NaiveDeadline, ElapsedDaysExpired;
  }

  /** When a run was last updated decides nothing once the newest runs are chosen. */
  lemma UpdatesChangeNothing(cx: Context, run: WorkflowRun, updatedAt: Moment, selected: Selections)
    ensures ClassifyRun(cx, run.(updatedAt := updatedAt), selected) == ClassifyRun(cx, run, selected)
  {
    var other := run.(updatedAt := updatedAt);
    SameRules(cx, run, other);
    RerunKeepsProtection(cx.entries, cx.instance, cx.account, run, other);
    hide Assess, MatchingRules, ClassifyByRetention, Filter, Reasons, EqIgnoreAsciiCase;
  }

  // --- the newest of a family ---------------------------------------------------------------------------------

  /** Two runs a rule counts together: one repository and workflow, and one branch unless the rule ignores it. */
  predicate SameFamily(rule: PolicyRule, a: WorkflowRun, b: WorkflowRun) {
    && a.repository.fullName == b.repository.fullName && a.workflowId == b.workflowId
    && (rule.keepLatestBy == Some(Workflow) || a.headBranch == b.headBranch)
  }

  lemma FamilyMeaning(rule: PolicyRule, a: WorkflowRun, b: WorkflowRun)
    ensures FamilyOf(rule, a) == FamilyOf(rule, b) <==> SameFamily(rule, a, b)
  {
  }

  /** What runs are compared by, most telling first. */
  function RankKeys(run: WorkflowRun): seq<int> {
    [run.createdAt, run.updatedAt, run.runNumber, run.runAttempt, run.id]
  }

  /** Key `k` is the first that differs, and it is larger. */
  ghost predicate AheadAt(a: WorkflowRun, b: WorkflowRun, k: nat) {
    k < 5 && RankKeys(a)[k] > RankKeys(b)[k] && forall j :: 0 <= j < k ==> RankKeys(a)[j] == RankKeys(b)[j]
  }

  ghost predicate Outranks(a: WorkflowRun, b: WorkflowRun) { exists k :: AheadAt(a, b, k) }

  lemma NewerMeaning(a: WorkflowRun, b: WorkflowRun)
    ensures Newer(a, b) <==> Outranks(a, b)
  {
    var x, y := RankKeys(a), RankKeys(b);
    var k := if x[0] != y[0] then 0 else if x[1] != y[1] then 1 else if x[2] != y[2] then 2
             else if x[3] != y[3] then 3 else 4;
    assert AheadAt(a, b, k) <==> x[k] > y[k];
    if Outranks(a, b) {
      var m :| AheadAt(a, b, m);
      assert m == k;
    }
  }

  /** The family members that outrank a run, among those the rule applies to. */
  ghost function Rivals(globs: Globs, rule: PolicyRule, runs: seq<WorkflowRun>, run: WorkflowRun): set<WorkflowRun> {
    set other | other in runs && EqIgnoreAsciiCase(other.status, "completed") && Applies(globs, rule, other)
                && SameFamily(rule, other, run) && Outranks(other, run)
  }

  lemma RivalsAreAhead(globs: Globs, rule: PolicyRule, runs: seq<WorkflowRun>, run: WorkflowRun)
    requires DistinctIdentities(runs) && run in Members(globs, rule, runs, FamilyOf(rule, run))
    ensures Ahead(Members(globs, rule, runs, FamilyOf(rule, run)), RanksBefore, run) == Rivals(globs, rule, runs, run)
  {
    hide Applies, PolicyRule.MatchesWorkflowRun, FamilyOf, SameFamily, Newer, Outranks, EqIgnoreAsciiCase;
    var members := Members(globs, rule, runs, FamilyOf(rule, run));
    forall other
      ensures other in Ahead(members, RanksBefore, run) <==> other in Rivals(globs, rule, runs, run)
    {
      RuleMeaning(globs, rule, other);
      FamilyMeaning(rule, other, run);
      NewerMeaning(other, run);
      NewerMeaning(run, other);
      if other in members && other != run {
        NeverTied(globs, rule, runs, other, run);
      }
      NotAheadOfItself(run);
    }
  }

  lemma NotAheadOfItself(run: WorkflowRun)
    ensures !Newer(run, run)
  {
  }

  lemma NeverTied(globs: Globs, rule: PolicyRule, runs: seq<WorkflowRun>, a: WorkflowRun, b: WorkflowRun)
    requires DistinctIdentities(runs) && a in runs && b in runs && a != b && FamilyOf(rule, a) == FamilyOf(rule, b)
    ensures Newer(a, b) <==> !Newer(b, a)
  {
  }

  lemma MembersDiffer(globs: Globs, rule: PolicyRule, runs: seq<WorkflowRun>, family: Family)
    requires DistinctIdentities(runs)
    ensures DistinctBy(Members(globs, rule, runs, family), (run: WorkflowRun) => run)
  {
    var members := Members(globs, rule, runs, family);
    forall i, j | 0 <= i < j < |members| ensures members[i] != members[j] {
      MemberOnce(globs, rule, runs, family, members[i]);
      if members[i] == members[j] {
        TwiceMeansTwice(members, i, j);
      }
    }
  }

  /** A rule keeps a run exactly when fewer than its number of family members outrank the run. */
  lemma KeptByRank(globs: Globs, rule: PolicyRule, runs: seq<WorkflowRun>, run: WorkflowRun)
    requires DistinctIdentities(runs) && run in runs
    ensures Retains(globs, rule, runs, Identity(run.repository.fullName, run.id)) <==>
            && rule.keepLatest.Some? && EqIgnoreAsciiCase(run.status, "completed") && Applies(globs, rule, run)
            && |Rivals(globs, rule, runs, run)| < rule.keepLatest.value
  {
    hide Applies, PolicyRule.MatchesWorkflowRun, RanksBefore, EqIgnoreAsciiCase, Sort, Take, Rivals;
    var family := FamilyOf(rule, run);
    var members := Members(globs, rule, runs, family);
    RuleMeaning(globs, rule, run);
    assert forall other :: other in runs && IdentityOf(other) == IdentityOf(run) ==> other == run;
    NewestOfFamily(globs, rule, runs, family);
    if rule.keepLatest.Some? && run in members {
      RanksIsPreorder();
      FamilyHasNoTies(globs, rule, runs, family);
      MembersDiffer(globs, rule, runs, family);
      TakenByRank(members, RanksBefore, rule.keepLatest.value, run);
      RivalsAreAhead(globs, rule, runs, run);
    }
  }

  /** A run is spared by keep-latest exactly when some rule keeps it by rank. */
  lemma SparedByRank(globs: Globs, rules: seq<PolicyRule>, runs: seq<WorkflowRun>, selected: Selections,
                     run: WorkflowRun)
    requires Records(selected, globs, rules, runs) && DistinctIdentities(runs) && run in runs
    ensures Identity(run.repository.fullName, run.id) in selected <==> exists rule ::
              && rule in rules && rule.keepLatest.Some? && EqIgnoreAsciiCase(run.status, "completed")
              && Applies(globs, rule, run) && |Rivals(globs, rule, runs, run)| < rule.keepLatest.value
  {
    hide Applies, Rivals, Retains, Records, EqIgnoreAsciiCase;
    var identity := Identity(run.repository.fullName, run.id);
    RecordedIdentities(selected, globs, rules, runs, identity);
    forall rule: PolicyRule
      ensures Retains(globs, rule, runs, identity) <==>
              && rule.keepLatest.Some? && EqIgnoreAsciiCase(run.status, "completed") && Applies(globs, rule, run)
              && |Rivals(globs, rule, runs, run)| < rule.keepLatest.value
    {
      KeptByRank(globs, rule, runs, run);
    }
    if rule :| rule in rules && Retains(globs, rule, runs, identity) {
      var i :| 0 <= i < |rules| && rules[i] == rule;
      assert Selects(globs, rules, runs, identity, rule.id);
    }
  }

  /** The identities handed to purge planning are exactly those of the due runs. */
  lemma DeletedAreDue(cx: Context, runs: seq<WorkflowRun>, selected: Selections, identity: Identity)
    ensures identity in DeleteIdentities(Classification(cx, runs, selected)) <==> exists i ::
              && 0 <= i < |runs| && Identity(runs[i].repository.fullName, runs[i].id) == identity
              && Unshielded(cx, runs[i], selected)
              && exists retention :: Governing(cx, runs[i], retention)
                   && Overdue(runs[i].createdAt, cx.scannedAt, retention)
  {
    hide ClassifyRun, Unshielded, Governing, Overdue, Condemned;
    DeleteIdentitiesMeaning(cx, runs, Classification(cx, runs, selected), selected, identity);
    forall i | 0 <= i < |runs|
      ensures Condemned(cx, runs[i], selected) <==>
              && Unshielded(cx, runs[i], selected)
              && exists retention :: Governing(cx, runs[i], retention)
                   && Overdue(runs[i].createdAt, cx.scannedAt, retention)
    {
      DeleteMeaning(cx, runs[i], selected);
      DeleteIsDue(cx, runs[i], selected);
    }
  }
}

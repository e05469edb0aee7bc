/** Retention of artifacts in the reader's terms, as for runs: selectors, days since creation, rank by age. */
module ArtifactMeaning {
  import opened Prelude
  import opened Domain
  import opened Policy
  import opened Sorting
  import opened BusinessDays
  import opened ArtifactEngine
  import E = RunEngine
  import R = RetentionMeaning

  function WorkflowOf(a: Artifact): Option<string> {
    if a.workflowRun.Some? then a.workflowRun.value.workflowName else None
  }

  function BranchOf(a: Artifact): Option<string> {
    if a.workflowRun.Some? then a.workflowRun.value.headBranch else None
  }

  /** The rule is about artifacts, and none of its four artifact selectors excludes this one. */
  predicate Applies(globs: Globs, rule: PolicyRule, a: Artifact) {
    && rule.resource == ArtifactResource
    && R.Allows(globs, rule.repository, Some(a.repository.fullName))
    && R.Allows(globs, rule.workflow, WorkflowOf(a))
    && R.Allows(globs, rule.artifact, Some(a.name))
    && R.Allows(globs, rule.branch, BranchOf(a))
  }

  ghost predicate AsksDays(cx: ArtifactContext, a: Artifact, rule: PolicyRule) {
    rule in cx.config.rules && Applies(cx.globs, rule, a) && rule.keepDays.Some?
  }

  ghost predicate Strongest(cx: ArtifactContext, a: Artifact, rule: PolicyRule) {
    AsksDays(cx, a, rule)
    && forall other :: AsksDays(cx, a, other) ==> R.Selectors(other) <= R.Selectors(rule)
  }

  /** All strongest rules ask for this many days; without any rule the defaults do. */
  ghost predicate GoverningDays(cx: ArtifactContext, a: Artifact, days: U64) {
    if exists rule :: AsksDays(cx, a, rule)
    then forall rule :: Strongest(cx, a, rule) ==> rule.keepDays == Some(days)
    else days == cx.config.defaults.keepDays
  }

  ghost predicate ShieldedByRule(cx: ArtifactContext, a: Artifact, rule: PolicyRule) {
    rule in cx.config.rules && Applies(cx.globs, rule, a) && rule.protect == Some(true)
  }

  lemma RuleMeaning(globs: Globs, rule: PolicyRule, a: Artifact)
    ensures rule.MatchesArtifact(globs, a) <==> Applies(globs, rule, a)
    ensures rule.Specificity() == R.Selectors(rule)
  {
    var run := WorkflowRun(0, RepositoryRef(0, ""), 0, None, "", "", "", None, None, "", 0, 0, 0, 0);
    hide PolicyRule.Specificity, R.Selectors;
    R.RuleMeaning(globs, rule, run);
  }

  lemma DaysMeaning(cx: ArtifactContext, a: Artifact)
    ensures forall rule :: AsksDays(cx, a, rule) <==> RetainsArtifact(cx, a, rule)
    ensures forall rule :: Strongest(cx, a, rule) <==> GovernsArtifact(cx, a, rule)
    ensures forall days :: GoverningDays(cx, a, days) <==> DaysInForce(cx, a, days)
    ensures forall rule :: ShieldedByRule(cx, a, rule) <==> rule in ProtectingRules(cx, a)
  {
    hide Applies, R.Selectors, PolicyRule.MatchesArtifact, PolicyRule.Specificity;
    forall rule: PolicyRule
      ensures rule.MatchesArtifact(cx.globs, a) <==> Applies(cx.globs, rule, a)
      ensures rule.Specificity() == R.Selectors(rule)
    {
      RuleMeaning(cx.globs, rule, a);
    }
    assert forall rule :: AsksDays(cx, a, rule) <==> RetainsArtifact(cx, a, rule);
    assert forall rule :: Strongest(cx, a, rule) <==> GovernsArtifact(cx, a, rule);
  }

  lemma AgeMeaning(a: Artifact, scannedAt: Moment, days: U64)
    ensures ElapsedDaysExpired(a.createdAt, scannedAt, days) <==>
            R.Overdue(a.createdAt, scannedAt, E.ElapsedDays(days))
  {
  }

  // --- the decision -------------------------------------------------------------------------------------------

  /** Everything an artifact's decision says, each field fixed by the first cause that applies. */
  ghost predicate DecisionSays(cx: ArtifactContext, a: Artifact, kept: Kept, d: ArtifactDecision) {
    && d.artifactId == a.id && d.repository == a.repository.fullName && d.sizeInBytes == a.sizeInBytes
    && if exists rule :: ShieldedByRule(cx, a, rule) then
         && d.decision == E.Shielded && d.keepDays == None
         && R.Cites(d.reasons, E.ExplicitProtection, cx.config.rules, rule => ShieldedByRule(cx, a, rule))
       else if a.id in kept then
         && d.decision == E.Keep && d.keepDays == None && |d.reasons| == |kept[a.id]|
         && forall i :: 0 <= i < |d.reasons| ==> d.reasons[i] == E.Reason(E.KeepLatestRule, Some(kept[a.id][i]))
       else AgeSays(cx, a, d)
  }

  ghost predicate AgeSays(cx: ArtifactContext, a: Artifact, d: ArtifactDecision) {
    if forall days :: !GoverningDays(cx, a, days) then
      && d.decision == E.ManualReview && d.keepDays == None
      && R.Cites(d.reasons, E.ConflictingRetentionRules, cx.config.rules, rule => Strongest(cx, a, rule))
    else
      && d.keepDays.Some? && GoverningDays(cx, a, d.keepDays.value)
      && var overdue := R.Overdue(a.createdAt, cx.scannedAt, E.ElapsedDays(d.keepDays.value));
         && d.decision == (if overdue then E.Delete else E.Keep)
         && if exists rule :: AsksDays(cx, a, rule) then
              R.Cites(d.reasons, if overdue then E.RuleRetentionExpired else E.RuleRetentionActive, cx.config.rules,
                      rule => Strongest(cx, a, rule))
            else d.reasons == [E.Reason(if overdue then E.DefaultRetentionExpired else E.DefaultRetentionActive, None)]
  }

  lemma ShieldsAreCited(cx: ArtifactContext, a: Artifact)
    ensures ProtectingRules(cx, a) != [] <==> exists rule :: ShieldedByRule(cx, a, rule)
    ensures R.Cites(E.Reasons(E.ExplicitProtection, ProtectingRules(cx, a)), E.ExplicitProtection, cx.config.rules,
                    rule => ShieldedByRule(cx, a, rule))
  {
    DaysMeaning(cx, a);
    var rules := ProtectingRules(cx, a);
    if rules != [] {
      assert rules[0] in rules;
    }
    var applies := (rule: PolicyRule) => rule.MatchesArtifact(cx.globs, a);
    var both := (rule: PolicyRule) => rule.MatchesArtifact(cx.globs, a) && rule.protect == Some(true);
    R.FilterTwice(cx.config.rules, applies, (rule: PolicyRule) => rule.protect == Some(true), both);
    assert rules == Filter(cx.config.rules, both);
    hide Applies, PolicyRule.MatchesArtifact, E.Reasons, Filter, R.Cites, ProtectingRules;
    forall rule | rule in cx.config.rules ensures both(rule) <==> ShieldedByRule(cx, a, rule) {
      RuleMeaning(cx.globs, rule, a);
    }
    R.FilteredAreCited(E.ExplicitProtection, cx.config.rules, both, rule => ShieldedByRule(cx, a, rule));
  }

  lemma StrongestAreCited(cx: ArtifactContext, a: Artifact, code: E.ReasonCode)
    requires DeclaringRules(cx, a) != []
    ensures R.Cites(E.Reasons(code, E.MostSpecific(DeclaringRules(cx, a))), code, cx.config.rules,
                    rule => Strongest(cx, a, rule))
  {
    var rules := DeclaringRules(cx, a);
    DaysMeaning(cx, a);
    E.MostSpecificMeaning(rules);
    assert forall rule :: rule in rules <==> RetainsArtifact(cx, a, rule);
    var applies := (rule: PolicyRule) => rule.MatchesArtifact(cx.globs, a);
    var declares := (rule: PolicyRule) => rule.keepDays.Some?;
    var asks := (rule: PolicyRule) => rule.MatchesArtifact(cx.globs, a) && rule.keepDays.Some?;
    R.FilterTwice(cx.config.rules, applies, declares, asks);
    assert rules == Filter(cx.config.rules, asks);
    hide PolicyRule.MatchesArtifact, PolicyRule.Specificity, Applies, E.Reasons, Filter, R.Cites, E.MaxSpecificity;
    hide DeclaringRules;
    var top := E.MaxSpecificity(rules);
    var best := (rule: PolicyRule) => asks(rule) && rule.Specificity() == top;
    R.FilterTwice(cx.config.rules, asks, (rule: PolicyRule) => rule.Specificity() == top, best);
    assert E.MostSpecific(rules) == Filter(cx.config.rules, best);
    forall rule | rule in cx.config.rules ensures best(rule) <==> Strongest(cx, a, rule) {
      assert rule in E.MostSpecific(rules) <==> best(rule);
    }
    R.FilteredAreCited(code, cx.config.rules, best, rule => Strongest(cx, a, rule));
  }

  lemma DecideKeepsIdentity(cx: ArtifactContext, a: Artifact)
    ensures var d := ClassifyByAge(cx, a);
            d.artifactId == a.id && d.repository == a.repository.fullName && d.sizeInBytes == a.sizeInBytes
  {
    hide DeclaringRules, E.MostSpecific, E.Reasons, ElapsedDaysExpired;
  }

  lemma NobodyAsks(cx: ArtifactContext, a: Artifact)
    ensures DeclaringRules(cx, a) == [] <==> forall rule :: !AsksDays(cx, a, rule)
  {
    hide Applies, PolicyRule.MatchesArtifact;
    var rules := DeclaringRules(cx, a);
    forall rule: PolicyRule ensures rule in rules <==> AsksDays(cx, a, rule) {
      RuleMeaning(cx.globs, rule, a);
    }
    if rules != [] {
      assert rules[0] in rules;
    }
  }

  lemma AgeByDefault(cx: ArtifactContext, a: Artifact)
    requires DeclaringRules(cx, a) == []
    ensures AgeSays(cx, a, ClassifyByAge(cx, a))
  {
    hide DeclaringRules, R.Overdue, ElapsedDaysExpired, AsksDays, Strongest, R.Cites;
    NobodyAsks(cx, a);
    AgeMeaning(a, cx.scannedAt, cx.config.defaults.keepDays);
    assert GoverningDays(cx, a, cx.config.defaults.keepDays);
  }

  lemma DaysGovern(cx: ArtifactContext, a: Artifact)
    ensures var d := ClassifyByAge(cx, a);
            && (d.keepDays.Some? ==> GoverningDays(cx, a, d.keepDays.value))
            && (d.keepDays.None? ==> forall days :: !GoverningDays(cx, a, days))
  {
    DaysMeaning(cx, a);
    DaysResolved(cx, a);
    hide ClassifyByAge, GoverningDays, DaysInForce, ElapsedDaysExpired;
  }

  lemma AgeByRule(cx: ArtifactContext, a: Artifact)
    requires DeclaringRules(cx, a) != []
    ensures AgeSays(cx, a, ClassifyByAge(cx, a))
  {
    hide DeclaringRules, R.Overdue, ElapsedDaysExpired, AsksDays, Strongest, R.Cites, E.MostSpecific, E.Reasons;
    NobodyAsks(cx, a);
    DaysGovern(cx, a);
    hide GoverningDays;
    var d := ClassifyByAge(cx, a);
    if d.keepDays.Some? {
      AgeMeaning(a, cx.scannedAt, d.keepDays.value);
    }
    StrongestAreCited(cx, a, E.ConflictingRetentionRules);
    StrongestAreCited(cx, a, E.RuleRetentionExpired);
    StrongestAreCited(cx, a, E.RuleRetentionActive);
  }

  /** Every decision about an artifact, field by field, for every policy and every record of kept ids. */
  lemma ArtifactDecisionIsTold(cx: ArtifactContext, a: Artifact, kept: Kept)
    ensures DecisionSays(cx, a, kept, ClassifyArtifact(cx, a, kept))
  {
    hide ClassifyByAge, AgeSays, ProtectingRules, E.Reasons, R.Cites, ShieldedByRule;
    ShieldsAreCited(cx, a);
    DecideKeepsIdentity(cx, a);
    if DeclaringRules(cx, a) == [] {
      AgeByDefault(cx, a);
    } else {
      AgeByRule(cx, a);
    }
  }

  // --- the newest -----------------------------------------------------------------------------------------------

  function RankKeys(a: Artifact): seq<int> { [a.createdAt, a.updatedAt, a.id] }

  ghost predicate AheadAt(a: Artifact, b: Artifact, k: nat) {
    k < 3 && RankKeys(a)[k] > RankKeys(b)[k] && forall j :: 0 <= j < k ==> RankKeys(a)[j] == RankKeys(b)[j]
  }

  /** The first key that differs is larger. */
  ghost predicate Outranks(a: Artifact, b: Artifact) { exists k :: AheadAt(a, b, k) }

  lemma NewerMeaning(a: Artifact, b: Artifact)
    ensures NewerArtifact(a, b) <==> Outranks(a, b)
  {
    var x, y := RankKeys(a), RankKeys(b);
    var k := if x[0] != y[0] then 0 else if x[1] != y[1] then 1 else 2;
    assert AheadAt(a, b, k) <==> x[k] > y[k];
    if Outranks(a, b) {
      var m :| AheadAt(a, b, m);
      assert m == k;
    }
  }

  /** All artifacts of the scan the rule applies to that outrank this one, whatever their repository. */
  ghost function Rivals(globs: Globs, rule: PolicyRule, artifacts: seq<Artifact>, a: Artifact): set<Artifact> {
    set other | other in artifacts && Applies(globs, rule, other) && Outranks(other, a)
  }

  lemma MatchingDiffer(globs: Globs, rule: PolicyRule, artifacts: seq<Artifact>)
    requires DistinctBy(artifacts, (a: Artifact) => a.id)
    ensures DistinctBy(Matching(globs, rule, artifacts), (a: Artifact) => a)
    ensures NoTies(Matching(globs, rule, artifacts), ArtifactRanksBefore)
  {
    var matching := Matching(globs, rule, artifacts);
    forall i, j | 0 <= i < j < |matching| ensures matching[i] != matching[j] {
      FilterCounts(artifacts, (a: Artifact) => rule.MatchesArtifact(globs, a), matching[i]);
      OnceMeansOnce(artifacts, (a: Artifact) => a.id, matching[i]);
      if matching[i] == matching[j] {
        TwiceMeansTwice(matching, i, j);
      }
    }
    forall a, b | a in matching && b in matching && ArtifactRanksBefore(a, b) && ArtifactRanksBefore(b, a)
      ensures a == b
    {
      SameIdIsSame(artifacts, a, b);
    }
  }

  lemma SameIdIsSame(artifacts: seq<Artifact>, a: Artifact, b: Artifact)
    requires DistinctBy(artifacts, (a: Artifact) => a.id) && a in artifacts && b in artifacts && a.id == b.id
    ensures a == b
  {
    var i :| 0 <= i < |artifacts| && artifacts[i] == a;
    var j :| 0 <= j < |artifacts| && artifacts[j] == b;
  }

  lemma RivalsAreAhead(globs: Globs, rule: PolicyRule, artifacts: seq<Artifact>, a: Artifact)
    requires DistinctBy(artifacts, (x: Artifact) => x.id) && a in Matching(globs, rule, artifacts)
    ensures Ahead(Matching(globs, rule, artifacts), ArtifactRanksBefore, a) == Rivals(globs, rule, artifacts, a)
  {
    hide Applies, PolicyRule.MatchesArtifact, NewerArtifact, Outranks, DistinctBy, NoTies;
    MatchingDiffer(globs, rule, artifacts);
    var matching := Matching(globs, rule, artifacts);
    forall other
      ensures other in Ahead(matching, ArtifactRanksBefore, a) <==> other in Rivals(globs, rule, artifacts, a)
    {
      RuleMeaning(globs, rule, other);
      NewerMeaning(other, a);
      if other in matching && other != a {
        NeverTied(artifacts, other, a);
      }
      NotAheadOfItself(a);
    }
  }

  lemma NotAheadOfItself(a: Artifact)
    ensures !NewerArtifact(a, a)
  {
  }

  lemma NeverTied(artifacts: seq<Artifact>, a: Artifact, b: Artifact)
    requires DistinctBy(artifacts, (x: Artifact) => x.id) && a in artifacts && b in artifacts && a != b
    ensures NewerArtifact(a, b) <==> !NewerArtifact(b, a)
  {
    if a.id == b.id {
      SameIdIsSame(artifacts, a, b);
    }
  }

  /** With distinct ids, a rule keeps an artifact exactly when fewer than its number outrank it. */
  lemma KeptByRank(globs: Globs, rule: PolicyRule, artifacts: seq<Artifact>, a: Artifact)
    requires DistinctBy(artifacts, (x: Artifact) => x.id) && a in artifacts
    ensures a in RetainedBy(globs, rule, artifacts) <==>
            && rule.keepLatest.Some? && Applies(globs, rule, a)
            && |Rivals(globs, rule, artifacts, a)| < rule.keepLatest.value
  {
    hide Applies, PolicyRule.MatchesArtifact, ArtifactRanksBefore, Sort, Take, Rivals, NoTies;
    RuleMeaning(globs, rule, a);
    if rule.keepLatest.Some? {
      RetainedMatch(globs, rule, artifacts, a);
      if a in Matching(globs, rule, artifacts) {
        ArtifactRanksIsPreorder();
        MatchingDiffer(globs, rule, artifacts);
        TakenByRank(Matching(globs, rule, artifacts), ArtifactRanksBefore, rule.keepLatest.value, a);
        RivalsAreAhead(globs, rule, artifacts, a);
      }
    }
  }

  lemma RetainedMatch(globs: Globs, rule: PolicyRule, artifacts: seq<Artifact>, a: Artifact)
    requires rule.keepLatest.Some?
    ensures a in RetainedBy(globs, rule, artifacts) ==> a in Matching(globs, rule, artifacts)
  {
    hide ArtifactRanksBefore, Sort;
    var matching := Matching(globs, rule, artifacts);
    SortPermutes(matching, ArtifactRanksBefore);
    MembersSurvive(Sort(matching, ArtifactRanksBefore), matching, a);
  }
}

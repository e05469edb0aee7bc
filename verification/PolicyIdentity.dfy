/** What the fingerprint is for: policies that hash the same bytes decide every run the same way. */
module PolicyIdentity {
  import opened Prelude
  import opened Domain
  import opened Policy
  import opened KeepLatest
  import opened RunEngine
  import opened Sorting
  import opened Fingerprint
  import A = ArtifactEngine

  lemma {:induction false} FilterCanonical(rules: seq<PolicyRule>, p: PolicyRule -> bool)
    requires forall rule: PolicyRule :: p(CanonicalRule(rule)) == p(rule)
    ensures Filter(CanonicalRules(rules), p) == CanonicalRules(Filter(rules, p))
  {
    if rules != [] {
      hide CanonicalRule;
      var n := |rules| - 1;
      FilterCanonical(rules[..n], p);
      assert CanonicalRules(rules)[..n] == CanonicalRules(rules[..n]);
      var kept := Filter(rules[..n], p);
      assert CanonicalRules(kept + [rules[n]]) == CanonicalRules(kept) + [CanonicalRule(rules[n])];
    }
  }

  function WithCanonicalPolicy(cx: Context): Context { cx.(config := Canonical(cx.config)) }

  lemma SpecificityIsCanonical(rule: PolicyRule)
    ensures CanonicalRule(rule).Specificity() == rule.Specificity()
    ensures DeclaresRetention(CanonicalRule(rule)) == DeclaresRetention(rule)
    ensures DeclaresRetention(rule) ==> RetentionOf(CanonicalRule(rule)) == RetentionOf(rule)
  {
  }

  lemma MatchingIsCanonical(globs: Globs, rule: PolicyRule, run: WorkflowRun)
    ensures CanonicalRule(rule).MatchesWorkflowRun(globs, run) == rule.MatchesWorkflowRun(globs, run)
  {
  }

  lemma RulesAreCanonical(cx: Context, run: WorkflowRun)
    ensures MatchingRules(WithCanonicalPolicy(cx), run) == CanonicalRules(MatchingRules(cx, run))
    ensures ProtectionRules(WithCanonicalPolicy(cx), run) == CanonicalRules(ProtectionRules(cx, run))
    ensures RetentionRules(WithCanonicalPolicy(cx), run) == CanonicalRules(RetentionRules(cx, run))
  {
    var there := WithCanonicalPolicy(cx);
    var matchesHere := (rule: PolicyRule) => rule.MatchesWorkflowRun(cx.globs, run);
    var matchesThere := (rule: PolicyRule) => rule.MatchesWorkflowRun(there.globs, run);
    var protects := (rule: PolicyRule) => rule.protect == Some(true);
    forall rule: PolicyRule
      ensures matchesHere(CanonicalRule(rule)) == matchesHere(rule)
    {
      MatchingIsCanonical(cx.globs, rule, run);
    }
    FilterCongruence(there.config.rules, matchesThere, matchesHere);
    FilterCanonical(cx.config.rules, matchesHere);
    FilterCanonical(MatchingRules(cx, run), protects);
    FilterCanonical(MatchingRules(cx, run), DeclaresRetention);
  }

  lemma {:induction false} MaxIsCanonical(rules: seq<PolicyRule>)
    requires rules != []
    ensures MaxSpecificity(CanonicalRules(rules)) == MaxSpecificity(rules)
  {
    hide CanonicalRule, PolicyRule.Specificity;
    var n := |rules| - 1;
    SpecificityIsCanonical(rules[n]);
    if n > 0 {
      assert CanonicalRules(rules)[..n] == CanonicalRules(rules[..n]);
      MaxIsCanonical(rules[..n]);
    }
  }

  lemma MostSpecificIsCanonical(rules: seq<PolicyRule>)
    requires rules != []
    ensures MostSpecific(CanonicalRules(rules)) == CanonicalRules(MostSpecific(rules))
  {
    hide CanonicalRule, PolicyRule.Specificity;
    MaxIsCanonical(rules);
    var top := MaxSpecificity(rules);
    var isTop := (rule: PolicyRule) => rule.Specificity() == top;
    forall rule: PolicyRule
      ensures isTop(CanonicalRule(rule)) == isTop(rule)
    {
      SpecificityIsCanonical(rule);
    }
    FilterCanonical(rules, isTop);
  }

  lemma ReasonsAreCanonical(code: ReasonCode, rules: seq<PolicyRule>)
    ensures Reasons(code, CanonicalRules(rules)) == Reasons(code, rules)
  {
  }

  /** Agreement among the most specific rules is not changed by spelling defaults out. */
  lemma ConflictIsCanonical(best: seq<PolicyRule>)
    requires best != [] && forall rule :: rule in best ==> DeclaresRetention(rule)
    ensures forall rule :: rule in CanonicalRules(best) ==> DeclaresRetention(rule)
    ensures (exists rule :: rule in CanonicalRules(best) && RetentionOf(rule) != RetentionOf(CanonicalRules(best)[0]))
            <==> (exists rule :: rule in best && RetentionOf(rule) != RetentionOf(best[0]))
  {
    var canon := CanonicalRules(best);
    forall i | 0 <= i < |best|
      ensures canon[i] in canon && best[i] in best
      ensures DeclaresRetention(canon[i]) && RetentionOf(canon[i]) == RetentionOf(best[i])
    {
      SpecificityIsCanonical(best[i]);
    }
  }

  lemma RetentionIsCanonical(cx: Context, run: WorkflowRun)
    ensures ClassifyByRetention(WithCanonicalPolicy(cx), run) == ClassifyByRetention(cx, run)
  {
    hide CanonicalRule, PolicyRule.Specificity, MostSpecific, MaxSpecificity, RetentionExpired, RetentionOf, Reasons;
    hide MatchingRules, RetentionRules;
    RulesAreCanonical(cx, run);
    var rules := RetentionRules(cx, run);
    RetentionRulesMeaning(cx, run);
    if rules != [] {
      MostSpecificMeaning(rules);
      var best := MostSpecific(rules);
      MostSpecificIsCanonical(rules);
      ConflictIsCanonical(best);
      SpecificityIsCanonical(best[0]);
      assert CanonicalRules(best)[0] == CanonicalRule(best[0]);
      ReasonsAreCanonical(ConflictingRetentionRules, best);
      ReasonsAreCanonical(RuleRetentionExpired, best);
      ReasonsAreCanonical(RuleRetentionActive, best);
    }
  }

  lemma ClassificationIsCanonical(cx: Context, run: WorkflowRun, selected: Selections)
    ensures ClassifyRun(WithCanonicalPolicy(cx), run, selected) == ClassifyRun(cx, run, selected)
  {
    hide ClassifyByRetention, ProtectionRules, CanonicalRule;
    RetentionIsCanonical(cx, run);
    RulesAreCanonical(cx, run);
    ReasonsAreCanonical(ExplicitProtection, ProtectionRules(cx, run));
  }

  lemma NewestIsCanonical(globs: Globs, rule: PolicyRule, runs: seq<WorkflowRun>, family: Family)
    ensures Newest(globs, CanonicalRule(rule), runs, family) == Newest(globs, rule, runs, family)
  {
    var canon := CanonicalRule(rule);
    FilterCongruence(runs,
      (run: WorkflowRun) => Candidate(globs, rule, run) && FamilyOf(rule, run) == family,
      (run: WorkflowRun) => Candidate(globs, canon, run) && FamilyOf(canon, run) == family);
  }

  lemma RuleRecordIsCanonical(globs: Globs, rule: PolicyRule, runs: seq<WorkflowRun>, identity: Identity)
    ensures RuleRecord(globs, CanonicalRule(rule), runs, identity) == RuleRecord(globs, rule, runs, identity)
  {
    hide Newest;
    var canon := CanonicalRule(rule);
    forall family ensures Newest(globs, canon, runs, family) == Newest(globs, rule, runs, family) {
      NewestIsCanonical(globs, rule, runs, family);
    }
    assert FamiliesOf(globs, canon, runs) == FamiliesOf(globs, rule, runs);
    hide FamiliesOf;
    var families := FamiliesOf(globs, rule, runs);
    assert Slots(globs, canon, runs, identity, families) == Slots(globs, rule, runs, identity, families);
  }

  lemma {:induction false} RecordIsCanonical(globs: Globs, rules: seq<PolicyRule>, runs: seq<WorkflowRun>,
                                             identity: Identity)
    ensures RecordOf(globs, CanonicalRules(rules), runs, identity) == RecordOf(globs, rules, runs, identity)
    decreases |rules|
  {
    hide RuleRecord, CanonicalRule;
    if rules != [] {
      var n := |rules| - 1;
      RecordIsCanonical(globs, rules[..n], runs, identity);
      RuleRecordIsCanonical(globs, rules[n], runs, identity);
      assert CanonicalRules(rules)[..n] == CanonicalRules(rules[..n]);
    }
  }

  lemma SelectionsAreCanonical(selected: Selections, globs: Globs, rules: seq<PolicyRule>, runs: seq<WorkflowRun>)
    ensures Records(selected, globs, rules, runs) <==> Records(selected, globs, CanonicalRules(rules), runs)
  {
    hide RecordOf, CanonicalRules;
    forall identity ensures RecordOf(globs, CanonicalRules(rules), runs, identity)
        == RecordOf(globs, rules, runs, identity) {
      RecordIsCanonical(globs, rules, runs, identity);
    }
  }

  /**
   * Two validated policies that feed the hash the same bytes record the same keep-latest selections
   * and classify every snapshot alike: the same decisions, retentions and reasons in the same order.
   */
  lemma SameEncodingSameDecisions(cx: Context, other: PolicyConfig, runs: seq<WorkflowRun>, selected: Selections,
                                  after: Selections)
    requires PolicyIsText(cx.config) && ValidPolicy(cx.globs, cx.config)
    requires PolicyIsText(other) && ValidPolicy(cx.globs, other)
    requires Encode(cx.config) == Encode(other)
    requires Records(selected, cx.globs, cx.config.rules, runs) && Records(after, cx.globs, other.rules, runs)
    ensures selected == after
    ensures Classification(cx, runs, selected) == Classification(cx.(config := other), runs, after)
  {
    hide ClassifyRun, Encode, Records;
    EncodingIdentifiesPolicy(cx.globs, cx.config, other);
    SelectionsAreCanonical(selected, cx.globs, cx.config.rules, runs);
    SelectionsAreCanonical(after, cx.globs, other.rules, runs);
    RecordsAreUnique(selected, after, cx.globs, Canonical(other).rules, runs);
    forall run
      ensures ClassifyRun(cx.(config := other), run, selected) == ClassifyRun(cx, run, selected)
    {
      ClassificationIsCanonical(cx, run, selected);
      ClassificationIsCanonical(cx.(config := other), run, selected);
      assert WithCanonicalPolicy(cx) == WithCanonicalPolicy(cx.(config := other));
    }
  }

  // --- artifacts ----------------------------------------------------------------------------------------

  function WithCanonicalRules(cx: A.ArtifactContext): A.ArtifactContext { cx.(config := Canonical(cx.config)) }

  lemma ArtifactRulesAreCanonical(cx: A.ArtifactContext, a: Artifact)
    ensures A.DeclaringRules(WithCanonicalRules(cx), a) == CanonicalRules(A.DeclaringRules(cx, a))
    ensures A.ProtectingRules(WithCanonicalRules(cx), a) == CanonicalRules(A.ProtectingRules(cx, a))
  {
    var there := WithCanonicalRules(cx);
    var matchesHere := (rule: PolicyRule) => rule.MatchesArtifact(cx.globs, a);
    FilterCongruence(there.config.rules, (rule: PolicyRule) => rule.MatchesArtifact(there.globs, a), matchesHere);
    FilterCanonical(cx.config.rules, matchesHere);
    FilterCanonical(A.ArtifactRules(cx, a), (rule: PolicyRule) => rule.keepDays.Some?);
    FilterCanonical(A.ArtifactRules(cx, a), (rule: PolicyRule) => rule.protect == Some(true));
  }

  lemma DaysConflictIsCanonical(best: seq<PolicyRule>)
    requires best != []
    ensures (exists rule :: rule in CanonicalRules(best) && rule.keepDays != CanonicalRules(best)[0].keepDays)
            <==> (exists rule :: rule in best && rule.keepDays != best[0].keepDays)
  {
    var canon := CanonicalRules(best);
    forall i | 0 <= i < |best| ensures canon[i] in canon && best[i] in best && canon[i].keepDays == best[i].keepDays {
    }
  }

  lemma AgeIsCanonical(cx: A.ArtifactContext, a: Artifact)
    ensures A.ClassifyByAge(WithCanonicalRules(cx), a) == A.ClassifyByAge(cx, a)
  {
    hide CanonicalRule, PolicyRule.Specificity, MostSpecific, MaxSpecificity, Reasons, A.DeclaringRules;
    ArtifactRulesAreCanonical(cx, a);
    var rules := A.DeclaringRules(cx, a);
    if rules != [] {
      MostSpecificMeaning(rules);
      var best := MostSpecific(rules);
      MostSpecificIsCanonical(rules);
      DaysConflictIsCanonical(best);
      KeepDaysAreCanonical(best[0]);
      assert CanonicalRules(best)[0] == CanonicalRule(best[0]);
      ReasonsAreCanonical(ConflictingRetentionRules, best);
      ReasonsAreCanonical(RuleRetentionExpired, best);
      ReasonsAreCanonical(RuleRetentionActive, best);
    }
  }

  lemma KeepDaysAreCanonical(rule: PolicyRule)
    ensures CanonicalRule(rule).keepDays == rule.keepDays && CanonicalRule(rule).id == rule.id
  {
  }

  lemma ArtifactDecisionIsCanonical(cx: A.ArtifactContext, a: Artifact, kept: A.Kept)
    ensures A.ClassifyArtifact(WithCanonicalRules(cx), a, kept) == A.ClassifyArtifact(cx, a, kept)
  {
    hide A.ClassifyByAge, A.ProtectingRules, CanonicalRule, Reasons;
    AgeIsCanonical(cx, a);
    ArtifactRulesAreCanonical(cx, a);
    ReasonsAreCanonical(ExplicitProtection, A.ProtectingRules(cx, a));
  }

  lemma {:induction false} KeptIsCanonical(globs: Globs, rules: seq<PolicyRule>, artifacts: seq<Artifact>, id: nat)
    ensures A.RecordOf(globs, CanonicalRules(rules), artifacts, id) == A.RecordOf(globs, rules, artifacts, id)
    decreases |rules|
  {
    hide CanonicalRule, A.RetainedBy, A.Pushes;
    if rules != [] {
      var n := |rules| - 1;
      KeptIsCanonical(globs, rules[..n], artifacts, id);
      RetainedIsCanonical(globs, rules[n], artifacts);
      KeepDaysAreCanonical(rules[n]);
      assert CanonicalRules(rules)[..n] == CanonicalRules(rules[..n]);
    }
  }

  lemma RetainedIsCanonical(globs: Globs, rule: PolicyRule, artifacts: seq<Artifact>)
    ensures A.RetainedBy(globs, CanonicalRule(rule), artifacts) == A.RetainedBy(globs, rule, artifacts)
  {
    var canon := CanonicalRule(rule);
    FilterCongruence(artifacts, (a: Artifact) => rule.MatchesArtifact(globs, a),
        (a: Artifact) => canon.MatchesArtifact(globs, a));
  }

  /** The same for artifact snapshots: equal bytes, equal keep-latest map, equal decisions. */
  lemma SameEncodingSameArtifacts(cx: A.ArtifactContext, other: PolicyConfig, artifacts: seq<Artifact>, kept: A.Kept,
                                  after: A.Kept)
    requires PolicyIsText(cx.config) && ValidPolicy(cx.globs, cx.config)
    requires PolicyIsText(other) && ValidPolicy(cx.globs, other)
    requires Encode(cx.config) == Encode(other)
    requires A.RecordsIds(kept, cx.globs, cx.config.rules, artifacts)
             && A.RecordsIds(after, cx.globs, other.rules, artifacts)
    ensures kept == after
    ensures A.Classified(cx, artifacts, kept) == A.Classified(cx.(config := other), artifacts, after)
  {
    hide A.ClassifyArtifact, Encode, A.RecordOf;
    EncodingIdentifiesPolicy(cx.globs, cx.config, other);
    forall id ensures A.Entry(kept, id) == A.Entry(after, id) {
      KeptIsCanonical(cx.globs, cx.config.rules, artifacts, id);
      KeptIsCanonical(cx.globs, other.rules, artifacts, id);
    }
    SameEntries(kept, after);
    forall a ensures A.ClassifyArtifact(cx.(config := other), a, kept) == A.ClassifyArtifact(cx, a, kept) {
      ArtifactDecisionIsCanonical(cx, a, kept);
      ArtifactDecisionIsCanonical(cx.(config := other), a, kept);
      assert WithCanonicalRules(cx) == WithCanonicalRules(cx.(config := other));
    }
  }

  lemma SameEntries(kept: A.Kept, after: A.Kept)
    requires A.NoEmptyEntry(kept) && A.NoEmptyEntry(after) && forall id :: A.Entry(kept, id) == A.Entry(after, id)
    ensures kept == after
  {
    forall id
      ensures id in kept <==> id in after
      ensures id in kept ==> kept[id] == after[id]
    {
      assert A.Entry(kept, id) == A.Entry(after, id);
    }
  }
}

/** The policy file of `config.rs`: its entities, its validation and its selectors. */
module Policy {
  import opened Prelude
  import opened Domain

  const DEFAULT_KEEP_DAYS: U64 := 30

  datatype PolicyResource = ArtifactResource | CacheResource | WorkflowRunResource

  datatype KeepLatestBy = WorkflowBranch | Workflow

  datatype CacheDefaults = CacheDefaults(keepDays: U64, keepUnusedDays: Option<U64>)

  datatype RunDefaults = RunDefaults(keepDays: Option<U64>, keepBusinessDays: Option<U64>)

  datatype Defaults = Defaults(keepDays: U64, caches: CacheDefaults, runs: RunDefaults)

  datatype PolicyRule = PolicyRule(
    id: string,
    resource: PolicyResource,
    repository: Option<string>,
    workflow: Option<string>,
    artifact: Option<string>,
    branch: Option<string>,
    key: Option<string>,
    gitRef: Option<string>,
    keepDays: Option<U64>,
    keepBusinessDays: Option<U64>,
    keepUnusedDays: Option<U64>,
    event: Option<string>,
    conclusion: Option<string>,
    keepLatest: Option<U64>,
    keepLatestBy: Option<KeepLatestBy>,
    protect: Option<bool>)
  {
    /** The selectors that are set, in the order the source lists them. */
    function Patterns(): seq<string> {
      Given(repository) + Given(workflow) + Given(artifact) + Given(branch)
      + Given(key) + Given(gitRef) + Given(event) + Given(conclusion)
    }

    function Specificity(): nat { |Patterns()| }

    predicate MatchesWorkflowRun(globs: Globs, run: WorkflowRun) {
      && resource == WorkflowRunResource
      && globs.MatchesOptional(repository, Some(run.repository.fullName))
      && globs.MatchesOptional(workflow, run.workflowName)
      && globs.MatchesOptional(branch, run.headBranch)
      && globs.MatchesOptional(event, Some(run.event))
      && globs.MatchesOptional(conclusion, run.conclusion)
    }

    predicate MatchesArtifact(globs: Globs, item: Artifact) {
      && resource == ArtifactResource
      && globs.MatchesOptional(repository, Some(item.repository.fullName))
      && globs.MatchesOptional(workflow, if item.workflowRun.Some? then item.workflowRun.value.workflowName else None)
      && globs.MatchesOptional(artifact, Some(item.name))
      && globs.MatchesOptional(branch, if item.workflowRun.Some? then item.workflowRun.value.headBranch else None)
    }
  }

  datatype PolicyConfig = PolicyConfig(defaults: Defaults, rules: seq<PolicyRule>)

  function Given(pattern: Option<string>): seq<string> {
    if pattern.Some? then [pattern.value] else []
  }

  /** The glob library and Unicode white space, as the policy sees them. */
  datatype Globs = Globs(
    parses: string -> bool,
    isMatch: (string, string) -> bool,
    isBlank: string -> bool)
  {
    predicate MatchesOptional(pattern: Option<string>, value: Option<string>) {
      pattern.None? || (value.Some? && parses(pattern.value) && isMatch(pattern.value, value.value))
    }
  }

  // --- validation ------------------------------------------------------------------------------

  predicate HasAction(rule: PolicyRule) {
    || rule.keepDays.Some?
    || rule.keepBusinessDays.Some?
    || rule.keepUnusedDays.Some?
    || rule.keepLatest.Some?
    || rule.protect == Some(true)
  }

  predicate FieldsFitResource(rule: PolicyRule) {
    match rule.resource
    case ArtifactResource =>
      && rule.key.None? && rule.gitRef.None? && rule.keepUnusedDays.None?
      && rule.event.None? && rule.conclusion.None?
      && rule.keepBusinessDays.None? && rule.keepLatestBy.None?
    case CacheResource =>
      && rule.workflow.None? && rule.artifact.None? && rule.branch.None?
      && rule.event.None? && rule.conclusion.None?
      && rule.keepBusinessDays.None? && rule.keepLatestBy.None?
    case WorkflowRunResource =>
      && rule.artifact.None? && rule.key.None? && rule.gitRef.None? && rule.keepUnusedDays.None?
  }

  predicate ValidRule(globs: Globs, rule: PolicyRule) {
    && !globs.isBlank(rule.id)
    && HasAction(rule)
    && (rule.keepLatestBy.Some? ==> rule.keepLatest.Some?)
    && !(rule.keepDays.Some? && rule.keepBusinessDays.Some?)
    && FieldsFitResource(rule)
    && forall i :: 0 <= i < |rule.Patterns()| ==> globs.parses(rule.Patterns()[i])
  }

  ghost predicate DistinctIds(rules: seq<PolicyRule>) {
    forall i, j :: 0 <= i < j < |rules| ==> rules[i].id != rules[j].id
  }

  ghost predicate ValidPolicy(globs: Globs, config: PolicyConfig) {
    && !(config.defaults.runs.keepDays.Some? && config.defaults.runs.keepBusinessDays.Some?)
    && DistinctIds(config.rules)
    && forall i :: 0 <= i < |config.rules| ==> ValidRule(globs, config.rules[i])
  }

  datatype PolicyProblem =
    | DefaultsCombineModes
    | EmptyRuleId
    | DuplicateRuleId(id: string)
    | NoAction(id: string)
    | KeepLatestByWithoutKeepLatest(id: string)
    | RuleCombinesModes(id: string)
    | ForeignField(id: string)
    | InvalidGlob(id: string)

  /** Some field of the rule belongs to other resources: field by field, which resources may set it. */
  predicate HasForeignField(rule: PolicyRule) {
    || ((rule.artifact.Some?) && rule.resource != ArtifactResource)
    || ((rule.key.Some? || rule.gitRef.Some? || rule.keepUnusedDays.Some?) && rule.resource != CacheResource)
    || ((rule.event.Some? || rule.conclusion.Some? || rule.keepBusinessDays.Some? || rule.keepLatestBy.Some?)
        && rule.resource != WorkflowRunResource)
    || ((rule.workflow.Some? || rule.branch.Some?) && rule.resource == CacheResource)
  }

  /** Nothing the rule could do is set; `protect = false` is nothing. */
  predicate DoesNothing(rule: PolicyRule) {
    && rule.keepDays.None? && rule.keepBusinessDays.None? && rule.keepUnusedDays.None? && rule.keepLatest.None?
    && (rule.protect.None? || !rule.protect.value)
  }

  ghost predicate Names(rules: seq<PolicyRule>, id: string, fault: PolicyRule -> bool) {
    exists i :: 0 <= i < |rules| && rules[i].id == id && fault(rules[i])
  }

  /** A refusal names a rule that really has this fault. */
  ghost predicate IsReal(globs: Globs, config: PolicyConfig, problem: PolicyProblem) {
    match problem
    case DefaultsCombineModes => config.defaults.runs.keepDays.Some? && config.defaults.runs.keepBusinessDays.Some?
    case EmptyRuleId => exists i :: 0 <= i < |config.rules| && globs.isBlank(config.rules[i].id)
    case DuplicateRuleId(id) =>
      exists i, j :: 0 <= i < j < |config.rules| && config.rules[i].id == config.rules[j].id == id
    case NoAction(id) => Names(config.rules, id, DoesNothing)
    case KeepLatestByWithoutKeepLatest(id) =>
      Names(config.rules, id, (rule: PolicyRule) => rule.keepLatestBy.Some? && rule.keepLatest.None?)
    case RuleCombinesModes(id) =>
      Names(config.rules, id, (rule: PolicyRule) => rule.keepDays.Some? && rule.keepBusinessDays.Some?)
    case ForeignField(id) => Names(config.rules, id, HasForeignField)
    case InvalidGlob(id) =>
      Names(config.rules, id, (rule: PolicyRule) => exists text :: text in rule.Patterns() && !globs.parses(text))
  }

  lemma FieldsMeaning(rule: PolicyRule)
    ensures FieldsFitResource(rule) <==> !HasForeignField(rule)
    ensures HasAction(rule) <==> !DoesNothing(rule)
  {
  }

  /** One pass with a set of the ids seen so far accepts exactly the valid policies. */
  method Validate(globs: Globs, config: PolicyConfig) returns (r: Result<(), PolicyProblem>)
    ensures r.Ok? <==> ValidPolicy(globs, config)
    ensures r == Err(DefaultsCombineModes) <==>
            config.defaults.runs.keepDays.Some? && config.defaults.runs.keepBusinessDays.Some?
    ensures r.Err? ==> IsReal(globs, config, r.error)
  {
    hide FieldsFitResource, HasAction, HasForeignField, DoesNothing, PolicyRule.Patterns;
    if config.defaults.runs.keepDays.Some? && config.defaults.runs.keepBusinessDays.Some? {
      return Err(DefaultsCombineModes);
    }
    var ids: set<string> := {};
    for i := 0 to |config.rules|
      invariant ids == set k | 0 <= k < i :: config.rules[k].id
      invariant DistinctIds(config.rules[..i])
      invariant forall k :: 0 <= k < i ==> ValidRule(globs, config.rules[k])
    {
      var rule := config.rules[i];
      FieldsMeaning(rule);
      if globs.isBlank(rule.id) {
        return Err(EmptyRuleId);
      }
      if rule.id in ids {
        return Err(DuplicateRuleId(rule.id));
      }
      ids := ids + {rule.id};
      if !HasAction(rule) {
        return Err(NoAction(rule.id));
      }
      if rule.keepLatestBy.Some? && rule.keepLatest.None? {
        return Err(KeepLatestByWithoutKeepLatest(rule.id));
      }
      if rule.keepDays.Some? && rule.keepBusinessDays.Some? {
        return Err(RuleCombinesModes(rule.id));
      }
      if !FieldsFitResource(rule) {
        return Err(ForeignField(rule.id));
      }
      var patterns := rule.Patterns();
      for p := 0 to |patterns|
        invariant forall k :: 0 <= k < p ==> globs.parses(patterns[k])
      {
        if !globs.parses(patterns[p]) {
          return Err(InvalidGlob(rule.id));
        }
      }
    }
    r := Ok(());
  }

  // --- canonical form --------------------------------------------------------------------------

  /** `keep_latest_by = "workflow_branch"` spells out the default. */
  function CanonicalRule(rule: PolicyRule): PolicyRule {
    if rule.keepLatestBy == Some(WorkflowBranch) then rule.(keepLatestBy := None) else rule
  }

  function CanonicalRules(rules: seq<PolicyRule>): (r: seq<PolicyRule>)
    ensures |r| == |rules|
  {
    seq(|rules|, i requires 0 <= i < |rules| => CanonicalRule(rules[i]))
  }

  /** Thirty elapsed days spells out the run default. */
  function CanonicalRunDefaults(runs: RunDefaults): RunDefaults {
    if runs.keepDays == Some(DEFAULT_KEEP_DAYS) then runs.(keepDays := None) else runs
  }

  function Canonical(config: PolicyConfig): PolicyConfig {
    PolicyConfig(
      config.defaults.(runs := CanonicalRunDefaults(config.defaults.runs)),
      CanonicalRules(config.rules))
  }
}

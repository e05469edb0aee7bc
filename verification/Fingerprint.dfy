/**
 * The policy fingerprint of `config.rs`: a tagged byte encoding folded through 64-bit FNV-1a.
 * The encoding is shown to be decodable, and the hash to separate any two byte strings of one
 * length that differ in a single place.
 */
module Fingerprint {
  import opened Prelude
  import opened Policy

  type Byte = n: nat | n < 256

  type Bytes = seq<Byte>

  // --- text and numbers as bytes ---------------------------------------------------------------

  /** Rust strings are UTF-8 and never longer than the address space. */
  predicate IsText(s: string) {
    && |s| <= U64_MAX
    && forall i :: 0 <= i < |s| ==> s[i] as int < 256
  }

  function Utf8(s: string): (r: Bytes)
    requires IsText(s)
    ensures |r| == |s|
  {
    seq(|s|, i requires 0 <= i < |s| => s[i] as int)
  }

  function TextOf(bs: Bytes): (r: string)
    ensures |r| == |bs|
  {
    seq(|bs|, i requires 0 <= i < |bs| => bs[i] as char)
  }

  lemma TextRoundTrip(s: string)
    requires IsText(s)
    ensures TextOf(Utf8(s)) == s
  {
  }

  function Pow256(width: nat): nat {
    if width == 0 then 1 else 256 * Pow256(width - 1)
  }

  /** Little-endian, a fixed number of bytes. */
  function LittleEndian(v: nat, width: nat): (r: Bytes)
    ensures |r| == width
  {
    if width == 0 then [] else [v % 256] + LittleEndian(v / 256, width - 1)
  }

  function ValueOf(bs: Bytes): nat {
    if bs == [] then 0 else bs[0] + 256 * ValueOf(bs[1..])
  }

  lemma {:induction false} LittleEndianRoundTrip(v: nat, width: nat)
    requires v < Pow256(width)
    ensures ValueOf(LittleEndian(v, width)) == v
  {
    if width != 0 {
      LittleEndianRoundTrip(v / 256, width - 1);
      assert LittleEndian(v, width)[1..] == LittleEndian(v / 256, width - 1);
    }
  }

  function EncodeU64(v: U64): (r: Bytes)
    ensures |r| == 8
  {
    LittleEndian(v, 8)
  }

  lemma U64RoundTrip(v: U64)
    ensures ValueOf(EncodeU64(v)) == v
  {
    assert Pow256(8) == U64_MAX + 1 by {
      assert Pow256(2) == 0x1_0000;
      assert Pow256(4) == 0x1_0000_0000;
      assert Pow256(6) == 0x1_0000_0000_0000;
    }
    LittleEndianRoundTrip(v, 8);
  }

  // --- the encoder ------------------------------------------------------------------------------

  const MAGIC: string := "gh-housekeeper-policy-v1"
  const CACHE_DEFAULTS: string := "cache-defaults"
  const RUN_DEFAULTS: string := "workflow-run-defaults"
  const RULE: string := "rule"
  const CACHE_RULE: string := "cache-rule"
  const RUN_RULE: string := "workflow-run-rule"
  const BY_WORKFLOW: string := "keep-latest-by-workflow"

  function EncodeOptionalText(tag: Byte, value: Option<string>): (r: Bytes)
    requires value.Some? ==> IsText(value.value)
  {
    match value
    case None => [tag, 0]
    case Some(s) => [tag, 1] + EncodeU64(|s|) + Utf8(s)
  }

  function EncodeOptionalU64(tag: Byte, value: Option<U64>): (r: Bytes) {
    match value
    case None => [tag, 0]
    case Some(v) => [tag, 1] + EncodeU64(v)
  }

  function EncodeOptionalBool(tag: Byte, value: Option<bool>): (r: Bytes) {
    match value
    case None => [tag, 0]
    case Some(b) => [tag, 1, if b then 1 else 0]
  }

  predicate OptionIsText(value: Option<string>) { value.Some? ==> IsText(value.value) }

  predicate RuleIsText(rule: PolicyRule) {
    && IsText(rule.id) && OptionIsText(rule.repository) && OptionIsText(rule.workflow)
    && OptionIsText(rule.artifact) && OptionIsText(rule.branch) && OptionIsText(rule.key)
    && OptionIsText(rule.gitRef) && OptionIsText(rule.event) && OptionIsText(rule.conclusion)
  }

  predicate RulesAreText(rules: seq<PolicyRule>) {
    forall i :: 0 <= i < |rules| ==> RuleIsText(rules[i])
  }

  predicate PolicyIsText(config: PolicyConfig) { RulesAreText(config.rules) }

  function EncodeCacheDefaults(d: CacheDefaults): Bytes {
    if d != CacheDefaults(DEFAULT_KEEP_DAYS, None) then
      Utf8(CACHE_DEFAULTS) + (EncodeU64(d.keepDays) + EncodeOptionalU64(9, d.keepUnusedDays))
    else []
  }

  function EncodeRunDefaults(d: RunDefaults): Bytes {
    if d.keepDays.GetOr(DEFAULT_KEEP_DAYS) != DEFAULT_KEEP_DAYS || d.keepBusinessDays.Some? then
      Utf8(RUN_DEFAULTS) + (EncodeU64(d.keepDays.GetOr(DEFAULT_KEEP_DAYS)) + EncodeBusinessDays(d.keepBusinessDays))
    else []
  }

  /** Business days are written only when present. */
  function EncodeBusinessDays(days: Option<U64>): Bytes {
    if days.Some? then EncodeOptionalU64(14, days) else []
  }

  function EncodeCommonFields(rule: PolicyRule): Bytes
    requires RuleIsText(rule)
  {
    EncodeOptionalText(1, Some(rule.id))
    + (EncodeOptionalText(2, rule.repository)
    + (EncodeOptionalText(3, rule.workflow)
    + (EncodeOptionalText(4, rule.artifact)
    + (EncodeOptionalText(5, rule.branch)
    + (EncodeOptionalU64(6, rule.keepDays)
    + (EncodeOptionalU64(7, rule.keepLatest)
    + EncodeOptionalBool(8, rule.protect)))))))
  }

  function EncodeResourceFields(rule: PolicyRule): Bytes
    requires RuleIsText(rule)
  {
    match rule.resource
    case ArtifactResource => []
    case CacheResource =>
      Utf8(CACHE_RULE)
      + (EncodeOptionalText(9, rule.key)
      + (EncodeOptionalText(10, rule.gitRef)
      + EncodeOptionalU64(11, rule.keepUnusedDays)))
    case WorkflowRunResource => Utf8(RUN_RULE) + EncodeRunFields(rule)
  }

  function EncodeRunFields(rule: PolicyRule): Bytes
    requires RuleIsText(rule)
  {
    EncodeOptionalText(12, rule.event)
    + (EncodeOptionalText(13, rule.conclusion)
    + (EncodeGrouping(rule.keepLatestBy)
    + EncodeBusinessDays(rule.keepBusinessDays)))
  }

  function EncodeGrouping(grouping: Option<KeepLatestBy>): Bytes {
    if grouping == Some(Workflow) then Utf8(BY_WORKFLOW) else []
  }

  function EncodeRule(rule: PolicyRule): Bytes
    requires RuleIsText(rule)
  {
    Utf8(RULE) + (EncodeCommonFields(rule) + EncodeResourceFields(rule))
  }

  function EncodeRules(rules: seq<PolicyRule>): Bytes
    requires RulesAreText(rules)
  {
    if rules == [] then [] else EncodeRule(rules[0]) + EncodeRules(rules[1..])
  }

  function EncodeDefaults(d: Defaults): Bytes {
    EncodeU64(d.keepDays) + (EncodeCacheDefaults(d.caches) + EncodeRunDefaults(d.runs))
  }

  /** Every byte `fingerprint` feeds to the hash, in order. */
  function Encode(config: PolicyConfig): Bytes
    requires PolicyIsText(config)
  {
    Utf8(MAGIC) + (EncodeDefaults(config.defaults) + EncodeRules(config.rules))
  }

  // --- an independent decoder -------------------------------------------------------------------

  datatype Parsed<+T> = Fail | Got(value: T, rest: Bytes) {
    predicate IsFailure() { Fail? }
    function PropagateFailure<U>(): Parsed<U> requires Fail? { Fail }
    function Extract(): (T, Bytes) requires Got? { (value, rest) }
  }

  predicate StartsWith(literal: string, bs: Bytes)
    requires IsText(literal)
  {
    |literal| <= |bs| && bs[..|literal|] == Utf8(literal)
  }

  function Literal(literal: string, bs: Bytes): Parsed<()>
    requires IsText(literal)
  {
    if StartsWith(literal, bs) then Got((), bs[|literal|..]) else Fail
  }

  function DecodeU64(bs: Bytes): Parsed<U64> {
    if |bs| >= 8 && ValueOf(bs[..8]) <= U64_MAX then Got(ValueOf(bs[..8]), bs[8..]) else Fail
  }

  function DecodePresence(tag: Byte, bs: Bytes): Parsed<bool> {
    if |bs| >= 2 && bs[0] == tag && bs[1] <= 1 then Got(bs[1] == 1, bs[2..]) else Fail
  }

  function DecodeOptionalText(tag: Byte, bs: Bytes): Parsed<Option<string>> {
    var (present, bs) :- DecodePresence(tag, bs);
    if !present then Got(None, bs) else
    var (length, bs) :- DecodeU64(bs);
    if length > |bs| then Fail else Got(Some(TextOf(bs[..length])), bs[length..])
  }

  function DecodeOptionalU64(tag: Byte, bs: Bytes): Parsed<Option<U64>> {
    var (present, bs) :- DecodePresence(tag, bs);
    if !present then Got(None, bs) else
    var (v, bs) :- DecodeU64(bs);
    Got(Some(v), bs)
  }

  function DecodeOptionalBool(tag: Byte, bs: Bytes): Parsed<Option<bool>> {
    var (present, bs) :- DecodePresence(tag, bs);
    if !present then Got(None, bs)
    else if bs == [] || bs[0] > 1 then Fail
    else Got(Some(bs[0] == 1), bs[1..])
  }

  function DecodeCacheDefaults(bs: Bytes): Parsed<CacheDefaults> {
    if !StartsWith(CACHE_DEFAULTS, bs) then Got(CacheDefaults(DEFAULT_KEEP_DAYS, None), bs) else
    var (_, bs) :- Literal(CACHE_DEFAULTS, bs);
    var (days, bs) :- DecodeU64(bs);
    var (unused, bs) :- DecodeOptionalU64(9, bs);
    Got(CacheDefaults(days, unused), bs)
  }

  function DecodeRunDefaults(bs: Bytes): Parsed<RunDefaults> {
    if !StartsWith(RUN_DEFAULTS, bs) then Got(RunDefaults(None, None), bs) else
    var (_, bs) :- Literal(RUN_DEFAULTS, bs);
    var (days, bs) :- DecodeU64(bs);
    var (business, bs) :- DecodeBusinessDays(bs);
    Got(RunDefaults(if business.Some? then None else Some(days), business), bs)
  }

  function DecodeBusinessDays(bs: Bytes): Parsed<Option<U64>> {
    if bs != [] && bs[0] == 14 then DecodeOptionalU64(14, bs) else Got(None, bs)
  }

  function DecodeGrouping(bs: Bytes): Parsed<Option<KeepLatestBy>> {
    if !StartsWith(BY_WORKFLOW, bs) then Got(None, bs) else
    var (_, bs) :- Literal(BY_WORKFLOW, bs);
    Got(Some(Workflow), bs)
  }

  /** The eight leading fields; the rest of the rule is left blank for `DecodeRule` to fill in. */
  function DecodeCommonFields(bs: Bytes): Parsed<PolicyRule> {
    var (id, bs) :- DecodeOptionalText(1, bs);
    var (repository, bs) :- DecodeOptionalText(2, bs);
    var (workflow, bs) :- DecodeOptionalText(3, bs);
    var (artifact, bs) :- DecodeOptionalText(4, bs);
    var (branch, bs) :- DecodeOptionalText(5, bs);
    var (keepDays, bs) :- DecodeOptionalU64(6, bs);
    var (keepLatest, bs) :- DecodeOptionalU64(7, bs);
    var (protect, bs) :- DecodeOptionalBool(8, bs);
    if id.None? then Fail else
    Got(PolicyRule(id.value, ArtifactResource, repository, workflow, artifact, branch, None, None,
                   keepDays, None, None, None, None, keepLatest, None, protect), bs)
  }

  function DecodeResourceFields(rule: PolicyRule, bs: Bytes): Parsed<PolicyRule> {
    if StartsWith(CACHE_RULE, bs) then
      var (_, bs) :- Literal(CACHE_RULE, bs);
      var (key, bs) :- DecodeOptionalText(9, bs);
      var (gitRef, bs) :- DecodeOptionalText(10, bs);
      var (unused, bs) :- DecodeOptionalU64(11, bs);
      Got(rule.(resource := CacheResource, key := key, gitRef := gitRef, keepUnusedDays := unused), bs)
    else if StartsWith(RUN_RULE, bs) then
      var (_, bs) :- Literal(RUN_RULE, bs);
      DecodeRunFields(rule, bs)
    else Got(rule, bs)
  }

  function DecodeRunFields(rule: PolicyRule, bs: Bytes): Parsed<PolicyRule> {
    var (event, bs) :- DecodeOptionalText(12, bs);
    var (conclusion, bs) :- DecodeOptionalText(13, bs);
    var (grouping, bs) :- DecodeGrouping(bs);
    var (business, bs) :- DecodeBusinessDays(bs);
    Got(rule.(resource := WorkflowRunResource, event := event, conclusion := conclusion,
              keepLatestBy := grouping, keepBusinessDays := business), bs)
  }

  function DecodeRule(bs: Bytes): Parsed<PolicyRule> {
    var (_, bs) :- Literal(RULE, bs);
    var (rule, bs) :- DecodeCommonFields(bs);
    DecodeResourceFields(rule, bs)
  }

  function DecodeRules(bs: Bytes): Parsed<seq<PolicyRule>>
    decreases |bs|
  {
    if bs == [] then Got([], []) else
    var (rule, rest) :- DecodeRule(bs);
    if |rest| >= |bs| then Fail else
    var (rules, rest) :- DecodeRules(rest);
    Got([rule] + rules, rest)
  }

  function DecodeDefaults(bs: Bytes): Parsed<Defaults> {
    var (keepDays, bs) :- DecodeU64(bs);
    var (caches, bs) :- DecodeCacheDefaults(bs);
    var (runs, bs) :- DecodeRunDefaults(bs);
    Got(Defaults(keepDays, caches, runs), bs)
  }

  function DecodePolicy(magic: string, bs: Bytes): Parsed<PolicyConfig>
    requires IsText(magic)
  {
    var (_, bs) :- Literal(magic, bs);
    var (defaults, bs) :- DecodeDefaults(bs);
    var (rules, bs) :- DecodeRules(bs);
    Got(PolicyConfig(defaults, rules), bs)
  }

  function Decode(bs: Bytes): Option<PolicyConfig> {
    var parsed := DecodePolicy(MAGIC, bs);
    if parsed.Got? && parsed.rest == [] then Some(parsed.value) else None
  }

  // --- the decoder inverts the encoder ----------------------------------------------------------

  lemma Assoc(a: Bytes, b: Bytes, c: Bytes)
    ensures (a + b) + c == a + (b + c)
  {
  }

  lemma LiteralRoundTrip(literal: string, rest: Bytes)
    requires IsText(literal)
    ensures Literal(literal, Utf8(literal) + rest) == Got((), rest)
  {
  }

  lemma U64Decodes(v: U64, rest: Bytes)
    ensures DecodeU64(EncodeU64(v) + rest) == Got(v, rest)
  {
    U64RoundTrip(v);
    var bs := EncodeU64(v) + rest;
    assert bs[..8] == EncodeU64(v);
    assert bs[8..] == rest;
  }

  lemma PresenceDecodes(tag: Byte, flag: Byte, rest: Bytes)
    requires flag <= 1
    ensures DecodePresence(tag, [tag, flag] + rest) == Got(flag == 1, rest)
  {
  }

  lemma OptionalTextDecodes(tag: Byte, value: Option<string>, rest: Bytes)
    requires OptionIsText(value)
    ensures DecodeOptionalText(tag, EncodeOptionalText(tag, value) + rest) == Got(value, rest)
  {
    match value
    case None =>
      PresenceDecodes(tag, 0, rest);
    case Some(s) =>
      var body := Utf8(s) + rest;
      Assoc([tag, 1] + EncodeU64(|s|), Utf8(s), rest);
      Assoc([tag, 1], EncodeU64(|s|), body);
      PresenceDecodes(tag, 1, EncodeU64(|s|) + body);
      U64Decodes(|s|, body);
      assert body[..|s|] == Utf8(s);
      assert body[|s|..] == rest;
      TextRoundTrip(s);
  }

  lemma OptionalU64Decodes(tag: Byte, value: Option<U64>, rest: Bytes)
    ensures DecodeOptionalU64(tag, EncodeOptionalU64(tag, value) + rest) == Got(value, rest)
  {
    match value
    case None =>
      PresenceDecodes(tag, 0, rest);
    case Some(v) =>
      Assoc([tag, 1], EncodeU64(v), rest);
      PresenceDecodes(tag, 1, EncodeU64(v) + rest);
      U64Decodes(v, rest);
  }

  lemma OptionalBoolDecodes(tag: Byte, value: Option<bool>, rest: Bytes)
    ensures DecodeOptionalBool(tag, EncodeOptionalBool(tag, value) + rest) == Got(value, rest)
  {
  }

  /** What may follow a complete rule or the defaults: nothing, or the next rule. */
  predicate AtBoundary(bs: Bytes) { bs == [] || bs[0] == 'r' as int }

  lemma DoesNotStart(literal: string, bs: Bytes)
    requires IsText(literal) && literal != ""
    requires bs == [] || bs[0] != literal[0] as int
    ensures !StartsWith(literal, bs)
  {
  }

  lemma BusinessDaysDecode(days: Option<U64>, rest: Bytes)
    requires rest == [] || rest[0] != 14
    ensures DecodeBusinessDays(EncodeBusinessDays(days) + rest) == Got(days, rest)
  {
    OptionalU64Decodes(14, days, rest);
    if days.None? {
      assert EncodeBusinessDays(days) + rest == rest;
    } else {
      assert (EncodeBusinessDays(days) + rest)[0] == 14;
    }
  }

  lemma GroupingDecodes(grouping: Option<KeepLatestBy>, rest: Bytes)
    requires rest == [] || rest[0] != 'k' as int
    ensures DecodeGrouping(EncodeGrouping(grouping) + rest)
         == Got(if grouping == Some(WorkflowBranch) then None else grouping, rest)
  {
    match grouping {
      case Some(Workflow) =>
        LiteralRoundTrip(BY_WORKFLOW, rest);
      case _ =>
        assert EncodeGrouping(grouping) + rest == rest;
        DoesNotStart(BY_WORKFLOW, rest);
    }
  }

  lemma CacheDefaultsDecode(d: CacheDefaults, rest: Bytes)
    requires rest == [] || rest[0] != 'c' as int
    ensures DecodeCacheDefaults(EncodeCacheDefaults(d) + rest) == Got(d, rest)
  {
    if d == CacheDefaults(DEFAULT_KEEP_DAYS, None) {
      assert EncodeCacheDefaults(d) + rest == rest;
      DoesNotStart(CACHE_DEFAULTS, rest);
    } else {
      var unused := EncodeOptionalU64(9, d.keepUnusedDays);
      Assoc(Utf8(CACHE_DEFAULTS), EncodeU64(d.keepDays) + unused, rest);
      Assoc(EncodeU64(d.keepDays), unused, rest);
      LiteralRoundTrip(CACHE_DEFAULTS, EncodeU64(d.keepDays) + (unused + rest));
      U64Decodes(d.keepDays, unused + rest);
      OptionalU64Decodes(9, d.keepUnusedDays, rest);
    }
  }

  lemma RunDefaultsDecode(d: RunDefaults, rest: Bytes)
    requires !(d.keepDays.Some? && d.keepBusinessDays.Some?)
    requires AtBoundary(rest)
    ensures DecodeRunDefaults(EncodeRunDefaults(d) + rest) == Got(CanonicalRunDefaults(d), rest)
  {
    hide EncodeU64;
    var keepDays := d.keepDays.GetOr(DEFAULT_KEEP_DAYS);
    if keepDays == DEFAULT_KEEP_DAYS && d.keepBusinessDays.None? {
      assert EncodeRunDefaults(d) + rest == rest;
      DoesNotStart(RUN_DEFAULTS, rest);
    } else {
      var business := EncodeBusinessDays(d.keepBusinessDays);
      Assoc(Utf8(RUN_DEFAULTS), EncodeU64(keepDays) + business, rest);
      Assoc(EncodeU64(keepDays), business, rest);
      LiteralRoundTrip(RUN_DEFAULTS, EncodeU64(keepDays) + (business + rest));
      U64Decodes(keepDays, business + rest);
      BusinessDaysDecode(d.keepBusinessDays, rest);
    }
  }

  /** A rule with every resource-specific field blank, as the common prefix describes it. */
  function CommonPart(rule: PolicyRule): PolicyRule {
    rule.(resource := ArtifactResource, key := None, gitRef := None, keepBusinessDays := None,
          keepUnusedDays := None, event := None, conclusion := None, keepLatestBy := None)
  }

  lemma CommonFieldsDecode(rule: PolicyRule, rest: Bytes)
    requires RuleIsText(rule)
    ensures DecodeCommonFields(EncodeCommonFields(rule) + rest) == Got(CommonPart(rule), rest)
  {
    var e1, e2, e3, e4 := EncodeOptionalText(1, Some(rule.id)), EncodeOptionalText(2, rule.repository),
      EncodeOptionalText(3, rule.workflow), EncodeOptionalText(4, rule.artifact);
    var e5, e6, e7, e8 := EncodeOptionalText(5, rule.branch), EncodeOptionalU64(6, rule.keepDays),
      EncodeOptionalU64(7, rule.keepLatest), EncodeOptionalBool(8, rule.protect);
    var t8 := e8 + rest;
    var t7 := e7 + t8;
    var t6 := e6 + t7;
    var t5 := e5 + t6;
    var t4 := e4 + t5;
    var t3 := e3 + t4;
    var t2 := e2 + t3;
    assert EncodeCommonFields(rule) + rest == e1 + t2 by {
      Assoc(e7, e8, rest);
      Assoc(e6, e7 + e8, rest);
      Assoc(e5, e6 + (e7 + e8), rest);
      Assoc(e4, e5 + (e6 + (e7 + e8)), rest);
      Assoc(e3, e4 + (e5 + (e6 + (e7 + e8))), rest);
      Assoc(e2, e3 + (e4 + (e5 + (e6 + (e7 + e8)))), rest);
      Assoc(e1, e2 + (e3 + (e4 + (e5 + (e6 + (e7 + e8))))), rest);
    }
    OptionalTextDecodes(1, Some(rule.id), t2);
    OptionalTextDecodes(2, rule.repository, t3);
    OptionalTextDecodes(3, rule.workflow, t4);
    OptionalTextDecodes(4, rule.artifact, t5);
    OptionalTextDecodes(5, rule.branch, t6);
    OptionalU64Decodes(6, rule.keepDays, t7);
    OptionalU64Decodes(7, rule.keepLatest, t8);
    OptionalBoolDecodes(8, rule.protect, rest);
  }

  lemma ResourceFieldsDecode(rule: PolicyRule, rest: Bytes)
    requires RuleIsText(rule) && FieldsFitResource(rule)
    requires AtBoundary(rest)
    ensures DecodeResourceFields(CommonPart(rule), EncodeResourceFields(rule) + rest)
         == Got(CanonicalRule(rule), rest)
  {
    match rule.resource
    case ArtifactResource =>
      assert EncodeResourceFields(rule) + rest == rest;
      DoesNotStart(CACHE_RULE, rest);
      DoesNotStart(RUN_RULE, rest);
    case CacheResource =>
      CacheFieldsDecode(rule, rest);
    case WorkflowRunResource =>
      RunRuleDecodes(rule, rest);
  }

  lemma CacheFieldsDecode(rule: PolicyRule, rest: Bytes)
    requires RuleIsText(rule) && FieldsFitResource(rule) && rule.resource == CacheResource
    ensures DecodeResourceFields(CommonPart(rule), EncodeResourceFields(rule) + rest) == Got(rule, rest)
  {
    var e1, e2, e3 := EncodeOptionalText(9, rule.key), EncodeOptionalText(10, rule.gitRef),
      EncodeOptionalU64(11, rule.keepUnusedDays);
    var body := e1 + (e2 + (e3 + rest));
    assert EncodeResourceFields(rule) + rest == Utf8(CACHE_RULE) + body by {
      Assoc(e2, e3, rest);
      Assoc(e1, e2 + e3, rest);
      Assoc(Utf8(CACHE_RULE), e1 + (e2 + e3), rest);
    }
    LiteralRoundTrip(CACHE_RULE, body);
    OptionalTextDecodes(9, rule.key, e2 + (e3 + rest));
    OptionalTextDecodes(10, rule.gitRef, e3 + rest);
    OptionalU64Decodes(11, rule.keepUnusedDays, rest);
  }

  lemma RunRuleDecodes(rule: PolicyRule, rest: Bytes)
    requires RuleIsText(rule) && FieldsFitResource(rule) && rule.resource == WorkflowRunResource
    requires AtBoundary(rest)
    ensures DecodeResourceFields(CommonPart(rule), EncodeResourceFields(rule) + rest)
         == Got(CanonicalRule(rule), rest)
  {
    hide EncodeRunFields, DecodeRunFields, CanonicalRule, Literal;
    var body := EncodeRunFields(rule) + rest;
    Assoc(Utf8(RUN_RULE), EncodeRunFields(rule), rest);
    assert (Utf8(RUN_RULE) + body)[0] == 'w' as int;
    DoesNotStart(CACHE_RULE, Utf8(RUN_RULE) + body);
    LiteralRoundTrip(RUN_RULE, body);
    RunFieldsDecode(rule, rest);
  }

  lemma RunFieldsDecode(rule: PolicyRule, rest: Bytes)
    requires RuleIsText(rule) && FieldsFitResource(rule) && rule.resource == WorkflowRunResource
    requires AtBoundary(rest)
    ensures DecodeRunFields(CommonPart(rule), EncodeRunFields(rule) + rest)
         == Got(CanonicalRule(rule), rest)
  {
    var e1, e2, e3, e4 := EncodeOptionalText(12, rule.event), EncodeOptionalText(13, rule.conclusion),
      EncodeGrouping(rule.keepLatestBy), EncodeBusinessDays(rule.keepBusinessDays);
    var t4 := e4 + rest;
    var t3 := e3 + t4;
    assert EncodeRunFields(rule) + rest == e1 + (e2 + t3) by {
      Assoc(e3, e4, rest);
      Assoc(e2, e3 + e4, rest);
      Assoc(e1, e2 + (e3 + e4), rest);
    }
    OptionalTextDecodes(12, rule.event, e2 + t3);
    OptionalTextDecodes(13, rule.conclusion, t3);
    BusinessDaysDecode(rule.keepBusinessDays, rest);
    assert t4 == [] || t4[0] != 'k' as int by {
      if e4 == [] { assert t4 == rest; } else { assert t4[0] == e4[0]; }
    }
    GroupingDecodes(rule.keepLatestBy, t4);
  }

  lemma RuleDecodes(rule: PolicyRule, rest: Bytes)
    requires RuleIsText(rule) && FieldsFitResource(rule)
    requires AtBoundary(rest)
    ensures DecodeRule(EncodeRule(rule) + rest) == Got(CanonicalRule(rule), rest)
  {
    var common, fields := EncodeCommonFields(rule), EncodeResourceFields(rule);
    Assoc(Utf8(RULE), common + fields, rest);
    Assoc(common, fields, rest);
    LiteralRoundTrip(RULE, common + (fields + rest));
    CommonFieldsDecode(rule, fields + rest);
    ResourceFieldsDecode(rule, rest);
  }

  lemma RulesStartAtBoundary(rules: seq<PolicyRule>)
    requires RulesAreText(rules)
    ensures AtBoundary(EncodeRules(rules))
  {
  }

  lemma RuleIsNotEmpty(rule: PolicyRule)
    requires RuleIsText(rule)
    ensures |EncodeRule(rule)| > 0
  {
  }

  lemma {:induction false} RulesDecode(rules: seq<PolicyRule>)
    requires RulesAreText(rules)
    requires forall i :: 0 <= i < |rules| ==> FieldsFitResource(rules[i])
    ensures DecodeRules(EncodeRules(rules)) == Got(CanonicalRules(rules), [])
    decreases |rules|
  {
    hide EncodeRule, DecodeRule, CanonicalRule, RuleIsText;
    if rules == [] {
      assert CanonicalRules(rules) == [];
    } else {
      var rest := EncodeRules(rules[1..]);
      RulesStartAtBoundary(rules[1..]);
      RuleDecodes(rules[0], rest);
      RuleIsNotEmpty(rules[0]);
      RulesDecode(rules[1..]);
      assert [CanonicalRule(rules[0])] + CanonicalRules(rules[1..]) == CanonicalRules(rules);
    }
  }

  /** Decoding what was hashed gives back the policy, up to spelled-out defaults. */
  lemma FingerprintDecodes(globs: Globs, config: PolicyConfig)
    requires PolicyIsText(config) && ValidPolicy(globs, config)
    ensures Decode(Encode(config)) == Some(Canonical(config))
  {
    forall i | 0 <= i < |config.rules|
      ensures FieldsFitResource(config.rules[i])
    {
      assert ValidRule(globs, config.rules[i]);
    }
    PolicyDecodes(MAGIC, config);
  }

  lemma PolicyDecodes(magic: string, config: PolicyConfig)
    requires IsText(magic) && PolicyIsText(config)
    requires !(config.defaults.runs.keepDays.Some? && config.defaults.runs.keepBusinessDays.Some?)
    requires forall i :: 0 <= i < |config.rules| ==> FieldsFitResource(config.rules[i])
    ensures DecodePolicy(magic, Utf8(magic) + (EncodeDefaults(config.defaults) + EncodeRules(config.rules)))
         == Got(Canonical(config), [])
  {
    var rules := EncodeRules(config.rules);
    RulesStartAtBoundary(config.rules);
    LiteralRoundTrip(magic, EncodeDefaults(config.defaults) + rules);
    DefaultsDecode(config.defaults, rules);
    RulesDecode(config.rules);
  }

  /** The blocks before the rules, whatever valid rules follow. */
  lemma DefaultsDecode(d: Defaults, rules: Bytes)
    requires !(d.runs.keepDays.Some? && d.runs.keepBusinessDays.Some?)
    requires AtBoundary(rules)
    ensures DecodeDefaults(EncodeDefaults(d) + rules)
         == Got(d.(runs := CanonicalRunDefaults(d.runs)), rules)
  {
    var caches, runs := EncodeCacheDefaults(d.caches), EncodeRunDefaults(d.runs);
    assert EncodeDefaults(d) + rules == EncodeU64(d.keepDays) + (caches + (runs + rules)) by {
      Assoc(caches, runs, rules);
      Assoc(EncodeU64(d.keepDays), caches + runs, rules);
    }
    U64Decodes(d.keepDays, caches + (runs + rules));
    RunDefaultsAreNotCacheDefaults(d.runs, rules);
    CacheDefaultsDecode(d.caches, runs + rules);
    RunDefaultsDecode(d.runs, rules);
  }

  lemma RunDefaultsAreNotCacheDefaults(runs: RunDefaults, rules: Bytes)
    requires AtBoundary(rules)
    ensures var bs := EncodeRunDefaults(runs) + rules; bs == [] || bs[0] != 'c' as int
  {
  }

  /** Two validated policies hash the same bytes exactly when they have one canonical form. */
  lemma EncodingIdentifiesPolicy(globs: Globs, a: PolicyConfig, b: PolicyConfig)
    requires PolicyIsText(a) && ValidPolicy(globs, a)
    requires PolicyIsText(b) && ValidPolicy(globs, b)
    ensures Encode(a) == Encode(b) <==> Canonical(a) == Canonical(b)
  {
    FingerprintDecodes(globs, a);
    FingerprintDecodes(globs, b);
    EncodesCanonically(a);
    EncodesCanonically(b);
  }

  /** Spelling out a default does not change the bytes. */
  lemma EncodesCanonically(config: PolicyConfig)
    requires PolicyIsText(config)
    ensures PolicyIsText(Canonical(config))
    ensures Encode(Canonical(config)) == Encode(config)
  {
    RulesEncodeCanonically(config.rules);
  }

  lemma CanonicalRulesAreText(rules: seq<PolicyRule>)
    requires RulesAreText(rules)
    ensures RulesAreText(CanonicalRules(rules))
  {
  }

  lemma {:induction false} RulesEncodeCanonically(rules: seq<PolicyRule>)
    requires RulesAreText(rules)
    ensures RulesAreText(CanonicalRules(rules))
    ensures EncodeRules(CanonicalRules(rules)) == EncodeRules(rules)
    decreases |rules|
  {
    hide EncodeRule, CanonicalRule, RuleIsText;
    CanonicalRulesAreText(rules);
    if rules != [] {
      RulesEncodeCanonically(rules[1..]);
      assert CanonicalRules(rules)[1..] == CanonicalRules(rules[1..]);
      RuleEncodesCanonically(rules[0]);
    }
  }

  lemma RuleEncodesCanonically(rule: PolicyRule)
    requires RuleIsText(rule)
    ensures RuleIsText(CanonicalRule(rule)) && EncodeRule(CanonicalRule(rule)) == EncodeRule(rule)
  {
    var c := CanonicalRule(rule);
    assert EncodeGrouping(c.keepLatestBy) == EncodeGrouping(rule.keepLatestBy);
    assert EncodeCommonFields(c) == EncodeCommonFields(rule);
    assert EncodeResourceFields(c) == EncodeResourceFields(rule);
  }

  // --- FNV-1a -----------------------------------------------------------------------------------

  const OFFSET_BASIS: nat := 0xcbf29ce484222325
  const PRIME: nat := 0x100000001b3
  const MODULUS: nat := 0x1_0000_0000_0000_0000

  type Hash = h: nat | h < MODULUS

  /** Exclusive or of the low `bits` bits. */
  function Xor(a: nat, b: nat, bits: nat): nat {
    if bits == 0 then 0 else (a % 2 + b % 2) % 2 + 2 * Xor(a / 2, b / 2, bits - 1)
  }

  lemma {:induction false} XorCancels(a: nat, b: nat, bits: nat)
    requires a < Pow2(bits) && b < Pow2(bits)
    ensures Xor(a, b, bits) < Pow2(bits)
    ensures Xor(Xor(a, b, bits), b, bits) == a
    ensures Xor(Xor(a, b, bits), a, bits) == b
  {
    hide Xor, Pow2;
    if bits != 0 {
      var ah, al := Halves(a, bits);
      var bh, bl := Halves(b, bits);
      XorCancels(ah, bh, bits - 1);
      assert a == al + 2 * ah && b == bl + 2 * bh;
      XorCancelsJoined(ah, al, bh, bl, bits);
    } else {
      NoBits(a, b);
    }
  }

  lemma NoBits(a: nat, b: nat)
    requires a < Pow2(0) && b < Pow2(0)
    ensures a == b == Xor(a, b, 0) == 0 && Pow2(0) == 1
  {
  }

  /** The lowest bit and the rest. */
  lemma Halves(a: nat, bits: nat) returns (high: nat, low: nat)
    requires bits != 0 && a < Pow2(bits)
    ensures low < 2 && a == low + 2 * high && high < Pow2(bits - 1)
  {
    high, low := a / 2, a % 2;
  }

  lemma XorCancelsJoined(ah: nat, al: nat, bh: nat, bl: nat, bits: nat)
    requires bits != 0 && al < 2 && bl < 2
    requires var high := Xor(ah, bh, bits - 1);
             high < Pow2(bits - 1) && Xor(high, bh, bits - 1) == ah && Xor(high, ah, bits - 1) == bh
    ensures var a, b := al + 2 * ah, bl + 2 * bh;
            Xor(a, b, bits) < Pow2(bits) && Xor(Xor(a, b, bits), b, bits) == a && Xor(Xor(a, b, bits), a, bits) == b
  {
    var high, low := Xor(ah, bh, bits - 1), XorBit(al, bl);
    assert Pow2(bits) == 2 * Pow2(bits - 1);
    hide Xor, Pow2;
    XorJoins(ah, al, bh, bl, bits);
    XorJoins(high, low, bh, bl, bits);
    XorJoins(high, low, ah, al, bits);
  }

  /** Bit `k` of a number. */
  function BitOf(n: nat, k: nat): nat { if k == 0 then n % 2 else BitOf(n / 2, k - 1) }

  /** Each bit of the result is set exactly when the two bits differ. */
  lemma {:induction false} XorMeaning(a: nat, b: nat, bits: nat, k: nat)
    requires k < bits
    ensures BitOf(Xor(a, b, bits), k) == 1 <==> BitOf(a, k) != BitOf(b, k)
    ensures BitOf(Xor(a, b, bits), k) <= 1
  {
    var rest := Xor(a / 2, b / 2, bits - 1);
    assert Xor(a, b, bits) / 2 == rest && Xor(a, b, bits) % 2 == (a % 2 + b % 2) % 2;
    if k > 0 {
      XorMeaning(a / 2, b / 2, bits - 1, k - 1);
    }
  }

  function XorBit(a: nat, b: nat): nat { if a == b then 0 else 1 }

  lemma XorJoins(ah: nat, al: nat, bh: nat, bl: nat, bits: nat)
    requires bits != 0 && al < 2 && bl < 2
    ensures Xor(al + 2 * ah, bl + 2 * bh, bits) == XorBit(al, bl) + 2 * Xor(ah, bh, bits - 1)
  {
    var a, b := al + 2 * ah, bl + 2 * bh;
    assert a / 2 == ah && a % 2 == al && b / 2 == bh && b % 2 == bl;
  }

  function Pow2(bits: nat): nat {
    if bits == 0 then 1 else 2 * Pow2(bits - 1)
  }

  function XorLow(a: Byte, b: Byte): (r: Byte)
    ensures r == Xor(a, b, 8)
  {
    Pow2Is256(a, b);
    Xor(a, b, 8)
  }

  /** `hash ^= byte`: only the low eight bits can change. */
  function XorByte(h: Hash, b: Byte): (r: Hash)
    ensures r / 256 == h / 256 && r % 256 == XorLow(h % 256, b)
  {
    hide XorLow;
    WithLowByte(h, XorLow(h % 256, b));
    h / 256 * 256 + XorLow(h % 256, b)
  }

  lemma WithLowByte(h: Hash, low: Byte)
    ensures h / 256 * 256 + low < MODULUS
    ensures (h / 256 * 256 + low) / 256 == h / 256
    ensures (h / 256 * 256 + low) % 256 == low
  {
  }

  lemma Pow2Is256(a: Byte, b: Byte)
    ensures Xor(a, b, 8) < 256
    ensures Xor(Xor(a, b, 8), b, 8) == a
    ensures Xor(Xor(a, b, 8), a, 8) == b
  {
    assert Pow2(8) == 256 by {
      assert Pow2(4) == 16;
    }
    XorCancels(a, b, 8);
  }

  function MulPrime(h: Hash): Hash { h * PRIME % MODULUS }

  function Step(h: Hash, b: Byte): Hash { MulPrime(XorByte(h, b)) }

  function Fnv(bs: Bytes, h: Hash): Hash {
    if bs == [] then h else Step(Fnv(bs[..|bs| - 1], h), bs[|bs| - 1])
  }

  lemma FirstExclusiveOr()
    ensures Xor(37, 97, 8) == 68
  {
    assert Xor(0, 1, 2) == 1;
    assert Xor(2, 6, 4) == 4;
    assert Xor(9, 24, 6) == 17;
  }

  lemma FirstStep()
    ensures XorByte(OFFSET_BASIS, 97) == OFFSET_BASIS + 31
  {
    assert OFFSET_BASIS % 256 == 37;
    FirstExclusiveOr();
  }

  lemma FirstProduct()
    ensures MulPrime(OFFSET_BASIS + 31) == 0xaf63dc4c8601ec8c
  {
    ModOf(875948729822, 0xaf63dc4c8601ec8c);
  }

  lemma OneByteHash(b: Byte, h: Hash)
    ensures Fnv([b], h) == MulPrime(XorByte(h, b))
  {
    hide XorByte, MulPrime;
    var text: Bytes := [b];
    assert text[..0] == [];
  }

  /** The constants of 64-bit FNV-1a, and its published hash of the text "a". */
  lemma StandardHash()
    ensures OFFSET_BASIS == 14_695_981_039_346_656_037 && PRIME == 1_099_511_628_211
    ensures Fnv([97], OFFSET_BASIS) == 0xaf63dc4c8601ec8c
  {
    hide Fnv, XorByte, MulPrime;
    FirstStep();
    OneByteHash(97, OFFSET_BASIS);
    FirstProduct();
  }

  const PRIME_INVERSE: nat := 0xce965057aff6957b

  /** The prime is odd, so multiplying by it modulo 2^64 loses nothing. */
  lemma MulPrimeInjective(g: Hash, h: Hash)
    requires MulPrime(g) == MulPrime(h)
    ensures g == h
  {
    assert PRIME * PRIME_INVERSE % MODULUS == 1;
    MulInverse(g);
    MulInverse(h);
  }

  lemma MulInverse(h: Hash)
    ensures MulPrime(h) * PRIME_INVERSE % MODULUS == h
  {
    var q := h * PRIME / MODULUS;
    assert MulPrime(h) == h * PRIME - q * MODULUS;
    var k := PRIME * PRIME_INVERSE / MODULUS;
    assert PRIME * PRIME_INVERSE == k * MODULUS + 1;
    calc {
      MulPrime(h) * PRIME_INVERSE;
      (h * PRIME - q * MODULUS) * PRIME_INVERSE;
      h * (PRIME * PRIME_INVERSE) - q * PRIME_INVERSE * MODULUS;
      (h * k - q * PRIME_INVERSE) * MODULUS + h;
    }
    ModOf(h * k - q * PRIME_INVERSE, h);
  }

  lemma ModOf(multiple: int, h: Hash)
    ensures (multiple * MODULUS + h) % MODULUS == h
  {
  }

  lemma XorByteInjective(g: Hash, h: Hash, b: Byte, c: Byte)
    requires XorByte(g, b) == XorByte(h, c)
    ensures b == c ==> g == h
    ensures g == h ==> b == c
  {
    Pow2Is256(g % 256, b);
    Pow2Is256(h % 256, c);
    assert g / 256 == h / 256;
    assert g == g / 256 * 256 + g % 256 && h == h / 256 * 256 + h % 256;
  }

  /** One hash step is a bijection of the state for each byte, and of the byte for each state. */
  lemma StepInjective(g: Hash, h: Hash, b: Byte, c: Byte)
    requires Step(g, b) == Step(h, c)
    ensures b == c ==> g == h
    ensures g == h ==> b == c
  {
    MulPrimeInjective(XorByte(g, b), XorByte(h, c));
    XorByteInjective(g, h, b, c);
  }

  lemma {:induction false} FnvAppend(a: Bytes, b: Bytes, h: Hash)
    ensures Fnv(a + b, h) == Fnv(b, Fnv(a, h))
  {
    if b == [] {
      assert a + b == a;
    } else {
      FnvAppend(a, b[..|b| - 1], h);
      assert (a + b)[..|a + b| - 1] == a + b[..|b| - 1];
    }
  }

  /** Hashing the same suffix keeps different states different. */
  lemma {:induction false} FnvInjectiveInState(bs: Bytes, g: Hash, h: Hash)
    requires g != h
    ensures Fnv(bs, g) != Fnv(bs, h)
  {
    if bs != [] {
      var n := |bs| - 1;
      FnvInjectiveInState(bs[..n], g, h);
      if Fnv(bs, g) == Fnv(bs, h) {
        StepInjective(Fnv(bs[..n], g), Fnv(bs[..n], h), bs[n], bs[n]);
      }
    }
  }

  /** Two encodings that differ in one byte only never share a hash. */
  lemma OneByteAlwaysShows(a: Bytes, b: Bytes, i: nat)
    requires |a| == |b| && i < |a|
    requires a[i] != b[i]
    requires forall j :: 0 <= j < |a| && j != i ==> a[j] == b[j]
    ensures Fnv(a, OFFSET_BASIS) != Fnv(b, OFFSET_BASIS)
  {
    var prefix, suffix := a[..i], a[i + 1..];
    var state := Fnv(prefix, OFFSET_BASIS);
    assert a == prefix + [a[i]] + suffix;
    assert b == prefix + [b[i]] + suffix;
    SplitHash(prefix, a[i], suffix);
    SplitHash(prefix, b[i], suffix);
    if Step(state, a[i]) == Step(state, b[i]) {
      StepInjective(state, state, a[i], b[i]);
    }
    FnvInjectiveInState(suffix, Step(state, a[i]), Step(state, b[i]));
  }

  lemma SplitHash(prefix: Bytes, b: Byte, suffix: Bytes)
    ensures Fnv(prefix + [b] + suffix, OFFSET_BASIS) == Fnv(suffix, Step(Fnv(prefix, OFFSET_BASIS), b))
  {
    FnvAppend(prefix + [b], suffix, OFFSET_BASIS);
    assert (prefix + [b])[..|prefix|] == prefix;
  }

  // --- the printed form -------------------------------------------------------------------------

  function HexDigit(n: nat): char
    requires n < 16
  {
    "0123456789abcdef"[n]
  }

  /** Lower-case hexadecimal with leading zeros, `width` digits. */
  function Hex(h: nat, width: nat): (r: string)
    ensures |r| == width
  {
    if width == 0 then "" else Hex(h / 16, width - 1) + [HexDigit(h % 16)]
  }

  function Pow16(width: nat): nat {
    if width == 0 then 1 else 16 * Pow16(width - 1)
  }

  lemma HexSplits(g: nat, width: nat)
    requires width != 0
    ensures |Hex(g, width)| == width && Hex(g, width)[..width - 1] == Hex(g / 16, width - 1)
    ensures Hex(g, width)[width - 1] == HexDigit(g % 16)
  {
  }

  lemma DigitInjective(m: nat, n: nat)
    requires m < 16 && n < 16 && HexDigit(m) == HexDigit(n)
    ensures m == n
  {
  }

  lemma Sixteenths(g: nat, width: nat)
    requires width != 0 && g < Pow16(width)
    ensures g / 16 < Pow16(width - 1) && g == 16 * (g / 16) + g % 16
  {
  }

  lemma {:induction false} HexInjective(g: nat, h: nat, width: nat)
    requires g < Pow16(width) && h < Pow16(width)
    requires Hex(g, width) == Hex(h, width)
    ensures g == h
  {
    if width != 0 {
      hide Hex, HexDigit, Pow16;
      HexSplits(g, width);
      HexSplits(h, width);
      Sixteenths(g, width);
      Sixteenths(h, width);
      assert Hex(g, width)[width - 1] == Hex(h, width)[width - 1];
      DigitInjective(g % 16, h % 16);
      HexInjective(g / 16, h / 16, width - 1);
    }
  }

  const LABEL: string := "fnv1a64:"

  function FingerprintOf(config: PolicyConfig): string
    requires PolicyIsText(config)
  {
    LABEL + Hex(Fnv(Encode(config), OFFSET_BASIS), 16)
  }

  predicate DifferInOnePlace(a: Bytes, b: Bytes) {
    |a| == |b| && exists i :: 0 <= i < |a| && a[i] != b[i] && a[..i] == b[..i] && a[i + 1..] == b[i + 1..]
  }

  /** A single edited byte between two validated policies always changes the printed fingerprint. */
  lemma FingerprintSeesOneByte(a: PolicyConfig, b: PolicyConfig)
    requires PolicyIsText(a) && PolicyIsText(b)
    requires DifferInOnePlace(Encode(a), Encode(b))
    ensures FingerprintOf(a) != FingerprintOf(b)
  {
    hide Encode, Fnv, Hex;
    var x, y := Encode(a), Encode(b);
    var i :| 0 <= i < |x| && x[i] != y[i] && x[..i] == y[..i] && x[i + 1..] == y[i + 1..];
    forall j | 0 <= j < |x| && j != i
      ensures x[j] == y[j]
    {
      if j < i {
        assert x[j] == x[..i][j] && y[j] == y[..i][j];
      } else {
        assert x[j] == x[i + 1..][j - i - 1] && y[j] == y[i + 1..][j - i - 1];
      }
    }
    OneByteAlwaysShows(x, y, i);
    var g, h := Fnv(x, OFFSET_BASIS), Fnv(y, OFFSET_BASIS);
    if FingerprintOf(a) == FingerprintOf(b) {
      assert FingerprintOf(a)[|LABEL|..] == Hex(g, 16);
      assert FingerprintOf(b)[|LABEL|..] == Hex(h, 16);
      SixteenDigits();
      HexInjective(g, h, 16);
    }
  }

  lemma SixteenDigits()
    ensures Pow16(16) == MODULUS
  {
    assert Pow16(4) == 0x1_0000;
    assert Pow16(8) == 0x1_0000_0000;
    assert Pow16(12) == 0x1_0000_0000_0000;
  }

  // --- the source's loops -----------------------------------------------------------------------

  /** `hash_bytes`: one loop over the bytes, updating the running hash. */
  method HashBytes(start: Hash, bs: Bytes) returns (hash: Hash)
    ensures hash == Fnv(bs, start)
  {
    hash := start;
    for i := 0 to |bs|
      invariant hash == Fnv(bs[..i], start)
    {
      assert bs[..i + 1][..i] == bs[..i];
      hash := XorByte(hash, bs[i]);
      hash := MulPrime(hash);
    }
    assert bs[..|bs|] == bs;
  }

  method HashOptionalText(start: Hash, tag: Byte, value: Option<string>) returns (hash: Hash)
    requires OptionIsText(value)
    ensures hash == Fnv(EncodeOptionalText(tag, value), start)
  {
    hash := HashBytes(start, [tag]);
    match value {
      case Some(s) =>
        hash := HashBytes(hash, [1]);
        hash := HashBytes(hash, EncodeU64(|s|));
        hash := HashBytes(hash, Utf8(s));
        FnvAppend([tag], [1], start);
        assert [tag] + [1] == [tag, 1];
        FnvAppend([tag, 1], EncodeU64(|s|), start);
        FnvAppend([tag, 1] + EncodeU64(|s|), Utf8(s), start);
      case None =>
        hash := HashBytes(hash, [0]);
        FnvAppend([tag], [0], start);
        assert [tag] + [0] == [tag, 0];
    }
  }

  method HashOptionalU64(start: Hash, tag: Byte, value: Option<U64>) returns (hash: Hash)
    ensures hash == Fnv(EncodeOptionalU64(tag, value), start)
  {
    hash := HashBytes(start, [tag]);
    match value {
      case Some(v) =>
        hash := HashBytes(hash, [1]);
        hash := HashBytes(hash, EncodeU64(v));
        FnvAppend([tag], [1], start);
        assert [tag] + [1] == [tag, 1];
        FnvAppend([tag, 1], EncodeU64(v), start);
      case None =>
        hash := HashBytes(hash, [0]);
        FnvAppend([tag], [0], start);
        assert [tag] + [0] == [tag, 0];
    }
  }

  method HashOptionalBool(start: Hash, tag: Byte, value: Option<bool>) returns (hash: Hash)
    ensures hash == Fnv(EncodeOptionalBool(tag, value), start)
  {
    hash := HashBytes(start, [tag]);
    match value {
      case Some(b) =>
        hash := HashBytes(hash, [1, if b then 1 else 0]);
        FnvAppend([tag], [1, if b then 1 else 0], start);
        assert [tag] + [1, if b then 1 else 0] == EncodeOptionalBool(tag, value);
      case None =>
        hash := HashBytes(hash, [0]);
        FnvAppend([tag], [0], start);
        assert [tag] + [0] == [tag, 0];
    }
  }

  method HashCacheDefaults(start: Hash, d: CacheDefaults) returns (hash: Hash)
    ensures hash == Fnv(EncodeCacheDefaults(d), start)
  {
    hash := start;
    if d != CacheDefaults(DEFAULT_KEEP_DAYS, None) {
      hash := HashBytes(hash, Utf8(CACHE_DEFAULTS));
      hash := HashBytes(hash, EncodeU64(d.keepDays));
      hash := HashOptionalU64(hash, 9, d.keepUnusedDays);
      Append3(Utf8(CACHE_DEFAULTS), EncodeU64(d.keepDays), EncodeOptionalU64(9, d.keepUnusedDays), start);
    }
  }

  method HashRunDefaults(start: Hash, d: RunDefaults) returns (hash: Hash)
    ensures hash == Fnv(EncodeRunDefaults(d), start)
  {
    hash := start;
    var keepDays := d.keepDays.GetOr(DEFAULT_KEEP_DAYS);
    if keepDays != DEFAULT_KEEP_DAYS || d.keepBusinessDays.Some? {
      hash := HashBytes(hash, Utf8(RUN_DEFAULTS));
      hash := HashBytes(hash, EncodeU64(keepDays));
      if d.keepBusinessDays.Some? {
        hash := HashOptionalU64(hash, 14, d.keepBusinessDays);
      }
      Append3(Utf8(RUN_DEFAULTS), EncodeU64(keepDays), EncodeBusinessDays(d.keepBusinessDays), start);
    }
  }

  method HashDefaults(start: Hash, d: Defaults) returns (hash: Hash)
    ensures hash == Fnv(EncodeDefaults(d), start)
  {
    hide EncodeCacheDefaults, EncodeRunDefaults, EncodeU64;
    Append3(EncodeU64(d.keepDays), EncodeCacheDefaults(d.caches), EncodeRunDefaults(d.runs), start);
    hash := HashBytes(start, EncodeU64(d.keepDays));
    hash := HashCacheDefaults(hash, d.caches);
    hash := HashRunDefaults(hash, d.runs);
  }

  lemma Append3(a: Bytes, b: Bytes, c: Bytes, h: Hash)
    ensures Fnv(a + (b + c), h) == Fnv(c, Fnv(b, Fnv(a, h)))
  {
    FnvAppend(a, b + c, h);
    FnvAppend(b, c, Fnv(a, h));
  }

  method HashCommonFields(start: Hash, rule: PolicyRule) returns (hash: Hash)
    requires RuleIsText(rule)
    ensures hash == Fnv(EncodeCommonFields(rule), start)
  {
    ghost var e1, e2, e3, e4 := EncodeOptionalText(1, Some(rule.id)), EncodeOptionalText(2, rule.repository),
      EncodeOptionalText(3, rule.workflow), EncodeOptionalText(4, rule.artifact);
    ghost var e5, e6, e7, e8 := EncodeOptionalText(5, rule.branch), EncodeOptionalU64(6, rule.keepDays),
      EncodeOptionalU64(7, rule.keepLatest), EncodeOptionalBool(8, rule.protect);
    hash := HashOptionalText(start, 1, Some(rule.id));
    FnvAppend(e1, e2 + (e3 + (e4 + (e5 + (e6 + (e7 + e8))))), start);
    FnvAppend(e2, e3 + (e4 + (e5 + (e6 + (e7 + e8)))), hash);
    hash := HashOptionalText(hash, 2, rule.repository);
    FnvAppend(e3, e4 + (e5 + (e6 + (e7 + e8))), hash);
    hash := HashOptionalText(hash, 3, rule.workflow);
    FnvAppend(e4, e5 + (e6 + (e7 + e8)), hash);
    hash := HashOptionalText(hash, 4, rule.artifact);
    FnvAppend(e5, e6 + (e7 + e8), hash);
    hash := HashOptionalText(hash, 5, rule.branch);
    FnvAppend(e6, e7 + e8, hash);
    hash := HashOptionalU64(hash, 6, rule.keepDays);
    FnvAppend(e7, e8, hash);
    hash := HashOptionalU64(hash, 7, rule.keepLatest);
    hash := HashOptionalBool(hash, 8, rule.protect);
  }

  method HashResourceFields(start: Hash, rule: PolicyRule) returns (hash: Hash)
    requires RuleIsText(rule)
    ensures hash == Fnv(EncodeResourceFields(rule), start)
  {
    match rule.resource {
      case ArtifactResource =>
        hash := start;
      case CacheResource =>
        ghost var e1, e2, e3 := EncodeOptionalText(9, rule.key), EncodeOptionalText(10, rule.gitRef),
          EncodeOptionalU64(11, rule.keepUnusedDays);
        hash := HashBytes(start, Utf8(CACHE_RULE));
        FnvAppend(Utf8(CACHE_RULE), e1 + (e2 + e3), start);
        Append3(e1, e2, e3, hash);
        hash := HashOptionalText(hash, 9, rule.key);
        hash := HashOptionalText(hash, 10, rule.gitRef);
        hash := HashOptionalU64(hash, 11, rule.keepUnusedDays);
      case WorkflowRunResource =>
        hash := HashBytes(start, Utf8(RUN_RULE));
        FnvAppend(Utf8(RUN_RULE), EncodeRunFields(rule), start);
        hash := HashRunFields(hash, rule);
    }
  }

  method HashRunFields(start: Hash, rule: PolicyRule) returns (hash: Hash)
    requires RuleIsText(rule)
    ensures hash == Fnv(EncodeRunFields(rule), start)
  {
    ghost var e1, e2, e3, e4 := EncodeOptionalText(12, rule.event), EncodeOptionalText(13, rule.conclusion),
      EncodeGrouping(rule.keepLatestBy), EncodeBusinessDays(rule.keepBusinessDays);
    Append3(e1, e2, e3 + e4, start);
    hash := HashOptionalText(start, 12, rule.event);
    hash := HashOptionalText(hash, 13, rule.conclusion);
    FnvAppend(e3, e4, hash);
    if rule.keepLatestBy == Some(Workflow) {
      hash := HashBytes(hash, Utf8(BY_WORKFLOW));
    }
    if rule.keepBusinessDays.Some? {
      hash := HashOptionalU64(hash, 14, rule.keepBusinessDays);
    }
  }

  lemma {:induction false} RulesAppend(rules: seq<PolicyRule>, rule: PolicyRule)
    requires RulesAreText(rules) && RuleIsText(rule)
    ensures EncodeRules(rules + [rule]) == EncodeRules(rules) + EncodeRule(rule)
    decreases |rules|
  {
    if rules == [] {
      assert [] + [rule] == [rule];
      assert EncodeRules([rule]) == EncodeRule(rule) + EncodeRules([]);
    } else {
      RulesAppend(rules[1..], rule);
      assert (rules + [rule])[1..] == rules[1..] + [rule];
      Assoc(EncodeRule(rules[0]), EncodeRules(rules[1..]), EncodeRule(rule));
    }
  }

  /** `PolicyConfig::fingerprint`. */
  method ComputeFingerprint(config: PolicyConfig) returns (text: string)
    requires PolicyIsText(config)
    ensures text == FingerprintOf(config)
  {
    var hash := HashBytes(OFFSET_BASIS, Utf8(MAGIC));
    FnvAppend(Utf8(MAGIC), EncodeDefaults(config.defaults) + EncodeRules(config.rules), OFFSET_BASIS);
    FnvAppend(EncodeDefaults(config.defaults), EncodeRules(config.rules), hash);
    hash := HashDefaults(hash, config.defaults);
    hash := HashRules(hash, config.rules);
    text := LABEL + Hex(hash, 16);
  }

  method HashRule(start: Hash, rule: PolicyRule) returns (hash: Hash)
    requires RuleIsText(rule)
    ensures hash == Fnv(EncodeRule(rule), start)
  {
    Append3(Utf8(RULE), EncodeCommonFields(rule), EncodeResourceFields(rule), start);
    hash := HashBytes(start, Utf8(RULE));
    hash := HashCommonFields(hash, rule);
    hash := HashResourceFields(hash, rule);
  }

  method HashRules(start: Hash, rules: seq<PolicyRule>) returns (hash: Hash)
    requires RulesAreText(rules)
    ensures hash == Fnv(EncodeRules(rules), start)
  {
    hash := start;
    ghost var done: seq<PolicyRule> := [];
    EmptyHash(start);
    hide *;
    for i := 0 to |rules|
      invariant done == rules[..i]
      invariant RulesAreText(done)
      invariant hash == Fnv(EncodeRules(done), start)
    {
      RuleAt(rules, i);
      hash := HashRule(hash, rules[i]);
      RulesHashAppend(done, rules[i], start);
      done := done + [rules[i]];
    }
    assert done == rules;
  }

  lemma EmptyHash(start: Hash)
    ensures RulesAreText([]) && Fnv(EncodeRules([]), start) == start
  {
  }

  lemma RuleAt(rules: seq<PolicyRule>, i: nat)
    requires RulesAreText(rules) && i < |rules|
    ensures RuleIsText(rules[i])
  {
  }

  lemma RulesHashAppend(done: seq<PolicyRule>, rule: PolicyRule, start: Hash)
    requires RulesAreText(done) && RuleIsText(rule)
    ensures RulesAreText(done + [rule])
    ensures Fnv(EncodeRules(done + [rule]), start) == Fnv(EncodeRule(rule), Fnv(EncodeRules(done), start))
  {
    RulesAppend(done, rule);
    FnvAppend(EncodeRules(done), EncodeRule(rule), start);
  }
}

/** Artifact classification: `engine.rs`. Newest-N per rule over the whole snapshot, then the resolver. */
module ArtifactEngine {
  import opened Prelude
  import opened Domain
  import opened Policy
  import opened BusinessDays
  import opened Sorting
  import E = RunEngine

  datatype ArtifactDecision = ArtifactDecision(
    artifactId: nat,
    repository: string,
    sizeInBytes: U64,
    decision: E.Decision,
    keepDays: Option<U64>,
    reasons: seq<E.Reason>)

  datatype ArtifactContext = ArtifactContext(globs: Globs, config: PolicyConfig, scannedAt: Moment)

  // --- keep latest ------------------------------------------------------------------------------------------

  /** The three-key order, newest and highest first. */
  predicate NewerArtifact(a: Artifact, b: Artifact) {
    || a.createdAt > b.createdAt
    || (a.createdAt == b.createdAt && (a.updatedAt > b.updatedAt || (a.updatedAt == b.updatedAt && a.id > b.id)))
  }

  predicate ArtifactRanksBefore(a: Artifact, b: Artifact) { !NewerArtifact(b, a) }

  function Matching(globs: Globs, rule: PolicyRule, artifacts: seq<Artifact>): seq<Artifact> {
    Filter(artifacts, (a: Artifact) => rule.MatchesArtifact(globs, a))
  }

  /** The artifacts one rule retains: the newest of everything it matches, across repositories. */
  function RetainedBy(globs: Globs, rule: PolicyRule, artifacts: seq<Artifact>): seq<Artifact> {
    if rule.keepLatest.None? then []
    else Take(Sort(Matching(globs, rule, artifacts), ArtifactRanksBefore), rule.keepLatest.value)
  }

  lemma ArtifactRanksIsPreorder()
    ensures TotalPreorder(ArtifactRanksBefore)
  {
  }

  /** Exactly min(k, matching) artifacts, and nothing left out outranks anything retained. */
  lemma RetainedIsTopK(globs: Globs, rule: PolicyRule, artifacts: seq<Artifact>)
    requires rule.keepLatest.Some?
    ensures var matching, kept := Matching(globs, rule, artifacts), RetainedBy(globs, rule, artifacts);
            && |kept| == (if rule.keepLatest.value <= |matching| then rule.keepLatest.value else |matching|)
            && multiset(kept) <= multiset(matching)
            && forall x, y :: x in kept && y in matching && y !in kept ==> ArtifactRanksBefore(x, y)
  {
    hide ArtifactRanksBefore, PolicyRule.MatchesArtifact;
    var matching := Matching(globs, rule, artifacts);
    var sorted := Sort(matching, ArtifactRanksBefore);
    SortPermutes(matching, ArtifactRanksBefore);
    ArtifactRanksIsPreorder();
    SortSorts(matching, ArtifactRanksBefore);
    var kept := Take(sorted, rule.keepLatest.value);
    assert sorted == kept + sorted[|kept|..];
    forall x, y | x in kept && y in matching && y !in kept ensures ArtifactRanksBefore(x, y) {
      MembersSurvive(sorted, matching, y);
      TakeKeepsTheFirst(sorted, rule.keepLatest.value, ArtifactRanksBefore, x, y);
    }
  }

  type Kept = map<nat, seq<string>>

  /** What one rule records for an id: its own id, once for every retained artifact with that id. */
  function Pushes(newest: seq<Artifact>, id: nat, ruleId: string): seq<string> {
    if newest == [] then []
    else
      var n := |newest| - 1;
      Pushes(newest[..n], id, ruleId) + if newest[n].id == id then [ruleId] else []
  }

  /** The whole record of an id, the rules in policy order; repositories are not told apart. */
  function RecordOf(globs: Globs, rules: seq<PolicyRule>, artifacts: seq<Artifact>, id: nat): seq<string> {
    if rules == [] then []
    else
      var n := |rules| - 1;
      RecordOf(globs, rules[..n], artifacts, id) + Pushes(RetainedBy(globs, rules[n], artifacts), id, rules[n].id)
  }

  function Entry(kept: Kept, id: nat): seq<string> { if id in kept then kept[id] else [] }

  predicate NoEmptyEntry(kept: Kept) { forall id :: id in kept ==> kept[id] != [] }

  /** The map holds exactly the non-empty records: which rules, how often, in which order. */
  ghost predicate RecordsIds(kept: Kept, globs: Globs, rules: seq<PolicyRule>, artifacts: seq<Artifact>) {
    NoEmptyEntry(kept) && forall id :: Entry(kept, id) == RecordOf(globs, rules, artifacts, id)
  }

  /** `kept` holds what `before` held and the first `i` pushes. */
  ghost predicate Pushed(before: Kept, kept: Kept, newest: seq<Artifact>, i: nat, ruleId: string)
    requires i <= |newest|
  {
    NoEmptyEntry(kept) && forall id :: Entry(kept, id) == Entry(before, id) + Pushes(newest[..i], id, ruleId)
  }

  lemma NextPush(before: Kept, kept: Kept, newest: seq<Artifact>, i: nat, ruleId: string)
    requires i < |newest| && Pushed(before, kept, newest, i, ruleId)
    ensures var id := newest[i].id; Pushed(before, kept[id := Entry(kept, id) + [ruleId]], newest, i + 1, ruleId)
  {
    hide Entry, Pushes;
    var id := newest[i].id;
    var next := kept[id := Entry(kept, id) + [ruleId]];
    forall x ensures Entry(next, x) == Entry(before, x) + Pushes(newest[..i + 1], x, ruleId) {
      EntryAfter(kept, id, ruleId, x);
      PushesNext(newest, i, x, ruleId);
    }
  }

  lemma EntryAfter(kept: Kept, id: nat, ruleId: string, x: nat)
    ensures Entry(kept[id := Entry(kept, id) + [ruleId]], x) == Entry(kept, x) + if x == id then [ruleId] else []
  {
  }

  lemma PushesNext(newest: seq<Artifact>, i: nat, id: nat, ruleId: string)
    requires i < |newest|
    ensures Pushes(newest[..i + 1], id, ruleId) == Pushes(newest[..i], id, ruleId)
            + if newest[i].id == id then [ruleId] else []
  {
    assert newest[..i + 1][..i] == newest[..i];
  }

  /** One rule's pushes. */
  method PushIds(before: Kept, newest: seq<Artifact>, ruleId: string) returns (kept: Kept)
    requires NoEmptyEntry(before)
    ensures NoEmptyEntry(kept)
    ensures forall id :: Entry(kept, id) == Entry(before, id) + Pushes(newest, id, ruleId)
  {
    kept := before;
    for i := 0 to |newest|
      invariant Pushed(before, kept, newest, i, ruleId)
    {
      NextPush(before, kept, newest, i, ruleId);
      kept := kept[newest[i].id := Entry(kept, newest[i].id) + [ruleId]];
    }
    assert newest[..|newest|] == newest;
  }

  /** `keep_latest_selections` */
  method KeepLatestIds(globs: Globs, rules: seq<PolicyRule>, artifacts: seq<Artifact>) returns (kept: Kept)
    ensures RecordsIds(kept, globs, rules, artifacts)
  {
    hide Sort, Matching;
    kept := map[];
    for i := 0 to |rules|
      invariant RecordsIds(kept, globs, rules[..i], artifacts)
    {
      assert rules[..i + 1][..i] == rules[..i];
      if rules[i].keepLatest.Some? {
        kept := PushIds(kept, RetainedBy(globs, rules[i], artifacts), rules[i].id);
      }
    }
    assert rules[..|rules|] == rules;
  }

  predicate HasId(artifacts: seq<Artifact>, id: nat) { exists a :: a in artifacts && a.id == id }

  lemma LastHasId(newest: seq<Artifact>, id: nat)
    requires newest != []
    ensures var n := |newest| - 1; HasId(newest, id) <==> HasId(newest[..n], id) || newest[n].id == id
  {
    var n := |newest| - 1;
    if HasId(newest, id) && newest[n].id != id {
      var a :| a in newest && a.id == id;
      assert a in newest[..n];
    }
  }

  lemma {:induction false} PushedIff(newest: seq<Artifact>, id: nat, ruleId: string)
    ensures Pushes(newest, id, ruleId) != [] <==> HasId(newest, id)
  {
    if newest != [] {
      hide HasId;
      var n := |newest| - 1;
      PushedIff(newest[..n], id, ruleId);
      LastHasId(newest, id);
    }
  }

  /** An id is recorded exactly when some rule retains an artifact with it. */
  lemma {:induction false} RecordedIff(globs: Globs, rules: seq<PolicyRule>, artifacts: seq<Artifact>, id: nat)
    ensures RecordOf(globs, rules, artifacts, id) != []
            <==> exists rule, a :: rule in rules && a in RetainedBy(globs, rule, artifacts) && a.id == id
    decreases |rules|
  {
    hide RetainedBy;
    if rules != [] {
      var n := |rules| - 1;
      RecordedIff(globs, rules[..n], artifacts, id);
      PushedIff(RetainedBy(globs, rules[n], artifacts), id, rules[n].id);
      assert rules == rules[..n] + [rules[n]];
    }
  }

  // --- classification ---------------------------------------------------------------------------------------------

  function ArtifactRules(cx: ArtifactContext, a: Artifact): seq<PolicyRule> {
    Filter(cx.config.rules, (rule: PolicyRule) => rule.MatchesArtifact(cx.globs, a))
  }

  function DeclaringRules(cx: ArtifactContext, a: Artifact): seq<PolicyRule> {
    Filter(ArtifactRules(cx, a), (rule: PolicyRule) => rule.keepDays.Some?)
  }

  function ProtectingRules(cx: ArtifactContext, a: Artifact): seq<PolicyRule> {
    Filter(ArtifactRules(cx, a), (rule: PolicyRule) => rule.protect == Some(true))
  }

  function Decide(a: Artifact, decision: E.Decision, keepDays: Option<U64>, reasons: seq<E.Reason>): ArtifactDecision {
    ArtifactDecision(a.id, a.repository.fullName, a.sizeInBytes, decision, keepDays, reasons)
  }

  /** `classify_artifact` */
  function ClassifyArtifact(cx: ArtifactContext, a: Artifact, kept: Kept): ArtifactDecision {
    if ProtectingRules(cx, a) != []
      then Decide(a, E.Shielded, None, E.Reasons(E.ExplicitProtection, ProtectingRules(cx, a)))
    else if a.id in kept then
      Decide(a, E.Keep, None, seq(|kept[a.id]|,
          i requires 0 <= i < |kept[a.id]| => E.Reason(E.KeepLatestRule, Some(kept[a.id][i]))))
    else ClassifyByAge(cx, a)
  }

  function ClassifyByAge(cx: ArtifactContext, a: Artifact): ArtifactDecision {
    var rules := DeclaringRules(cx, a);
    if rules != [] then
      E.MostSpecificMeaning(rules);
      var best := E.MostSpecific(rules);
      assert best[0] in best && best[0] in rules;
      if exists rule :: rule in best && rule.keepDays != best[0].keepDays then
        Decide(a, E.ManualReview, None, E.Reasons(E.ConflictingRetentionRules, best))
      else
        var days := best[0].keepDays.value;
        var expired := ElapsedDaysExpired(a.createdAt, cx.scannedAt, days);
        Decide(a, if expired then E.Delete else E.Keep, Some(days),
            E.Reasons(if expired then E.RuleRetentionExpired else E.RuleRetentionActive, best))
    else
      var days := cx.config.defaults.keepDays;
      var expired := ElapsedDaysExpired(a.createdAt, cx.scannedAt, days);
      Decide(a, if expired then E.Delete else E.Keep, Some(days),
          [E.Reason(if expired then E.DefaultRetentionExpired else E.DefaultRetentionActive, None)])
  }

  /** A matching retention rule that no matching retention rule beats on selectors. */
  ghost predicate GovernsArtifact(cx: ArtifactContext, a: Artifact, rule: PolicyRule) {
    && RetainsArtifact(cx, a, rule)
    && forall other :: RetainsArtifact(cx, a, other) ==> other.Specificity() <= rule.Specificity()
  }

  ghost predicate RetainsArtifact(cx: ArtifactContext, a: Artifact, rule: PolicyRule) {
    rule in cx.config.rules && rule.MatchesArtifact(cx.globs, a) && rule.keepDays.Some?
  }

  /** The number of days in force, when the governing rules agree on one. */
  ghost predicate DaysInForce(cx: ArtifactContext, a: Artifact, days: U64) {
    if exists rule :: RetainsArtifact(cx, a, rule) then forall rule :: GovernsArtifact(cx, a, rule) ==>
        rule.keepDays == Some(days)
    else days == cx.config.defaults.keepDays
  }

  ghost predicate ArtifactCondemned(cx: ArtifactContext, a: Artifact, kept: Kept) {
    && (forall rule :: rule in cx.config.rules && rule.MatchesArtifact(cx.globs, a) ==> rule.protect != Some(true))
    && a.id !in kept
    && exists days :: DaysInForce(cx, a, days) && ElapsedDaysExpired(a.createdAt, cx.scannedAt, days)
  }

  lemma DaysResolved(cx: ArtifactContext, a: Artifact)
    ensures var d := ClassifyByAge(cx, a);
            && (d.keepDays.Some? ==> forall days :: DaysInForce(cx, a, days) <==> days == d.keepDays.value)
            && (d.keepDays.None? ==> d.decision == E.ManualReview && forall days :: !DaysInForce(cx, a, days))
            && (d.keepDays.Some? ==> (d.decision == E.Delete <==>
               ElapsedDaysExpired(a.createdAt, cx.scannedAt, d.keepDays.value)))
  {
    hide ElapsedDaysExpired, PolicyRule.Specificity, PolicyRule.MatchesArtifact;
    var rules := DeclaringRules(cx, a);
    assert forall rule :: rule in rules <==> RetainsArtifact(cx, a, rule);
    if rules != [] {
      E.MostSpecificMeaning(rules);
      var best := E.MostSpecific(rules);
      assert forall rule :: rule in best <==> GovernsArtifact(cx, a, rule);
      assert best[0] in best;
    }
  }

  lemma ProtectedIff(cx: ArtifactContext, a: Artifact)
    ensures ProtectingRules(cx, a) == [] <==>
              forall rule :: rule in cx.config.rules && rule.MatchesArtifact(cx.globs, a) ==> rule.protect != Some(true)
  {
    hide PolicyRule.MatchesArtifact;
    var protecting := ProtectingRules(cx, a);
    assert forall rule :: rule in protecting <==>
           rule in cx.config.rules && rule.MatchesArtifact(cx.globs, a) && rule.protect == Some(true);
    if protecting != [] {
      assert protecting[0] in protecting;
    }
  }

  /** An artifact is deleted exactly when no rule protects or keeps it and the days in force have passed. */
  lemma ArtifactDeleteMeaning(cx: ArtifactContext, a: Artifact, kept: Kept)
    ensures ClassifyArtifact(cx, a, kept).decision == E.Delete <==> ArtifactCondemned(cx, a, kept)
  {
    hide ElapsedDaysExpired, PolicyRule.MatchesArtifact, ClassifyByAge, DaysInForce, ProtectingRules, E.Reasons;
    DaysResolved(cx, a);
    ProtectedIff(cx, a);
  }

  /** Some rule keeps this artifact itself among its newest. */
  ghost predicate KeptItself(cx: ArtifactContext, artifacts: seq<Artifact>, a: Artifact) {
    exists rule :: rule in cx.config.rules && a in RetainedBy(cx.globs, rule, artifacts)
  }

  /** Some rule keeps a different artifact with the same id. */
  ghost predicate NamesakeKept(cx: ArtifactContext, artifacts: seq<Artifact>, a: Artifact) {
    exists rule, b :: rule in cx.config.rules && b in RetainedBy(cx.globs, rule, artifacts) && b.id == a.id && b != a
  }

  /**
   * The keep-latest map is keyed by the id alone. So an artifact that no rule keeps is spared all the
   * same exactly when another scanned artifact with its id is kept; whether the two sit in one
   * repository does not matter.
   */
  lemma SparedByIdIff(cx: ArtifactContext, artifacts: seq<Artifact>, a: Artifact, kept: Kept)
    requires RecordsIds(kept, cx.globs, cx.config.rules, artifacts)
    ensures a.id in kept <==> KeptItself(cx, artifacts, a) || NamesakeKept(cx, artifacts, a)
    ensures a.id in kept && !KeptItself(cx, artifacts, a) <==>
            NamesakeKept(cx, artifacts, a) && !KeptItself(cx, artifacts, a)
    ensures NamesakeKept(cx, artifacts, a) ==> exists b :: b in artifacts && b.id == a.id && b != a
  {
    hide RetainedBy, RecordOf;
    assert Entry(kept, a.id) == RecordOf(cx.globs, cx.config.rules, artifacts, a.id);
    RecordedIff(cx.globs, cx.config.rules, artifacts, a.id);
    if rule, b :| rule in cx.config.rules && b in RetainedBy(cx.globs, rule, artifacts) && b.id == a.id {
      RetainedAreScanned(cx.globs, rule, artifacts);
      assert b == a || NamesakeKept(cx, artifacts, a);
    }
    if NamesakeKept(cx, artifacts, a) {
      var rule, b :| rule in cx.config.rules && b in RetainedBy(cx.globs, rule, artifacts) && b.id == a.id && b != a;
      RetainedAreScanned(cx.globs, rule, artifacts);
    }
  }

  /**
   * So the map is right about every artifact exactly when every artifact with a kept namesake is kept itself,
   * as with distinct ids.
   */
  lemma SparedExactly(cx: ArtifactContext, artifacts: seq<Artifact>, kept: Kept)
    requires RecordsIds(kept, cx.globs, cx.config.rules, artifacts)
    ensures (forall a :: a in artifacts ==> (a.id in kept <==> KeptItself(cx, artifacts, a)))
            <==> (forall a :: a in artifacts && NamesakeKept(cx, artifacts, a) ==> KeptItself(cx, artifacts, a))
    ensures (forall x, y :: x in artifacts && y in artifacts && x.id == y.id ==> x == y)
            ==> forall a :: a in artifacts ==> !NamesakeKept(cx, artifacts, a)
  {
    hide RecordsIds, NamesakeKept, KeptItself;
    forall a: Artifact
      ensures a.id in kept <==> KeptItself(cx, artifacts, a) || NamesakeKept(cx, artifacts, a)
      ensures NamesakeKept(cx, artifacts, a) ==> exists b :: b in artifacts && b.id == a.id && b != a
    {
      SparedByIdIff(cx, artifacts, a, kept);
    }
  }

  /** One rule, `keep_latest = 1`, over two artifacts of equal id in different repositories. */
  function OneNewest(): PolicyRule {
    PolicyRule("newest", ArtifactResource, None, None, None, None, None, None, None, None, None, None, None, Some(1),
        None, None)
  }

  function Twin(repository: RepositoryRef, createdAt: Moment): Artifact {
    Artifact(7, repository, "build", 1, createdAt, createdAt, None, false, None, None)
  }

  lemma TwinsRetained(globs: Globs, older: Artifact, newer: Artifact)
    requires older == Twin(RepositoryRef(1, "a/x"), 5) && newer == Twin(RepositoryRef(2, "b/y"), 9)
    ensures RetainedBy(globs, OneNewest(), [older, newer]) == [newer]
  {
    var scan, rule := [older, newer], OneNewest();
    FilterAll(scan, (a: Artifact) => rule.MatchesArtifact(globs, a));
    assert Matching(globs, rule, scan) == scan;
    assert scan[1..] == [newer] && [newer][1..] == [];
    assert Sort([newer], ArtifactRanksBefore) == [newer];
    assert Insert(older, [newer], ArtifactRanksBefore) == [newer] + Insert(older, [], ArtifactRanksBefore);
    assert Sort(scan, ArtifactRanksBefore) == [newer, older];
  }

  /** The case: the older twin is not among the newest, and is spared because of the newer one. */
  lemma TwinIsSpared(cx: ArtifactContext, kept: Kept, older: Artifact, newer: Artifact)
    requires older == Twin(RepositoryRef(1, "a/x"), 5) && newer == Twin(RepositoryRef(2, "b/y"), 9)
    requires cx.config.rules == [OneNewest()] && RecordsIds(kept, cx.globs, cx.config.rules, [older, newer])
    ensures RetainedBy(cx.globs, OneNewest(), [older, newer]) == [newer] && older.repository != newer.repository
    ensures !KeptItself(cx, [older, newer], older)
    ensures ClassifyArtifact(cx, older, kept).decision == E.Keep
  {
    hide RetainedBy, Twin, ClassifyByAge;
    TwinsRetained(cx.globs, older, newer);
    TwinFacts(older, newer);
    ProtectedIff(cx, older);
    SparedByIdIff(cx, [older, newer], older, kept);
    assert newer in RetainedBy(cx.globs, OneNewest(), [older, newer]) && OneNewest() in cx.config.rules;
    assert NamesakeKept(cx, [older, newer], older);
  }

  lemma TwinFacts(older: Artifact, newer: Artifact)
    requires older == Twin(RepositoryRef(1, "a/x"), 5) && newer == Twin(RepositoryRef(2, "b/y"), 9)
    ensures older.id == newer.id && older != newer && older.repository != newer.repository
  {
  }

  lemma RetainedAreScanned(globs: Globs, rule: PolicyRule, artifacts: seq<Artifact>)
    ensures forall b :: b in RetainedBy(globs, rule, artifacts) ==> b in artifacts
  {
    var matching := Matching(globs, rule, artifacts);
    SortPermutes(matching, ArtifactRanksBefore);
    forall b | b in RetainedBy(globs, rule, artifacts) ensures b in artifacts {
      MembersSurvive(Sort(matching, ArtifactRanksBefore), matching, b);
    }
  }

  /** `classify_snapshot`: one decision per artifact, in order. */
  method ClassifyArtifacts(cx: ArtifactContext, artifacts: seq<Artifact>)
    returns (decisions: seq<ArtifactDecision>, kept: Kept)
    ensures RecordsIds(kept, cx.globs, cx.config.rules, artifacts)
    ensures decisions == Classified(cx, artifacts, kept)
  {
    kept := KeepLatestIds(cx.globs, cx.config.rules, artifacts);
    decisions := Classified(cx, artifacts, kept);
  }

  function Classified(cx: ArtifactContext, artifacts: seq<Artifact>, kept: Kept): (r: seq<ArtifactDecision>)
    ensures |r| == |artifacts|
  {
    seq(|artifacts|, i requires 0 <= i < |artifacts| => ClassifyArtifact(cx, artifacts[i], kept))
  }
}

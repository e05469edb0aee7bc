/** `workflow_run_keep_latest_selections` of `run_engine.rs`: newest-N per family, per rule. */
module KeepLatest {
  import opened Prelude
  import opened Domain
  import opened Policy
  import opened Sorting

  datatype Identity = Identity(repository: string, runId: nat)

  datatype Family = Family(repository: string, workflowId: nat, branch: Option<string>)

  function IdentityOf(run: WorkflowRun): Identity { Identity(run.repository.fullName, run.id) }

  function FamilyOf(rule: PolicyRule, run: WorkflowRun): Family {
    var branch := match rule.keepLatestBy.GetOr(WorkflowBranch)
                  case WorkflowBranch => run.headBranch
                  case Workflow => None;
    Family(run.repository.fullName, run.workflowId, branch)
  }

  /** The five-key order, newest and highest first. */
  predicate Newer(a: WorkflowRun, b: WorkflowRun) {
    || a.createdAt > b.createdAt
    || (a.createdAt == b.createdAt && (
          || a.updatedAt > b.updatedAt
          || (a.updatedAt == b.updatedAt && (
                || a.runNumber > b.runNumber
                || (a.runNumber == b.runNumber && (
                      || a.runAttempt > b.runAttempt
                      || (a.runAttempt == b.runAttempt && a.id > b.id)))))))
  }

  predicate RanksBefore(a: WorkflowRun, b: WorkflowRun) { !Newer(b, a) }

  predicate Candidate(globs: Globs, rule: PolicyRule, run: WorkflowRun) {
    run.IsCompleted() && rule.MatchesWorkflowRun(globs, run)
  }

  /** The completed runs a rule matches, in one family, in snapshot order. */
  function Members(globs: Globs, rule: PolicyRule, runs: seq<WorkflowRun>, family: Family): seq<WorkflowRun> {
    Filter(runs, (run: WorkflowRun) => Candidate(globs, rule, run) && FamilyOf(rule, run) == family)
  }

  function Newest(globs: Globs, rule: PolicyRule, runs: seq<WorkflowRun>, family: Family): seq<WorkflowRun> {
    Take(Sort(Members(globs, rule, runs, family), RanksBefore), rule.keepLatest.GetOr(0))
  }

  /** A rule retains an identity when one of the family's newest runs has it. */
  predicate Retains(globs: Globs, rule: PolicyRule, runs: seq<WorkflowRun>, identity: Identity) {
    && rule.keepLatest.Some?
    && exists run :: run in runs && IdentityOf(run) == identity && run in Newest(globs, rule, runs, FamilyOf(rule, run))
  }

  ghost predicate DistinctIdentities(runs: seq<WorkflowRun>) {
    forall i, j :: 0 <= i < j < |runs| ==> IdentityOf(runs[i]) != IdentityOf(runs[j])
  }

  lemma RanksIsPreorder()
    ensures TotalPreorder(RanksBefore)
  {
  }

  /** Same run data apart from fields the order ignores cannot happen inside one family. */
  lemma FamilyHasNoTies(globs: Globs, rule: PolicyRule, runs: seq<WorkflowRun>, family: Family)
    requires DistinctIdentities(runs)
    ensures forall a, b | a in Members(globs, rule, runs, family) && b in Members(globs, rule, runs, family) ::
              RanksBefore(a, b) && RanksBefore(b, a) ==> a == b
  {
  }

  /** Keep-latest is an exact top-k: the right number, from the family, and nobody newer left out. */
  lemma NewestIsTopK(globs: Globs, rule: PolicyRule, runs: seq<WorkflowRun>, family: Family)
    requires rule.keepLatest.Some? && DistinctIdentities(runs)
    ensures var members := Members(globs, rule, runs, family);
            var newest := Newest(globs, rule, runs, family);
            && |newest| == (if rule.keepLatest.value <= |members| then rule.keepLatest.value else |members|)
            && multiset(newest) <= multiset(members)
            && (forall kept, lost :: kept in newest && lost in members && lost !in newest ==> Newer(kept, lost))
  {
    NewestComesFromFamily(globs, rule, runs, family);
    forall kept, lost | kept in Newest(globs, rule, runs, family) && lost in Members(globs, rule, runs, family)
                        && lost !in Newest(globs, rule, runs, family)
      ensures Newer(kept, lost)
    {
      NewestOutrankTheRest(globs, rule, runs, family, kept, lost);
    }
  }

  lemma NewestComesFromFamily(globs: Globs, rule: PolicyRule, runs: seq<WorkflowRun>, family: Family)
    ensures multiset(Newest(globs, rule, runs, family)) <= multiset(Members(globs, rule, runs, family))
    ensures |Sort(Members(globs, rule, runs, family), RanksBefore)| == |Members(globs, rule, runs, family)|
  {
    hide Members, RanksBefore;
    var members := Members(globs, rule, runs, family);
    SortPermutes(members, RanksBefore);
    var sorted := Sort(members, RanksBefore);
    var newest := Take(sorted, rule.keepLatest.GetOr(0));
    assert sorted == newest + sorted[|newest|..];
  }

  lemma NewestOutrankTheRest(globs: Globs, rule: PolicyRule, runs: seq<WorkflowRun>, family: Family, kept: WorkflowRun,
                             lost: WorkflowRun)
    requires DistinctIdentities(runs)
    requires kept in Newest(globs, rule, runs, family) && lost in Members(globs, rule, runs, family)
    requires lost !in Newest(globs, rule, runs, family)
    ensures Newer(kept, lost)
  {
    var members := Members(globs, rule, runs, family);
    var sorted := Sort(members, RanksBefore);
    RanksIsPreorder();
    SortSorts(members, RanksBefore);
    SortPermutes(members, RanksBefore);
    MembersSurvive(sorted, members, lost);
    MembersSurvive(sorted, members, kept);
    TakeKeepsTheFirst(sorted, rule.keepLatest.GetOr(0), RanksBefore, kept, lost);
    FamilyHasNoTies(globs, rule, runs, family);
  }

  /** The answer depends on which runs were scanned, not on the order they came in. */
  lemma NewestIgnoresOrder(globs: Globs, rule: PolicyRule, runs: seq<WorkflowRun>, shuffled: seq<WorkflowRun>,
                           family: Family)
    requires DistinctIdentities(runs) && multiset(runs) == multiset(shuffled)
    ensures Newest(globs, rule, runs, family) == Newest(globs, rule, shuffled, family)
  {
    var keep := (run: WorkflowRun) => Candidate(globs, rule, run) && FamilyOf(rule, run) == family;
    var a, b := Members(globs, rule, runs, family), Members(globs, rule, shuffled, family);
    FilterPermutation(runs, shuffled, keep);
    RanksIsPreorder();
    SortSorts(a, RanksBefore);
    SortSorts(b, RanksBefore);
    SortPermutes(a, RanksBefore);
    SortPermutes(b, RanksBefore);
    FamilyHasNoTies(globs, rule, runs, family);
    forall x | x in Sort(a, RanksBefore) ensures x in a {
      MembersSurvive(Sort(a, RanksBefore), a, x);
    }
    SortedIsUnique(Sort(a, RanksBefore), Sort(b, RanksBefore), RanksBefore);
  }

  lemma RetainsIgnoresOrder(globs: Globs, rule: PolicyRule, runs: seq<WorkflowRun>, shuffled: seq<WorkflowRun>,
                            identity: Identity)
    requires DistinctIdentities(runs) && multiset(runs) == multiset(shuffled)
    ensures Retains(globs, rule, runs, identity) <==> Retains(globs, rule, shuffled, identity)
  {
    forall run: WorkflowRun
      ensures run in runs <==> run in shuffled
      ensures Newest(globs, rule, runs, FamilyOf(rule, run)) == Newest(globs, rule, shuffled, FamilyOf(rule, run))
    {
      MembersSurvive(runs, shuffled, run);
      NewestIgnoresOrder(globs, rule, runs, shuffled, FamilyOf(rule, run));
    }
  }

  // --- what is recorded --------------------------------------------------------------------------

  type Selections = map<Identity, seq<string>>

  /** The families of the runs a rule considers. */
  function FamiliesOf(globs: Globs, rule: PolicyRule, runs: seq<WorkflowRun>): set<Family> {
    set run | run in runs && Candidate(globs, rule, run) :: FamilyOf(rule, run)
  }

  /** The first `n` places of a family's newest runs that carry an identity. */
  function Places(newest: seq<WorkflowRun>, n: nat, identity: Identity, family: Family): set<(Family, nat)>
    requires n <= |newest|
  {
    set k | 0 <= k < n && IdentityOf(newest[k]) == identity :: (family, k)
  }

  /** All places among the newest of these families that carry an identity. */
  function Slots(globs: Globs, rule: PolicyRule, runs: seq<WorkflowRun>, identity: Identity,
                 families: set<Family>): set<(Family, nat)> {
    set family, k | family in families && 0 <= k < |Newest(globs, rule, runs, family)|
                    && IdentityOf(Newest(globs, rule, runs, family)[k]) == identity :: (family, k)
  }

  function Copies(n: nat, ruleId: string): (r: seq<string>)
    ensures |r| == n && forall i :: 0 <= i < n ==> r[i] == ruleId
  {
    seq(n, _ => ruleId)
  }

  /** One rule's part of an identity's record: its id, once for every place. */
  function RuleRecord(globs: Globs, rule: PolicyRule, runs: seq<WorkflowRun>, identity: Identity): seq<string> {
    Copies(|Slots(globs, rule, runs, identity, FamiliesOf(globs, rule, runs))|, rule.id)
  }

  /** The whole record: the rules in policy order. */
  function RecordOf(globs: Globs, rules: seq<PolicyRule>, runs: seq<WorkflowRun>, identity: Identity): seq<string> {
    if rules == [] then []
    else
      var n := |rules| - 1;
      RecordOf(globs, rules[..n], runs, identity) + RuleRecord(globs, rules[n], runs, identity)
  }

  function Entry(selected: Selections, identity: Identity): seq<string> {
    if identity in selected then selected[identity] else []
  }

  predicate NoneEmpty(selected: Selections) {
    forall identity :: identity in selected ==> selected[identity] != []
  }

  /** The map holds exactly the non-empty records: which rules, how often, in which order. */
  ghost predicate Records(selected: Selections, globs: Globs, rules: seq<PolicyRule>, runs: seq<WorkflowRun>) {
    NoneEmpty(selected) && forall identity :: Entry(selected, identity) == RecordOf(globs, rules, runs, identity)
  }

  lemma RecordsAreUnique(a: Selections, b: Selections, globs: Globs, rules: seq<PolicyRule>, runs: seq<WorkflowRun>)
    requires Records(a, globs, rules, runs) && Records(b, globs, rules, runs)
    ensures a == b
  {
    forall identity
      ensures identity in a <==> identity in b
      ensures identity in a ==> a[identity] == b[identity]
    {
      assert Entry(a, identity) == Entry(b, identity);
    }
  }

  // --- the source's loops -----------------------------------------------------------------------

  function Push(selected: Selections, identity: Identity, ruleId: string): Selections {
    selected[identity := Entry(selected, identity) + [ruleId]]
  }

  /** Grouping: one pass over the snapshot, pushing each candidate to its family. */
  method GroupFamilies(globs: Globs, rule: PolicyRule, runs: seq<WorkflowRun>)
    returns (families: map<Family, seq<WorkflowRun>>)
    ensures forall family :: family in families <==> Members(globs, rule, runs, family) != []
    ensures forall family :: family in families ==> families[family] == Members(globs, rule, runs, family)
  {
    families := map[];
    for i := 0 to |runs|
      invariant forall family :: family in families <==> Members(globs, rule, runs[..i], family) != []
      invariant forall family :: family in families ==> families[family] == Members(globs, rule, runs[..i], family)
    {
      var run := runs[i];
      assert runs[..i + 1][..i] == runs[..i];
      if Candidate(globs, rule, run) {
        var family := FamilyOf(rule, run);
        families := families[family := (if family in families then families[family] else []) + [run]];
      }
    }
    assert runs[..|runs|] == runs;
  }

  method SelectForRule(globs: Globs, rule: PolicyRule, runs: seq<WorkflowRun>, before: Selections)
    returns (selected: Selections)
    requires rule.keepLatest.Some? && NoneEmpty(before)
    ensures NoneEmpty(selected)
    ensures forall identity ::
            Entry(selected, identity) == Entry(before, identity)
            + RuleRecord(globs, rule, runs, identity)
  {
    hide Members, Entry, RanksBefore, Places, Slots;
    selected := before;
    var families := GroupFamilies(globs, rule, runs);
    var todo := families.Keys;
    NoSlots(globs, rule, runs);
    GroupedFamilies(globs, rule, runs, todo);
    while todo != {}
      invariant todo <= families.Keys && NoneEmpty(selected)
      invariant forall identity :: Entry(selected, identity)
                  == Entry(before, identity) + Copies(|Slots(globs, rule, runs, identity, families.Keys - todo)|,
                      rule.id)
      decreases |todo|
    {
      var family :| family in todo;
      ghost var entry, done := selected, families.Keys - todo;
      var newest := Take(Sort(families[family], RanksBefore), rule.keepLatest.value);
      selected := PushAll(selected, newest, rule.id, family);
      OneMoreFamily(globs, rule, runs, before, entry, selected, done, family);
      assert families.Keys - (todo - {family}) == done + {family};
      todo := todo - {family};
    }
    assert families.Keys - {} == families.Keys;
  }

  method PushAll(before: Selections, newest: seq<WorkflowRun>, ruleId: string, ghost family: Family)
    returns (selected: Selections)
    requires NoneEmpty(before)
    ensures NoneEmpty(selected)
    ensures forall identity :: Entry(selected, identity)
              == Entry(before, identity) + Copies(|Places(newest, |newest|, identity, family)|, ruleId)
  {
    selected := before;
    for i := 0 to |newest|
      invariant Pushed(before, selected, newest, i, ruleId, family)
    {
      NextPush(before, selected, newest, i, ruleId, family);
      selected := Push(selected, IdentityOf(newest[i]), ruleId);
    }
  }

  /** `selected` holds what `before` held and the pushes of the first `i` runs. */
  ghost predicate Pushed(before: Selections, selected: Selections, newest: seq<WorkflowRun>, i: nat, ruleId: string,
                         family: Family)
    requires i <= |newest|
  {
    && NoneEmpty(selected)
    && forall identity ::
       Entry(selected, identity) == Entry(before, identity)
       + Copies(|Places(newest, i, identity, family)|, ruleId)
  }

  lemma NextPush(before: Selections, selected: Selections, newest: seq<WorkflowRun>, i: nat, ruleId: string,
                 family: Family)
    requires i < |newest| && Pushed(before, selected, newest, i, ruleId, family)
    ensures Pushed(before, Push(selected, IdentityOf(newest[i]), ruleId), newest, i + 1, ruleId, family)
  {
    hide Entry, Places, Copies, IdentityOf, Push;
    var pushed := Push(selected, IdentityOf(newest[i]), ruleId);
    PushFillsOne(selected, IdentityOf(newest[i]), ruleId);
    forall identity
      ensures Entry(pushed, identity) == Entry(before, identity)
              + Copies(|Places(newest, i + 1, identity, family)|, ruleId)
    {
      NextPlace(newest, i, identity, family);
      OneMoreCopy(|Places(newest, i, identity, family)|, ruleId);
    }
  }

  lemma PushFillsOne(selected: Selections, identity: Identity, ruleId: string)
    requires NoneEmpty(selected)
    ensures NoneEmpty(Push(selected, identity, ruleId))
    ensures forall x ::
            Entry(Push(selected, identity, ruleId), x) == Entry(selected, x)
            + if x == identity then [ruleId] else []
  {
  }

  lemma OneMoreCopy(n: nat, ruleId: string)
    ensures Copies(n + 1, ruleId) == Copies(n, ruleId) + [ruleId]
  {
  }

  lemma NextPlace(newest: seq<WorkflowRun>, i: nat, identity: Identity, family: Family)
    requires i < |newest|
    ensures |Places(newest, i + 1, identity, family)|
         == |Places(newest, i, identity, family)| + if IdentityOf(newest[i]) == identity then 1 else 0
  {
    hide IdentityOf;
    var before, after := Places(newest, i, identity, family), Places(newest, i + 1, identity, family);
    if IdentityOf(newest[i]) == identity {
      assert after == before + {(family, i)};
    } else {
      assert after == before;
    }
  }

  lemma GroupedFamilies(globs: Globs, rule: PolicyRule, runs: seq<WorkflowRun>, families: set<Family>)
    requires forall family :: family in families <==> Members(globs, rule, runs, family) != []
    ensures families == FamiliesOf(globs, rule, runs)
  {
    hide Candidate;
    forall family ensures family in families <==> family in FamiliesOf(globs, rule, runs) {
      var members := Members(globs, rule, runs, family);
      if members != [] {
        assert members[0] in members;
      }
      if family in FamiliesOf(globs, rule, runs) {
        var run :| run in runs && Candidate(globs, rule, run) && FamilyOf(rule, run) == family;
        assert run in members;
      }
    }
  }

  lemma NoSlots(globs: Globs, rule: PolicyRule, runs: seq<WorkflowRun>)
    ensures forall identity, families :: families == {} ==> Slots(globs, rule, runs, identity, families) == {}
  {
  }

  lemma OneMoreFamily(globs: Globs, rule: PolicyRule, runs: seq<WorkflowRun>, before: Selections, entry: Selections,
                      selected: Selections,
                      done: set<Family>, family: Family)
    requires family !in done
    requires forall identity :: Entry(entry, identity)
               == Entry(before, identity) + Copies(|Slots(globs, rule, runs, identity, done)|, rule.id)
    requires var newest := Newest(globs, rule, runs, family);
             forall identity :: Entry(selected, identity) == Entry(entry, identity)
                 + Copies(|Places(newest, |newest|, identity, family)|, rule.id)
    ensures forall identity :: Entry(selected, identity)
              == Entry(before, identity) + Copies(|Slots(globs, rule, runs, identity, done + {family})|, rule.id)
  {
    hide Newest, Entry, Slots, Places, Copies;
    forall identity
      ensures Entry(selected, identity) == Entry(before, identity)
              + Copies(|Slots(globs, rule, runs, identity, done + {family})|, rule.id)
    {
      SlotsGrow(globs, rule, runs, identity, done, family);
      var newest := Newest(globs, rule, runs, family);
      CopiesJoin(|Slots(globs, rule, runs, identity, done)|, |Places(newest, |newest|, identity, family)|, rule.id);
    }
  }

  lemma CopiesJoin(m: nat, n: nat, ruleId: string)
    ensures Copies(m, ruleId) + Copies(n, ruleId) == Copies(m + n, ruleId)
  {
  }

  lemma SlotsGrow(globs: Globs, rule: PolicyRule, runs: seq<WorkflowRun>, identity: Identity, done: set<Family>,
                  family: Family)
    requires family !in done
    ensures var newest := Newest(globs, rule, runs, family);
            |Slots(globs, rule, runs, identity, done + {family})|
            == |Slots(globs, rule, runs, identity, done)| + |Places(newest, |newest|, identity, family)|
  {
    hide Newest, IdentityOf;
    var newest := Newest(globs, rule, runs, family);
    var held, more := Slots(globs, rule, runs, identity, done), Places(newest, |newest|, identity, family);
    assert Slots(globs, rule, runs, identity, done + {family}) == held + more;
    assert held * more == {};
  }

  /** All rules in order, each recording its own retained identities. */
  method KeepLatestSelections(globs: Globs, rules: seq<PolicyRule>, runs: seq<WorkflowRun>)
    returns (selected: Selections)
    ensures Records(selected, globs, rules, runs)
  {
    hide RuleRecord;
    selected := map[];
    for i := 0 to |rules|
      invariant Records(selected, globs, rules[..i], runs)
    {
      assert rules[..i + 1][..i] == rules[..i];
      if rules[i].keepLatest.Some? {
        selected := SelectForRule(globs, rules[i], runs, selected);
      } else {
        NothingRecorded(globs, rules[i], runs);
      }
    }
    assert rules[..|rules|] == rules;
  }

  lemma NothingRecorded(globs: Globs, rule: PolicyRule, runs: seq<WorkflowRun>)
    requires rule.keepLatest.None?
    ensures forall identity :: RuleRecord(globs, rule, runs, identity) == []
  {
    hide Sort, Members;
  }

  // --- what a record means -------------------------------------------------------------------------

  ghost predicate Selects(globs: Globs, rules: seq<PolicyRule>, runs: seq<WorkflowRun>, identity: Identity,
                          ruleId: string) {
    exists i :: 0 <= i < |rules| && rules[i].id == ruleId && Retains(globs, rules[i], runs, identity)
  }

  /** The newest of a family are candidates of that family. */
  lemma NewestOfFamily(globs: Globs, rule: PolicyRule, runs: seq<WorkflowRun>, family: Family)
    ensures forall run :: run in Newest(globs, rule, runs, family) ==>
              run in runs && FamilyOf(rule, run) == family && Candidate(globs, rule, run)
  {
    var members := Members(globs, rule, runs, family);
    SortPermutes(members, RanksBefore);
    forall run | run in Newest(globs, rule, runs, family)
      ensures run in runs && FamilyOf(rule, run) == family && Candidate(globs, rule, run)
    {
      MembersSurvive(Sort(members, RanksBefore), members, run);
    }
  }

  /** A rule is recorded for an identity exactly when it retains it. */
  lemma RecordedIffRetained(globs: Globs, rule: PolicyRule, runs: seq<WorkflowRun>, identity: Identity)
    ensures RuleRecord(globs, rule, runs, identity) != [] <==> Retains(globs, rule, runs, identity)
  {
    hide Candidate, Members;
    var families := FamiliesOf(globs, rule, runs);
    var slots := Slots(globs, rule, runs, identity, families);
    if Retains(globs, rule, runs, identity) {
      var run :| run in runs && IdentityOf(run) == identity && run in Newest(globs, rule, runs, FamilyOf(rule, run));
      var family := FamilyOf(rule, run);
      NewestOfFamily(globs, rule, runs, family);
      var k :| 0 <= k < |Newest(globs, rule, runs, family)| && Newest(globs, rule, runs, family)[k] == run;
      assert (family, k) in slots;
    }
    if slots != {} {
      var slot :| slot in slots;
      var run := Newest(globs, rule, runs, slot.0)[slot.1];
      NewestOfFamily(globs, rule, runs, slot.0);
      assert run in Newest(globs, rule, runs, slot.0);
      assert Newest(globs, rule, runs, slot.0) != [];
    }
  }

  lemma {:induction false} RecordMembers(globs: Globs, rules: seq<PolicyRule>, runs: seq<WorkflowRun>,
                                         identity: Identity, ruleId: string)
    ensures ruleId in RecordOf(globs, rules, runs, identity) <==> Selects(globs, rules, runs, identity, ruleId)
    decreases |rules|
  {
    hide Retains, Slots, FamiliesOf;
    if rules != [] {
      var n := |rules| - 1;
      RecordMembers(globs, rules[..n], runs, identity, ruleId);
      RecordedIffRetained(globs, rules[n], runs, identity);
      var last := RuleRecord(globs, rules[n], runs, identity);
      if last != [] {
        assert last[0] in last;
      }
    }
  }

  /** The identities in the map are exactly those some rule retains. */
  lemma RecordedIdentities(selected: Selections, globs: Globs, rules: seq<PolicyRule>, runs: seq<WorkflowRun>,
                           identity: Identity)
    requires Records(selected, globs, rules, runs)
    ensures identity in selected <==> exists ruleId :: Selects(globs, rules, runs, identity, ruleId)
  {
    hide Selects, RecordOf;
    assert Entry(selected, identity) == RecordOf(globs, rules, runs, identity);
    if identity in selected {
      var ruleId := selected[identity][0];
      assert ruleId in RecordOf(globs, rules, runs, identity);
      RecordMembers(globs, rules, runs, identity, ruleId);
    }
    if ruleId :| Selects(globs, rules, runs, identity, ruleId) {
      RecordMembers(globs, rules, runs, identity, ruleId);
    }
  }

  /** With distinct identities every rule is recorded at most once. */
  lemma RecordedOnce(globs: Globs, rule: PolicyRule, runs: seq<WorkflowRun>, identity: Identity)
    requires DistinctIdentities(runs)
    ensures RuleRecord(globs, rule, runs, identity) == if Retains(globs, rule, runs, identity) then [rule.id] else []
  {
    RecordedIffRetained(globs, rule, runs, identity);
    var slots := Slots(globs, rule, runs, identity, FamiliesOf(globs, rule, runs));
    if slots != {} {
      var a :| a in slots;
      forall b | b in slots ensures b == a {
        SamePlace(globs, rule, runs, a.0, a.1, b.0, b.1);
      }
      assert slots == {a};
    }
  }

  lemma SamePlace(globs: Globs, rule: PolicyRule, runs: seq<WorkflowRun>, f: Family, k: nat, g: Family, l: nat)
    requires DistinctIdentities(runs)
    requires k < |Newest(globs, rule, runs, f)| && l < |Newest(globs, rule, runs, g)|
    requires IdentityOf(Newest(globs, rule, runs, f)[k]) == IdentityOf(Newest(globs, rule, runs, g)[l])
    ensures f == g && k == l
  {
    hide Members, RanksBefore, Sort;
    var a, b := Newest(globs, rule, runs, f)[k], Newest(globs, rule, runs, g)[l];
    NewestOfFamily(globs, rule, runs, f);
    NewestOfFamily(globs, rule, runs, g);
    assert a in Newest(globs, rule, runs, f) && b in Newest(globs, rule, runs, g);
    assert a == b;
    if k != l {
      NewestComesFromFamily(globs, rule, runs, f);
      TwiceMeansTwice(Newest(globs, rule, runs, f), if k < l then k else l, if k < l then l else k);
      MemberOnce(globs, rule, runs, f, a);
    }
  }

  lemma MemberOnce(globs: Globs, rule: PolicyRule, runs: seq<WorkflowRun>, family: Family, run: WorkflowRun)
    requires DistinctIdentities(runs)
    ensures multiset(Members(globs, rule, runs, family))[run] <= 1
  {
    FilterCounts(runs, (r: WorkflowRun) => Candidate(globs, rule, r) && FamilyOf(rule, r) == family, run);
    OnceMeansOnce(runs, IdentityOf, run);
  }

  lemma {:induction false} RecordIgnoresOrder(globs: Globs, rules: seq<PolicyRule>, runs: seq<WorkflowRun>,
                                              shuffled: seq<WorkflowRun>, identity: Identity)
    requires DistinctIdentities(runs) && DistinctIdentities(shuffled) && multiset(runs) == multiset(shuffled)
    ensures RecordOf(globs, rules, runs, identity) == RecordOf(globs, rules, shuffled, identity)
    decreases |rules|
  {
    hide RuleRecord, Retains;
    if rules != [] {
      var n := |rules| - 1;
      RecordIgnoresOrder(globs, rules[..n], runs, shuffled, identity);
      RecordedOnce(globs, rules[n], runs, identity);
      RecordedOnce(globs, rules[n], shuffled, identity);
      RetainsIgnoresOrder(globs, rules[n], runs, shuffled, identity);
    }
  }

  /** The whole map of selections does not depend on the order of the scan. */
  lemma SelectionsIgnoreOrder(a: Selections, b: Selections, globs: Globs, rules: seq<PolicyRule>,
                              runs: seq<WorkflowRun>, shuffled: seq<WorkflowRun>)
    requires DistinctIdentities(runs) && multiset(runs) == multiset(shuffled)
    requires Records(a, globs, rules, runs) && Records(b, globs, rules, shuffled)
    ensures a == b
  {
    hide RecordOf;
    DistinctSurvives(runs, shuffled, IdentityOf);
    forall identity ensures RecordOf(globs, rules, runs, identity) == RecordOf(globs, rules, shuffled, identity) {
      RecordIgnoresOrder(globs, rules, runs, shuffled, identity);
    }
    RecordsAreUnique(a, b, globs, rules, runs);
  }
}

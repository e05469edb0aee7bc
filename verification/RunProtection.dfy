/** Exact local protections of workflow runs: `run_protection.rs`. */
module RunProtections {
  import opened Prelude
  import opened Domain

  datatype ProtectionKey = ProtectionKey(provider: string, instance: string, repositoryId: nat, runId: nat)

  function KeyForRun(instance: string, account: Account, run: WorkflowRun): ProtectionKey {
    ProtectionKey(account.provider, instance, run.repository.id, run.id)
  }

  datatype Protection = Protection(
    key: ProtectionKey,
    account: Account,
    repository: RepositoryRef,
    workflowId: nat,
    headSha: string,
    runNumber: nat,
    createdAt: Moment,
    protectedAt: Moment,
    reason: string)

  datatype ReviewCode = IdentityMismatch | RepositoryRenamed | Unverifiable {
    function Text(): string {
      match this
      case IdentityMismatch => "local_protection_" + "identity_mismatch"
      case RepositoryRenamed => "local_protection_" + "repository_renamed"
      case Unverifiable => "local_protection_" + "unverifiable"
    }
  }

  datatype Assessment = NoEntry | Protected(entry: Protection) | Review(code: ReviewCode, explanation: string)

  datatype ProtectionError = Invalid(message: string) | Duplicate(key: ProtectionKey) | Store(message: string) {
    function Text(): string {
      match this
      case Invalid(message) => "invalid " + "workflow run protection: " + message
      case Duplicate(_) => "duplicate " + "workflow run protection: "
      case Store(message) => "workflow run protection " + "storage unavailable: " + message
    }
  }

  /** Unicode white space and control characters, which the store leaves to the standard library. */
  datatype Unicode = Unicode(isBlank: string -> bool, hasControl: string -> bool)

  function CountSlashes(s: string): nat {
    if s == "" then 0 else (if s[0] == '/' then 1 else 0) + CountSlashes(s[1..])
  }

  /** `owner/name`: two non-empty halves. */
  predicate IsFullName(s: string) {
    && CountSlashes(s) == 1
    && s[0] != '/' && s[|s| - 1] != '/'
  }

  predicate OnlySlashAt(s: string, k: nat) {
    k < |s| && s[k] == '/' && forall j :: 0 <= j < |s| && j != k ==> s[j] != '/'
  }

  lemma {:induction false} SlashesCounted(s: string)
    ensures CountSlashes(s) == 0 <==> '/' !in s
    ensures CountSlashes(s) == 1 <==> exists k: nat :: OnlySlashAt(s, k)
  {
    if s != "" {
      var rest := s[1..];
      SlashesCounted(rest);
      assert s == [s[0]] + rest;
      if k: nat :| OnlySlashAt(s, k) {
        if k > 0 {
          assert OnlySlashAt(rest, k - 1);
        }
      }
      if s[0] == '/' && CountSlashes(rest) == 0 {
        assert OnlySlashAt(s, 0);
      }
      if s[0] != '/' && CountSlashes(rest) == 1 {
        var k: nat :| OnlySlashAt(rest, k);
        assert OnlySlashAt(s, k + 1);
      }
    }
  }

  /** A full name is an owner and a name, both given, on the two sides of its only slash. */
  lemma FullNameMeaning(s: string)
    ensures IsFullName(s) <==> exists k: nat :: 0 < k < |s| - 1 && OnlySlashAt(s, k)
  {
    SlashesCounted(s);
    if IsFullName(s) {
      var k: nat :| OnlySlashAt(s, k);
      assert 0 < k < |s| - 1;
    }
  }

  predicate ValidProtection(unicode: Unicode, p: Protection) {
    && p.key.provider != "" && p.key.instance != ""
    && p.key.repositoryId != 0 && p.key.runId != 0
    && p.account.provider == p.key.provider && p.account.login != ""
    && p.repository.id == p.key.repositoryId
    && IsFullName(p.repository.fullName)
    && p.workflowId != 0 && p.headSha != "" && p.runNumber != 0
    && !unicode.isBlank(p.reason) && |p.reason| <= 1024 && !unicode.hasControl(p.reason)
  }

  ghost predicate DistinctKeys(entries: seq<Protection>) {
    forall i, j :: 0 <= i < j < |entries| ==> entries[i].key != entries[j].key
  }

  /** `ProtectionIndex::new`: one pass with a set of seen keys. */
  method NewIndex(unicode: Unicode, entries: seq<Protection>) returns (r: Result<seq<Protection>, ProtectionError>)
    ensures r.Ok? <==> DistinctKeys(entries) && forall i :: 0 <= i < |entries| ==> ValidProtection(unicode, entries[i])
    ensures r.Ok? ==> r.value == entries
    ensures r.Err? && r.error.Duplicate? ==>
              exists i, j :: 0 <= i < j < |entries| && entries[i].key == entries[j].key == r.error.key
  {
    var seen: set<ProtectionKey> := {};
    for i := 0 to |entries|
      invariant seen == set k | 0 <= k < i :: entries[k].key
      invariant DistinctKeys(entries[..i])
      invariant forall k :: 0 <= k < i ==> ValidProtection(unicode, entries[k])
    {
      if !ValidProtection(unicode, entries[i]) {
        return Err(Invalid("protection identity or reason is incomplete or invalid"));
      }
      if entries[i].key in seen {
        return Err(Duplicate(entries[i].key));
      }
      seen := seen + {entries[i].key};
    }
    assert entries[..|entries|] == entries;
    r := Ok(entries);
  }

  // --- assessment -------------------------------------------------------------------------------

  function FindExact(entries: seq<Protection>, key: ProtectionKey): Option<Protection> {
    if entries == [] then None
    else if entries[0].key == key then Some(entries[0])
    else FindExact(entries[1..], key)
  }

  predicate SameRunId(entry: Protection, key: ProtectionKey) {
    entry.key.provider == key.provider && entry.key.instance == key.instance && entry.key.runId == key.runId
  }

  function FindSameRunId(entries: seq<Protection>, key: ProtectionKey): Option<Protection> {
    if entries == [] then None
    else if SameRunId(entries[0], key) then Some(entries[0])
    else FindSameRunId(entries[1..], key)
  }

  function FindEntry(entries: seq<Protection>, key: ProtectionKey): Option<Protection> {
    var exact := FindExact(entries, key);
    if exact.Some? then exact else FindSameRunId(entries, key)
  }

  function Assess(entries: seq<Protection>, instance: string, account: Account, run: WorkflowRun): Assessment {
    var found := FindEntry(entries, KeyForRun(instance, account, run));
    if found.None? then NoEntry
    else
      var entry := found.value;
      if entry.key.repositoryId != run.repository.id then
        Review(IdentityMismatch, "repository name now resolves to a different repository ID")
      else if entry.repository.fullName != run.repository.fullName then
        Review(RepositoryRenamed,
               "protected repository name " + entry.repository.fullName + " differs from current "
                   + run.repository.fullName)
      else if entry.account != account then
        Review(Unverifiable, "authenticated account differs from the protection record")
      else if entry.workflowId != run.workflowId || entry.headSha != run.headSha
              || entry.runNumber != run.runNumber || entry.createdAt != run.createdAt then
        Review(IdentityMismatch, "workflow run stable identity differs from the protection record")
      else Protected(entry)
  }

  lemma {:induction false} FindExactMeaning(entries: seq<Protection>, key: ProtectionKey)
    ensures var found := FindExact(entries, key);
            && (found.None? <==> forall e :: e in entries ==> e.key != key)
            && (found.Some? ==> found.value in entries && found.value.key == key)
  {
    if entries != [] {
      FindExactMeaning(entries[1..], key);
      assert entries == [entries[0]] + entries[1..];
    }
  }

  lemma {:induction false} FindSameRunIdMeaning(entries: seq<Protection>, key: ProtectionKey)
    ensures var found := FindSameRunId(entries, key);
            && (found.None? <==> forall e :: e in entries ==> !SameRunId(e, key))
            && (found.Some? ==> found.value in entries && SameRunId(found.value, key))
  {
    if entries != [] {
      FindSameRunIdMeaning(entries[1..], key);
      assert entries == [entries[0]] + entries[1..];
    }
  }

  /** A run is unprotected exactly when no entry carries its run id on this provider installation. */
  lemma NoEntryMeaning(entries: seq<Protection>, instance: string, account: Account, run: WorkflowRun)
    ensures Assess(entries, instance, account, run).NoEntry?
            <==> forall e :: e in entries ==> !SameRunId(e, KeyForRun(instance, account, run))
  {
    var key := KeyForRun(instance, account, run);
    FindExactMeaning(entries, key);
    FindSameRunIdMeaning(entries, key);
    assert forall e :: e in entries && e.key == key ==> SameRunId(e, key);
  }

  /** What a protection record must agree on before it protects this very run. */
  predicate Matches(e: Protection, instance: string, account: Account, run: WorkflowRun) {
    && e.key == ProtectionKey(account.provider, instance, run.repository.id, run.id)
    && e.repository.fullName == run.repository.fullName
    && e.account == account
    && e.workflowId == run.workflowId && e.headSha == run.headSha
    && e.runNumber == run.runNumber && e.createdAt == run.createdAt
  }

  /** Protection is granted by exactly the entry that matches the run, and by nothing weaker. */
  lemma ProtectedMeaning(entries: seq<Protection>, instance: string, account: Account, run: WorkflowRun, e: Protection)
    requires DistinctKeys(entries)
    ensures Assess(entries, instance, account, run) == Protected(e) <==>
            e in entries && Matches(e, instance, account, run)
  {
    var key := KeyForRun(instance, account, run);
    FindExactMeaning(entries, key);
    FindSameRunIdMeaning(entries, key);
    if e in entries && Matches(e, instance, account, run) {
      var found := FindExact(entries, key).value;
      var i :| 0 <= i < |entries| && entries[i] == e;
      var j :| 0 <= j < |entries| && entries[j] == found;
    }
  }

  /** The entry carries the run's id on this provider installation. */
  predicate NamesRun(e: Protection, instance: string, account: Account, run: WorkflowRun) {
    e.key.provider == account.provider && e.key.instance == instance && e.key.runId == run.id
  }

  /** It also carries the run's repository. */
  predicate HoldsRun(e: Protection, instance: string, account: Account, run: WorkflowRun) {
    NamesRun(e, instance, account, run) && e.key.repositoryId == run.repository.id
  }

  /** Why an entry that names the run does not settle the matter. */
  ghost predicate ReviewIsDue(entries: seq<Protection>, instance: string, account: Account, run: WorkflowRun,
                              code: ReviewCode) {
    match code
    case RepositoryRenamed => exists e ::
        e in entries && HoldsRun(e, instance, account, run) && e.repository.fullName != run.repository.fullName
    case Unverifiable => exists e ::
        && e in entries && HoldsRun(e, instance, account, run)
        && e.repository.fullName == run.repository.fullName && e.account != account
    case IdentityMismatch =>
      || ((exists e :: e in entries && NamesRun(e, instance, account, run))
          && forall e :: e in entries ==> !HoldsRun(e, instance, account, run))
      || exists e ::
           && e in entries && HoldsRun(e, instance, account, run)
           && e.repository.fullName == run.repository.fullName && e.account == account
           && (e.workflowId != run.workflowId || e.headSha != run.headSha || e.runNumber != run.runNumber
               || e.createdAt != run.createdAt)
  }

  lemma OnlyHolder(entries: seq<Protection>, instance: string, account: Account, run: WorkflowRun, e: Protection)
    requires DistinctKeys(entries) && e in entries && HoldsRun(e, instance, account, run)
    ensures FindExact(entries, KeyForRun(instance, account, run)) == Some(e)
  {
    var key := KeyForRun(instance, account, run);
    FindExactMeaning(entries, key);
    var found := FindExact(entries, key).value;
    var i :| 0 <= i < |entries| && entries[i] == e;
    var j :| 0 <= j < |entries| && entries[j] == found;
  }

  /** The entry that holds the run decides by the first field that differs. */
  lemma AssessHeld(entries: seq<Protection>, instance: string, account: Account, run: WorkflowRun, e: Protection)
    requires DistinctKeys(entries) && e in entries && HoldsRun(e, instance, account, run)
    ensures var r := Assess(entries, instance, account, run);
            if e.repository.fullName != run.repository.fullName then r.Review? && r.code == RepositoryRenamed
            else if e.account != account then r.Review? && r.code == Unverifiable
            else if !Matches(e, instance, account, run) then r.Review? && r.code == IdentityMismatch
            else r == Protected(e)
  {
    OnlyHolder(entries, instance, account, run, e);
  }

  lemma AssessNotHeld(entries: seq<Protection>, instance: string, account: Account, run: WorkflowRun)
    requires forall e :: e in entries ==> !HoldsRun(e, instance, account, run)
    ensures var r := Assess(entries, instance, account, run);
            if forall e :: e in entries ==> !NamesRun(e, instance, account, run) then r == NoEntry
            else r.Review? && r.code == IdentityMismatch
  {
    var key := KeyForRun(instance, account, run);
    FindExactMeaning(entries, key);
    FindSameRunIdMeaning(entries, key);
    forall e: Protection ensures SameRunId(e, key) <==> NamesRun(e, instance, account, run) {}
    forall e: Protection ensures e.key == key <==> HoldsRun(e, instance, account, run) {}
  }

  /** Every assessment has exactly one cause, and says which. */
  lemma AssessmentMeaning(entries: seq<Protection>, instance: string, account: Account, run: WorkflowRun)
    requires DistinctKeys(entries)
    ensures var r := Assess(entries, instance, account, run);
            && (r.NoEntry? <==> forall e :: e in entries ==> !NamesRun(e, instance, account, run))
            && (r.Protected? <==> exists e :: e in entries && Matches(e, instance, account, run))
            && (r.Protected? ==> r.entry in entries && Matches(r.entry, instance, account, run))
            && (r.Review? ==> ReviewIsDue(entries, instance, account, run, r.code))
            && forall code :: ReviewIsDue(entries, instance, account, run, code) ==> r.Review? && r.code == code
  {
    hide Assess, DistinctKeys;
    if e :| e in entries && HoldsRun(e, instance, account, run) {
      AssessHeld(entries, instance, account, run, e);
      OnlyHolder(entries, instance, account, run, e);
      forall f | f in entries && HoldsRun(f, instance, account, run) ensures f == e {
        OnlyHolder(entries, instance, account, run, f);
      }
      assert forall f :: Matches(f, instance, account, run) ==> HoldsRun(f, instance, account, run);
    } else {
      AssessNotHeld(entries, instance, account, run);
      assert forall f :: Matches(f, instance, account, run) ==> HoldsRun(f, instance, account, run);
    }
  }

  /** More entries can only take the all-clear away. */
  lemma MoreEntriesNeverUnprotect(entries: seq<Protection>, more: seq<Protection>, instance: string, account: Account,
                                  run: WorkflowRun)
    requires forall e :: e in entries ==> e in more
    requires Assess(more, instance, account, run).NoEntry?
    ensures Assess(entries, instance, account, run).NoEntry?
  {
    NoEntryMeaning(entries, instance, account, run);
    NoEntryMeaning(more, instance, account, run);
  }

  /** A rerun keeps its protection: the attempt, status and times are not part of the identity. */
  lemma RerunKeepsProtection(entries: seq<Protection>, instance: string, account: Account, run: WorkflowRun,
                             rerun: WorkflowRun)
    requires rerun == run.(runAttempt := rerun.runAttempt, status := rerun.status, conclusion := rerun.conclusion,
             updatedAt := rerun.updatedAt)
    ensures Assess(entries, instance, account, rerun) == Assess(entries, instance, account, run)
  {
  }

  // --- the lock lease: reading and writing the store under one key ------------------------------

  /** `RunProtectionLease::assess`: only the leased run may be assessed. */
  function LeaseAssess(key: ProtectionKey, entries: seq<Protection>, instance: string, account: Account,
                       run: WorkflowRun)
    : Result<Assessment, ProtectionError>
  {
    if key != KeyForRun(instance, account, run) then Err(Invalid("locked run identity differs from the exact target"))
    else Ok(Assess(entries, instance, account, run))
  }
}

/**
 * The sentences of a purge report and the one phrase the batch searches them for. What the executor
 * writes itself never contains the phrase nor completes it; only text it repeats from the provider
 * or from the protection store does.
 */
module RunPurgeMessages {
  import opened Prelude
  import opened Domain
  import opened RunProtections
  import opened RunPurgeExecution
  import T = Text

  // --- fixed text in front of free text -----------------------------------------------------------------

  /** No occurrence of the phrase can start inside this text, whatever follows it. */
  ghost predicate Harmless(text: string) {
    forall i :: 0 <= i < |text| ==> Mismatch(text, i)
  }

  ghost predicate Mismatch(text: string, i: nat) {
    exists k :: 0 <= k < |RATE_LIMIT_PHRASE| && i + k < |text| && text[i + k] != RATE_LIMIT_PHRASE[k]
  }

  lemma NotHere(before: string, rest: string, i: nat)
    requires Mismatch(before, i) && i + |RATE_LIMIT_PHRASE| <= |before + rest|
    ensures !T.OccursAt(before + rest, RATE_LIMIT_PHRASE, i)
  {
  }

  /** Such a prefix neither contains the phrase nor helps the rest to contain it. */
  lemma PhraseBehind(before: string, rest: string)
    requires Harmless(before)
    ensures HasPhrase(before + rest) <==> HasPhrase(rest)
  {
    var all, phrase := before + rest, RATE_LIMIT_PHRASE;
    if T.Contains(all, phrase) {
      var i :| 0 <= i <= |all| - |phrase| && T.OccursAt(all, phrase, i);
      if i < |before| {
        NotHere(before, rest, i);
      } else {
        assert all[i..i + |phrase|] == phrase;
        assert rest[i - |before|..i - |before| + |phrase|] == all[i..i + |phrase|];
        assert T.OccursAt(rest, phrase, i - |before|);
      }
    }
    if T.Contains(rest, phrase) {
      T.ContainsAfter(before, rest, phrase);
    }
  }

  lemma HarmlessJoins(a: string, b: string)
    requires Harmless(a) && Harmless(b)
    ensures Harmless(a + b)
  {
    forall i | 0 <= i < |a + b| ensures Mismatch(a + b, i) {
      if i < |a| {
        assert Mismatch(a, i);
        var k :| 0 <= k < |RATE_LIMIT_PHRASE| && i + k < |a| && a[i + k] != RATE_LIMIT_PHRASE[k];
        assert (a + b)[i + k] != RATE_LIMIT_PHRASE[k];
      } else {
        assert Mismatch(b, i - |a|);
        var k :| 0 <= k < |RATE_LIMIT_PHRASE| && i - |a| + k < |b| && b[i - |a| + k] != RATE_LIMIT_PHRASE[k];
        assert (a + b)[i + k] != RATE_LIMIT_PHRASE[k];
      }
    }
  }

  lemma TooShort(text: string)
    requires |text| < 27
    ensures !HasPhrase(text)
  {
  }

  /** The phrase starts with a `p`: it is enough to look `d` characters behind the few of them. */
  lemma Checked(text: string, a: nat, b: nat, d: nat)
    requires d < 27
    requires forall i :: 0 <= i < |text| && text[i] == 'p' ==> i == a || i == b
    requires a < |text| && text[a] == 'p' ==> a + d < |text| && text[a + d] != RATE_LIMIT_PHRASE[d]
    requires b < |text| && text[b] == 'p' ==> b + d < |text| && text[b + d] != RATE_LIMIT_PHRASE[d]
    ensures Harmless(text)
  {
    forall i | 0 <= i < |text| ensures Mismatch(text, i) {
      if text[i] == 'p' {
        assert text[i + d] != RATE_LIMIT_PHRASE[d];
      } else {
        assert text[i + 0] != RATE_LIMIT_PHRASE[0];
      }
    }
  }

  predicate NoP(text: string) { forall i :: 0 <= i < |text| ==> text[i] != 'p' }

  lemma NoPHarmless(text: string)
    requires NoP(text)
    ensures Harmless(text)
  {
    forall i | 0 <= i < |text| ensures Mismatch(text, i) {
      assert text[i + 0] != RATE_LIMIT_PHRASE[0];
    }
  }

  lemma {:induction false} DecimalPlain(n: nat)
    ensures NoP(T.Decimal(n))
  {
    if n >= 10 {
      DecimalPlain(n / 10);
    }
  }

  lemma {:induction false} JoinPlain(ids: seq<nat>, separator: string)
    requires NoP(separator)
    ensures NoP(T.Join(ids, separator))
  {
    if ids != [] {
      DecimalPlain(ids[0]);
      JoinPlain(ids[1..], separator);
    }
  }

  // --- the sentences of the executor -----------------------------------------------------------------------

  lemma ErrorPrefixes()
    ensures Harmless("authentication failed: ") && Harmless("resource not found: ") && Harmless("permission denied: ")
    ensures Harmless("failed with HTTP ") && Harmless(": ")
  {
    NoPHarmless("authentication failed: ");
    NoPHarmless("resource not found: ");
    Checked("permission denied: ", 0, 0, 1);
    NoPHarmless("failed with HTTP ");
    NoPHarmless(": ");
  }

  lemma TransportPrefixes()
    ensures Harmless("provider transport error: ") && Harmless("provider request ")
  {
    Checked("provider transport error: ", 0, 14, 10);
    Checked("provider request ", 0, 0, 10);
  }

  lemma InvalidResponsePrefix()
    ensures Harmless("invalid provider response: ")
  {
    var text, phrase := "invalid provider response: ", RATE_LIMIT_PHRASE;
    assert text[18] != phrase[10] && text[21] != phrase[1];
    forall i | 0 <= i < |text| ensures Mismatch(text, i) {
      if i == 8 {
        assert text[i + 10] != phrase[10];
      } else if i == 20 {
        assert text[i + 1] != phrase[1];
      } else {
        assert text[i + 0] != phrase[0];
      }
    }
  }

  lemma ReportedHarmless()
    ensures Harmless(REPORTED)
  {
    Checked(REPORTED, 0, 11, 10);
  }

  lemma UnconfirmedHarmless()
    ensures Harmless(UNCONFIRMED)
  {
    Checked(UNCONFIRMED, 0, 0, 1);
  }

  lemma RetainedHarmless()
    ensures Harmless(RETAINED) && Harmless("dependency ") && Harmless("verification failed: ")
  {
    NoPHarmless(RETAINED);
    Checked("dependency ", 2, 2, 1);
    NoPHarmless("verification failed: ");
  }

  lemma ProtectionPrefixes()
    ensures Harmless("local_protection: ") && Harmless("local_protection_") && Harmless("unverifiable: ")
  {
    Checked("local_protection: ", 6, 6, 3);
    Checked("local_protection_", 6, 6, 3);
    NoPHarmless("unverifiable: ");
  }

  lemma StorePrefixes()
    ensures Harmless("invalid ") && Harmless("workflow run protection: ") && Harmless("workflow run protection ")
            && Harmless("storage unavailable: ")
  {
    NoPHarmless("invalid ");
    Checked("workflow run protection: ", 13, 13, 3);
    Checked("workflow run protection ", 13, 13, 3);
    NoPHarmless("storage unavailable: ");
  }

  lemma CodeHarmless(code: ReviewCode)
    ensures Harmless(code.Text())
  {
    Checked("local_protection_", 6, 6, 3);
    match code
    case IdentityMismatch =>
      NoPHarmless("identity_mismatch");
      HarmlessJoins("local_protection_", "identity_mismatch");
    case RepositoryRenamed =>
      Checked("repository_renamed", 2, 2, 1);
      HarmlessJoins("local_protection_", "repository_renamed");
    case Unverifiable =>
      NoPHarmless("unverifiable");
      HarmlessJoins("local_protection_", "unverifiable");
  }

  // --- which messages carry the phrase ----------------------------------------------------------------------

  predicate ErrorTells(e: ProviderError) { e.RateLimited? || HasPhrase(e.message) }

  predicate FailureTells(e: ProtectionError) { !e.Duplicate? && HasPhrase(e.message) }

  /** The free text a message repeats carries the phrase, or the message repeats a real refusal. */
  predicate Tells(m: Message) {
    match m
    case ProviderSaid(e) => ErrorTells(e)
    case AfterDeleteUnverified(e) => ErrorTells(e)
    case DependenciesUnverified(e) => ErrorTells(e)
    case ProtectedFor(reason) => HasPhrase(reason)
    case NeedsReview(_, explanation) => HasPhrase(explanation)
    case LeaseFailed(failure) => FailureTells(failure)
    case _ => false
  }

  /** The reasons given to targets that are not attempted; no target's own report uses them. */
  predicate IsHaltNotice(m: Message) {
    m.HaltedByLimit? || m.HaltedByHeadroom? || m.ReviewHaltedByLimit? || m.ReviewHaltedByHeadroom?
  }

  lemma StatusHarmless(status: nat)
    ensures Harmless("provider request " + "failed with HTTP " + T.Decimal(status) + ": ")
  {
    ErrorPrefixes();
    TransportPrefixes();
    DecimalPlain(status);
    NoPHarmless(T.Decimal(status));
    HarmlessJoins("provider request ", "failed with HTTP ");
    HarmlessJoins("provider request " + "failed with HTTP ", T.Decimal(status));
    HarmlessJoins("provider request " + "failed with HTTP " + T.Decimal(status), ": ");
  }

  lemma ErrorTextTells(e: ProviderError)
    ensures HasPhrase(ErrorText(e)) <==> ErrorTells(e)
  {
    hide HasPhrase, Harmless;
    ErrorPrefixes();
    TransportPrefixes();
    match e
    case Authentication(m) => PhraseBehind("authentication failed: ", m);
    case NotFound(m) => PhraseBehind("resource not found: ", m);
    case PermissionDenied(m) => PhraseBehind("permission denied: ", m);
    case RateLimited(_, m) => PhraseFirst(m);
    case Transport(m) => PhraseBehind("provider transport error: ", m);
    case InvalidResponse(m) =>
      InvalidResponsePrefix();
      PhraseBehind("invalid provider response: ", m);
    case HttpStatus(status, m) =>
      StatusHarmless(status);
      PhraseBehind("provider request " + "failed with HTTP " + T.Decimal(status) + ": ", m);
  }

  lemma PhraseFirst(rest: string)
    ensures HasPhrase(RATE_LIMIT_PHRASE + rest)
  {
    assert T.OccursAt(RATE_LIMIT_PHRASE + rest, RATE_LIMIT_PHRASE, 0);
  }

  lemma FailureTextTells(e: ProtectionError)
    ensures HasPhrase(e.Text()) <==> FailureTells(e)
  {
    hide HasPhrase, Harmless;
    StorePrefixes();
    match e
    case Invalid(m) =>
      HarmlessJoins("invalid ", "workflow run protection: ");
      PhraseBehind("invalid " + "workflow run protection: ", m);
    case Duplicate(_) =>
      Checked("duplicate ", 2, 2, 1);
      PhraseBehind("duplicate ", "workflow run protection: ");
      TooShort("workflow run protection: ");
    case Store(m) =>
      HarmlessJoins("workflow run protection ", "storage unavailable: ");
      PhraseBehind("workflow run protection " + "storage unavailable: ", m);
  }

  lemma WrappedErrorTells(e: ProviderError)
    ensures HasPhrase(AfterDeleteUnverified(e).Text()) <==> ErrorTells(e)
    ensures HasPhrase(DependenciesUnverified(e).Text()) <==> ErrorTells(e)
  {
    hide HasPhrase, Harmless, ErrorText;
    ErrorTextTells(e);
    ReportedHarmless();
    UnconfirmedHarmless();
    RetainedHarmless();
    NoPHarmless("workflow-run deletion, but ");
    HarmlessJoins(REPORTED, "workflow-run deletion, but ");
    HarmlessJoins(REPORTED + "workflow-run deletion, but ", UNCONFIRMED);
    PhraseBehind(REPORTED + "workflow-run deletion, but " + UNCONFIRMED, ErrorText(e));
    HarmlessJoins(RETAINED, "dependency ");
    HarmlessJoins(RETAINED + "dependency ", "verification failed: ");
    PhraseBehind(RETAINED + "dependency " + "verification failed: ", ErrorText(e));
  }

  lemma ProtectionMessageTells(reason: string, code: ReviewCode, failure: ProtectionError)
    ensures HasPhrase(ProtectedFor(reason).Text()) <==> HasPhrase(reason)
    ensures HasPhrase(NeedsReview(code, reason).Text()) <==> HasPhrase(reason)
    ensures HasPhrase(LeaseFailed(failure).Text()) <==> FailureTells(failure)
  {
    hide HasPhrase, Harmless, ReviewCode.Text, ProtectionError.Text;
    ProtectionPrefixes();
    PhraseBehind("local_protection: ", reason);
    CodeHarmless(code);
    NoPHarmless(": ");
    HarmlessJoins(code.Text(), ": ");
    PhraseBehind(code.Text() + ": ", reason);
    FailureTextTells(failure);
    HarmlessJoins("local_protection_", "unverifiable: ");
    PhraseBehind("local_protection_" + "unverifiable: ", failure.Text());
  }

  lemma ShortTail(before: string, tail: string)
    requires Harmless(before) && |tail| < 27
    ensures !HasPhrase(before + tail)
  {
    PhraseBehind(before, tail);
    TooShort(tail);
  }

  lemma LocalSentencesTellNothing()
    ensures !HasPhrase(NotStarted.Text()) && !HasPhrase(LogsNotAuthorized.Text())
            && !HasPhrase(ArtifactStillExists.Text())
  {
    hide HasPhrase, Harmless;
    RetainedHarmless();
    ShortTail("dependency ", "cleanup not started");
    Checked("plan did not authorize ", 0, 0, 1);
    ShortTail("plan did not authorize ", "log deletion");
    NoPHarmless("artifact still exists ");
    ShortTail("artifact still exists ", "after reported deletion");
  }

  lemma RunSentencesTellNothing()
    ensures !HasPhrase(IdentityChanged.Text()) && !HasPhrase(RunStillExists.Text())
            && !HasPhrase(CleanupIncomplete.Text())
  {
    hide HasPhrase, Harmless;
    RetainedHarmless();
    ReportedHarmless();
    NoPHarmless("workflow run identity changed ");
    ShortTail("workflow run identity changed ", "after dependency cleanup");
    NoPHarmless("workflow run still exists after ");
    HarmlessJoins("workflow run still exists after ", REPORTED);
    ShortTail("workflow run still exists after " + REPORTED, "deletion");
    Checked("dependency cleanup ", 2, 17, 1);
    HarmlessJoins(RETAINED, "dependency cleanup ");
    ShortTail(RETAINED + "dependency cleanup ", "was incomplete");
  }

  lemma IdListPlain(ids: seq<nat>)
    ensures NoP(IdList(ids))
  {
    JoinPlain(ids, ", ");
  }

  lemma PlainTail(before: string, tail: string)
    requires Harmless(before) && NoP(tail)
    ensures !HasPhrase(before + tail)
  {
    NoPHarmless(tail);
    PhraseBehind(before, tail);
    PhraseBehind(tail, "");
    TooShort("");
    assert tail + "" == tail;
  }

  lemma ListsTellNothing(residual: seq<Artifact>, drift: Drift)
    ensures !HasPhrase(DependenciesRemain(residual).Text())
    ensures !HasPhrase(DriftFound(drift).Text())
  {
    hide HasPhrase, Harmless, T.Join, IdList, NoP, IdsOf;
    RetainedHarmless();
    Checked("artifact dependencies remain ", 11, 11, 1);
    Checked("after cleanup: ", 12, 12, 1);
    HarmlessJoins(RETAINED, "artifact dependencies remain ");
    HarmlessJoins(RETAINED + "artifact dependencies remain ", "after cleanup: ");
    CommaPlain(IdsOf(residual));
    PlainTail(RETAINED + "artifact dependencies remain " + "after cleanup: ", T.Join(IdsOf(residual), ","));
    DriftTellsNothing(drift);
  }

  lemma CommaPlain(ids: seq<nat>)
    ensures NoP(T.Join(ids, ","))
  {
    JoinPlain(ids, ",");
  }

  lemma DriftTellsNothing(drift: Drift)
    ensures !HasPhrase(DriftFound(drift).Text())
  {
    hide HasPhrase, Harmless, IdList, NoP;
    var changed, unexpected := IdList(drift.changed), IdList(drift.unexpected);
    IdListPlain(drift.changed);
    IdListPlain(drift.unexpected);
    Checked("dependency drift before purge: ", 2, 24, 1);
    DriftWords();
    NoPHarmless(changed);
    HarmlessJoins("dependency drift before purge: ", "changed artifacts ");
    HarmlessJoins("dependency drift before purge: " + "changed artifacts ", changed);
    HarmlessJoins("dependency drift before purge: " + "changed artifacts " + changed, ", unexpected artifacts ");
    PlainTail("dependency drift before purge: " + "changed artifacts " + changed + ", unexpected artifacts ",
        unexpected);
  }

  lemma DriftWords()
    ensures Harmless("changed artifacts ") && Harmless(", unexpected artifacts ")
  {
    NoPHarmless("changed artifacts ");
    Checked(", unexpected artifacts ", 6, 6, 1);
  }

  lemma ProviderSaidTells(e: ProviderError)
    ensures HasPhrase(ProviderSaid(e).Text()) <==> ErrorTells(e)
  {
    hide HasPhrase, ErrorText;
    ErrorTextTells(e);
  }

  /** A message contains the phrase exactly when its free text does, or it repeats a rate limit. */
  lemma MessageTells(m: Message)
    requires !IsHaltNotice(m)
    ensures HasPhrase(m.Text()) <==> Tells(m)
  {
    hide HasPhrase, ErrorTells, FailureTells, Message.Text;
    LocalSentencesTellNothing();
    RunSentencesTellNothing();
    match m
    case ProviderSaid(e) => ProviderSaidTells(e);
    case AfterDeleteUnverified(e) => WrappedErrorTells(e);
    case DependenciesUnverified(e) => WrappedErrorTells(e);
    case DependenciesRemain(residual) => ListsTellNothing(residual, Drift([], [], []));
    case DriftFound(drift) => ListsTellNothing([], drift);
    case ProtectedFor(reason) => ProtectionMessageTells(reason, IdentityMismatch, Store(""));
    case NeedsReview(code, explanation) => ProtectionMessageTells(explanation, code, Store(""));
    case LeaseFailed(failure) => ProtectionMessageTells("", IdentityMismatch, failure);
    case _ =>
  }
}

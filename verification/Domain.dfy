/**
 * The provider-neutral entities of gh-housekeeper. A string stands for its UTF-8 bytes, one
 * `char` per byte, so that lengths, order and ASCII case folding mean what they mean in Rust.
 */
module Domain {
  import opened Prelude

  type Moment = int

  datatype Account = Account(provider: string, login: string)

  datatype RepositoryRef = RepositoryRef(id: nat, fullName: string)

  datatype WorkflowRun = WorkflowRun(
    id: nat,
    repository: RepositoryRef,
    workflowId: nat,
    workflowName: Option<string>,
    displayTitle: string,
    event: string,
    status: string,
    conclusion: Option<string>,
    headBranch: Option<string>,
    headSha: string,
    runNumber: nat,
    runAttempt: nat,
    createdAt: Moment,
    updatedAt: Moment)
  {
    predicate IsCompleted() { EqIgnoreAsciiCase(status, "completed") }

    /** Everything a purge treats as identity: all fields except `updated_at`. */
    predicate HasSamePurgeIdentity(other: WorkflowRun) {
      && id == other.id
      && repository == other.repository
      && workflowId == other.workflowId
      && workflowName == other.workflowName
      && displayTitle == other.displayTitle
      && event == other.event
      && status == other.status
      && conclusion == other.conclusion
      && headBranch == other.headBranch
      && headSha == other.headSha
      && runNumber == other.runNumber
      && runAttempt == other.runAttempt
      && createdAt == other.createdAt
    }
  }

  datatype WorkflowRunRef = WorkflowRunRef(
    id: nat,
    headBranch: Option<string>,
    headSha: Option<string>,
    workflowId: Option<nat>,
    workflowName: Option<string>)

  datatype Artifact = Artifact(
    id: nat,
    repository: RepositoryRef,
    name: string,
    sizeInBytes: U64,
    createdAt: Moment,
    updatedAt: Moment,
    expiresAt: Option<Moment>,
    expired: bool,
    digest: Option<string>,
    workflowRun: Option<WorkflowRunRef>)

  datatype ScanScope = AllAccessible | Owner(name: string) | Repository(fullName: string)

  datatype DeleteOutcome = DeletedNow | WasAbsent

  datatype ProviderError =
    | Authentication(message: string)
    | NotFound(message: string)
    | PermissionDenied(message: string)
    | RateLimited(retryAfterSeconds: Option<nat>, message: string)
    | Transport(message: string)
    | InvalidResponse(message: string)
    | HttpStatus(status: nat, message: string)

  type ProviderResult<+T> = Result<T, ProviderError>

  // --- ASCII case folding ----------------------------------------------------------------------

  function LowerChar(c: char): char {
    if 'A' <= c <= 'Z' then (c as int + 32) as char else c
  }

  function ToAsciiLowercase(s: string): (r: string)
    ensures |r| == |s|
  {
    seq(|s|, i requires 0 <= i < |s| => LowerChar(s[i]))
  }

  predicate EqIgnoreAsciiCase(a: string, b: string) {
    ToAsciiLowercase(a) == ToAsciiLowercase(b)
  }

  predicate IsLetterPair(c: char, d: char) {
    ('A' <= c <= 'Z' && d as int == c as int + 32) || ('A' <= d <= 'Z' && c as int == d as int + 32)
  }

  /** Two texts are equal ignoring ASCII case exactly when they differ at most by upper and lower case letters. */
  lemma FoldMeaning(a: string, b: string)
    ensures EqIgnoreAsciiCase(a, b) <==>
            |a| == |b| && forall i :: 0 <= i < |a| ==> a[i] == b[i] || IsLetterPair(a[i], b[i])
  {
    var x, y := ToAsciiLowercase(a), ToAsciiLowercase(b);
    if x == y {
      forall i | 0 <= i < |a| ensures a[i] == b[i] || IsLetterPair(a[i], b[i]) {
        assert x[i] == LowerChar(a[i]) && y[i] == LowerChar(b[i]);
      }
    }
  }

  /** Two readings of a run are the same to a purge exactly when at most the last update differs. */
  lemma PurgeIdentityMeaning(run: WorkflowRun, other: WorkflowRun)
    ensures run.HasSamePurgeIdentity(other) <==> other == run.(updatedAt := other.updatedAt)
  {
  }
}

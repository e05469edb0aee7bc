/**
 * Everything the purge executor talks to: the GitHub provider and the local protection store.
 * Each answer is an arbitrary function of the whole history of calls and answers, so a theorem
 * for every oracle is a theorem for every provider, however it changes its mind in between.
 */
module RunPurgeRemote {
  import opened Prelude
  import opened Domain
  import opened RunProtections

  datatype Event =
    | AccountRead(account: ProviderResult<Account>)
    | HeadroomRead(remaining: Option<nat>)
    | SnapshotRead(entries: Result<seq<Protection>, ProtectionError>)
    | LeaseAcquired(key: ProtectionKey, failure: Option<ProtectionError>)
    | ProtectionAssessed(key: ProtectionKey, assessment: Result<Assessment, ProtectionError>)
    | LeaseReleased(key: ProtectionKey)
    | RunLookedUp(repository: RepositoryRef, id: nat, run: ProviderResult<Option<WorkflowRun>>)
    | ArtifactsListed(repository: RepositoryRef, id: nat, artifacts: ProviderResult<seq<Artifact>>)
    | ArtifactLookedUp(repository: RepositoryRef, id: nat, artifact: ProviderResult<Option<Artifact>>)
    | ArtifactDelete(repository: RepositoryRef, id: nat, outcome: ProviderResult<DeleteOutcome>)
    | LogsDelete(repository: RepositoryRef, id: nat, outcome: ProviderResult<DeleteOutcome>)
    | RunDelete(repository: RepositoryRef, id: nat, outcome: ProviderResult<DeleteOutcome>)
  {
    /** A destructive request. */
    predicate IsDelete() { ArtifactDelete? || LogsDelete? || RunDelete? }

    /** The provider refused this request for exceeding its rate limit. */
    predicate WasRateLimited() {
      match this
      case RunLookedUp(_, _, a) => a.Err? && a.error.RateLimited?
      case ArtifactsListed(_, _, a) => a.Err? && a.error.RateLimited?
      case ArtifactLookedUp(_, _, a) => a.Err? && a.error.RateLimited?
      case ArtifactDelete(_, _, a) => a.Err? && a.error.RateLimited?
      case LogsDelete(_, _, a) => a.Err? && a.error.RateLimited?
      case RunDelete(_, _, a) => a.Err? && a.error.RateLimited?
      case _ => false
    }
  }

  type Trace = seq<Event>

  datatype Oracle = Oracle(
    account: Trace -> ProviderResult<Account>,
    remaining: Trace -> Option<nat>,
    snapshot: Trace -> Result<seq<Protection>, ProtectionError>,
    acquire: (Trace, ProtectionKey) -> Option<ProtectionError>,
    assess: (Trace, ProtectionKey, WorkflowRun) -> Result<Assessment, ProtectionError>,
    run: (Trace, RepositoryRef, nat) -> ProviderResult<Option<WorkflowRun>>,
    artifacts: (Trace, RepositoryRef, nat) -> ProviderResult<seq<Artifact>>,
    artifact: (Trace, RepositoryRef, nat) -> ProviderResult<Option<Artifact>>,
    deleteArtifact: (Trace, RepositoryRef, nat) -> ProviderResult<DeleteOutcome>,
    deleteLogs: (Trace, RepositoryRef, nat) -> ProviderResult<DeleteOutcome>,
    deleteRun: (Trace, RepositoryRef, nat) -> ProviderResult<DeleteOutcome>)

  /** The provider and the protection store as the executor holds them, with what was said so far. */
  class Remote {
    const oracle: Oracle
    const instance: string
    var trace: Trace

    constructor (oracle: Oracle, instance: string)
      ensures this.oracle == oracle && this.instance == instance && trace == []
    {
      this.oracle := oracle;
      this.instance := instance;
      trace := [];
    }

    method ReadAccount() returns (r: ProviderResult<Account>)
      modifies this
      ensures r == oracle.account(old(trace))
      ensures trace == old(trace) + [AccountRead(r)]
    {
      r := oracle.account(trace);
      trace := trace + [AccountRead(r)];
    }

    method ReadHeadroom() returns (r: Option<nat>)
      modifies this
      ensures r == oracle.remaining(old(trace))
      ensures trace == old(trace) + [HeadroomRead(r)]
    {
      r := oracle.remaining(trace);
      trace := trace + [HeadroomRead(r)];
    }

    method ReadSnapshot() returns (r: Result<seq<Protection>, ProtectionError>)
      modifies this
      ensures r == oracle.snapshot(old(trace))
      ensures trace == old(trace) + [SnapshotRead(r)]
    {
      r := oracle.snapshot(trace);
      trace := trace + [SnapshotRead(r)];
    }

    method Acquire(key: ProtectionKey) returns (failure: Option<ProtectionError>)
      modifies this
      ensures failure == oracle.acquire(old(trace), key)
      ensures trace == old(trace) + [LeaseAcquired(key, failure)]
    {
      failure := oracle.acquire(trace, key);
      trace := trace + [LeaseAcquired(key, failure)];
    }

    method AssessUnderLease(key: ProtectionKey, run: WorkflowRun) returns (r: Result<Assessment, ProtectionError>)
      modifies this
      ensures r == oracle.assess(old(trace), key, run)
      ensures trace == old(trace) + [ProtectionAssessed(key, r)]
    {
      r := oracle.assess(trace, key, run);
      trace := trace + [ProtectionAssessed(key, r)];
    }

    method Release(key: ProtectionKey)
      modifies this
      ensures trace == old(trace) + [LeaseReleased(key)]
    {
      trace := trace + [LeaseReleased(key)];
    }

    method LookUpRun(repository: RepositoryRef, id: nat) returns (r: ProviderResult<Option<WorkflowRun>>)
      modifies this
      ensures r == oracle.run(old(trace), repository, id)
      ensures trace == old(trace) + [RunLookedUp(repository, id, r)]
    {
      r := oracle.run(trace, repository, id);
      trace := trace + [RunLookedUp(repository, id, r)];
    }

    method ListArtifacts(repository: RepositoryRef, id: nat) returns (r: ProviderResult<seq<Artifact>>)
      modifies this
      ensures r == oracle.artifacts(old(trace), repository, id)
      ensures trace == old(trace) + [ArtifactsListed(repository, id, r)]
    {
      r := oracle.artifacts(trace, repository, id);
      trace := trace + [ArtifactsListed(repository, id, r)];
    }

    method LookUpArtifact(repository: RepositoryRef, id: nat) returns (r: ProviderResult<Option<Artifact>>)
      modifies this
      ensures r == oracle.artifact(old(trace), repository, id)
      ensures trace == old(trace) + [ArtifactLookedUp(repository, id, r)]
    {
      r := oracle.artifact(trace, repository, id);
      trace := trace + [ArtifactLookedUp(repository, id, r)];
    }

    method DeleteArtifact(repository: RepositoryRef, id: nat) returns (r: ProviderResult<DeleteOutcome>)
      modifies this
      ensures r == oracle.deleteArtifact(old(trace), repository, id)
      ensures trace == old(trace) + [ArtifactDelete(repository, id, r)]
    {
      r := oracle.deleteArtifact(trace, repository, id);
      trace := trace + [ArtifactDelete(repository, id, r)];
    }

    method DeleteLogs(repository: RepositoryRef, id: nat) returns (r: ProviderResult<DeleteOutcome>)
      modifies this
      ensures r == oracle.deleteLogs(old(trace), repository, id)
      ensures trace == old(trace) + [LogsDelete(repository, id, r)]
    {
      r := oracle.deleteLogs(trace, repository, id);
      trace := trace + [LogsDelete(repository, id, r)];
    }

    method DeleteRun(repository: RepositoryRef, id: nat) returns (r: ProviderResult<DeleteOutcome>)
      modifies this
      ensures r == oracle.deleteRun(old(trace), repository, id)
      ensures trace == old(trace) + [RunDelete(repository, id, r)]
    {
      r := oracle.deleteRun(trace, repository, id);
      trace := trace + [RunDelete(repository, id, r)];
    }
  }
}

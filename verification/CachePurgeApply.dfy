/** The apply flow of a cache purge: intent, execution, final record, with the process dying anywhere. */
module CachePurgeApply {
  import opened Prelude
  import opened Domain
  import opened Sorting
  import opened AuditNames
  import opened CachePurges
  import opened CachePurgeAudits
  import S = CachePurgeSafety

  // --- the deletions of a history -----------------------------------------------------------------------------

  function DeletionsIn(intentId: RecordId, d: CacheTrace): seq<Deletion> {
    if d == [] then []
    else
      var n := |d| - 1;
      DeletionsIn(intentId, d[..n]) + if d[n].CacheDelete? then [Deletion(intentId, d[n].repository, d[n].id)] else []
  }

  lemma {:induction false} DeletionsMeaning(intentId: RecordId, d: CacheTrace)
    ensures forall x :: x in DeletionsIn(intentId, d) <==>
              exists k :: 0 <= k < |d| && d[k].CacheDelete? && x == Deletion(intentId, d[k].repository, d[k].id)
  {
    if d != [] {
      var n := |d| - 1;
      DeletionsMeaning(intentId, d[..n]);
      forall x ensures x in DeletionsIn(intentId, d) <==>
              exists k :: 0 <= k < |d| && d[k].CacheDelete? && x == Deletion(intentId, d[k].repository, d[k].id)
      {
        if x in DeletionsIn(intentId, d[..n]) {
          var k :| 0 <= k < n && d[..n][k].CacheDelete? && x == Deletion(intentId, d[..n][k].repository, d[..n][k].id);
          assert d[k].CacheDelete?;
        }
        if k :| 0 <= k < |d| && d[k].CacheDelete? && x == Deletion(intentId, d[k].repository, d[k].id) {
          if k < n {
            assert d[..n][k] == d[k];
          }
        }
      }
    }
  }

  /** Wherever an execution is cut off, the requests it has sent delete planned caches only. */
  lemma DeletionsArePlanned(o: CacheOracle, t: CacheTrace, plan: CachePlan, intentId: RecordId, cut: nat)
    requires |t| <= cut <= |RunCaches(o, t, plan.targets).trace|
    ensures forall x :: x in DeletionsIn(intentId, RunCaches(o, t, plan.targets).trace[|t|..cut]) ==>
              x.intentId == intentId && PlansCache(plan, x.repository, x.id)
  {
    hide RunCaches;
    var b := RunCaches(o, t, plan.targets);
    var d := b.trace[|t|..cut];
    DeletionsMeaning(intentId, d);
    forall k | 0 <= k < |d| && d[k].CacheDelete?
      ensures PlansCache(plan, d[k].repository, d[k].id)
    {
      S.EveryCacheDeleteIsPlanned(o, t, plan.targets, |t| + k);
      var i :| 0 <= i < |plan.targets| && S.DeletesAsPlanned(b.trace, |t| + k, plan.targets[i])
          && |t| + k == b.marks[i] + 2;
      assert plan.targets[i] in plan.targets;
    }
  }

  lemma MoreCovered(files: Files, before: seq<Deletion>, more: seq<Deletion>, id: RecordId, plan: CachePlan,
                    reviewed: CacheReview)
    requires Covered(files, before) && IntentFile(id) in files
             && files[IntentFile(id)] == IntentText(Intent(id, plan, reviewed))
    requires forall x :: x in more ==> x.intentId == id && PlansCache(plan, x.repository, x.id)
    ensures Covered(files, before + more)
  {
  }

  // --- the flow ---------------------------------------------------------------------------------------------------

  /** All new requests were sent under one new, durable intent. */
  ghost predicate UnderNewIntent(before: Files, after: Files, old_: seq<Deletion>, new_: seq<Deletion>) {
    && old_ <= new_
    && (new_ != old_ ==> exists id :: NewIntent(before, after, id) && forall k :: |old_| <= k < |new_| ==>
       new_[k].intentId == id)
  }

  ghost predicate NewIntent(before: Files, after: Files, id: RecordId) {
    IntentFile(id) !in before && IntentFile(id) in after
  }

  /** The whole plan was executed since `t`: these are its items, and these requests and no others were sent. */
  ghost predicate Executed(dir: AuditDirectory, before: seq<Deletion>, remote: CacheRemote, t: CacheTrace, id: RecordId,
                           plan: CachePlan, items: seq<CacheItem>)
    reads dir, remote
  {
    var start := t + [CacheAccountRead(Ok(plan.account))];
    var b := RunCaches(remote.oracle, start, plan.targets);
    && items == b.items && remote.trace == b.trace && start <= b.trace
    && dir.deletes == before + DeletionsIn(id, b.trace[|start|..])
  }

  /** A new record says exactly what the execution under this intent reported. */
  ghost predicate RecordsExecution(before: Files, after: Files, id: RecordId, items: seq<CacheItem>) {
    exists r :: RecordFile(r) !in before && RecordFile(r) in after
                && after[RecordFile(r)] == RecordText(FinalRecord(id, items))
  }

  lemma WholeRest(d: CacheTrace, k: nat)
    requires k <= |d|
    ensures d[k..|d|] == d[k..]
  {
  }

  /** Executes the plan; the process may die with only part of the requests sent. */
  method ExecuteRecorded(dir: AuditDirectory, remote: CacheRemote, id: RecordId, plan: CachePlan, reviewed: CacheReview)
    returns (o: Outcome<seq<CacheItem>>)
    requires dir.Valid() && IntentFile(id) in dir.files
             && dir.files[IntentFile(id)] == IntentText(Intent(id, plan, reviewed))
    modifies dir`deletes, remote
    ensures dir.Valid() && old(dir.deletes) <= dir.deletes
    ensures forall k :: |old(dir.deletes)| <= k < |dir.deletes| ==> dir.deletes[k].intentId == id
    ensures o.Refused? ==> dir.deletes == old(dir.deletes)
    ensures o.Done? ==> Executed(dir, old(dir.deletes), remote, old(remote.trace), id, plan, o.value)
    ensures !CacheAuthorized(plan, reviewed, remote.oracle.account(old(remote.trace))) ==>
              o == Refused(NotExecuted) && dir.deletes == old(dir.deletes)
    ensures o.Refused? ==> !CacheAuthorized(plan, reviewed, remote.oracle.account(old(remote.trace)))
    ensures o.Done? ==> |o.value| == |plan.targets| && forall i :: 0 <= i < |plan.targets| ==>
            o.value[i].planned == plan.targets[i]
  {
    hide RunCaches, PlansCache, IntactCachePlan, CacheAuthorized, CacheRefused;
    ghost var start := remote.trace;
    var executed := ExecuteCachePlan(remote, plan, reviewed);
    if executed.Err? {
      return Refused(NotExecuted);
    }
    ghost var t := start + [CacheAccountRead(Ok(plan.account))];
    S.CachePrefix(remote.oracle, t, plan.targets, 0);
    var dies: bool := *;
    ghost var cut: nat := |remote.trace|;
    if dies {
      ghost var reached: nat := *;
      if |t| <= reached <= |remote.trace| {
        cut := reached;
      }
    }
    WholeRest(remote.trace, |t|);
    DeletionsArePlanned(remote.oracle, t, plan, id, cut);
    ghost var sent := DeletionsIn(id, remote.trace[|t|..cut]);
    MoreCovered(dir.files, dir.deletes, sent, id, plan, reviewed);
    dir.deletes := dir.deletes + sent;
    S.CachesReported(remote.oracle, t, plan.targets);
    o := if dies then Crashed else Done(executed.value);
  }

  /**
   * The flow: no intent, no request. Whatever fails or dies, the directory stays sound, no committed
   * file changes, and a run that got as far as its intent leaves it pending or completes it.
   */
  method Apply(dir: AuditDirectory, remote: CacheRemote, timestamp: int, later: int, pid: nat, plan: CachePlan,
               reviewed: CacheReview)
    returns (o: Outcome<RecordId>)
    requires dir.Valid()
    modifies dir, remote
    ensures dir.Valid() && Keeps(old(dir.files), dir.files)
    ensures UnderNewIntent(old(dir.files), dir.files, old(dir.deletes), dir.deletes)
    ensures forall id :: IntentFile(id) in old(dir.files) ==>
            (Completed(dir.files, id) <==> Completed(old(dir.files), id))
    ensures o.Done? ==>
            IntentFile(o.value) !in old(dir.files) && IntentFile(o.value) in dir.files
            && Completed(dir.files, o.value)
    ensures o.Done? ==>
              && dir.files[IntentFile(o.value)] == IntentText(Intent(o.value, plan, reviewed))
              && exists items: seq<CacheItem> ::
                   && Executed(dir, old(dir.deletes), remote, old(remote.trace), o.value, plan, items)
                   && RecordsExecution(old(dir.files), dir.files, o.value, items)
    ensures !CacheAuthorized(plan, reviewed, remote.oracle.account(old(remote.trace))) ==>
              !o.Done? && dir.deletes == old(dir.deletes)
    ensures o.Refused? ==> forall id :: IntentFile(id) in dir.files && IntentFile(id) !in old(dir.files) ==>
            !Completed(dir.files, id)
    ensures (forall id :: IntentFile(id) in dir.files ==> IntentFile(id) in old(dir.files)) ==>
            dir.deletes == old(dir.deletes)
  {
    hide Covered, PlansCache, CacheAuthorized, RunCaches;
    ghost var before := dir.files;
    var intent := dir.AppendIntent(timestamp, pid, plan, reviewed);
    NewIntentsIncomplete(before);
    match intent {
      case Crashed => return Crashed;
      case Refused(error) =>
        SameFinals(before, dir.files, dir.deletes);
        return Refused(error);
      case Done(id) =>
        assert NewIntent(before, dir.files, id);
        var executed := ExecuteRecorded(dir, remote, id, plan, reviewed);
        match executed {
          case Crashed => return Crashed;
          case Refused(error) => return Refused(error);
          case Done(items) =>
            o := dir.AppendRecord(later, pid, id, items);
            assert NewIntent(before, dir.files, id);
            if o.Done? {
              assert RecordFile(o.value) !in before;
              assert RecordsExecution(before, dir.files, id, items);
            }
            o := match o case Done(_) => Done(id) case Refused(e) => Refused(e) case Crashed => Crashed;
        }
    }
  }

  lemma NewIntentsIncomplete(before: Files)
    requires SoundFiles(before)
    ensures forall id :: IntentFile(id) !in before ==> !Completed(before, id)
  {
  }

  // --- reading it back -----------------------------------------------------------------------------------------------

  datatype AuditHistory = AuditHistory(records: seq<FinalRecord>, intents: seq<Intent>, issues: nat)

  /** The history lists exactly the committed files among `names`. */
  ghost predicate Reads(h: AuditHistory, files: Files, names: set<FileName>) {
    && (forall i :: i in h.intents <==>
       IntentFile(i.id) in names && IntentFile(i.id) in files && files[IntentFile(i.id)] == IntentText(i))
    && (forall r :: r in h.records <==>
       exists id :: RecordFile(id) in names && RecordFile(id) in files && files[RecordFile(id)] == RecordText(r))
  }

  /** `read_all`: temporary files are skipped by their extension. */
  method ReadAll(dir: AuditDirectory) returns (h: AuditHistory)
    ensures SoundFiles(dir.files) ==> Reads(h, dir.files, dir.files.Keys) && h.issues == 0
  {
    hide SoundFiles, Reads;
    if SoundFiles(dir.files) { NothingRead(dir.files); }
    h := AuditHistory([], [], 0);
    var left := dir.files.Keys;
    ghost var done: set<FileName> := {};
    while left != {}
      invariant left + done == dir.files.Keys && left !! done
      invariant SoundFiles(dir.files) ==> Reads(h, dir.files, done) && h.issues == 0
      decreases |left|
    {
      var name :| name in left;
      ghost var was := h;
      match name {
        case IntentFile(id) =>
          match dir.files[name] {
            case IntentText(intent) => h := h.(intents := h.intents + [intent]);
            case _ => h := h.(issues := h.issues + 1);
          }
        case RecordFile(id) =>
          match dir.files[name] {
            case RecordText(record) => h := h.(records := h.records + [record]);
            case _ => h := h.(issues := h.issues + 1);
          }
        case Temporary(_) =>
      }
      if SoundFiles(dir.files) {
        CommittedIsReadable(dir.files, name);
        ReadsOneMore(was, h, dir.files, done, name);
      }
      left := left - {name};
      done := done + {name};
    }
    assert done == dir.files.Keys;
  }

  lemma NothingRead(files: Files)
    ensures Reads(AuditHistory([], [], 0), files, {})
  {
  }

  /** No crash leaves a torn file under a committed name. */
  lemma CommittedIsReadable(files: Files, name: FileName)
    requires SoundFiles(files) && name in files
    ensures match name
            case IntentFile(_) => files[name].IntentText?
            case RecordFile(_) => files[name].RecordText?
            case Temporary(_) => true
  {
  }

  lemma ReadsOneMore(was: AuditHistory, h: AuditHistory, files: Files, done: set<FileName>, name: FileName)
    requires SoundFiles(files) && Reads(was, files, done) && name in files && name !in done
    requires match name
             case IntentFile(_) => files[name].IntentText? ==> h == was.(intents := was.intents + [files[name].intent])
             case RecordFile(_) => files[name].RecordText? ==> h == was.(records := was.records + [files[name].record])
             case Temporary(_) => h == was
    ensures Reads(h, files, done + {name})
  {
  }

  /** `pending_intents`: the intents no record mentions. */
  function PendingIntents(h: AuditHistory): seq<Intent> {
    Filter(h.intents, (i: Intent) => forall k :: 0 <= k < |h.records| ==> h.records[k].intentId != i.id)
  }

  /** After any sequence of runs and crashes, pending means: recorded, and its final record never committed. */
  lemma PendingMeaning(h: AuditHistory, files: Files, i: Intent)
    requires SoundFiles(files) && Reads(h, files, files.Keys)
    ensures i in PendingIntents(h) <==>
              IntentFile(i.id) in files && files[IntentFile(i.id)] == IntentText(i) && !Completed(files, i.id)
  {
    if Completed(files, i.id) {
      var r :| RecordFile(r) in files && files[RecordFile(r)].RecordText?
          && files[RecordFile(r)].record.intentId == i.id;
      assert files[RecordFile(r)] == RecordText(files[RecordFile(r)].record);
      assert files[RecordFile(r)].record in h.records;
    }
    if k :| 0 <= k < |h.records| && h.records[k].intentId == i.id {
      assert h.records[k] in h.records;
    }
  }
}

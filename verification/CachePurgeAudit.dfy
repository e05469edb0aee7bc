/**
 * The write-ahead audit of cache purges: `cache_purge_audit.rs` and the apply flow of `main.rs`.
 * A directory is a map from names to contents. Every primitive may fail, or the process may die
 * before or after it takes effect; what survives is what the next run reads.
 */
module CachePurgeAudits {
  import opened Prelude
  import opened Domain
  import opened AuditNames
  import opened CachePurges

  const MAX_NAME_ATTEMPTS: nat := 10000

  datatype Intent = Intent(id: RecordId, plan: CachePlan, reviewed: CacheReview)

  datatype FinalRecord = FinalRecord(intentId: RecordId, items: seq<CacheItem>)

  /** A file is torn until its last byte is synced. */
  datatype Contents = Torn | IntentText(intent: Intent) | RecordText(record: FinalRecord)

  type Files = map<FileName, Contents>

  datatype AuditError = DestinationExists | Io | NameExhausted | NotExecuted

  datatype Outcome<+T> = Done(value: T) | Refused(error: AuditError) | Crashed

  datatype Fate = Fine | Fails | DiesBefore | DiesAfter

  /** A DELETE sent to the provider while the flow held this intent. */
  datatype Deletion = Deletion(intentId: RecordId, repository: RepositoryRef, id: nat)

  // --- what the directory must always look like ---------------------------------------------------------

  ghost predicate PlansCache(plan: CachePlan, repository: RepositoryRef, id: nat) {
    exists c :: c in plan.targets && c.repository == repository && c.id == id
  }

  /** Complete intents under their own ids; complete records of recorded intents, at most one each. */
  ghost predicate SoundFiles(files: Files) {
    && (forall id :: IntentFile(id) in files ==>
       files[IntentFile(id)].IntentText? && files[IntentFile(id)].intent.id == id)
    && (forall id :: RecordFile(id) in files ==>
          files[RecordFile(id)].RecordText? && IntentFile(files[RecordFile(id)].record.intentId) in files)
    && (forall a, b :: RecordFile(a) in files && RecordFile(b) in files && a != b ==>
          files[RecordFile(a)].record.intentId != files[RecordFile(b)].record.intentId)
  }

  /** Every DELETE ever sent is covered by a durable intent whose plan names it. */
  ghost predicate Covered(files: Files, deletes: seq<Deletion>) {
    forall d :: d in deletes ==> IntentFile(d.intentId) in files && files[IntentFile(d.intentId)].IntentText?
                                 && PlansCache(files[IntentFile(d.intentId)].intent.plan, d.repository, d.id)
  }

  /** No committed file is ever removed or overwritten. */
  ghost predicate Keeps(before: Files, after: Files) {
    forall name :: name in before && name.IsFinal() ==> name in after && after[name] == before[name]
  }

  ghost predicate OnlyTemporary(before: Files, after: Files) {
    forall name: FileName :: name.IsFinal() ==>
        (name in after <==> name in before) && (name in before ==> after[name] == before[name])
  }

  ghost predicate Completed(files: Files, id: RecordId) {
    exists r :: RecordFile(r) in files && files[RecordFile(r)].RecordText? && files[RecordFile(r)].record.intentId == id
  }

  // --- the directory -----------------------------------------------------------------------------------------

  class AuditDirectory {
    var files: Files
    ghost var deletes: seq<Deletion>

    ghost predicate Valid()
      reads this
    {
      SoundFiles(files) && Covered(files, deletes)
    }

    constructor ()
      ensures Valid() && files == map[] && deletes == []
    {
      files := map[];
      deletes := [];
    }

    /** `create_new`: fails if the name is taken. */
    method CreateNew(name: FileName) returns (o: Outcome<()>)
      modifies this`files
      ensures o.Done? ==> name !in old(files) && files == old(files)[name := Torn]
      ensures o.Refused? ==>
              files == old(files) && (o.error == DestinationExists <==> name in old(files))
              && (o.error == DestinationExists || o.error == Io)
      ensures o.Crashed? ==> name !in old(files) && (files == old(files) || files == old(files)[name := Torn])
    {
      if name in files {
        return Refused(DestinationExists);
      }
      var fate: Fate := *;
      match fate {
        case Fine =>
          files := files[name := Torn];
          o := Done(());
        case Fails => o := Refused(Io);
        case DiesBefore => o := Crashed;
        case DiesAfter =>
          files := files[name := Torn];
          o := Crashed;
      }
    }

    /** `write_all` and `sync_all`. */
    method WriteAll(name: FileName, contents: Contents) returns (o: Outcome<()>)
      requires name in files
      modifies this`files
      ensures o.Done? ==> files == old(files)[name := contents]
      ensures o.Refused? ==> files == old(files)[name := Torn] && o.error == Io
      ensures o.Crashed? ==> files == old(files)[name := Torn] || files == old(files)[name := contents]
    {
      var fate: Fate := *;
      match fate {
        case Fine =>
          files := files[name := contents];
          o := Done(());
        case Fails =>
          files := files[name := Torn];
          o := Refused(Io);
        case DiesBefore =>
          files := files[name := Torn];
          o := Crashed;
        case DiesAfter =>
          files := files[name := contents];
          o := Crashed;
      }
    }

    /** `rename`: atomic, and it would replace an existing destination. */
    method Rename(name: FileName, destination: FileName) returns (o: Outcome<()>)
      requires name in files && name != destination
      modifies this`files
      ensures o.Done? ==> files == (old(files) - {name})[destination := old(files)[name]]
      ensures o.Refused? ==> files == old(files) && o.error == Io
      ensures o.Crashed? ==> files == old(files) || files == (old(files) - {name})[destination := old(files)[name]]
    {
      var fate: Fate := *;
      match fate {
        case Fine =>
          files := (files - {name})[destination := files[name]];
          o := Done(());
        case Fails => o := Refused(Io);
        case DiesBefore => o := Crashed;
        case DiesAfter =>
          files := (files - {name})[destination := files[name]];
          o := Crashed;
      }
    }

    /** `let _ = remove_file`: the result is ignored; `false` when the process died. */
    method Remove(name: FileName) returns (alive: bool)
      modifies this`files
      ensures files == old(files) || files == old(files) - {name}
    {
      var fate: Fate := *;
      match fate {
        case Fine =>
          files := files - {name};
          alive := true;
        case Fails => alive := true;
        case DiesBefore => alive := false;
        case DiesAfter =>
          files := files - {name};
          alive := false;
      }
    }

    /** `write_exact`: check, create a temporary file, write it, rename it into place. */
    method WriteExact(final: FileName, contents: Contents) returns (o: Outcome<()>)
      requires final.IsFinal()
      modifies this`files
      ensures o.Done? ==>
              final !in old(files) && Temporary(final) !in old(files)
              && files == old(files)[final := contents]
      ensures o.Refused? ==> OnlyTemporary(old(files), files) && (o.error == DestinationExists || o.error == Io)
      ensures o.Refused? && o.error == DestinationExists ==>
              files == old(files) && (final in old(files) || Temporary(final) in old(files))
      ensures o.Crashed? ==> OnlyTemporary(old(files), files)
                             || (final !in old(files) && OnlyTemporary(old(files)[final := contents], files))
    {
      if final in files {
        return Refused(DestinationExists);
      }
      var temporary := Temporary(final);
      ghost var before := files;
      o := CreateNew(temporary);
      if !o.Done? {
        return;
      }
      o := WriteAll(temporary, contents);
      if o.Crashed? {
        return;
      }
      if o.Refused? {
        var alive := Remove(temporary);
        return if alive then Refused(Io) else Crashed;
      }
      o := Rename(temporary, final);
      if o.Refused? {
        var alive := Remove(temporary);
        return if alive then Refused(Io) else Crashed;
      }
      assert (before[temporary := Torn][temporary := contents] - {temporary})[final := contents]
             == before[final := contents];
    }

    /** `append_intent`: tries names until one is free. */
    method AppendIntent(timestamp: int, pid: nat, plan: CachePlan, reviewed: CacheReview) returns (o: Outcome<RecordId>)
      requires Valid()
      modifies this`files
      ensures Valid() && Keeps(old(files), files)
      ensures o.Done? ==>
              IntentFile(o.value) !in old(files)
              && files == old(files)[IntentFile(o.value) := IntentText(Intent(o.value, plan, reviewed))]
      ensures o.Refused? ==> OnlyTemporary(old(files), files)
      ensures forall id :: Completed(files, id) <==> Completed(old(files), id)
      ensures o == Refused(NameExhausted) ==>
              files == old(files) && forall attempt: nat :: attempt < MAX_NAME_ATTEMPTS ==>
                var name := IntentFile(RecordId(timestamp, pid, attempt));
                    name in old(files)
                    || Temporary(name) in old(files)
    {
      for attempt := 0 to MAX_NAME_ATTEMPTS
        invariant files == old(files)
        invariant forall k: nat :: k < attempt ==>
                    var name := IntentFile(RecordId(timestamp, pid, k)); name in files || Temporary(name) in files
      {
        var id := RecordId(timestamp, pid, attempt);
        if IntentFile(id) !in files {
          var written := WriteExact(IntentFile(id), IntentText(Intent(id, plan, reviewed)));
          IntentKeepsSound(old(files), id, plan, reviewed);
          IntentKeepsCovered(old(files), id, plan, reviewed, deletes);
          IntentCompletesNothing(old(files), id, plan, reviewed);
          match written {
            case Done(_) => return Done(id);
            case Crashed =>
              SameFinals(old(files), files, deletes);
              SameFinals(old(files)[IntentFile(id) := IntentText(Intent(id, plan, reviewed))], files, deletes);
              return Crashed;
            case Refused(error) =>
              if error != DestinationExists {
                SameFinals(old(files), files, deletes);
                return Refused(error);
              }
          }
        }
      }
      o := Refused(NameExhausted);
    }

    /** `append_with_intent` and `write_unique_record`: the final record of an intent that has none yet. */
    method AppendRecord(timestamp: int, pid: nat, intentId: RecordId, items: seq<CacheItem>)
      returns (o: Outcome<RecordId>)
      requires Valid() && IntentFile(intentId) in files && !Completed(files, intentId)
      modifies this`files
      ensures Valid() && Keeps(old(files), files)
      ensures forall id :: id != intentId ==> (Completed(files, id) <==> Completed(old(files), id))
      ensures forall id :: IntentFile(id) in files <==> IntentFile(id) in old(files)
      ensures o.Done? ==>
              RecordFile(o.value) !in old(files)
              && files == old(files)[RecordFile(o.value) := RecordText(FinalRecord(intentId, items))]
      ensures o.Done? ==> Completed(files, intentId)
      ensures o.Refused? ==> !Completed(files, intentId)
    {
      ghost var before := files;
      ghost var record := FinalRecord(intentId, items);
      for attempt := 0 to MAX_NAME_ATTEMPTS
        invariant files == before
      {
        var id := RecordId(timestamp, pid, attempt);
        var written := WriteExact(RecordFile(id), RecordText(FinalRecord(intentId, items)));
        if RecordFile(id) !in before {
          RecordKeepsSound(before, id, record);
          RecordKeepsCovered(before, id, record, deletes);
          RecordCompletes(before, id, record);
        }
        match written {
          case Done(_) => return Done(id);
          case Crashed =>
            SameFinals(before, files, deletes);
            SameFinals(before[RecordFile(id) := RecordText(record)], files, deletes);
            return Crashed;
          case Refused(error) =>
            if error != DestinationExists {
              SameFinals(before, files, deletes);
              return Refused(error);
            }
        }
      }
      o := Refused(NameExhausted);
    }
  }

  // --- the steps one by one -----------------------------------------------------------------------------------

  lemma IntentKeepsSound(files: Files, id: RecordId, plan: CachePlan, reviewed: CacheReview)
    requires SoundFiles(files) && IntentFile(id) !in files
    ensures SoundFiles(files[IntentFile(id) := IntentText(Intent(id, plan, reviewed))])
  {
  }

  lemma IntentKeepsCovered(files: Files, id: RecordId, plan: CachePlan, reviewed: CacheReview, deletes: seq<Deletion>)
    requires Covered(files, deletes) && IntentFile(id) !in files
    ensures Covered(files[IntentFile(id) := IntentText(Intent(id, plan, reviewed))], deletes)
  {
  }

  lemma IntentCompletesNothing(files: Files, id: RecordId, plan: CachePlan, reviewed: CacheReview)
    ensures forall i :: Completed(files[IntentFile(id) := IntentText(Intent(id, plan, reviewed))], i) <==>
            Completed(files, i)
  {
  }

  lemma RecordKeepsSound(files: Files, id: RecordId, record: FinalRecord)
    requires SoundFiles(files) && RecordFile(id) !in files
    requires IntentFile(record.intentId) in files && !Completed(files, record.intentId)
    ensures SoundFiles(files[RecordFile(id) := RecordText(record)])
  {
  }

  lemma RecordKeepsCovered(files: Files, id: RecordId, record: FinalRecord, deletes: seq<Deletion>)
    requires Covered(files, deletes) && RecordFile(id) !in files
    ensures Covered(files[RecordFile(id) := RecordText(record)], deletes)
  {
  }

  lemma RecordCompletes(files: Files, id: RecordId, record: FinalRecord)
    requires RecordFile(id) !in files
    ensures var after := files[RecordFile(id) := RecordText(record)];
            && Completed(after, record.intentId)
            && forall i :: i != record.intentId ==> (Completed(after, i) <==> Completed(files, i))
  {
  }

  /** Nothing about the audit depends on temporary files, torn or not. */
  lemma SameFinals(before: Files, after: Files, deletes: seq<Deletion>)
    ensures OnlyTemporary(before, after) ==>
              && (SoundFiles(before) ==> SoundFiles(after)) && (Covered(before, deletes) ==> Covered(after, deletes))
              && Keeps(before, after) && (forall id :: Completed(after, id) <==> Completed(before, id))
              && (forall id :: IntentFile(id) in after <==> IntentFile(id) in before)
  {
  }
}

/**
  The external-import panel's upload coordinator: per-slot file selection,
  the per-file chunk-error retry policy, progress bookkeeping, the commit
  gate and the cancel reset. Each event handler of the panel is a method;
  timers and requests it would start are returned to the caller.
*/
module UploadPanel {
  import opened Optional
  import opened Assets
  import opened Progress
  import opened CommitPolicy

  const SelectAtLeastOneFile := "Select at least one file to upload."
  const TexturedModelNeedsPointCloud := "A textured model requires also a point cloud to be properly displayed."
  const UploadRetriesExhausted := "Upload failed after multiple retries. Please check your connection and try again."
  const InitFailedMessage := "Failed to initialize upload. Try again later."

  /** The dropzone statuses a selected file goes through. */
  datatype FileStatus = Queued | Uploading | Errored | Succeeded

  /**
    One file held by a slot's dropzone. `id` stands for the file object's
    identity; `retryCount` is the counter the error handler keeps on it.
  */
  datatype FileRecord = FileRecord(id: nat, name: string, size: nat, status: FileStatus, retryCount: nat)

  /** The validation done before an upload starts: None when it may start, else the message. */
  function CheckSelection(keys: set<Slot>): (r: Option<string>)
    ensures r.None? <==> keys != {} && (TexturedModel in keys ==> PointCloud in keys)
    ensures keys == {} ==> r == Some(SelectAtLeastOneFile)
    ensures keys != {} && TexturedModel in keys && PointCloud !in keys ==> r == Some(TexturedModelNeedsPointCloud)
  {
    if keys == {} then Some(SelectAtLeastOneFile)
    else if TexturedModel in keys && PointCloud !in keys then Some(TexturedModelNeedsPointCloud)
    else None
  }

  /** The slot's files after the retry timer re-queued the file `id` (no change if it is no longer there). */
  function Requeued(q: seq<FileRecord>, id: nat): (r: seq<FileRecord>)
  {
    seq(|q|, i requires 0 <= i < |q| => if q[i].id == id then q[i].(status := Queued) else q[i])
  }

  /** The slot's files after the dropzone processes its queue: queued files start uploading. */
  function Processed(q: seq<FileRecord>): (r: seq<FileRecord>)
  {
    seq(|q|, i requires 0 <= i < |q| => if q[i].status == Queued then q[i].(status := Uploading) else q[i])
  }

  /** The dropzones after those of the slots `ks` processed their queues. */
  function Started(dropzones: map<Slot, seq<FileRecord>>, ks: set<Slot>): map<Slot, seq<FileRecord>>
  {
    map s | s in dropzones :: if s in ks then Processed(dropzones[s]) else dropzones[s]
  }

  class ImportExternalPanel {
    // component state
    var error: string
    var uploading: bool
    var progress: real
    var totalBytes: nat
    var totalBytesSent: nat
    var files: map<Slot, string>
    // one dropzone per slot, abstracted as the list of files it holds
    var dropzones: map<Slot, seq<FileRecord>>
    var uploadUuid: Option<string>
    var fileProgress: map<Slot, FileProgress>
    // identity of the next file object to be selected
    var nextFileId: nat

    /**
      The slot has a dropzone holding at most one file; it has an entry in
      `files` exactly when its dropzone holds a file, and the entry is that
      file's name. A held file's identity was handed out before.
    */
    static ghost predicate SlotConsistent(files: map<Slot, string>, dropzones: map<Slot, seq<FileRecord>>, nextFileId: nat, s: Slot)
    {
      && s in dropzones
      && |dropzones[s]| <= 1
      && (s in files <==> dropzones[s] != [])
      && (dropzones[s] != [] ==> files[s] == dropzones[s][0].name && dropzones[s][0].id < nextFileId)
    }

    static ghost predicate Consistent(files: map<Slot, string>, dropzones: map<Slot, seq<FileRecord>>, nextFileId: nat)
    {
      && (forall s: Slot :: s in dropzones)
      && (forall s: Slot :: SlotConsistent(files, dropzones, nextFileId, s))
    }

    /**
      Replacing one slot's file list by `q` (at most one file, with an identity
      already handed out) keeps the panel consistent once that slot's entry in
      `files` follows `q`.
    */
    static lemma SlotUpdate(files: map<Slot, string>, dropzones: map<Slot, seq<FileRecord>>, nextFileId: nat,
                            slot: Slot, q: seq<FileRecord>,
                            files': map<Slot, string>, dropzones': map<Slot, seq<FileRecord>>, nextFileId': nat)
      requires Consistent(files, dropzones, nextFileId)
      requires nextFileId <= nextFileId' && |q| <= 1 && (q != [] ==> q[0].id < nextFileId')
      requires dropzones' == dropzones[slot := q]
      requires files' == if q == [] then files - {slot} else files[slot := q[0].name]
      ensures Consistent(files', dropzones', nextFileId')
    {
      forall s: Slot
        ensures SlotConsistent(files', dropzones', nextFileId', s)
      {
        assert SlotConsistent(files, dropzones, nextFileId, s);
      }
    }

    ghost predicate Valid()
      reads this
    {
      Consistent(files, dropzones, nextFileId)
    }

    /** The aggregate fields agree with the per-slot progress entries. */
    ghost predicate TotalsCurrent()
      reads this
    {
      && totalBytes == TotalBytes(fileProgress)
      && totalBytesSent == TotalSent(fileProgress)
      && progress == Percent(totalBytesSent, totalBytes)
    }

    /** The state the cancel reset leaves: no session and no selected file. */
    ghost predicate CancelResetDone()
      reads this
    {
      && !uploading
      && progress == 0.0
      && files == map[]
      && (forall s | s in dropzones :: dropzones[s] == [])
      && fileProgress == map[]
      && uploadUuid == None
    }

    /** Whether every slot that has a selection holds a file that finished uploading. */
    predicate SlotComplete(s: Slot)
      reads this
    {
      s in dropzones && dropzones[s] != [] && dropzones[s][0].status == Succeeded
    }

    ghost predicate AllUploadsComplete()
      reads this
    {
      forall s | s in files :: SlotComplete(s)
    }

    twostate predicate SelectionUnchanged()
      reads this
    {
      files == old(files) && dropzones == old(dropzones) && nextFileId == old(nextFileId)
    }

    twostate predicate FlagsUnchanged()
      reads this
    {
      error == old(error) && uploading == old(uploading) && uploadUuid == old(uploadUuid)
    }

    twostate predicate ProgressUnchanged()
      reads this
    {
      && progress == old(progress)
      && totalBytes == old(totalBytes)
      && totalBytesSent == old(totalBytesSent)
      && fileProgress == old(fileProgress)
    }

    /** The panel as mounted: one empty dropzone per slot, no session. */
    constructor ()
      ensures Valid()
      ensures error == "" && !uploading && progress == 0.0
      ensures totalBytes == 0 && totalBytesSent == 0
      ensures files == map[] && fileProgress == map[] && uploadUuid == None
      ensures forall s | s in dropzones :: dropzones[s] == []
    {
      error := "";
      uploading := false;
      progress := 0.0;
      totalBytes := 0;
      totalBytesSent := 0;
      files := map[];
      dropzones := map s | s in AssetTypes :: [];
      uploadUuid := None;
      fileProgress := map[];
      nextFileId := 0;
      new;
      AssetTypesEnumerateSlots();
    }

    /** The "removedfile" handler: forget the slot's entry in `files`. */
    method OnRemovedFile(slot: Slot)
      modifies this`files
      ensures files == old(files) - {slot}
    {
      files := files - {slot};
    }

    /**
      The "addedfile" handler, after the dropzone has appended the new file:
      an older file in the slot is removed (which fires "removedfile") and the
      slot's entry becomes the new file's name.
    */
    method AddedFile(slot: Slot, name: string, size: nat) returns (id: nat)
      requires Valid()
      modifies this
      ensures Valid()
      ensures id == old(nextFileId) && nextFileId == id + 1
      ensures dropzones == old(dropzones)[slot := [FileRecord(id, name, size, Queued, 0)]]
      ensures files == old(files)[slot := name]
      ensures FlagsUnchanged() && ProgressUnchanged()
    {
      assert SlotConsistent(files, dropzones, nextFileId, slot);
      id := nextFileId;
      nextFileId := nextFileId + 1;
      var added := FileRecord(id, name, size, Queued, 0);
      dropzones := dropzones[slot := dropzones[slot] + [added]];
      if |dropzones[slot]| > 1 {
        dropzones := dropzones[slot := dropzones[slot][1..]];
        OnRemovedFile(slot);
      }
      assert dropzones[slot] == [added];
      files := files[slot := name];
      SlotUpdate(old(files), old(dropzones), old(nextFileId), slot, [added], files, dropzones, nextFileId);
    }

    /** The remove button of a slot: the dropzone drops all its files, each firing "removedfile". */
    method RemoveFile(slot: Slot)
      requires Valid()
      modifies this
      ensures Valid()
      ensures dropzones == old(dropzones)[slot := []]
      ensures files == old(files) - {slot}
      ensures nextFileId == old(nextFileId)
      ensures FlagsUnchanged() && ProgressUnchanged()
    {
      assert SlotConsistent(files, dropzones, nextFileId, slot);
      if dropzones[slot] != [] {
        SlotUpdate(files, dropzones, nextFileId, slot, [], files - {slot}, dropzones[slot := []], nextFileId);
        dropzones := dropzones[slot := []];
        OnRemovedFile(slot);
      }
    }

    /** Recompute the aggregate totals and the percentage from the per-slot entries. */
    method UpdateTotalProgress()
      modifies this`progress, this`totalBytes, this`totalBytesSent
      ensures TotalsCurrent()
    {
      var bytes, sent := 0, 0;
      var i := 0;
      while i < |AssetTypes|
        invariant 0 <= i <= |AssetTypes|
        invariant bytes == TotalOver(fileProgress, AssetTypes[..i])
        invariant sent == SentOver(fileProgress, AssetTypes[..i])
      {
        var s := AssetTypes[i];
        assert AssetTypes[..i + 1][..i] == AssetTypes[..i];
        if s in fileProgress {
          bytes := bytes + fileProgress[s].total;
          sent := sent + fileProgress[s].sent;
        }
        i := i + 1;
      }
      assert AssetTypes[..i] == AssetTypes;
      totalBytes, totalBytesSent := bytes, sent;
      progress := Percent(sent, bytes);
    }

    /**
      The "uploadprogress" handler for the slot's file: a report of exactly
      100% is ignored; any other records the bytes sent against the file's
      size and refreshes the totals.
    */
    method UploadProgress(slot: Slot, percent: real, bytesSent: nat)
      requires Valid() && dropzones[slot] != []
      modifies this
      ensures Valid() && SelectionUnchanged() && FlagsUnchanged()
      ensures percent == 100.0 ==> ProgressUnchanged()
      ensures percent != 100.0 ==>
        && fileProgress == old(fileProgress)[slot := FileProgress(bytesSent, dropzones[slot][0].size)]
        && TotalsCurrent()
      ensures percent != 100.0 && old(TotalsCurrent()) && slot in old(fileProgress)
              && old(fileProgress[slot]).total == dropzones[slot][0].size
              && old(fileProgress[slot]).sent <= bytesSent
              ==> old(progress) <= progress
    {
      if percent == 100.0 {
        return;
      }
      var entry := FileProgress(bytesSent, dropzones[slot][0].size);
      if slot in fileProgress && fileProgress[slot].total == entry.total && fileProgress[slot].sent <= bytesSent {
        ProgressMonotone(fileProgress, slot, entry);
      }
      fileProgress := fileProgress[slot := entry];
      UpdateTotalProgress();
    }

    /** Whether the commit may be issued: every slot with a selection holds a finished file. */
    method CheckAllUploadsComplete() returns (allComplete: bool)
      ensures allComplete == AllUploadsComplete()
    {
      allComplete := true;
      var i := 0;
      while i < |AssetTypes| && allComplete
        invariant 0 <= i <= |AssetTypes|
        invariant allComplete <==> forall j | 0 <= j < i && AssetTypes[j] in files :: SlotComplete(AssetTypes[j])
      {
        var s := AssetTypes[i];
        if s in files {
          allComplete := SlotComplete(s);
        }
        i := i + 1;
      }
      AssetTypesEnumerateSlots();
      if allComplete {
        forall s | s in files
          ensures SlotComplete(s)
        {
          assert s in AssetTypes;
          var j :| 0 <= j < |AssetTypes| && AssetTypes[j] == s;
        }
      }
    }

    /**
      The "success" handler for the slot's file (the dropzone has marked it
      succeeded): its entry becomes fully sent, the totals are refreshed, and
      the commit is issued when every selected slot has finished.
    */
    method Success(slot: Slot) returns (commitIssued: bool)
      requires Valid() && dropzones[slot] != []
      modifies this
      ensures Valid() && FlagsUnchanged()
      ensures files == old(files) && nextFileId == old(nextFileId)
      ensures dropzones == old(dropzones)[slot := [old(dropzones[slot][0]).(status := Succeeded)]]
      ensures fileProgress == old(fileProgress)[slot := FileProgress(old(dropzones[slot][0].size), old(dropzones[slot][0].size))]
      ensures TotalsCurrent()
      ensures old(TotalsCurrent()) && slot in old(fileProgress)
              && old(fileProgress[slot]).total == old(dropzones[slot][0].size)
              && old(fileProgress[slot]).sent <= old(fileProgress[slot]).total
              ==> old(progress) <= progress
      ensures commitIssued == AllUploadsComplete()
    {
      assert SlotConsistent(files, dropzones, nextFileId, slot);
      var f := dropzones[slot][0];
      if slot in fileProgress && fileProgress[slot].total == f.size && fileProgress[slot].sent <= f.size {
        ProgressMonotone(fileProgress, slot, FileProgress(f.size, f.size));
      }
      assert files[slot := f.name] == files;
      SlotUpdate(files, dropzones, nextFileId, slot, [f.(status := Succeeded)], files, dropzones[slot := [f.(status := Succeeded)]], nextFileId);
      dropzones := dropzones[slot := [f.(status := Succeeded)]];
      fileProgress := fileProgress[slot := FileProgress(f.size, f.size)];
      UpdateTotalProgress();
      commitIssued := CheckAllUploadsComplete();
    }

    /**
      The cancel reset: stop uploading, empty every dropzone (each removal
      fires "removedfile"), forget the progress entries and the session token.
    */
    method CancelUpload()
      requires Valid()
      modifies this
      ensures Valid() && CancelResetDone()
      ensures error == old(error) && nextFileId == old(nextFileId)
      ensures totalBytes == old(totalBytes) && totalBytesSent == old(totalBytesSent)
    {
      uploading, progress := false, 0.0;
      var i := 0;
      while i < |AssetTypes|
        invariant 0 <= i <= |AssetTypes|
        invariant Valid()
        invariant forall j | 0 <= j < i :: dropzones[AssetTypes[j]] == []
        invariant !uploading && progress == 0.0 && error == old(error) && nextFileId == old(nextFileId)
        invariant totalBytes == old(totalBytes) && totalBytesSent == old(totalBytesSent)
      {
        RemoveFile(AssetTypes[i]);
        i := i + 1;
      }
      fileProgress := map[];
      uploadUuid := None;
      AssetTypesEnumerateSlots();
      forall s | s in dropzones
        ensures dropzones[s] == [] && s !in files
      {
        assert s in AssetTypes;
        var j :| 0 <= j < |AssetTypes| && AssetTypes[j] == s;
        assert SlotConsistent(files, dropzones, nextFileId, s);
      }
    }

    /**
      The "error" handler for the slot's file (the dropzone has marked it
      failed): its counter goes up by one; below 10 a retry is scheduled after
      2000 ms times the counter, at 10 the session fails and is reset.
    */
    method ChunkError(slot: Slot) returns (retryDelay: Option<nat>)
      requires Valid() && dropzones[slot] != []
      modifies this
      ensures Valid() && nextFileId == old(nextFileId)
      ensures
        var f := old(dropzones[slot][0]);
        var count := f.retryCount + 1;
        if count < 10 then
          && retryDelay == Some(2000 * count)
          && dropzones == old(dropzones)[slot := [f.(status := Errored, retryCount := count)]]
          && files == old(files)
          && FlagsUnchanged() && ProgressUnchanged()
        else
          && retryDelay == None
          && error == UploadRetriesExhausted
          && CancelResetDone()
          && totalBytes == old(totalBytes) && totalBytesSent == old(totalBytesSent)
    {
      assert SlotConsistent(files, dropzones, nextFileId, slot);
      var f := dropzones[slot][0];
      f := f.(status := Errored, retryCount := f.retryCount + 1);
      assert files[slot := f.name] == files;
      SlotUpdate(files, dropzones, nextFileId, slot, [f], files, dropzones[slot := [f]], nextFileId);
      dropzones := dropzones[slot := [f]];
      if f.retryCount < 10 {
        retryDelay := Some(2000 * f.retryCount);
      } else {
        error := UploadRetriesExhausted;
        uploading := false;
        CancelUpload();
        retryDelay := None;
      }
    }

    /**
      A chunk-retry timer armed for file `fileId` of `slot` fires: that file,
      if the slot still holds it, is queued again, and the dropzone processes
      its queue.
    */
    method RetryDue(slot: Slot, fileId: nat)
      requires Valid()
      modifies this
      ensures Valid() && FlagsUnchanged() && ProgressUnchanged()
      ensures files == old(files) && nextFileId == old(nextFileId)
      ensures dropzones == old(dropzones)[slot := Processed(Requeued(old(dropzones[slot]), fileId))]
    {
      assert SlotConsistent(files, dropzones, nextFileId, slot);
      var q := Processed(Requeued(dropzones[slot], fileId));
      assert q != [] ==> q[0].name == dropzones[slot][0].name && q[0].id == dropzones[slot][0].id;
      assert q != [] ==> files[slot := q[0].name] == files;
      assert q == [] ==> files - {slot} == files;
      SlotUpdate(files, dropzones, nextFileId, slot, q, files, dropzones[slot := q], nextFileId);
      dropzones := dropzones[slot := q];
    }

    /**
      The upload button. Rejected, with only the error message set, when no
      slot has a file or a textured model comes without a point cloud.
      Otherwise the session starts: the error is cleared, one progress entry
      with nothing sent is made per selected slot, and the session token is
      requested. `keys` are the selected slots, whose dropzones start once
      the token arrives.
    */
    method StartUpload() returns (initRequested: bool, keys: set<Slot>)
      requires Valid()
      modifies this
      ensures Valid() && SelectionUnchanged()
      ensures keys == old(files).Keys
      ensures initRequested <==> CheckSelection(keys).None?
      ensures !initRequested ==>
        && error == CheckSelection(keys).value
        && uploading == old(uploading) && uploadUuid == old(uploadUuid)
        && ProgressUnchanged()
      ensures initRequested ==>
        && error == "" && uploading && uploadUuid == old(uploadUuid)
        && fileProgress == (map s | s in keys && s in dropzones && dropzones[s] != [] :: FileProgress(0, dropzones[s][0].size))
        && TotalsCurrent() && totalBytesSent == 0 && progress == 0.0
    {
      keys := files.Keys;
      var rejection := CheckSelection(keys);
      if rejection.Some? {
        error := rejection.value;
        initRequested := false;
        return;
      }
      error, uploading, progress := "", true, 0.0;
      fileProgress := map[];
      var i := 0;
      while i < |AssetTypes|
        invariant 0 <= i <= |AssetTypes|
        invariant Valid() && SelectionUnchanged()
        invariant error == "" && uploading && uploadUuid == old(uploadUuid)
        invariant forall s :: s in fileProgress <==> s in AssetTypes[..i] && s in keys && dropzones[s] != []
        invariant forall s | s in fileProgress :: fileProgress[s] == FileProgress(0, dropzones[s][0].size)
      {
        var s := AssetTypes[i];
        assert AssetTypes[..i + 1] == AssetTypes[..i] + [s];
        if s in keys && dropzones[s] != [] {
          fileProgress := fileProgress[s := FileProgress(0, dropzones[s][0].size)];
        }
        i := i + 1;
      }
      assert AssetTypes[..i] == AssetTypes;
      AssetTypesEnumerateSlots();
      UpdateTotalProgress();
      NothingSentYet(fileProgress);
      initRequested := true;
    }

    /** The session token arrived: remember it and start the dropzones of the slots selected at start. */
    method InitSucceeded(uuid: string, keys: set<Slot>)
      requires Valid()
      modifies this
      ensures Valid() && ProgressUnchanged()
      ensures error == old(error) && uploading == old(uploading)
      ensures uploadUuid == Some(uuid)
      ensures files == old(files) && nextFileId == old(nextFileId)
      ensures dropzones == Started(old(dropzones), keys)
    {
      uploadUuid := Some(uuid);
      var i := 0;
      ghost var done: set<Slot> := {};
      while i < |AssetTypes|
        invariant 0 <= i <= |AssetTypes|
        invariant done == set j | 0 <= j < i :: AssetTypes[j]
        invariant dropzones == Started(old(dropzones), keys * done)
        invariant files == old(files) && nextFileId == old(nextFileId)
        invariant error == old(error) && uploading == old(uploading) && uploadUuid == Some(uuid)
        invariant ProgressUnchanged()
      {
        var s := AssetTypes[i];
        if s in keys {
          dropzones := dropzones[s := Processed(dropzones[s])];
        }
        done := done + {s};
        i := i + 1;
      }
      AssetTypesEnumerateSlots();
      assert keys * done == keys by {
        forall s | s in keys
          ensures s in done
        {
          assert s in AssetTypes;
          var j :| 0 <= j < |AssetTypes| && AssetTypes[j] == s;
        }
      }
      StartedKeepsConsistent(old(files), old(dropzones), old(nextFileId), keys);
    }

    static lemma StartedKeepsConsistent(files: map<Slot, string>, dropzones: map<Slot, seq<FileRecord>>, nextFileId: nat, ks: set<Slot>)
      requires Consistent(files, dropzones, nextFileId)
      ensures Consistent(files, Started(dropzones, ks), nextFileId)
    {
      var started := Started(dropzones, ks);
      forall s: Slot
        ensures SlotConsistent(files, started, nextFileId, s)
      {
        assert SlotConsistent(files, dropzones, nextFileId, s);
      }
    }

    /** The session token request failed. */
    method InitFailed()
      modifies this`error, this`uploading
      ensures error == InitFailedMessage && !uploading
    {
      error := InitFailedMessage;
      uploading := false;
    }

    /** The commit request succeeded. */
    method CommitSucceeded()
      modifies this`uploading, this`progress
      ensures !uploading && progress == 100.0
    {
      uploading, progress := false, 100.0;
    }

    /**
      The commit request numbered `retryCount` failed: a server validation
      error is shown and ends the session, other failures are retried until
      the 10th retry, then a generic error ends it.
    */
    method CommitFailed(status: int, body: ErrorBody, retryCount: nat) returns (action: CommitAction)
      modifies this`error, this`uploading
      ensures action == OnCommitFailure(status, body, retryCount)
      ensures action.Rejected? ==> error == action.message && !uploading
      ensures action.RetryLater? ==> error == old(error) && uploading == old(uploading)
      ensures action.GiveUp? ==> error == CommitRetriesExhausted && !uploading
    {
      action := OnCommitFailure(status, body, retryCount);
      match action
      case Rejected(message) =>
        error, uploading := message, false;
      case RetryLater(_, _) =>
      case GiveUp =>
        error, uploading := CommitRetriesExhausted, false;
    }
  }

}

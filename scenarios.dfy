/**
  Sequences of panel events and what the panel's contracts guarantee about
  them: retried transfers, the fatal tenth error, rejected selections, a
  rejected commit, and what timers and responses that outlive a cancel do.
*/
module Scenarios {
  import opened Optional
  import opened Assets
  import opened Progress
  import opened CommitPolicy
  import opened UploadPanel

  /**
    A point cloud whose transfer fails `errors` times (at most 9) and then
    succeeds: each failure schedules a retry 2000 ms times its number later,
    and the success issues the commit with the progress at 100%.
  */
  method RetriedUploadCommits(errors: nat) returns (delays: seq<nat>, commitIssued: bool, progress: real)
    requires errors <= 9
    ensures |delays| == errors && forall k | 0 <= k < errors :: delays[k] == 2000 * (k + 1)
    ensures commitIssued && progress == 100.0
  {
    var p := new ImportExternalPanel();
    var id := p.AddedFile(PointCloud, "cloud.laz", 1000);
    var initRequested, keys := p.StartUpload();
    assert keys == {PointCloud};
    assert p.fileProgress == map[PointCloud := FileProgress(0, 1000)];
    p.InitSucceeded("session", keys);
    assert p.dropzones[PointCloud] == Processed([FileRecord(id, "cloud.laz", 1000, Queued, 0)]);
    delays := [];
    var i := 0;
    while i < errors
      invariant 0 <= i <= errors
      invariant p.Valid()
      invariant p.files == map[PointCloud := "cloud.laz"]
      invariant p.fileProgress == map[PointCloud := FileProgress(0, 1000)]
      invariant p.dropzones[PointCloud] == [FileRecord(id, "cloud.laz", 1000, Uploading, i)]
      invariant |delays| == i && forall k | 0 <= k < i :: delays[k] == 2000 * (k + 1)
    {
      var d := p.ChunkError(PointCloud);
      delays := delays + [d.value];
      p.RetryDue(PointCloud, id);
      i := i + 1;
    }
    commitIssued := p.Success(PointCloud);
    var finished := map[PointCloud := FileProgress(1000, 1000)];
    assert p.fileProgress == finished == map[][PointCloud := FileProgress(1000, 1000)];
    EverythingSent(finished);
    SumsAfterUpdate(map[], PointCloud, FileProgress(1000, 1000));
    assert TotalBytes(finished) >= 1000;
    progress := p.progress;
  }

  /**
    With an orthophoto and a point cloud selected, ten transfer errors on the
    point cloud: the first nine schedule retries, the tenth schedules none,
    shows the failure message, ends the session and empties every slot,
    the orthophoto's included.
  */
  method TenthErrorAbortsSession() returns (delays: seq<nat>, last: Option<nat>, error: string,
                                            selection: map<Slot, string>, orthophotoFiles: seq<FileRecord>, uploading: bool)
    ensures |delays| == 9 && forall k | 0 <= k < 9 :: delays[k] == 2000 * (k + 1)
    ensures last == None && error == UploadRetriesExhausted
    ensures selection == map[] && orthophotoFiles == [] && !uploading
  {
    var p := new ImportExternalPanel();
    var ortho := p.AddedFile(Orthophoto, "ortho.tif", 500);
    var id := p.AddedFile(PointCloud, "cloud.laz", 1000);
    var initRequested, keys := p.StartUpload();
    assert keys == {Orthophoto, PointCloud};
    p.InitSucceeded("session", keys);
    assert p.dropzones[PointCloud] == Processed([FileRecord(id, "cloud.laz", 1000, Queued, 0)]);
    delays := [];
    var i := 0;
    while i < 9
      invariant 0 <= i <= 9
      invariant p.Valid()
      invariant p.dropzones[PointCloud] == [FileRecord(id, "cloud.laz", 1000, Uploading, i)]
      invariant |delays| == i && forall k | 0 <= k < i :: delays[k] == 2000 * (k + 1)
    {
      var d := p.ChunkError(PointCloud);
      delays := delays + [d.value];
      p.RetryDue(PointCloud, id);
      i := i + 1;
    }
    last := p.ChunkError(PointCloud);
    error, selection, orthophotoFiles, uploading := p.error, p.files, p.dropzones[Orthophoto], p.uploading;
  }

  /** A textured model selected alone: the upload is refused with the point-cloud message and no token is requested. */
  method TexturedModelAloneIsRefused() returns (initRequested: bool, error: string, uploading: bool)
    ensures !initRequested && error == TexturedModelNeedsPointCloud && !uploading
  {
    var p := new ImportExternalPanel();
    var id := p.AddedFile(TexturedModel, "model.glb", 2000);
    var keys;
    initRequested, keys := p.StartUpload();
    assert keys == {TexturedModel};
    error, uploading := p.error, p.uploading;
  }

  /** A commit answered by a 400 listing one message: that message is shown verbatim and nothing is retried. */
  method CommitValidationErrorShown(retryCount: nat) returns (action: CommitAction, error: string, uploading: bool)
    ensures action == Rejected("Name field is required")
    ensures error == "Name field is required" && !uploading
  {
    var p := new ImportExternalPanel();
    action := p.CommitFailed(400, JsonArray(["Name field is required"]), retryCount);
    error, uploading := p.error, p.uploading;
  }

  /**
    A retry timer armed before a cancel fires after the user has selected a
    new point cloud: the new file is set uploading although the panel holds
    no session token. Cancelling does not disarm the timer.
  */
  method RetryTimerOutlivesCancel() returns (uuid: Option<string>, uploading: bool, newFileStatus: FileStatus)
    ensures uuid == None && !uploading && newFileStatus == Uploading
  {
    var p := new ImportExternalPanel();
    var first := p.AddedFile(PointCloud, "cloud.laz", 1000);
    var initRequested, keys := p.StartUpload();
    p.InitSucceeded("session", keys);
    var delay := p.ChunkError(PointCloud);
    p.CancelUpload();
    var second := p.AddedFile(PointCloud, "other.laz", 3000);
    p.RetryDue(PointCloud, first);
    uuid, uploading, newFileStatus := p.uploadUuid, p.uploading, p.dropzones[PointCloud][0].status;
  }

  /**
    The token request answered after a cancel: the panel stores the token
    although it is no longer uploading.
  */
  method InitAnsweredAfterCancel() returns (uuid: Option<string>, uploading: bool)
    ensures uuid == Some("session") && !uploading
  {
    var p := new ImportExternalPanel();
    var id := p.AddedFile(Orthophoto, "ortho.tif", 500);
    var initRequested, keys := p.StartUpload();
    p.CancelUpload();
    p.InitSucceeded("session", keys);
    uuid, uploading := p.uploadUuid, p.uploading;
  }

}

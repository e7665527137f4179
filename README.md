# External-import upload coordinator

A Dafny model of the upload coordinator inside WebODM's `ImportExternalPanel`
React component. The panel lets a user attach already-processed assets to a
new task and upload them in chunks. It offers five asset slots: orthophoto,
surface model (dsm), terrain model (dtm), point cloud and textured model.
Each slot is served by its own Dropzone instance and holds at most one file.

Once React, Dropzone and jQuery are stripped away, the panel is a small
sequential state machine:

- **Selection.** Selecting a file replaces the slot's previous file. Removing
  a file clears only that slot.
- **Start.** Starting checks the selection. It refuses when nothing is
  selected, and when a textured model comes without a point cloud. Otherwise
  it resets the per-slot progress entries and requests a session token.
- **Progress.** Per-slot `(sent, total)` byte counts are summed into an
  overall percentage. The sum is guarded against a zero total. Per-file
  reports of exactly 100% are ignored.
- **Chunk errors.** Each file carries an error counter. The first nine errors
  schedule a retry after `2000 × count` ms. The tenth error fails the session
  and runs the cancel reset.
- **Commit gate.** The commit is issued after a file succeeds, when every
  selected slot holds a file in success status.
- **Commit failures.** A 400 response whose body is a non-empty JSON array is
  terminal, and its messages are shown joined with ", ". Any other failure is
  retried while `retryCount < 10`, so up to 11 commit requests are made.
  After that a generic error is shown.
- **Cancel.** Cancelling stops uploading, empties every slot, forgets the
  progress entries and drops the session token.

Layout, one module per file:

- `optional.dfy` (`Optional`): the `Option` type.
- `assets.dfy` (`Assets`): the slot set, in the order of `ASSET_TYPES`.
- `progress.dfy` (`Progress`): the per-slot progress entries, their sums, the
  percentage, and the lemmas about them.
- `commit_policy.dfy` (`CommitPolicy`):
  - the classification of a failed commit;
  - `Join`, which builds the shown message;
  - `RunCommit`, the chain of commit attempts that the retry timers drive.
- `panel.dfy` (`UploadPanel`): the class `ImportExternalPanel`. It has one
  method per event handler.
  - Dropzone's file list for each slot is a field of type
    `map<Slot, seq<FileRecord>>`.
  - Timers and requests become outputs. Examples: a retry delay, "init
    requested", "commit issued", the next commit action.
- `scenarios.dfy` (`Scenarios`): event sequences driven through the class's
  contracts. They show, for example, that nine chunk errors followed by a
  success still commit, and that the tenth error tears the session down.

Behaviour kept exactly as the code has it, including where one might expect
otherwise:

- Backoff is linear (`2000 × count`), not exponential.
- A 400 commit response whose body is not a non-empty array is retried like
  any other failure.
- The commit gate is a plain "every selected slot succeeded". On an empty
  selection it holds vacuously.
- Cancelling does not disarm pending retry timers or a pending token request.
  `Scenarios.RetryTimerOutlivesCancel` shows a stale chunk-retry timer
  starting the upload of a newly selected file while the panel holds no
  session token.
  `Scenarios.InitAnsweredAfterCancel` shows a late token being stored after a
  cancel.
- The overall progress is not monotone. It never falls when a report raises
  an existing entry's bytes for the same file, but a first report for
  another slot, or a report with fewer bytes, can lower it.
  `Progress.NewEntryLowersProgress` shows a drop from 50% to 25%.

## Model

| member | source | states |
|---|---|---|
| `Assets.AssetTypesEnumerateSlots` | app/static/app/js/components/ImportExternalPanel.jsx:11-17 | The slot list names each of the five slots exactly once, and distinct slots have distinct keys |
| `Progress.Percent` | app/static/app/js/components/ImportExternalPanel.jsx:137 | The percentage is 0 when the total is 0, lies in [0, 100] when no more was sent than the total, and is 100 when all was sent |
| `Progress.PercentMonotone` | app/static/app/js/components/ImportExternalPanel.jsx:137 | For a fixed total, sending more never lowers the percentage |
| `Progress.TotalSentWithinTotalBytes` | app/static/app/js/components/ImportExternalPanel.jsx:130-139 | If every entry has sent ≤ total, the summed bytes sent are ≤ the summed total and the percentage lies in [0, 100] |
| `Progress.NothingSentYet` | app/static/app/js/components/ImportExternalPanel.jsx:227-236 | Entries that have sent nothing sum to 0 bytes sent and a 0% progress |
| `Progress.EverythingSent` | app/static/app/js/components/ImportExternalPanel.jsx:121-139 | Once every entry is fully sent, bytes sent equal bytes total, and the progress is 100% when there is anything to send |
| `Progress.SumsAfterUpdate` | app/static/app/js/components/ImportExternalPanel.jsx:99-103 | Recording one slot's entry changes both sums by exactly the difference from the entry it replaces; no other slot's contribution changes |
| `Progress.ProgressMonotone` | app/static/app/js/components/ImportExternalPanel.jsx:99-103 | A report that raises one file's bytes sent, for the same file size, keeps the total and does not lower the bytes sent or the percentage |
| `Progress.NewEntryLowersProgress` | app/static/app/js/components/ImportExternalPanel.jsx:99-103 | A first report for another slot lowers the percentage: 50% for a half-sent orthophoto becomes 25% once a same-size surface model is recorded with nothing sent |
| `CommitPolicy.JoinShowsEachItem` | app/static/app/js/components/ImportExternalPanel.jsx:188-191 | Every message of a rejected commit appears verbatim, at its own offset, in the joined error text |
| `CommitPolicy.OnCommitFailure` | app/static/app/js/components/ImportExternalPanel.jsx:184-210 | A failure is rejected exactly when it is a 400 with a non-empty array body, and then carries the joined messages. Otherwise it is retried exactly when `retryCount < 10`, with count `retryCount + 1` and delay 2000 ms times that count. Otherwise the panel gives up |
| `CommitPolicy.CommitAttemptsBounded` | app/static/app/js/components/ImportExternalPanel.jsx:167-210 | Whatever the server answers, a commit chain starting at attempt c makes at most 11 − c requests |
| `CommitPolicy.TransientFailuresGiveUp` | app/static/app/js/components/ImportExternalPanel.jsx:200-209 | When every request fails transiently, the chain from attempt c gives up after exactly 11 − c requests, having waited 1000·(110 − c(c+1)) ms (110 s from the first attempt) |
| `CommitPolicy.ValidationErrorIsTerminal` | app/static/app/js/components/ImportExternalPanel.jsx:185-194 | A 400 with a non-empty message list ends the chain after that one request, with the joined messages |
| `UploadPanel.CheckSelection` | app/static/app/js/components/ImportExternalPanel.jsx:213-225 | An upload may start exactly when some slot is selected and a textured model comes with a point cloud. An empty selection gets the "select a file" message, and a lone textured model gets the point-cloud message |
| `UploadPanel.ImportExternalPanel.constructor` | app/static/app/js/components/ImportExternalPanel.jsx:28-47 | The mounted panel has one empty dropzone per slot, no error, no session and no progress entries |
| `UploadPanel.ImportExternalPanel.OnRemovedFile` | app/static/app/js/components/ImportExternalPanel.jsx:87-93 | The removed-file handler deletes only that slot's entry from `files` |
| `UploadPanel.ImportExternalPanel.AddedFile` | app/static/app/js/components/ImportExternalPanel.jsx:78-85 | After a file is added, the slot holds exactly the new file (queued, counter 0) and any older one is dropped. Only that slot's `files` entry changes, to the new name. Session and progress are untouched, and the consistency invariant holds |
| `UploadPanel.ImportExternalPanel.RemoveFile` | app/static/app/js/components/ImportExternalPanel.jsx:269-272 | Removing empties only that slot's dropzone and its `files` entry; every other slot and the session are unchanged |
| `UploadPanel.ImportExternalPanel.UpdateTotalProgress` | app/static/app/js/components/ImportExternalPanel.jsx:130-139 | The stored totals become the sums of `total` and `sent` over all progress entries, and the percentage is computed from them with the zero guard |
| `UploadPanel.ImportExternalPanel.UploadProgress` | app/static/app/js/components/ImportExternalPanel.jsx:99-103 | A report of exactly 100% changes nothing. Any other report sets only that slot's entry to (bytes sent, file size) and refreshes the totals. When the totals were current and the report raises an existing entry's bytes for the same file size, the percentage does not fall |
| `UploadPanel.ImportExternalPanel.CheckAllUploadsComplete` | app/static/app/js/components/ImportExternalPanel.jsx:141-150 | The result is true exactly when every slot that has a `files` entry holds a first file in success status |
| `UploadPanel.ImportExternalPanel.Success` | app/static/app/js/components/ImportExternalPanel.jsx:121-125 | A success marks only that slot's file succeeded, sets only its entry to sent = total = size, and refreshes the totals. If the totals were current and the slot already had an entry for the same size, the percentage does not fall. The commit is issued exactly when every selected slot has succeeded |
| `UploadPanel.ImportExternalPanel.CancelUpload` | app/static/app/js/components/ImportExternalPanel.jsx:258-263 | After a cancel: not uploading, progress 0, every dropzone empty, `files` empty, no progress entries, no session token. The error text is kept |
| `UploadPanel.ImportExternalPanel.ChunkError` | app/static/app/js/components/ImportExternalPanel.jsx:105-119 | The file's counter rises by exactly 1. Below 10, a retry after 2000 × counter ms is returned and nothing else changes. At 10, no retry is returned, the failure message is set and the cancel reset has run |
| `UploadPanel.ImportExternalPanel.RetryDue` | app/static/app/js/components/ImportExternalPanel.jsx:108-111 | A firing retry timer re-queues its own file only if the slot still holds it, and then the slot's queued files start uploading; nothing else changes |
| `UploadPanel.ImportExternalPanel.StartUpload` | app/static/app/js/components/ImportExternalPanel.jsx:213-238 | The token is requested exactly when the selection passes the check. When it fails, only the error message changes. When it passes: error "" and uploading; exactly one (0, size) entry per selected slot; totals current; nothing sent; progress 0 |
| `UploadPanel.ImportExternalPanel.InitSucceeded` | app/static/app/js/components/ImportExternalPanel.jsx:239-244 | The token is stored and the dropzones of exactly the slots selected at start process their queues; selection, flags and progress are unchanged |
| `UploadPanel.ImportExternalPanel.InitFailed` | app/static/app/js/components/ImportExternalPanel.jsx:245-250 | A failed token request sets the initialisation error and stops uploading |
| `UploadPanel.ImportExternalPanel.CommitSucceeded` | app/static/app/js/components/ImportExternalPanel.jsx:181-183 | A successful commit stops uploading and sets the progress to 100 |
| `UploadPanel.ImportExternalPanel.CommitFailed` | app/static/app/js/components/ImportExternalPanel.jsx:184-210 | The action is the classification of the failure. A rejection shows its joined messages and stops. A retry leaves error and uploading unchanged. Giving up shows the generic error and stops |
| `Scenarios.RetriedUploadCommits` | app/static/app/js/components/ImportExternalPanel.jsx:105-150 | A point cloud failing up to 9 times and then succeeding gets retries after 2000, 4000, … ms, and its success issues the commit at 100% progress |
| `Scenarios.TenthErrorAbortsSession` | app/static/app/js/components/ImportExternalPanel.jsx:105-119 | Nine errors schedule retries. The tenth schedules none, shows the failure message, stops uploading and empties every slot, including another slot's file |
| `Scenarios.TexturedModelAloneIsRefused` | app/static/app/js/components/ImportExternalPanel.jsx:220-225 | A lone textured model is refused with the point-cloud message; no token is requested and the panel is not uploading |
| `Scenarios.CommitValidationErrorShown` | app/static/app/js/components/ImportExternalPanel.jsx:185-194 | A 400 listing "Name field is required" shows exactly that text, is not retried and stops uploading |
| `Scenarios.RetryTimerOutlivesCancel` | app/static/app/js/components/ImportExternalPanel.jsx:108-111 | A retry timer armed before a cancel still sets a newly selected file uploading, while the panel has no session token and is not uploading |
| `Scenarios.InitAnsweredAfterCancel` | app/static/app/js/components/ImportExternalPanel.jsx:238-244 | A token that arrives after a cancel is stored although the panel is no longer uploading |

## Left out

- Rendering, CSS, icons and translated labels (ImportExternalPanel.jsx:274-339) are presentation. The messages are kept as constant English strings.
- `cancel` (ImportExternalPanel.jsx:253-256) is `CancelUpload` followed by the caller's `onCancel` callback, which lies outside the component.
- The "sending" handler (ImportExternalPanel.jsx:95-97) only copies the session token into each chunk's form data. That is network plumbing.
- Requests and timers are not executed. The token request, the commit request and the chunk uploads become method outputs or separate event methods (`InitSucceeded`, `InitFailed`, `CommitSucceeded`, `CommitFailed`). So do the `onImported` callback and `setTimeout`. Time itself is not modelled.
- `defaultTaskName` (ImportExternalPanel.jsx:152-154) reads the wall clock. The commit's task name is not modelled.
- Dropzone is a foreign library. The model does not cover its chunking, its own per-chunk retries (`retryChunks`, `retryChunksLimit`), file-type and size filtering, XHR, or `destroy` on unmount. The model assumes the following about it:
  - a new file is appended to the slot's list and queued before "addedfile" fires;
  - a file is marked errored before "error" fires, and succeeded before "success" fires;
  - `processQueue` starts the queued files;
  - `removeAllFiles(true)` empties the slot and fires "removedfile" once per removed file.
- `setState` is treated as taking effect at once. React's batching of updates is not modelled.
- Loops over the keys of `state.files`, `fileProgress` and `dzInstances` run over the slots in `ASSET_TYPES` order, skipping absent keys. Sums, the every-check and map building do not depend on that order.
- The 400 body is an input datatype. `JsonArray(items)` stands for a body that parses as an array, and `NotAnArray` for anything else, including invalid JSON. Array elements are taken as strings; JavaScript's string conversion of other values is not modelled.
- Progress is an exact `real` quotient, not an IEEE double. Byte counts are unbounded naturals.
- Progress.ProgressMonotone: progress is proved non-decreasing only for a report that raises the bytes sent of an entry that already exists, for the same file size. In the code, a first report for another slot, or a report with fewer bytes, lowers it; `Progress.NewEntryLowersProgress` shows a case.
- UploadPanel.ImportExternalPanel.UploadProgress requires that the slot holds a file. Dropzone reports progress only for a file it holds. The handler itself would accept any file object.
- UploadPanel.ImportExternalPanel.Success requires that the slot holds a file, for the same reason.
- UploadPanel.ImportExternalPanel.ChunkError requires that the slot holds a file, for the same reason. An error on a file object the slot no longer holds is not modelled.
- app/static/app/js/Dashboard.jsx is a routing shell with request wrappers. It is not part of this model.
- app/tests/test_api_task_external_import.py tests server endpoints whose code is not part of this model.
- app/static/app/js/components/tests/ImportExternalPanel.test.jsx is only a render smoke test.

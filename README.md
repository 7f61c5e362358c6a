# Telegram media backend: the download-task registry

This project models the core of `backend.py`, a FastAPI service that downloads videos from
Telegram on request. Clients submit a download request, poll or list tasks, and finally
fetch the stored file. The model covers:

- the in-memory registry `DOWNLOAD_TASKS`, an insertion-ordered dict from task id to task
  record;
- the operations that move a task through its life: `request_download`,
  `_process_download_task`, `_update_download_progress`, `cleanup_expired_tasks`,
  `fetch_downloaded_file` with its `file_iterator`, and `list_download_tasks`;
- the filename sanitiser of lines 321-323.

The task statuses are pending, processing, completed, failed and expired.

Layout, one module per file:

- `seqs.dfy` (`Seqs`): the subsequence relation.
- `tasks.dfy` (`Tasks`): the record, the status values and the client view of a record.
- `sanitizer.dfy` (`Sanitizer`): the sanitiser, the storage path it leads to, and the last
  `/`-component of a path, which is `Path.name` on stored paths.
- `progress.dfy` (`Progress`): the progress formula of the transfer callback.
- `chunking.dfy` (`Chunking`): the `while chunk := f.read(8192)` loop, as a method.
- `listing.dfy` (`Listing`): the slice-then-filter rule of the listing.
- `sweep.dfy` (`Sweep`): one expiry sweep, as functions of the map.
- `executor.dfy` (`Executor`): the executor as a pure function `Run` of the record and of
  the provider's answers.
- `registry.dfy` (`Registry`): the registry itself.

The registry is the class `Registry.Registry`. Its fields are `order` (the ids in insertion
order) and `tasks` (the map from id to record). Its invariant `Valid()` says that `order`
lists the map's keys once each and that every record is well formed. A completed record has
a path and a measured size, and the priority is in 1..5. Every operation that writes the
dict is a method with `modifies this`. Each such method states the new state exactly, as a
function of the old one. The executor method is proved to leave exactly `Run` of the old
record, and the sweep is proved to leave exactly `Swept` of the old map. The properties the
service promises are then lemmas about those functions.

The nondeterministic inputs are parameters:

- the fresh uuid is an id not yet in the registry;
- each `time.time()` reading is a `real`;
- the answer of `get_messages` is a `Lookup`;
- what `download_media` did is a `Transfer`: the progress callbacks it made, whether it
  raised, whether the file exists, and its size;
- what the stored path holds at fetch time is a `DiskEntry`.

Progress values and times are exact rationals (`real`), not floating point.

The model follows the code where a reader might expect something else:

- The sweep expires every task older than 3600 seconds, whatever its status, including
  completed tasks (`backend.py:162`).
- The executor writes completed or failed without looking at the current status, so it
  overwrites an expired task (`Executor.RunIgnoresStatus`).
- A new task starts with progress 0.0.
- Nothing checks that a completed task's measured size is positive. A zero-byte download
  completes, and only the fetch turns it into a failure.
- The failure update is a `dict.update`, a merge. Every field written earlier (start time,
  progress 0.1 or the last progress written, file name and size) stays in the failed record.
- `getattr(video, 'file_name', default)` returns None when the attribute exists and holds
  None. Iterating None then raises a TypeError, and the task fails with that message. A
  `file_size` that holds None likewise raises inside `format_file_size` before the second
  update. Both cases are modelled (`Tasks.Attr`, `Executor.Prepare`).
- `..` and `.` survive the sanitiser. `STORAGE_DIR / "."` is the storage directory itself,
  since pathlib drops a `.` component, and `STORAGE_DIR / ".."` names its parent.
- A negative offset of the listing makes the stop `offset + limit` negative too when `limit`
  is small: with offset -1 the window `[-1:limit-1]` is the newest task only when `limit`
  exceeds the number of tasks, and empty otherwise, for example with `limit = 1`, or with
  the default 50 once 50 tasks exist (`Listing.WindowNegativeOffset`).
- In `_update_download_progress` the logging test `current % (total // 10)` divides by zero
  when `0 < total < 10`. This happens after the progress write; the method reports it as
  `logRaises`.

## Model

| member | source | states |
|---|---|---|
| Tasks.StatusName | backend.py:56-61 | no contract beyond non-emptiness: the five status strings; their distinctness is the row of `Tasks.StatusNameInjective` |
| Tasks.NewTask | backend.py:430-439 | no contract: the record a request inserts; its properties are the rows of `Registry.Registry.Create`, `Tasks.ViewOfNewTask` and `Executor.RunOnNewTask` |
| Tasks.View | backend.py:471-479 | no contract: the `TaskResponse` projection of a record; its properties are the rows of `Tasks.ViewOfNewTask`, `Tasks.ViewOfCompleted` and `Listing.SelectSound` |
| Sanitizer.SafeFileName | backend.py:321-323 | no contract: the sanitising expression itself; its properties are the rows of `Sanitizer.SafeFileNameIsSafe` through `Sanitizer.DotDotSurvives` |
| Sanitizer.StoragePath | backend.py:325 | no contract: `STORAGE_DIR / safe_name`, with pathlib dropping a `.` component; its properties are the rows of `Sanitizer.PathNameOfStoredName` and `Sanitizer.PathNameOfStoragePath` |
| Progress.Reported | backend.py:376-380 | no contract: one callback, which writes `ProgressFor` only when `total > 0`; its properties are the rows of `Progress.ProgressAfterBounded` and `Progress.ProgressAfterMonotone` |
| Progress.ProgressFor | backend.py:379 | no contract: the formula `0.2 + (current / total) * 0.8`; its properties are the rows of `Progress.ProgressBounds` and `Progress.ProgressMonotone` |
| Progress.ProgressAfter | backend.py:376-380 | no contract: the progress after a run of callbacks, each writing only when `total > 0`; its properties are the rows of `Progress.ProgressAfterBounded`, `Progress.ProgressAfterMonotone` and `Registry.Registry.ReceiveCallbacks` |
| Chunking.WellChunked | backend.py:509-512 | no contract: chunks of 1 to 8192 bytes, full apart from the last; the row of `Chunking.ReadChunks` states the loop ends in such a run |
| Listing.PySlice | backend.py:535 | no contract: Python's `s[start:stop]`; its properties are the rows of `Listing.SliceBound`, `Listing.WindowNonNegative` and `Listing.WindowNegativeOffset` |
| Listing.Matches | backend.py:536 | no contract: `status is None or task_info["status"] == status`; its properties are the rows of `Listing.SelectSound` and `Listing.SelectComplete` |
| Sweep.Stale | backend.py:162 | no contract: `current_time - created_at > 3600`, whatever the status; its properties are the rows of `Sweep.Swept` and `Sweep.StaleIds` |
| Registry.FetchResult.Code | backend.py:487-524 | no contract: the HTTP status of each answer (404, 400, 500, or 200 for the stream); the row of `Registry.Registry.Fetch` states which answer each case gets |
| Registry.FetchResult.Detail | backend.py:487-504 | no contract: the `detail` string of each error answer; the row of `Registry.Registry.Fetch` states it for each case |
| Registry.Servable | backend.py:499 | no contract: a regular file of non-zero size; its use is the row of `Registry.Registry.Fetch` |
| Executor.Started | backend.py:302-306 | no contract: the first `dict.update` (processing, `started_at`, 0.1); its properties are the rows of `Executor.Run` and `Executor.RunFailsEarly` |
| Executor.WithFileInfo | backend.py:328-333 | no contract: the second `dict.update` (0.2, file name and size); its properties are the rows of `Executor.RunSuccess` and `Executor.RunFailsAfterTransfer` |
| Executor.Finished | backend.py:352-360 | no contract: the success `dict.update`; its properties are the row of `Executor.RunSuccess` |
| Executor.FailedWith | backend.py:370-374 | no contract: the failure `dict.update`, a merge; its properties are the rows of `Executor.RunFailsEarly` and `Executor.RunFailsAfterTransfer` |
| Executor.ExpectedSize | backend.py:318 | no contract: `getattr(video, 'file_size', 0)` when it is not None; its properties are the row of `Executor.RunSuccess` |
| Executor.Succeeds | backend.py:310-346 | no contract: the provider answers under which the success path runs to the end; its properties are the row of `Executor.Run` |
| Executor.FailureReason | backend.py:313-346 | no contract: the message stored in `error`; its properties are the rows of `Executor.RunFailsEarly` and `Executor.RunFailsAfterTransfer` |
| Executor.AfterStart | backend.py:308-374 | no contract: the executor after the first update; its properties are the row of `Registry.Registry.ContinueDownload` |
| Executor.Transferred | backend.py:338-374 | no contract: the transfer's callbacks and the final update; its properties are the row of `Registry.Registry.FinishTransfer` |
| Executor.Settled | backend.py:344-374 | no contract: the final update after the transfer; its properties are the row of `Registry.Registry.Settle` |
| Tasks.StatusNameInjective | backend.py:56-61 | the five status strings are pairwise distinct, so comparing the stored string with a filter compares statuses |
| Tasks.ViewOfNewTask | backend.py:430-439 | a poll right after the request reports status `"pending"`, progress 0.0 and the request time, with no path, no size and no error |
| Tasks.ViewOfCompleted | backend.py:471-479 | a poll of a well-formed completed record reports status `"completed"`, its path and its measured size |
| Sanitizer.KeepAllowed | backend.py:321 | the filter's result holds only alphanumerics and `. _ -`, is no longer than the input, and is the input itself when the input holds only allowed characters |
| Sanitizer.RStrip | backend.py:321 | `rstrip()` yields a prefix of its input that does not end in whitespace, and every character it drops is whitespace |
| Sanitizer.RStripKeepsAllowed | backend.py:321 | on allowed characters `rstrip()` changes nothing, since no allowed character is whitespace |
| Sanitizer.IsAlnum | backend.py:321 | no contract: `c.isalnum()` for ASCII letters and digits; the row of `Sanitizer.KeepAllowed` and the Left-out line on it state the difference from Python |
| Sanitizer.Allowed | backend.py:321 | no contract: `c.isalnum() or c in "._-"`; its properties are the rows of `Sanitizer.KeepAllowed`, `Sanitizer.KeepAllowedCounts` and `Sanitizer.SafeFileNameIsSafe` |
| Sanitizer.IsSpace | backend.py:321 | no contract: the whitespace set of Python's `str.isspace`, which `rstrip()` strips; its properties are the rows of `Sanitizer.RStrip` and `Sanitizer.RStripKeepsAllowed` |
| Sanitizer.NatToString | backend.py:323 | `str()` of a natural number is non-empty and made of decimal digits |
| Sanitizer.NatToStringValue | backend.py:323 | the digits `str()` prints denote the number again (`Sanitizer.DigitsValue`), with no leading zero unless the number is 0 |
| Sanitizer.IntToString | backend.py:323 | the decimal form of an integer is non-empty and made of allowed characters |
| Sanitizer.FallbackName | backend.py:323 | `video_{chat_id}_{message_id}.mp4` is non-empty and passes the filter |
| Sanitizer.SafeFileNameIsSafe | backend.py:321-323 | the sanitised name is never empty, holds only alphanumerics and `. _ -`, and so has no `/` or `\` |
| Sanitizer.SafeFileNameCases | backend.py:321-323 | the result is the filtered name when anything survives the filter, and exactly the fallback name otherwise |
| Sanitizer.KeepAllowedSubsequence | backend.py:321 | the filtered name is a subsequence of the input |
| Sanitizer.KeepAllowedCounts | backend.py:321 | every allowed character occurs in the result as often as in the input, and no other character occurs |
| Sanitizer.SafeFileNameSubsequence | backend.py:321-323 | a sanitised name that is not the fallback is a subsequence of the untrusted name |
| Sanitizer.SafeFileNameIdempotent | backend.py:321-323 | sanitising a sanitised name returns it unchanged, for any chat and message ids |
| Sanitizer.DotDotSurvives | backend.py:321-323 | `..` and `../` both sanitise to `..` |
| Sanitizer.PathName | backend.py:522 | the text after the last `/` is no longer than the path; it agrees with `Path(p).name` on the paths `StoragePath` builds, not on a trailing `/` or a final `.` component |
| Sanitizer.PathNameOfLastComponent | backend.py:522 | the text after the last `/` of `dir/name` is `name` when `name` has no `/` |
| Sanitizer.PathNameOfStoredName | backend.py:325 | for a name without `/`, the text after the last `/` of `STORAGE_DIR / name` is the name, or `storage` for `.` |
| Sanitizer.PathNameOfStoragePath | backend.py:325 | the name of the stored path is the sanitised name, or `storage` when the sanitised name is `.` |
| Progress.ProgressBounds | backend.py:379 | for `0 <= current <= total` the progress lies in [0.2, 1.0]; it is 0.2 exactly at `current = 0` and 1.0 exactly at `current = total` |
| Progress.ProgressMonotone | backend.py:379 | more bytes done never gives less progress |
| Progress.ProgressAfterBounded | backend.py:376-380 | callbacks within their totals keep a progress in [0.2, 1.0] there |
| Progress.ProgressAfterMonotone | backend.py:376-380 | along the callbacks of one transfer (one total, non-decreasing counts) the observed progress never decreases |
| Chunking.Read | backend.py:511 | `f.read(8192)` returns at most 8192 bytes from the position, and nothing exactly at the end |
| Chunking.FullLength | backend.py:509-512 | full chunks hold 8192 bytes each |
| Chunking.ChunkCount | backend.py:509-512 | a well-chunked stream of `n` bytes has `ceil(n / 8192)` chunks |
| Chunking.ReadChunks | backend.py:509-512 | the chunks concatenate to the file's bytes, each holds 1 to 8192 bytes, all but the last hold 8192, and there are `ceil(n / 8192)` of them |
| Listing.SliceBound | backend.py:535 | a clamped slice bound lies within the sequence and is the bound itself when that is in range |
| Listing.Window | backend.py:535 | every id of the window is an id of the registry |
| Listing.Select | backend.py:535-546 | the filter lists no more tasks than the window holds, and all of them when no status is given |
| Listing.SelectSound | backend.py:536-545 | every listed view is the view of a window task whose status matches the filter |
| Listing.SelectComplete | backend.py:536 | every window task whose status matches the filter is listed |
| Listing.TaskIds | backend.py:537-538 | the ids of the listed views, one per view and in the same order |
| Listing.SelectKeepsOrder | backend.py:535-546 | the listed ids form a subsequence of the window, in registry order |
| Listing.SelectAppend | backend.py:546 | listing one more id at the end adds at most its view, at the end |
| Listing.SelectPrefix | backend.py:535-546 | the same for each prefix of the window the loop has walked |
| Listing.WindowNonNegative | backend.py:535 | with non-negative offset and limit the window is the run of ids from `offset`, at most `limit` of them, cut off at the end |
| Listing.WindowNegativeOffset | backend.py:535 | with offset -1 the window is the newest task when `limit` exceeds the number of tasks, and empty otherwise |
| Listing.ListingBounded | backend.py:535-551 | with non-negative offset and limit at most `limit` tasks are listed |
| Sweep.Swept | backend.py:155-167 | one sweep keeps the key set, sets status expired on exactly the tasks older than 3600 s, and leaves the others unchanged |
| Sweep.SweptOnlyExpires | backend.py:166 | a record the sweep changed was stale and is now expired, and no field but the status changed |
| Sweep.SweptIdempotent | backend.py:155-167 | a second sweep at the same time changes nothing |
| Sweep.SweptLaterSubsumes | backend.py:155-167 | a sweep followed by a later one is the later sweep alone |
| Sweep.StaleIds | backend.py:160-163 | the collected ids are exactly the stale ones of the registry |
| Sweep.ExpireAll | backend.py:165-166 | expiring a list of ids keeps the key set and changes exactly the status of the listed tasks |
| Sweep.ExpireStaleIsSwept | backend.py:155-167 | expiring the collected ids is one sweep |
| Executor.SafeNameOf | backend.py:317-323 | the name the executor uses is non-empty and made of allowed characters, and is exactly the fallback name when the video has no `file_name` attribute |
| Executor.Prepare | backend.py:310-323 | the steps before the second update succeed exactly when a message with a video is found whose name and size are not None, and then give a safe non-empty name |
| Executor.Run | backend.py:294-374 | the executor ends completed exactly on the success path and failed otherwise, always sets `started_at`, and keeps the creation fields |
| Executor.RunSuccess | backend.py:302-360 | on success: completed, progress 1.0, the path `STORAGE_DIR / safe_name`, the expected name and size, the observed size, the download time and the completion time set, failure fields untouched |
| Executor.RunFailsEarly | backend.py:302-313 | a missing message or video, or a name or size that is None, fails with the matching message and the failure time, keeps progress 0.1 and `started_at`, and writes no file fields |
| Executor.RunFailsAfterTransfer | backend.py:328-346 | a raising transfer or a missing file fails with the matching message, keeps the name and size, keeps the last progress written (in [0.2, 1.0] for callbacks within their totals), and writes no path, measured size or download time |
| Executor.RunIgnoresStatus | backend.py:352 | the outcome does not depend on the status found, so an expired task is overwritten |
| Executor.RunOnNewTask | backend.py:365-374 | from a fresh record a failure leaves no path, no measured size (the polled `file_size`) and no download time, and records an error; a success records a path and no error |
| Registry.DistinctCard | backend.py:53 | ids without repetition are as many as their set |
| Registry.InvUpdate | backend.py:53 | replacing one record by a well-formed one keeps the registry invariant |
| Registry.Registry.SizeMatchesOrder | backend.py:550 | the registry holds as many tasks as its ordered ids |
| Registry.Registry.constructor | backend.py:53 | the registry starts empty |
| Registry.Registry.Create | backend.py:424-441 | a fresh id is appended last with exactly the new record `NewTask`: pending, progress 0.0, the given time, chat, message and priority, and every later key (path, error, name, sizes, times) absent; every existing record and the order are unchanged |
| Registry.Registry.MarkProcessing | backend.py:302-306 | only that record changes: status processing, `started_at` set, progress 0.1 |
| Registry.Registry.RecordFileInfo | backend.py:328-333 | only that record changes: progress 0.2, file name and size |
| Registry.Registry.UpdateProgress | backend.py:376-383 | with a known id and positive total only that record's progress changes, to `0.2 + 0.8*current/total`; otherwise nothing changes; the logging line raises exactly when `0 < total < 10` with a known id |
| Registry.Registry.ReceiveCallbacks | backend.py:338-342 | the provider's callbacks leave the task's progress at the value of the folded callbacks and change nothing else |
| Registry.Registry.MarkCompleted | backend.py:352-360 | only that record changes, to the completed record |
| Registry.Registry.MarkFailed | backend.py:370-374 | only that record changes: status failed, error and failure time merged in |
| Registry.Registry.ProcessDownload | backend.py:294-374 | for a known id the record becomes `Run` of it and no other record changes; for an unknown id the error escapes and nothing changes |
| Registry.Registry.ContinueDownload | backend.py:308-374 | after the first update, only that record changes, as the executor's remaining steps say |
| Registry.Registry.FinishTransfer | backend.py:338-374 | the transfer and the final update change that record only, as `Transferred` says |
| Registry.Registry.Settle | backend.py:344-374 | the final update: failed with the transfer's error or "Downloaded file not found", or completed with the storage path and the observed size |
| Registry.Registry.CleanupExpired | backend.py:155-167 | one sweep leaves exactly `Swept` of the old map, and the order is unchanged |
| Registry.Registry.StaleTaskIds | backend.py:158-163 | the first loop collects, in registry order, exactly the ids of the stale tasks |
| Registry.Registry.ExpireTasks | backend.py:165-166 | the second loop sets status expired on exactly the collected tasks |
| Registry.Registry.Fetch | backend.py:481-524 | unknown id: code 404 with detail `Task not found` and nothing changes; not completed: code 400 with detail `File not ready. Current status: ` and the status name, and nothing changes; completed but not a non-empty regular file: that record becomes failed with the fixed error, and the answer is code 500 with the fixed detail; otherwise code 200, and the chunks concatenate to the file, are well chunked, the length header is the file size and the name is the path's name |
| Registry.Registry.List | backend.py:526-552 | the items are the views of the window's tasks that match the filter, in order; `total` is the registry size and `filtered` the number listed |

## Left out

- Pyrogram calls (`get_messages`, `download_media`, `get_chat_history`, `forward_messages`,
  `get_me`) are network calls. Their answers are the inputs `Lookup` and `Transfer`.
- FastAPI routing, CORS, `BackgroundTasks`, the `StreamingResponse` and `FileResponse`
  objects, and the startup and shutdown hooks are framework code. Fetch returns a
  `FetchResult` value in place of raising or streaming: its `Code()` and `Detail()` are the
  status code and detail, and a stream carries the chunks and the two headers' values.
- `periodic_cleanup` is an infinite loop around `asyncio.sleep`; the model has one sweep.
  Interleaving of asyncio tasks is not modelled: each operation is one sequential step.
- `save_tasks_state`, `_fetch_videos_from_channel`, `get_thumbnail`, `forward_media`,
  `health_check` and `read_root` are file I/O, remote iteration or file serving outside the
  registry.
- `get_download_status` is not modelled as an operation. Its response is `Tasks.View`, the
  `TaskResponse` projection of a record (backend.py:471-479), which `Listing.SelectSound`,
  `Registry.Registry.List` and the two `Tasks.ViewOf...` lemmas are stated in.
- `format_file_size` and the `file_size_formatted` and `download_speed` strings are
  floating-point formatting. The ISO `created_at` strings are `datetime` formatting; the
  view keeps `created_at` as seconds.
- Logging is left out, apart from whether line 382 raises; what the provider does with an
  exception raised by the callback is part of the abstract `Transfer`.
- `uuid.uuid4()` becomes a fresh-id precondition of `Create`. `time.time()` becomes time
  parameters.
- Registry.Registry.Create: requires a priority in 1..5, which the request model (`Field(ge=1,
  le=5)`) enforces before the handler runs; the echoed response is not modelled.
- Sanitizer.KeepAllowed: `isalnum` is modelled for ASCII letters and digits only; Python
  also keeps Unicode letters and digits.
- Registry.Registry.Fetch: the file is read as the bytes seen at validation time; a file
  that changes between the size check and the read is not modelled, nor is a failing `open`.
- The sizes produced by `stat()` are natural numbers; the expected size from `getattr`
  is any integer.

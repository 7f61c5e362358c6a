/** The background download executor (`_process_download_task`, backend.py:294-374) as a
    function from the task record and the provider's answers to the final record. */
module Executor {
  import opened Tasks
  import opened Sanitizer
  import opened Progress

  /** The video attributes the executor reads with `getattr`. */
  datatype Video = Video(fileName: Attr<string>, fileSize: Attr<int>)

  /** What `get_messages` gave: it raised, or returned no message, or a message with or
      without a video. */
  datatype Lookup = LookupRaised(reason: string) | NoMessage | Message(video: Option<Video>)

  /** What `download_media` did: the progress callbacks it made, in order, whether it raised
      (and with which message), and what the destination path holds afterwards. */
  datatype Transfer = Transfer(callbacks: seq<Callback>, raised: Option<string>, fileExists: bool, actualSize: nat)

  /** The three clock readings: the task start, the one that measures the download time,
      and the one stored as `completed_at` or `failed_at`. */
  datatype Clock = Clock(start: real, measured: real, stamped: real)

  const NO_VIDEO: string := "Message not found or does not contain video"
  const FILE_NOT_FOUND: string := "Downloaded file not found"
  /** The TypeError raised by iterating a `file_name` that is None. */
  const NAME_NOT_ITERABLE: string := "'NoneType' object is not iterable"
  /** The TypeError raised inside `format_file_size` for a `file_size` that is None. */
  const SIZE_NOT_COMPARABLE: string := "'>=' not supported between instances of 'NoneType' and 'int'"

  /** The outcome of the steps between fetching the message and the second update:
      an error message, or the sanitised name and the expected size. */
  datatype Prepared = PrepareFailed(reason: string) | Prepared(safeName: string, size: int)

  function Prepare(chatId: int, messageId: int, lookup: Lookup): (p: Prepared)
    ensures p.Prepared? <==>
      lookup.Message? && lookup.video.Some? && !lookup.video.value.fileName.Null? && !lookup.video.value.fileSize.Null?
    ensures p.Prepared? ==> p.safeName != [] && AllAllowed(p.safeName)
  {
    match lookup
    case LookupRaised(e) => PrepareFailed(e)
    case NoMessage => PrepareFailed(NO_VIDEO)
    case Message(None) => PrepareFailed(NO_VIDEO)
    case Message(Some(v)) =>
      if v.fileName.Null? then PrepareFailed(NAME_NOT_ITERABLE)
      else if v.fileSize.Null? then PrepareFailed(SIZE_NOT_COMPARABLE)
      else
        Prepared(SafeNameOf(chatId, messageId, v), ExpectedSize(v))
  }

  /** The sanitised name of the video, when the lookup found one with a usable name:
      `getattr(video, 'file_name', fallback)` put through the sanitiser. */
  function SafeNameOf(chatId: int, messageId: int, v: Video): (r: string)
    requires !v.fileName.Null?
    ensures r != [] && AllAllowed(r)
    ensures v.fileName.Missing? ==> r == FallbackName(chatId, messageId)
  {
    var name := if v.fileName.Present? then v.fileName.value else FallbackName(chatId, messageId);
    SafeFileNameIsSafe(name, chatId, messageId);
    SafeFileNameCases(name, chatId, messageId);
    SafeFileName(name, chatId, messageId)
  }

  /** The expected size recorded in the second update: `getattr(video, 'file_size', 0)`. */
  function ExpectedSize(v: Video): int
    requires !v.fileSize.Null?
  {
    if v.fileSize.Present? then v.fileSize.value else 0
  }

  /** First update (backend.py:302-306). */
  function Started(t: Task, at: real): Task
  {
    t.(status := Processing, startedAt := Some(at), progress := 0.1)
  }

  /** Second update (backend.py:328-333). */
  function WithFileInfo(t: Task, safeName: string, size: int): Task
  {
    t.(progress := 0.2, fileName := Some(safeName), fileSize := Some(size))
  }

  /** Success update (backend.py:352-360). */
  function Finished(t: Task, path: string, actualSize: int, downloadTime: real, at: real): Task
  {
    t.(status := Completed, progress := 1.0, filePath := Some(path), actualFileSize := Some(actualSize),
       downloadTime := Some(downloadTime), completedAt := Some(at))
  }

  /** Failure update (backend.py:370-374): a merge, so every field written before stays. */
  function FailedWith(t: Task, reason: string, at: real): Task
  {
    t.(status := Failed, error := Some(reason), failedAt := Some(at))
  }

  /** The provider answered such that the executor's success path runs to the end. */
  predicate Succeeds(lookup: Lookup, transfer: Transfer)
  {
    && lookup.Message? && lookup.video.Some?
    && !lookup.video.value.fileName.Null? && !lookup.video.value.fileSize.Null?
    && transfer.raised.None? && transfer.fileExists
  }

  /** The message stored in `error` when the executor fails. */
  function FailureReason(lookup: Lookup, transfer: Transfer): string
  {
    match lookup
    case LookupRaised(e) => e
    case NoMessage => NO_VIDEO
    case Message(None) => NO_VIDEO
    case Message(Some(v)) =>
      if v.fileName.Null? then NAME_NOT_ITERABLE
      else if v.fileSize.Null? then SIZE_NOT_COMPARABLE
      else if transfer.raised.Some? then transfer.raised.value
      else FILE_NOT_FOUND
  }

  /** The final record the executor leaves for task record `t`. */
  function Run(t: Task, chatId: int, messageId: int, lookup: Lookup, transfer: Transfer, clock: Clock): (r: Task)
    ensures r.status == (if Succeeds(lookup, transfer) then Completed else Failed)
    ensures r.startedAt == Some(clock.start)
    ensures r.createdAt == t.createdAt && r.chatId == t.chatId && r.messageId == t.messageId
    ensures r.priority == t.priority
  {
    AfterStart(Started(t, clock.start), Prepare(chatId, messageId, lookup), transfer, clock)
  }

  /** The rest of the executor once the first update `t` is written, given the outcome of
      the preparation steps. */
  function AfterStart(t: Task, p: Prepared, transfer: Transfer, clock: Clock): Task
  {
    match p
    case PrepareFailed(e) => FailedWith(t, e, clock.stamped)
    case Prepared(safe, size) => Transferred(WithFileInfo(t, safe, size), safe, transfer, clock)
  }

  /** The record after the transfer and the last update, from the record `t` that holds
      the file information. */
  function Transferred(t: Task, safeName: string, transfer: Transfer, clock: Clock): Task
  {
    Settled(t.(progress := ProgressAfter(t.progress, transfer.callbacks)), safeName, transfer, clock)
  }

  /** The last update, once the transfer has left the record `t`. */
  function Settled(t: Task, safeName: string, transfer: Transfer, clock: Clock): Task
  {
    if transfer.raised.Some? then FailedWith(t, transfer.raised.value, clock.stamped)
    else if !transfer.fileExists then FailedWith(t, FILE_NOT_FOUND, clock.stamped)
    else Finished(t, StoragePath(safeName), transfer.actualSize, clock.measured - clock.start, clock.stamped)
  }

  /** On the success path the task ends completed at progress 1.0 with the path
      `STORAGE_DIR / safe_name`, the observed size, the download time and the completion time set,
      the expected name and size recorded, and no failure fields touched. */
  lemma RunSuccess(t: Task, chatId: int, messageId: int, lookup: Lookup, transfer: Transfer, clock: Clock)
    requires Succeeds(lookup, transfer)
    ensures var r := Run(t, chatId, messageId, lookup, transfer, clock);
      var v := lookup.video.value;
      var safe := SafeNameOf(chatId, messageId, v);
      && r.status == Completed && r.progress == 1.0
      && r.filePath == Some(StoragePath(safe))
      && r.fileName == Some(safe)
      && r.fileSize == Some(if v.fileSize.Present? then v.fileSize.value else 0)
      && r.actualFileSize == Some(transfer.actualSize)
      && r.downloadTime == Some(clock.measured - clock.start)
      && r.completedAt == Some(clock.stamped)
      && r.error == t.error && r.failedAt == t.failedAt
  {
    var v := lookup.video.value;
    var safe := SafeNameOf(chatId, messageId, v);
    var t2 := WithFileInfo(Started(t, clock.start), safe, ExpectedSize(v));
    assert Prepare(chatId, messageId, lookup) == Prepared(safe, ExpectedSize(v));
    var t3 := t2.(progress := ProgressAfter(t2.progress, transfer.callbacks));
    assert Run(t, chatId, messageId, lookup, transfer, clock)
      == Finished(t3, StoragePath(safe), transfer.actualSize, clock.measured - clock.start, clock.stamped);
  }

  /** When the message is missing, has no video, or its name or size attribute is None, the
      task fails before the second update: progress stays 0.1 and no file field is written. */
  lemma RunFailsEarly(t: Task, chatId: int, messageId: int, lookup: Lookup, transfer: Transfer, clock: Clock)
    requires Prepare(chatId, messageId, lookup).PrepareFailed?
    ensures var r := Run(t, chatId, messageId, lookup, transfer, clock);
      && r.status == Failed
      && r.error == Some(FailureReason(lookup, transfer))
      && r.failedAt == Some(clock.stamped)
      && r.startedAt == Some(clock.start) && r.progress == 0.1
      && r.fileName == t.fileName && r.fileSize == t.fileSize
      && r.filePath == t.filePath && r.completedAt == t.completedAt
      && r.actualFileSize == t.actualFileSize && r.downloadTime == t.downloadTime
  {
  }

  /** When the transfer raises or leaves no file, the task fails after the second update:
      the name and size stay recorded and the progress is the last one the callbacks wrote
      (0.2 when none wrote), within [0.2, 1.0] when the callbacks stay within their totals. */
  lemma RunFailsAfterTransfer(t: Task, chatId: int, messageId: int, lookup: Lookup, transfer: Transfer, clock: Clock)
    requires Prepare(chatId, messageId, lookup).Prepared?
    requires !Succeeds(lookup, transfer)
    ensures var r := Run(t, chatId, messageId, lookup, transfer, clock);
      var p := Prepare(chatId, messageId, lookup);
      && r.status == Failed
      && r.error == Some(FailureReason(lookup, transfer))
      && r.error == Some(if transfer.raised.Some? then transfer.raised.value else FILE_NOT_FOUND)
      && r.failedAt == Some(clock.stamped)
      && r.startedAt == Some(clock.start)
      && r.fileName == Some(p.safeName) && r.fileSize == Some(p.size)
      && r.progress == ProgressAfter(0.2, transfer.callbacks)
      && r.filePath == t.filePath && r.completedAt == t.completedAt
      && r.actualFileSize == t.actualFileSize && r.downloadTime == t.downloadTime
    ensures (forall i :: 0 <= i < |transfer.callbacks| ==> InRange(transfer.callbacks[i])) ==>
      0.2 <= Run(t, chatId, messageId, lookup, transfer, clock).progress <= 1.0
  {
    if forall i :: 0 <= i < |transfer.callbacks| ==> InRange(transfer.callbacks[i]) {
      ProgressAfterBounded(0.2, transfer.callbacks);
    }
  }

  /** The executor does not look at the status it finds: the outcome is the same whatever
      the record's status was, so it overwrites an expired task. */
  lemma RunIgnoresStatus(t: Task, s: Status, chatId: int, messageId: int, lookup: Lookup, transfer: Transfer, clock: Clock)
    ensures Run(t.(status := s), chatId, messageId, lookup, transfer, clock) == Run(t, chatId, messageId, lookup, transfer, clock)
  {
  }

  /** A freshly created task that fails keeps `file_path`, the measured size and the download
      time absent, so a poll shows no `file_size`; one that succeeds keeps `error` absent. */
  lemma RunOnNewTask(createdAt: real, chatId: int, messageId: int, priority: int, lookup: Lookup, transfer: Transfer, clock: Clock)
    ensures var r := Run(NewTask(createdAt, chatId, messageId, priority), chatId, messageId, lookup, transfer, clock);
      && (r.status == Failed ==>
            && r.filePath == None && r.completedAt == None && r.error.Some?
            && r.actualFileSize == None && r.downloadTime == None)
      && (r.status == Completed ==> r.error == None && r.failedAt == None && r.filePath.Some?)
  {
    var t := NewTask(createdAt, chatId, messageId, priority);
    if Prepare(chatId, messageId, lookup).PrepareFailed? {
      RunFailsEarly(t, chatId, messageId, lookup, transfer, clock);
    } else if Succeeds(lookup, transfer) {
      RunSuccess(t, chatId, messageId, lookup, transfer, clock);
    } else {
      RunFailsAfterTransfer(t, chatId, messageId, lookup, transfer, clock);
    }
  }
}

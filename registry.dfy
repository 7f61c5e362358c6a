/** The in-memory task registry `DOWNLOAD_TASKS` (backend.py:53) and the operations that
    change or read it. The dict is an insertion-ordered `order` of ids plus the map `tasks`
    from id to record. */
module Registry {
  import opened Tasks
  import opened Sanitizer
  import opened Progress
  import opened Chunking
  import opened Listing
  import opened Sweep
  import opened Executor

  /** What the recorded file path holds when a completed task is fetched. */
  datatype DiskEntry = Absent | NotRegular | RegularFile(data: seq<byte>)

  /** `file_path.is_file() and file_path.stat().st_size != 0`. */
  predicate Servable(entry: DiskEntry)
  {
    entry.RegularFile? && |entry.data| > 0
  }

  const TASK_NOT_FOUND: string := "Task not found"
  const NOT_READY_PREFIX: string := "File not ready. Current status: "
  const INVALID_FILE_ERROR: string := "Downloaded file is invalid or empty on the server."
  const INVALID_FILE_DETAIL: string := "Downloaded file is invalid. Please try again."

  /** The answer of the fetch endpoint. */
  datatype FetchResult =
    | NotFound
    | NotReady(current: Status)
    | InvalidFile
    | Stream(chunks: seq<seq<byte>>, contentLength: nat, fileName: string)
  {
    function Code(): int
    {
      match this
      case NotFound => 404
      case NotReady(_) => 400
      case InvalidFile => 500
      case Stream(_, _, _) => 200
    }

    function Detail(): string
    {
      match this
      case NotFound => TASK_NOT_FOUND
      case NotReady(s) => NOT_READY_PREFIX + StatusName(s)
      case InvalidFile => INVALID_FILE_DETAIL
      case Stream(_, _, _) => ""
    }
  }

  predicate Distinct(s: seq<TaskId>)
  {
    forall i, j :: 0 <= i < j < |s| ==> s[i] != s[j]
  }

  /** A sequence without repetitions has as many elements as its set. */
  lemma {:induction false} DistinctCard(s: seq<TaskId>)
    requires Distinct(s)
    ensures |set k | k in s| == |s|
  {
    if s != [] {
      var init := s[..|s| - 1];
      DistinctCard(init);
      assert (set k | k in s) == (set k | k in init) + {s[|s| - 1]};
      assert s[|s| - 1] !in init;
    }
  }

  /** `order` lists every key of `tasks` once, in insertion order, and every record is
      well formed. */
  predicate Inv(order: seq<TaskId>, tasks: map<TaskId, Task>)
  {
    && Distinct(order)
    && (forall i :: 0 <= i < |order| ==> order[i] in tasks)
    && (forall k :: k in tasks ==> k in order)
    && (forall k :: k in tasks ==> WellFormed(tasks[k]))
  }

  /** Replacing a record by a well-formed one keeps the invariant. */
  lemma InvUpdate(order: seq<TaskId>, tasks: map<TaskId, Task>, id: TaskId, t: Task)
    requires Inv(order, tasks) && id in tasks && WellFormed(t)
    ensures Inv(order, tasks[id := t])
  {
  }

  class Registry {
    var order: seq<TaskId>
    var tasks: map<TaskId, Task>

    ghost predicate Valid()
      reads this
    {
      Inv(order, tasks)
    }

    /** The registry holds as many tasks as ids in insertion order. */
    lemma SizeMatchesOrder()
      requires Valid()
      ensures |tasks| == |order|
    {
      DistinctCard(order);
      assert tasks.Keys == set k | k in order;
    }

    constructor ()
      ensures Valid() && order == [] && tasks == map[]
    {
      order := [];
      tasks := map[];
    }

    /** `request_download` (backend.py:424-441): insert a pending record under a fresh id. */
    method Create(id: TaskId, now: real, chatId: int, messageId: int, priority: int)
      requires Valid()
      requires id !in tasks
      requires 1 <= priority <= 5
      modifies this
      ensures Valid()
      ensures order == old(order) + [id]
      ensures tasks == old(tasks)[id := NewTask(now, chatId, messageId, priority)]
      ensures tasks.Keys == old(tasks.Keys) + {id}
      ensures forall k :: k in old(tasks) ==> tasks[k] == old(tasks[k])
      ensures var t := tasks[id];
        && t.status == Pending && t.progress == 0.0 && t.filePath == None && t.error == None
        && t.createdAt == now && t.chatId == chatId && t.messageId == messageId && t.priority == priority
        && t.startedAt == None && t.completedAt == None && t.failedAt == None
    {
      tasks := tasks[id := NewTask(now, chatId, messageId, priority)];
      order := order + [id];
    }

    /** backend.py:302-306. */
    method MarkProcessing(id: TaskId, at: real)
      requires Valid() && id in tasks
      modifies this
      ensures Valid() && order == old(order)
      ensures tasks == old(tasks)[id := Started(old(tasks)[id], at)]
    {
      InvUpdate(order, tasks, id, Started(tasks[id], at));
      tasks := tasks[id := Started(tasks[id], at)];
    }

    /** backend.py:328-333. */
    method RecordFileInfo(id: TaskId, safeName: string, size: int)
      requires Valid() && id in tasks
      modifies this
      ensures Valid() && order == old(order)
      ensures tasks == old(tasks)[id := WithFileInfo(old(tasks)[id], safeName, size)]
    {
      InvUpdate(order, tasks, id, WithFileInfo(tasks[id], safeName, size));
      tasks := tasks[id := WithFileInfo(tasks[id], safeName, size)];
    }

    /** `_update_download_progress` (backend.py:376-383): for a known id and a positive total
        only that task's progress changes; otherwise nothing does. `logRaises` tells that the
        logging test `current % (total // 10)` divides by zero, which happens after the write. */
    method UpdateProgress(id: TaskId, current: int, total: int) returns (logRaises: bool)
      requires Valid()
      modifies this
      ensures Valid() && order == old(order)
      ensures id in old(tasks) && total > 0 ==>
        tasks == old(tasks)[id := old(tasks)[id].(progress := ProgressFor(current, total))]
      ensures !(id in old(tasks) && total > 0) ==> tasks == old(tasks)
      ensures logRaises <==> id in old(tasks) && 0 < total < 10
    {
      logRaises := false;
      if id in tasks && total > 0 {
        var progress := ProgressFor(current, total);
        InvUpdate(order, tasks, id, tasks[id].(progress := progress));
        tasks := tasks[id := tasks[id].(progress := progress)];
        logRaises := total / 10 == 0;
      }
    }

    /** The provider invoking the progress callback of backend.py:341 once per element of
        `cbs`, in order, while the transfer runs. */
    method ReceiveCallbacks(id: TaskId, cbs: seq<Callback>)
      requires Valid() && id in tasks
      modifies this
      ensures Valid() && order == old(order)
      ensures tasks == old(tasks)[id := old(tasks)[id].(progress := ProgressAfter(old(tasks)[id].progress, cbs))]
    {
      for i := 0 to |cbs|
        invariant Valid() && order == old(order) && id in tasks
        invariant tasks == old(tasks)[id := old(tasks)[id].(progress := ProgressAfter(old(tasks)[id].progress, cbs[..i]))]
      {
        assert cbs[..i + 1][..i] == cbs[..i];
        var _ := UpdateProgress(id, cbs[i].current, cbs[i].total);
      }
      assert cbs[..|cbs|] == cbs;
    }

    /** backend.py:352-360. */
    method MarkCompleted(id: TaskId, path: string, actualSize: int, downloadTime: real, at: real)
      requires Valid() && id in tasks
      modifies this
      ensures Valid() && order == old(order)
      ensures tasks == old(tasks)[id := Finished(old(tasks)[id], path, actualSize, downloadTime, at)]
    {
      InvUpdate(order, tasks, id, Finished(tasks[id], path, actualSize, downloadTime, at));
      tasks := tasks[id := Finished(tasks[id], path, actualSize, downloadTime, at)];
    }

    /** backend.py:370-374. */
    method MarkFailed(id: TaskId, reason: string, at: real)
      requires Valid() && id in tasks
      modifies this
      ensures Valid() && order == old(order)
      ensures tasks == old(tasks)[id := FailedWith(old(tasks)[id], reason, at)]
    {
      InvUpdate(order, tasks, id, FailedWith(tasks[id], reason, at));
      tasks := tasks[id := FailedWith(tasks[id], reason, at)];
    }

    /** `_process_download_task` (backend.py:294-374) with the provider's answers as inputs.
        The task's record becomes `Run` of it and no other record changes. For an unknown id
        the first update raises KeyError, the handler's update raises again and the error
        escapes (`escaped`), with nothing written. */
    method ProcessDownload(id: TaskId, chatId: int, messageId: int, lookup: Lookup, transfer: Transfer, clock: Clock)
      returns (escaped: bool)
      requires Valid()
      modifies this
      ensures Valid() && order == old(order)
      ensures escaped <==> id !in old(tasks)
      ensures id !in old(tasks) ==> tasks == old(tasks)
      ensures id in old(tasks) ==>
        tasks == old(tasks)[id := Run(old(tasks)[id], chatId, messageId, lookup, transfer, clock)]
    {
      if id !in tasks {
        return true;
      }
      escaped := false;
      MarkProcessing(id, clock.start);
      var prepared := Prepare(chatId, messageId, lookup);
      ContinueDownload(id, prepared, transfer, clock);
    }

    /** backend.py:308-374: what follows the first update, given the outcome of the steps that
        fetch the message and compute the name and size. */
    method ContinueDownload(id: TaskId, prepared: Prepared, transfer: Transfer, clock: Clock)
      requires Valid() && id in tasks
      modifies this
      ensures Valid() && order == old(order)
      ensures tasks == old(tasks)[id := AfterStart(old(tasks)[id], prepared, transfer, clock)]
    {
      if prepared.PrepareFailed? {
        MarkFailed(id, prepared.reason, clock.stamped);
      } else {
        RecordFileInfo(id, prepared.safeName, prepared.size);
        FinishTransfer(id, prepared.safeName, transfer, clock);
      }
    }

    /** The transfer and the final update of the executor (backend.py:338-374). */
    method FinishTransfer(id: TaskId, safeName: string, transfer: Transfer, clock: Clock)
      requires Valid() && id in tasks
      modifies this
      ensures Valid() && order == old(order)
      ensures tasks == old(tasks)[id := Transferred(old(tasks)[id], safeName, transfer, clock)]
    {
      ReceiveCallbacks(id, transfer.callbacks);
      Settle(id, safeName, transfer, clock);
    }

    /** The final update after the transfer (backend.py:344-374). */
    method Settle(id: TaskId, safeName: string, transfer: Transfer, clock: Clock)
      requires Valid() && id in tasks
      modifies this
      ensures Valid() && order == old(order)
      ensures tasks == old(tasks)[id := Settled(old(tasks)[id], safeName, transfer, clock)]
    {
      if transfer.raised.Some? {
        MarkFailed(id, transfer.raised.value, clock.stamped);
      } else if !transfer.fileExists {
        MarkFailed(id, FILE_NOT_FOUND, clock.stamped);
      } else {
        MarkCompleted(id, StoragePath(safeName), transfer.actualSize, clock.measured - clock.start, clock.stamped);
      }
    }

    /** `cleanup_expired_tasks` (backend.py:155-167): collect the ids of tasks older than the
        threshold, then set each one's status to expired. */
    method CleanupExpired(now: real)
      requires Valid()
      modifies this
      ensures Valid() && order == old(order)
      ensures tasks == Swept(old(tasks), now)
    {
      var expired := StaleTaskIds(now);
      ExpireTasks(expired);
      ExpireStaleIsSwept(old(tasks), expired, now);
    }

    /** The first loop of the sweep (backend.py:160-163), in the registry's iteration order. */
    method StaleTaskIds(now: real) returns (expired: seq<TaskId>)
      requires Valid()
      ensures expired == StaleIds(order, tasks, now)
      ensures forall k :: k in expired <==> k in tasks && Stale(tasks[k], now)
    {
      expired := [];
      for i := 0 to |order|
        invariant expired == StaleIds(order[..i], tasks, now)
      {
        assert order[..i + 1][..i] == order[..i];
        if Stale(tasks[order[i]], now) {
          expired := expired + [order[i]];
        }
      }
      assert order[..|order|] == order;
    }

    /** The second loop of the sweep (backend.py:165-166). */
    method ExpireTasks(ids: seq<TaskId>)
      requires Valid()
      requires forall i :: 0 <= i < |ids| ==> ids[i] in tasks
      modifies this
      ensures Valid() && order == old(order)
      ensures tasks == ExpireAll(old(tasks), ids)
    {
      for j := 0 to |ids|
        invariant Valid() && order == old(order)
        invariant tasks.Keys == old(tasks).Keys
        invariant tasks == ExpireAll(old(tasks), ids[..j])
      {
        var id := ids[j];
        assert ids[..j + 1][..j] == ids[..j];
        assert ExpireAll(old(tasks), ids[..j + 1]) == tasks[id := tasks[id].(status := Expired)];
        InvUpdate(order, tasks, id, tasks[id].(status := Expired));
        tasks := tasks[id := tasks[id].(status := Expired)];
      }
      assert ids[..|ids|] == ids;
    }

    /** `fetch_downloaded_file` (backend.py:481-524), given what the recorded path holds. */
    method Fetch(id: TaskId, entry: DiskEntry) returns (r: FetchResult)
      requires Valid()
      modifies this
      ensures Valid() && order == old(order)
      ensures id !in old(tasks) ==>
        && r == NotFound && r.Code() == 404 && r.Detail() == TASK_NOT_FOUND
        && tasks == old(tasks)
      ensures id in old(tasks) && old(tasks)[id].status != Completed ==>
        && r == NotReady(old(tasks)[id].status) && r.Code() == 400
        && r.Detail() == NOT_READY_PREFIX + StatusName(old(tasks)[id].status)
        && tasks == old(tasks)
      ensures id in old(tasks) && old(tasks)[id].status == Completed && !Servable(entry) ==>
        && r == InvalidFile && r.Code() == 500 && r.Detail() == INVALID_FILE_DETAIL
        && tasks == old(tasks)[id := old(tasks)[id].(status := Failed, error := Some(INVALID_FILE_ERROR))]
      ensures id in old(tasks) && old(tasks)[id].status == Completed && Servable(entry) ==>
        && r.Stream? && r.Code() == 200 && tasks == old(tasks)
        && Flatten(r.chunks) == entry.data && WellChunked(r.chunks)
        && r.contentLength == |entry.data|
        && r.fileName == PathName(old(tasks)[id].filePath.value)
    {
      if id !in tasks {
        return NotFound;
      }
      var task := tasks[id];
      if task.status != Completed {
        return NotReady(task.status);
      }
      var path := task.filePath.value;
      if !entry.RegularFile? || |entry.data| == 0 {
        InvUpdate(order, tasks, id, task.(status := Failed, error := Some(INVALID_FILE_ERROR)));
        tasks := tasks[id := task.(status := Failed, error := Some(INVALID_FILE_ERROR))];
        return InvalidFile;
      }
      var chunks := ReadChunks(entry.data);
      r := Stream(chunks, |entry.data|, PathName(path));
    }

    /** `list_download_tasks` (backend.py:526-552): the views of the window's tasks that
        match the filter, the registry size and the number listed. */
    method List(filter: Option<string>, limit: int, offset: int) returns (items: seq<TaskView>, total: nat, filtered: nat)
      requires Valid()
      ensures items == Select(Window(order, limit, offset), tasks, filter)
      ensures total == |tasks| == |order| && filtered == |items|
    {
      var window := Window(order, limit, offset);
      assert forall j :: 0 <= j < |window| ==> window[j] in tasks;
      items := [];
      for i := 0 to |window|
        invariant forall j :: 0 <= j < |window| ==> window[j] in tasks
        invariant items == Select(window[..i], tasks, filter)
      {
        var id := window[i];
        var info := tasks[id];
        SelectPrefix(window, i, tasks, filter);
        if Matches(filter, info) {
          items := items + [View(id, info)];
        }
      }
      assert window[..|window|] == window;
      SizeMatchesOrder();
      total := |tasks|;
      filtered := |items|;
    }
  }
}

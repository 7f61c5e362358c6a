/** The download registry's task record, its status values and the client view of a task. */
module Tasks {

  datatype Option<+T> = None | Some(value: T)

  /** The outcome of reading an attribute with a default: the attribute is missing (the
      default applies), present but holding None, or present with a value. */
  datatype Attr<+T> = Missing | Null | Present(value: T)

  /** Task ids are opaque strings (uuid4 in the service). */
  type TaskId = string

  /** The five status values a task record can hold. */
  datatype Status = Pending | Processing | Completed | Failed | Expired

  /** The string stored under the record's "status" key. */
  function StatusName(s: Status): (name: string)
    ensures name != []
  {
    match s
    case Pending => "pending"
    case Processing => "processing"
    case Completed => "completed"
    case Failed => "failed"
    case Expired => "expired"
  }

  /** Distinct statuses are stored as distinct strings, so filtering by name is filtering by status. */
  lemma StatusNameInjective(a: Status, b: Status)
    ensures StatusName(a) == StatusName(b) <==> a == b
  {
  }

  /** One task record. Keys that the service adds to the record only later (started_at,
      file_name, ...) are `None` until written. `file_path` and `error` are written as None
      at creation, which reads the same. Times are seconds, as returned by the clock. */
  datatype Task = Task(
    status: Status,
    createdAt: real,
    chatId: int,
    messageId: int,
    priority: int,
    progress: real,
    filePath: Option<string>,
    error: Option<string>,
    startedAt: Option<real>,
    fileName: Option<string>,
    fileSize: Option<int>,
    actualFileSize: Option<int>,
    downloadTime: Option<real>,
    completedAt: Option<real>,
    failedAt: Option<real>)

  /** The record inserted by a download request. */
  function NewTask(createdAt: real, chatId: int, messageId: int, priority: int): Task
  {
    Task(Pending, createdAt, chatId, messageId, priority, 0.0, None, None,
         None, None, None, None, None, None, None)
  }

  /** Facts every record in the registry keeps: a completed record has its file path and
      its measured size, and the priority is the validated 1..5. */
  predicate WellFormed(t: Task)
  {
    && (t.status == Completed ==> t.filePath.Some? && t.actualFileSize.Some?)
    && 1 <= t.priority <= 5
  }

  /** What the listing shows of a task (the service's TaskResponse; `created_at` is kept as
      the number of seconds instead of an ISO string, and `file_size` is the measured size). */
  datatype TaskView = TaskView(
    taskId: TaskId,
    status: string,
    createdAt: real,
    progress: real,
    filePath: Option<string>,
    fileSize: Option<int>,
    error: Option<string>)

  function View(id: TaskId, t: Task): TaskView
  {
    TaskView(id, StatusName(t.status), t.createdAt, t.progress, t.filePath, t.actualFileSize, t.error)
  }

  /** A poll right after the request answers pending, progress 0.0 and the request time,
      with no path, no size and no error. */
  lemma ViewOfNewTask(id: TaskId, createdAt: real, chatId: int, messageId: int, priority: int)
    ensures var v := View(id, NewTask(createdAt, chatId, messageId, priority));
      && v.taskId == id && v.status == "pending" && v.createdAt == createdAt && v.progress == 0.0
      && v.filePath == None && v.fileSize == None && v.error == None
  {
  }

  /** A poll of a completed record of the registry reports its path and its measured size. */
  lemma ViewOfCompleted(id: TaskId, t: Task)
    requires WellFormed(t) && t.status == Completed
    ensures var v := View(id, t);
      && v.status == "completed"
      && v.filePath == t.filePath && v.filePath.Some?
      && v.fileSize == t.actualFileSize && v.fileSize.Some?
  {
  }
}

/** One pass of the expiry sweep (`cleanup_expired_tasks`, backend.py:155-167), as a
    function of the registry's map. */
module Sweep {
  import opened Tasks

  /** Age in seconds above which a task is expired. */
  const EXPIRY_SECONDS: real := 3600.0

  /** `current_time - task_info.get('created_at', 0) > 3600`; the status plays no part. */
  predicate Stale(t: Task, now: real)
  {
    now - t.createdAt > EXPIRY_SECONDS
  }

  /** The registry after one sweep at time `now`. */
  function Swept(tasks: map<TaskId, Task>, now: real): (r: map<TaskId, Task>)
    ensures r.Keys == tasks.Keys
    ensures forall k :: k in tasks && Stale(tasks[k], now) ==> r[k] == tasks[k].(status := Expired)
    ensures forall k :: k in tasks && !Stale(tasks[k], now) ==> r[k] == tasks[k]
  {
    map k | k in tasks :: if Stale(tasks[k], now) then tasks[k].(status := Expired) else tasks[k]
  }

  /** A record the sweep changed was stale, is now expired and differs only in its status. */
  lemma SweptOnlyExpires(tasks: map<TaskId, Task>, now: real, k: TaskId)
    requires k in tasks
    ensures var r := Swept(tasks, now);
      && (r[k] != tasks[k] ==> Stale(tasks[k], now) && r[k].status == Expired)
      && r[k].(status := tasks[k].status) == tasks[k]
  {
  }

  /** A second sweep at the same time changes nothing. */
  lemma SweptIdempotent(tasks: map<TaskId, Task>, now: real)
    ensures Swept(Swept(tasks, now), now) == Swept(tasks, now)
  {
  }

  /** An earlier sweep is subsumed by a later one: sweeping at `now1` and then at
      `now2 >= now1` is sweeping once at `now2`. */
  lemma SweptLaterSubsumes(tasks: map<TaskId, Task>, now1: real, now2: real)
    requires now1 <= now2
    ensures Swept(Swept(tasks, now1), now2) == Swept(tasks, now2)
  {
    var a := Swept(Swept(tasks, now1), now2);
    var b := Swept(tasks, now2);
    forall k | k in tasks ensures a[k] == b[k] {
      assert Stale(tasks[k], now1) ==> Stale(tasks[k], now2);
    }
  }

  /** The ids of `ids`, in order, whose tasks are stale: the first loop of the sweep. */
  function StaleIds(ids: seq<TaskId>, tasks: map<TaskId, Task>, now: real): (r: seq<TaskId>)
    requires forall i :: 0 <= i < |ids| ==> ids[i] in tasks
    ensures forall k :: k in r <==> k in ids && Stale(tasks[k], now)
  {
    if ids == [] then []
    else StaleIds(ids[..|ids| - 1], tasks, now) + (if Stale(tasks[ids[|ids| - 1]], now) then [ids[|ids| - 1]] else [])
  }

  /** The registry after setting the status of every id of `ids` to expired, one after the
      other: the second loop of the sweep. */
  function ExpireAll(tasks: map<TaskId, Task>, ids: seq<TaskId>): (r: map<TaskId, Task>)
    requires forall i :: 0 <= i < |ids| ==> ids[i] in tasks
    ensures r.Keys == tasks.Keys
    ensures forall k :: k in tasks ==> r[k] == if k in ids then tasks[k].(status := Expired) else tasks[k]
  {
    if ids == [] then tasks
    else
      var last := ids[|ids| - 1];
      var m := ExpireAll(tasks, ids[..|ids| - 1]);
      assert forall k :: k in ids <==> k in ids[..|ids| - 1] || k == last;
      m[last := m[last].(status := Expired)]
  }

  /** Expiring exactly the stale ids is one sweep. */
  lemma ExpireStaleIsSwept(tasks: map<TaskId, Task>, ids: seq<TaskId>, now: real)
    requires forall i :: 0 <= i < |ids| ==> ids[i] in tasks
    requires forall k :: k in ids <==> k in tasks && Stale(tasks[k], now)
    ensures ExpireAll(tasks, ids) == Swept(tasks, now)
  {
    var a := ExpireAll(tasks, ids);
    var b := Swept(tasks, now);
    forall k | k in tasks ensures a[k] == b[k] {
    }
  }
}

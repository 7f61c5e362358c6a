/** The task listing (backend.py:526-552): slice the insertion-ordered registry first,
    then keep the tasks whose status matches the filter. */
module Listing {
  import opened Tasks
  import opened Seqs

  /** How Python clamps one bound of a slice of a sequence of length `n`: a negative
      bound counts from the end. */
  function SliceBound(i: int, n: nat): (b: nat)
    ensures b <= n
    ensures 0 <= i ==> b == if i <= n then i else n
  {
    if i < 0 then (if i + n < 0 then 0 else i + n) else if i > n then n else i
  }

  /** Python's `s[start:stop]`. */
  function PySlice<T>(s: seq<T>, start: int, stop: int): seq<T>
  {
    var lo := SliceBound(start, |s|);
    var hi := SliceBound(stop, |s|);
    if lo < hi then s[lo..hi] else []
  }

  /** `list(DOWNLOAD_TASKS.items())[offset:offset+limit]`, as the ids. */
  function Window(order: seq<TaskId>, limit: int, offset: int): (r: seq<TaskId>)
    ensures forall i :: 0 <= i < |r| ==> r[i] in order
  {
    PySlice(order, offset, offset + limit)
  }

  /** `status is None or task_info["status"] == status`. */
  predicate Matches(filter: Option<string>, t: Task)
  {
    filter.None? || StatusName(t.status) == filter.value
  }

  /** The views of the tasks of `ids` that match the filter, in the order of `ids`. */
  function Select(ids: seq<TaskId>, tasks: map<TaskId, Task>, filter: Option<string>): (r: seq<TaskView>)
    requires forall i :: 0 <= i < |ids| ==> ids[i] in tasks
    ensures |r| <= |ids|
    ensures filter.None? ==> |r| == |ids|
  {
    if ids == [] then []
    else
      (if Matches(filter, tasks[ids[0]]) then [View(ids[0], tasks[ids[0]])] else [])
      + Select(ids[1..], tasks, filter)
  }

  /** Every view of `r` is the view of a task of `ids` whose status matches the filter. */
  predicate SoundViews(r: seq<TaskView>, ids: seq<TaskId>, tasks: map<TaskId, Task>, filter: Option<string>)
  {
    forall i :: 0 <= i < |r| ==>
      && r[i].taskId in ids && r[i].taskId in tasks
      && r[i] == View(r[i].taskId, tasks[r[i].taskId])
      && Matches(filter, tasks[r[i].taskId])
  }

  /** Only views of matching tasks of the window are listed. */
  lemma {:induction false} SelectSound(ids: seq<TaskId>, tasks: map<TaskId, Task>, filter: Option<string>)
    requires forall i :: 0 <= i < |ids| ==> ids[i] in tasks
    ensures SoundViews(Select(ids, tasks, filter), ids, tasks, filter)
  {
    if ids != [] {
      SelectSound(ids[1..], tasks, filter);
      var r := Select(ids, tasks, filter);
      var rest := Select(ids[1..], tasks, filter);
      var head := if Matches(filter, tasks[ids[0]]) then [View(ids[0], tasks[ids[0]])] else [];
      assert r == head + rest;
      forall i | 0 <= i < |r|
        ensures && r[i].taskId in ids && r[i].taskId in tasks
                && r[i] == View(r[i].taskId, tasks[r[i].taskId])
                && Matches(filter, tasks[r[i].taskId])
      {
        if i >= |head| {
          var k := i - |head|;
          assert r[i] == rest[k];
          assert rest[k].taskId in ids[1..];
        }
      }
    }
  }

  /** The ids of a list of views, in order. */
  function TaskIds(vs: seq<TaskView>): (r: seq<TaskId>)
    ensures |r| == |vs|
    ensures forall i :: 0 <= i < |r| ==> r[i] == vs[i].taskId
  {
    if vs == [] then [] else [vs[0].taskId] + TaskIds(vs[1..])
  }

  /** Selecting one more id at the end adds at most its view at the end; the listing
      loop, which appends as it goes, builds exactly `Select`. */
  lemma {:induction false} SelectAppend(ids: seq<TaskId>, id: TaskId, tasks: map<TaskId, Task>, filter: Option<string>)
    requires forall i :: 0 <= i < |ids| ==> ids[i] in tasks
    requires id in tasks
    ensures Select(ids + [id], tasks, filter)
         == Select(ids, tasks, filter) + (if Matches(filter, tasks[id]) then [View(id, tasks[id])] else [])
  {
    if ids == [] {
      assert [] + [id] == [id];
    } else {
      var head := if Matches(filter, tasks[ids[0]]) then [View(ids[0], tasks[ids[0]])] else [];
      var tail := if Matches(filter, tasks[id]) then [View(id, tasks[id])] else [];
      assert (ids + [id])[0] == ids[0];
      assert (ids + [id])[1..] == ids[1..] + [id];
      assert Select(ids + [id], tasks, filter) == head + Select(ids[1..] + [id], tasks, filter);
      SelectAppend(ids[1..], id, tasks, filter);
      assert Select(ids, tasks, filter) == head + Select(ids[1..], tasks, filter);
      assert head + (Select(ids[1..], tasks, filter) + tail) == (head + Select(ids[1..], tasks, filter)) + tail;
    }
  }

  /** The same step for a growing prefix of `ids`, as the listing loop walks it. */
  lemma SelectPrefix(ids: seq<TaskId>, i: nat, tasks: map<TaskId, Task>, filter: Option<string>)
    requires forall j :: 0 <= j < |ids| ==> ids[j] in tasks
    requires i < |ids|
    ensures Select(ids[..i + 1], tasks, filter)
         == Select(ids[..i], tasks, filter) + (if Matches(filter, tasks[ids[i]]) then [View(ids[i], tasks[ids[i]])] else [])
  {
    assert ids[..i + 1] == ids[..i] + [ids[i]];
    SelectAppend(ids[..i], ids[i], tasks, filter);
  }

  /** Every id of the window whose task matches the filter is listed. */
  lemma {:induction false} SelectComplete(ids: seq<TaskId>, tasks: map<TaskId, Task>, filter: Option<string>, k: TaskId)
    requires forall i :: 0 <= i < |ids| ==> ids[i] in tasks
    requires k in ids && Matches(filter, tasks[k])
    ensures View(k, tasks[k]) in Select(ids, tasks, filter)
  {
    if ids[0] != k {
      SelectComplete(ids[1..], tasks, filter, k);
    }
  }

  /** The listed ids keep the window's order: they form a subsequence of it. */
  lemma {:induction false} SelectKeepsOrder(ids: seq<TaskId>, tasks: map<TaskId, Task>, filter: Option<string>)
    requires forall i :: 0 <= i < |ids| ==> ids[i] in tasks
    ensures IsSubsequence(TaskIds(Select(ids, tasks, filter)), ids)
  {
    if ids != [] {
      var rest := Select(ids[1..], tasks, filter);
      SelectKeepsOrder(ids[1..], tasks, filter);
      assert [ids[0]] + ids[1..] == ids;
      if Matches(filter, tasks[ids[0]]) {
        var r := [View(ids[0], tasks[ids[0]])] + rest;
        assert r[1..] == rest;
        assert TaskIds(r) == [ids[0]] + TaskIds(rest);
        assert TaskIds(r)[1..] == TaskIds(rest);
      } else {
        assert Select(ids, tasks, filter) == rest;
        SubsequencePrepend(ids[0], TaskIds(rest), ids[1..]);
      }
    }
  }

  /** With a non-negative offset and limit the window is the run of ids from position
      `offset` on, at most `limit` of them, cut off at the end of the registry. */
  lemma WindowNonNegative(order: seq<TaskId>, limit: int, offset: int)
    requires 0 <= offset && 0 <= limit
    ensures var lo := if offset <= |order| then offset else |order|;
      var hi := if offset + limit <= |order| then offset + limit else |order|;
      Window(order, limit, offset) == order[lo..hi]
    ensures |Window(order, limit, offset)| <= limit
  {
  }

  /** A negative offset counts from the end, and so does the stop `offset + limit` when it
      is negative too: `[-1:limit-1]` is the newest task only when `limit` exceeds the
      number of tasks, and empty otherwise (so for `limit = 1`, or the default 50 once the
      registry holds 50 tasks). */
  lemma WindowNegativeOffset(order: seq<TaskId>, limit: int)
    ensures Window(order, limit, -1) == if |order| > 0 && limit > |order| then [order[|order| - 1]] else []
  {
  }

  /** With a non-negative offset and limit, no more than `limit` tasks are listed. */
  lemma ListingBounded(order: seq<TaskId>, tasks: map<TaskId, Task>, filter: Option<string>, limit: int, offset: int)
    requires forall i :: 0 <= i < |order| ==> order[i] in tasks
    requires 0 <= offset && 0 <= limit
    ensures |Select(Window(order, limit, offset), tasks, filter)| <= limit
  {
    WindowNonNegative(order, limit, offset);
  }
}

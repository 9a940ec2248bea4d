/** The transfer task registry of the layered program: an ordered list of
    tasks and a counter that hands out task ids. A task goes Pending ->
    InProgress -> Completed | Failed, and Failed -> Pending again on retry;
    the queue itself guards none of these transitions. */
module DomainTransfer {
  import opened Wrappers

  datatype Direction = Upload | Download

  datatype TransferStatus = Pending | InProgress | Completed | Failed(error: string)

  /** A reading of the monotonic clock. The queue reads the clock when a task
      first reports progress; here the caller passes that reading in. */
  type Instant = nat

  datatype TransferTask = TransferTask(
    id: nat,
    direction: Direction,
    localPath: string,
    remotePath: string,
    fileName: string,
    size: nat,
    progress: real,
    status: TransferStatus,
    startedAt: Option<Instant>)

  /** The task `enqueue` appends. */
  function NewTask(id: nat, direction: Direction, localPath: string, remotePath: string,
                   fileName: string, size: nat): (t: TransferTask)
    ensures t.id == id && t.status == Pending && t.progress == 0.0 && t.startedAt == None
    ensures t.direction == direction && t.localPath == localPath && t.remotePath == remotePath
    ensures t.fileName == fileName && t.size == size
  {
    TransferTask(id, direction, localPath, remotePath, fileName, size, 0.0, Pending, None)
  }

  // ---------------------------------------------------------------------------
  // The queue's operations as functions of the task list

  /** Ids strictly increase along the list (so no id occurs twice). */
  ghost predicate IdsIncreasing(tasks: seq<TransferTask>) {
    forall i, j :: 0 <= i < j < |tasks| ==> tasks[i].id < tasks[j].id
  }

  /** Position of the first task with this id, or |tasks| if there is none
      (`iter_mut().find(|t| t.id == id)`). */
  function Find(tasks: seq<TransferTask>, id: nat): (k: nat)
    ensures k <= |tasks|
    ensures k < |tasks| ==> tasks[k].id == id
    ensures forall j :: 0 <= j < k ==> tasks[j].id != id
  {
    if tasks == [] then 0
    else if tasks[0].id == id then 0
    else 1 + Find(tasks[1..], id)
  }

  /** What each per-task operation assigns to the task it finds. */
  datatype Op =
    | SetProgress(progress: real, now: Instant)   // update_progress
    | Complete                                     // mark_completed
    | SetFailed(error: string)                     // mark_failed

  function Apply(op: Op, t: TransferTask): (u: TransferTask)
    ensures u.id == t.id && u.direction == t.direction && u.localPath == t.localPath
    ensures u.remotePath == t.remotePath && u.fileName == t.fileName && u.size == t.size
  {
    match op
    case SetProgress(p, now) =>
      t.(startedAt := if t.startedAt.None? then Some(now) else t.startedAt,
         progress := p, status := InProgress)
    case Complete => t.(progress := 1.0, status := Completed)
    case SetFailed(e) => t.(status := Failed(e))
  }

  /** The task list after applying `op` to the task with this id; unchanged
      when no task has it. */
  function ApplyToId(tasks: seq<TransferTask>, id: nat, op: Op): seq<TransferTask> {
    var k := Find(tasks, id);
    if k == |tasks| then tasks else tasks[k := Apply(op, tasks[k])]
  }

  /** `retain(|t| t.status != Completed)`. */
  function Retain(tasks: seq<TransferTask>): (r: seq<TransferTask>)
    ensures |r| <= |tasks|
    ensures forall i :: 0 <= i < |r| ==> r[i].status != Completed
  {
    if tasks == [] then []
    else if tasks[0].status == Completed then Retain(tasks[1..])
    else [tasks[0]] + Retain(tasks[1..])
  }

  /** The first task whose status is Pending, in insertion order. */
  function FirstPending(tasks: seq<TransferTask>): (r: Option<TransferTask>)
    ensures r.Some? ==> r.value in tasks && r.value.status == Pending
  {
    if tasks == [] then None
    else if tasks[0].status == Pending then Some(tasks[0])
    else FirstPending(tasks[1..])
  }

  /** The task list after `retry(id)`, and what `retry` returns. */
  function RetryResult(tasks: seq<TransferTask>, id: nat): (seq<TransferTask>, bool) {
    var k := Find(tasks, id);
    if k < |tasks| && tasks[k].status.Failed? then
      (tasks[k := tasks[k].(status := Pending, progress := 0.0, startedAt := None)], true)
    else (tasks, false)
  }

  /** `get_task(id)`: a copy of the task with this id, if any. */
  function TaskWithId(tasks: seq<TransferTask>, id: nat): Option<TransferTask> {
    var k := Find(tasks, id);
    if k < |tasks| then Some(tasks[k]) else None
  }

  // ---------------------------------------------------------------------------
  // The queue object

  class TransferQueue {
    var tasks: seq<TransferTask>
    var nextId: nat

    /** Ids are strictly increasing and every id handed out is below `nextId`. */
    ghost predicate Valid()
      reads this
    {
      IdsIncreasing(tasks) && forall i :: 0 <= i < |tasks| ==> tasks[i].id < nextId
    }

    constructor ()
      ensures Valid() && tasks == [] && nextId == 0
    {
      tasks := [];
      nextId := 0;
    }

    method Enqueue(direction: Direction, localPath: string, remotePath: string,
                   fileName: string, size: nat) returns (id: nat)
      requires Valid()
      modifies this
      ensures Valid()
      ensures id == old(nextId) && nextId == old(nextId) + 1
      ensures tasks == old(tasks) + [NewTask(id, direction, localPath, remotePath, fileName, size)]
    {
      id := nextId;
      nextId := nextId + 1;
      tasks := tasks + [NewTask(id, direction, localPath, remotePath, fileName, size)];
      EnqueueKeepsIdsIncreasing(old(tasks), id, NewTask(id, direction, localPath, remotePath, fileName, size));
    }

    /** The position of the first task with this id (the `find` every
        per-task operation starts with). */
    method Locate(id: nat) returns (k: nat)
      ensures k == Find(tasks, id)
    {
      k := 0;
      while k < |tasks| && tasks[k].id != id
        invariant k <= |tasks|
        invariant forall j :: 0 <= j < k ==> tasks[j].id != id
      {
        k := k + 1;
      }
      FindIsFirstMatch(tasks, id, k);
    }

    method NextPending() returns (t: Option<TransferTask>)
      ensures t == FirstPending(tasks)
    {
      var i := 0;
      while i < |tasks| && tasks[i].status != Pending
        invariant i <= |tasks|
        invariant FirstPending(tasks) == FirstPending(tasks[i..])
      {
        assert tasks[i..][1..] == tasks[i + 1..];
        i := i + 1;
      }
      t := if i < |tasks| then Some(tasks[i]) else None;
    }

    method UpdateProgress(id: nat, progress: real, now: Instant)
      requires Valid()
      modifies this
      ensures Valid() && nextId == old(nextId)
      ensures tasks == ApplyToId(old(tasks), id, SetProgress(progress, now))
    {
      var k := Locate(id);
      if k < |tasks| {
        var t := tasks[k];
        if t.startedAt.None? {
          t := t.(startedAt := Some(now));
        }
        t := t.(progress := progress, status := InProgress);
        tasks := tasks[k := t];
      }
      ApplyToIdKeepsIds(old(tasks), id, SetProgress(progress, now));
    }

    method MarkCompleted(id: nat)
      requires Valid()
      modifies this
      ensures Valid() && nextId == old(nextId)
      ensures tasks == ApplyToId(old(tasks), id, Complete)
    {
      var k := Locate(id);
      if k < |tasks| {
        tasks := tasks[k := tasks[k].(progress := 1.0, status := Completed)];
      }
      ApplyToIdKeepsIds(old(tasks), id, Complete);
    }

    method MarkFailed(id: nat, error: string)
      requires Valid()
      modifies this
      ensures Valid() && nextId == old(nextId)
      ensures tasks == ApplyToId(old(tasks), id, SetFailed(error))
    {
      var k := Locate(id);
      if k < |tasks| {
        tasks := tasks[k := tasks[k].(status := Failed(error))];
      }
      ApplyToIdKeepsIds(old(tasks), id, SetFailed(error));
    }

    method Snapshot() returns (s: seq<TransferTask>)
      ensures s == tasks
    {
      s := tasks;
    }

    /** Drops every Completed task, in place, keeping the others in order. */
    method ClearCompleted()
      requires Valid()
      modifies this
      ensures Valid() && nextId == old(nextId)
      ensures tasks == Retain(old(tasks))
    {
      var all := tasks;
      var kept: seq<TransferTask> := [];
      var i := 0;
      while i < |all|
        invariant i <= |all|
        invariant kept == Retain(all[..i])
        invariant tasks == all && nextId == old(nextId)
      {
        RetainSnoc(all[..i], all[i]);
        assert all[..i + 1] == all[..i] + [all[i]];
        if all[i].status != Completed {
          kept := kept + [all[i]];
        }
        i := i + 1;
      }
      assert all[..i] == all;
      RetainKeepsValid(all, nextId);
      tasks := kept;
    }

    method Retry(id: nat) returns (ok: bool)
      requires Valid()
      modifies this
      ensures Valid() && nextId == old(nextId)
      ensures (tasks, ok) == RetryResult(old(tasks), id)
    {
      var k := Locate(id);
      ok := false;
      if k < |tasks| && tasks[k].status.Failed? {
        tasks := tasks[k := tasks[k].(status := Pending, progress := 0.0, startedAt := None)];
        ok := true;
      }
    }

    method GetTask(id: nat) returns (t: Option<TransferTask>)
      ensures t == TaskWithId(tasks, id)
    {
      var k := Locate(id);
      t := if k < |tasks| then Some(tasks[k]) else None;
    }
  }

  // ---------------------------------------------------------------------------
  // Lemmas

  lemma FindIsFirstMatch(tasks: seq<TransferTask>, id: nat, k: nat)
    requires k <= |tasks|
    requires k < |tasks| ==> tasks[k].id == id
    requires forall j :: 0 <= j < k ==> tasks[j].id != id
    ensures k == Find(tasks, id)
  {
  }

  /** A fresh id above every id in the list keeps the ids increasing. */
  lemma EnqueueKeepsIdsIncreasing(tasks: seq<TransferTask>, n: nat, t: TransferTask)
    requires IdsIncreasing(tasks) && forall i :: 0 <= i < |tasks| ==> tasks[i].id < n
    requires t.id == n
    ensures IdsIncreasing(tasks + [t])
    ensures forall i :: 0 <= i < |tasks + [t]| ==> (tasks + [t])[i].id < n + 1
  {
  }

  /** Under increasing ids the task that `Find` locates is the only one with
      that id, so every per-task operation touches exactly that task. */
  lemma FindIsUnique(tasks: seq<TransferTask>, id: nat, j: nat)
    requires IdsIncreasing(tasks)
    requires j < |tasks| && tasks[j].id == id
    ensures Find(tasks, id) == j
  {
  }

  /** A per-task operation changes the one task with that id and nothing
      else; an unknown id changes nothing. */
  lemma {:induction false} ApplyToIdFrame(tasks: seq<TransferTask>, id: nat, op: Op)
    ensures |ApplyToId(tasks, id, op)| == |tasks|
    ensures forall i :: 0 <= i < |tasks| && tasks[i].id != id ==> ApplyToId(tasks, id, op)[i] == tasks[i]
    ensures (forall i :: 0 <= i < |tasks| ==> tasks[i].id != id) ==> ApplyToId(tasks, id, op) == tasks
    ensures Find(tasks, id) < |tasks| ==>
      ApplyToId(tasks, id, op)[Find(tasks, id)] == Apply(op, tasks[Find(tasks, id)])
  {
    var k := Find(tasks, id);
    if forall i :: 0 <= i < |tasks| ==> tasks[i].id != id {
      assert k == |tasks|;
    }
  }

  lemma ApplyToIdKeepsIds(tasks: seq<TransferTask>, id: nat, op: Op)
    ensures |ApplyToId(tasks, id, op)| == |tasks|
    ensures forall i :: 0 <= i < |tasks| ==> ApplyToId(tasks, id, op)[i].id == tasks[i].id
  {
  }

  /** `update_progress` on an existing task: progress is the given value,
      status InProgress, and the start time is set only if it was unset. */
  lemma UpdateProgressEffect(tasks: seq<TransferTask>, id: nat, p: real, now: Instant, j: nat)
    requires IdsIncreasing(tasks)
    requires j < |tasks| && tasks[j].id == id
    ensures ApplyToId(tasks, id, SetProgress(p, now))[j].progress == p
    ensures ApplyToId(tasks, id, SetProgress(p, now))[j].status == InProgress
    ensures ApplyToId(tasks, id, SetProgress(p, now))[j].startedAt ==
      if tasks[j].startedAt.None? then Some(now) else tasks[j].startedAt
  {
    FindIsUnique(tasks, id, j);
  }

  /** Nothing guards the transitions: progress reopens a Completed or a Failed
      task, and completion overrides a failure. */
  lemma NoTransitionGuards(t: TransferTask, p: real, now: Instant)
    requires t.status == Completed || t.status.Failed?
    ensures Apply(SetProgress(p, now), t).status == InProgress
    ensures t.status.Failed? ==> Apply(Complete, t).status == Completed && Apply(Complete, t).progress == 1.0
  {
  }

  /** `mark_failed` records the reason and leaves the progress as it was. */
  lemma MarkFailedKeepsProgress(t: TransferTask, e: string)
    ensures Apply(SetFailed(e), t).status == Failed(e) && Apply(SetFailed(e), t).progress == t.progress
    ensures Apply(SetFailed(e), t).startedAt == t.startedAt
  {
  }

  lemma {:induction false} RetainAppend(a: seq<TransferTask>, b: seq<TransferTask>)
    ensures Retain(a + b) == Retain(a) + Retain(b)
  {
    if a == [] {
      assert a + b == b;
    } else {
      assert (a + b)[0] == a[0];
      assert (a + b)[1..] == a[1..] + b;
      RetainAppend(a[1..], b);
    }
  }

  lemma RetainSnoc(a: seq<TransferTask>, t: TransferTask)
    ensures Retain(a + [t]) == Retain(a) + (if t.status == Completed then [] else [t])
  {
    RetainAppend(a, [t]);
    assert [t][1..] == [];
  }

  /** `clear_completed` removes exactly the Completed tasks: a task is kept iff
      it is not Completed, and the kept ones stay in their relative order
      (`Retain` distributes over concatenation). */
  lemma {:induction false} RetainKeepsExactlyUnfinished(tasks: seq<TransferTask>, t: TransferTask)
    ensures t in Retain(tasks) <==> t in tasks && t.status != Completed
  {
    if tasks != [] {
      RetainKeepsExactlyUnfinished(tasks[1..], t);
      assert tasks == [tasks[0]] + tasks[1..];
    }
  }

  lemma {:induction false} RetainMembers(tasks: seq<TransferTask>)
    ensures forall x :: x in Retain(tasks) ==> x in tasks
  {
    if tasks != [] {
      RetainMembers(tasks[1..]);
    }
  }

  lemma HeadIdBelowTail(tasks: seq<TransferTask>)
    requires IdsIncreasing(tasks) && tasks != []
    ensures forall x :: x in tasks[1..] ==> tasks[0].id < x.id
  {
    forall x | x in tasks[1..] ensures tasks[0].id < x.id {
      var j :| 0 <= j < |tasks[1..]| && tasks[1..][j] == x;
      assert tasks[j + 1] == x;
    }
  }

  /** Dropping tasks from a list with increasing ids, all below `n`, leaves
      the ids increasing and below `n`. */
  lemma {:induction false} RetainKeepsValid(tasks: seq<TransferTask>, n: nat)
    requires IdsIncreasing(tasks) && forall i :: 0 <= i < |tasks| ==> tasks[i].id < n
    ensures IdsIncreasing(Retain(tasks))
    ensures forall i :: 0 <= i < |Retain(tasks)| ==> Retain(tasks)[i].id < n
  {
    RetainMembers(tasks);
    if tasks != [] {
      var rest := Retain(tasks[1..]);
      RetainKeepsValid(tasks[1..], n);
      RetainMembers(tasks[1..]);
      HeadIdBelowTail(tasks);
      if tasks[0].status != Completed {
        var r := [tasks[0]] + rest;
        assert Retain(tasks) == r;
        forall i, j | 0 <= i < j < |r| ensures r[i].id < r[j].id {
          assert r[j] == rest[j - 1];
          if i > 0 {
            assert r[i] == rest[i - 1];
          } else {
            assert rest[j - 1] in rest;
          }
        }
      }
      forall i | 0 <= i < |Retain(tasks)| ensures Retain(tasks)[i].id < n {
        assert Retain(tasks)[i] in Retain(tasks);
      }
    }
  }

  /** `retry` returns true iff the task exists and is Failed; then only that
      task changes, to Pending with no progress and no start time. Otherwise
      the list is unchanged. */
  lemma RetryContract(tasks: seq<TransferTask>, id: nat)
    requires IdsIncreasing(tasks)
    ensures RetryResult(tasks, id).1 <==> exists j :: 0 <= j < |tasks| && tasks[j].id == id && tasks[j].status.Failed?
    ensures !RetryResult(tasks, id).1 ==> RetryResult(tasks, id).0 == tasks
    ensures forall j :: 0 <= j < |tasks| && tasks[j].id == id && tasks[j].status.Failed? ==>
      var r := RetryResult(tasks, id).0;
      |r| == |tasks| && r[j].status == Pending && r[j].progress == 0.0 && r[j].startedAt == None &&
      forall i :: 0 <= i < |tasks| && i != j ==> r[i] == tasks[i]
  {
    forall j | 0 <= j < |tasks| && tasks[j].id == id ensures Find(tasks, id) == j {
      FindIsUnique(tasks, id, j);
    }
  }

  /** `get_task` finds the task with the id, or reports none. */
  lemma TaskWithIdContract(tasks: seq<TransferTask>, id: nat)
    requires IdsIncreasing(tasks)
    ensures TaskWithId(tasks, id).Some? <==> exists j :: 0 <= j < |tasks| && tasks[j].id == id
    ensures forall j :: 0 <= j < |tasks| && tasks[j].id == id ==> TaskWithId(tasks, id) == Some(tasks[j])
  {
    forall j | 0 <= j < |tasks| && tasks[j].id == id ensures Find(tasks, id) == j {
      FindIsUnique(tasks, id, j);
    }
  }

  /** `next_pending` returns the earliest Pending task: every task before it
      has another status. */
  lemma {:induction false} FirstPendingIsEarliest(tasks: seq<TransferTask>)
    ensures FirstPending(tasks).None? <==> forall i :: 0 <= i < |tasks| ==> tasks[i].status != Pending
    ensures FirstPending(tasks).Some? ==>
      exists j :: 0 <= j < |tasks| && tasks[j] == FirstPending(tasks).value &&
                  forall i :: 0 <= i < j ==> tasks[i].status != Pending
  {
    if tasks != [] && tasks[0].status != Pending {
      FirstPendingIsEarliest(tasks[1..]);
      if FirstPending(tasks).Some? {
        var j :| 0 <= j < |tasks[1..]| && tasks[1..][j] == FirstPending(tasks).value &&
          forall i :: 0 <= i < j ==> tasks[1..][i].status != Pending;
        assert tasks[j + 1] == FirstPending(tasks).value;
        assert forall i :: 0 <= i < j + 1 ==> tasks[i].status != Pending by {
          forall i | 0 <= i < j + 1 ensures tasks[i].status != Pending {
            if i > 0 { assert tasks[i] == tasks[1..][i - 1]; }
          }
        }
      } else {
        forall i | 0 <= i < |tasks| ensures tasks[i].status != Pending {
          if i > 0 { assert tasks[i] == tasks[1..][i - 1]; }
        }
      }
    }
  }

  /** Two tasks enqueued as ids 0 and 1; the first completes; clearing the
      completed ones leaves the second, untouched. */
  lemma ClearAfterCompletingFirst(a: TransferTask, b: TransferTask)
    requires a.id == 0 && b.id == 1 && a.status == Pending && b.status == Pending
    ensures Retain(ApplyToId([a, b], 0, Complete)) == [b]
  {
    assert ApplyToId([a, b], 0, Complete) == [Apply(Complete, a), b];
    assert [Apply(Complete, a), b][1..] == [b];
    assert [b][1..] == [];
  }

  /** Any empty queue with its counter at 0, a new one included, hands out 0
      and then 1, and both tasks start Pending at progress 0. */
  method EnqueueStartsAtZero(q: TransferQueue) returns (id0: nat, id1: nat)
    requires q.Valid() && q.tasks == [] && q.nextId == 0
    modifies q
    ensures id0 == 0 && id1 == 1 && q.nextId == 2
    ensures |q.tasks| == 2 && q.tasks[0].id == 0 && q.tasks[1].id == 1
    ensures forall i :: 0 <= i < 2 ==> q.tasks[i].status == Pending && q.tasks[i].progress == 0.0
  {
    id0 := q.Enqueue(Upload, "a", "r", "a", 0);
    id1 := q.Enqueue(Download, "b", "r", "b", 0);
  }
}

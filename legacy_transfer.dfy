/** The transfer queue of the original flat modules. It has the same fields
    and operations as the layered one, except that a task has no start time
    and there is no `retry` and no `get_task`. Its operations are proved to be
    the layered queue's operations seen through the projection that forgets
    the start time, so every property proved there carries over. */
module LegacyTransfer {
  import opened Wrappers
  import D = DomainTransfer

  datatype TransferTask = TransferTask(
    id: nat,
    direction: D.Direction,
    localPath: string,
    remotePath: string,
    fileName: string,
    size: nat,
    progress: real,
    status: D.TransferStatus)

  /** The older view of a task of the layered queue: the start time dropped. */
  function Project(t: D.TransferTask): (u: TransferTask)
    ensures u.id == t.id && u.progress == t.progress && u.status == t.status
  {
    TransferTask(t.id, t.direction, t.localPath, t.remotePath, t.fileName, t.size, t.progress, t.status)
  }

  function ProjectAll(ts: seq<D.TransferTask>): (us: seq<TransferTask>)
    ensures |us| == |ts|
    ensures forall i :: 0 <= i < |ts| ==> us[i] == Project(ts[i])
  {
    seq(|ts|, i requires 0 <= i < |ts| => Project(ts[i]))
  }

  /** A task of the layered queue with this older task's fields and no start time. */
  function Lift(t: TransferTask): (u: D.TransferTask)
    ensures Project(u) == t && u.startedAt == None
  {
    D.TransferTask(t.id, t.direction, t.localPath, t.remotePath, t.fileName, t.size, t.progress, t.status, None)
  }

  function LiftAll(us: seq<TransferTask>): (ts: seq<D.TransferTask>)
    ensures |ts| == |us| && ProjectAll(ts) == us
  {
    seq(|us|, i requires 0 <= i < |us| => Lift(us[i]))
  }

  ghost predicate IdsIncreasing(tasks: seq<TransferTask>) {
    forall i, j :: 0 <= i < j < |tasks| ==> tasks[i].id < tasks[j].id
  }

  function NewTask(id: nat, direction: D.Direction, localPath: string, remotePath: string,
                   fileName: string, size: nat): (t: TransferTask)
    ensures t == Project(D.NewTask(id, direction, localPath, remotePath, fileName, size))
  {
    TransferTask(id, direction, localPath, remotePath, fileName, size, 0.0, D.Pending)
  }

  function Find(tasks: seq<TransferTask>, id: nat): (k: nat)
    ensures k <= |tasks|
    ensures k < |tasks| ==> tasks[k].id == id
    ensures forall j :: 0 <= j < k ==> tasks[j].id != id
  {
    if tasks == [] then 0
    else if tasks[0].id == id then 0
    else 1 + Find(tasks[1..], id)
  }

  /** The per-task operations of the older queue: `update_progress` sets no
      start time, so it needs no clock reading. */
  datatype Op = SetProgress(progress: real) | Complete | SetFailed(error: string)

  function Apply(op: Op, t: TransferTask): TransferTask {
    match op
    case SetProgress(p) => t.(progress := p, status := D.InProgress)
    case Complete => t.(progress := 1.0, status := D.Completed)
    case SetFailed(e) => t.(status := D.Failed(e))
  }

  /** The layered operation matching an older one (any clock reading will do). */
  function ToDomain(op: Op, now: D.Instant): D.Op {
    match op
    case SetProgress(p) => D.SetProgress(p, now)
    case Complete => D.Complete
    case SetFailed(e) => D.SetFailed(e)
  }

  function ApplyToId(tasks: seq<TransferTask>, id: nat, op: Op): seq<TransferTask> {
    var k := Find(tasks, id);
    if k == |tasks| then tasks else tasks[k := Apply(op, tasks[k])]
  }

  function Retain(tasks: seq<TransferTask>): (r: seq<TransferTask>)
    ensures |r| <= |tasks|
  {
    if tasks == [] then []
    else if tasks[0].status == D.Completed then Retain(tasks[1..])
    else [tasks[0]] + Retain(tasks[1..])
  }

  function FirstPending(tasks: seq<TransferTask>): Option<TransferTask> {
    if tasks == [] then None
    else if tasks[0].status == D.Pending then Some(tasks[0])
    else FirstPending(tasks[1..])
  }

  // ---------------------------------------------------------------------------
  // The older operations are the layered ones seen through the projection

  lemma {:induction false} FindAgrees(ts: seq<D.TransferTask>, id: nat)
    ensures Find(ProjectAll(ts), id) == D.Find(ts, id)
  {
    if ts != [] {
      FindAgrees(ts[1..], id);
      assert ProjectAll(ts)[1..] == ProjectAll(ts[1..]);
    }
  }

  /** `update_progress`, `mark_completed` and `mark_failed` of the older queue
      are those of the layered queue with the start time forgotten. */
  lemma ApplyToIdAgrees(ts: seq<D.TransferTask>, id: nat, op: Op, now: D.Instant)
    ensures ApplyToId(ProjectAll(ts), id, op) == ProjectAll(D.ApplyToId(ts, id, ToDomain(op, now)))
  {
    FindAgrees(ts, id);
  }

  lemma {:induction false} RetainAgrees(ts: seq<D.TransferTask>)
    ensures Retain(ProjectAll(ts)) == ProjectAll(D.Retain(ts))
  {
    if ts != [] {
      RetainAgrees(ts[1..]);
      assert ProjectAll(ts)[1..] == ProjectAll(ts[1..]);
      if ts[0].status != D.Completed {
        assert ProjectAll([ts[0]] + D.Retain(ts[1..])) == [Project(ts[0])] + ProjectAll(D.Retain(ts[1..]));
      }
    }
  }

  lemma {:induction false} FirstPendingAgrees(ts: seq<D.TransferTask>)
    ensures FirstPending(ProjectAll(ts)) ==
      if D.FirstPending(ts).Some? then Some(Project(D.FirstPending(ts).value)) else None
  {
    if ts != [] {
      FirstPendingAgrees(ts[1..]);
      assert ProjectAll(ts)[1..] == ProjectAll(ts[1..]);
    }
  }

  lemma IdsAgree(ts: seq<D.TransferTask>)
    ensures IdsIncreasing(ProjectAll(ts)) <==> D.IdsIncreasing(ts)
  {
  }

  /** Hence in the older queue too: a per-task operation changes only the task
      with that id, and an unknown id changes nothing. */
  lemma ApplyToIdFrame(tasks: seq<TransferTask>, id: nat, op: Op)
    ensures |ApplyToId(tasks, id, op)| == |tasks|
    ensures forall i :: 0 <= i < |tasks| && tasks[i].id != id ==> ApplyToId(tasks, id, op)[i] == tasks[i]
    ensures (forall i :: 0 <= i < |tasks| ==> tasks[i].id != id) ==> ApplyToId(tasks, id, op) == tasks
  {
    var ts := LiftAll(tasks);
    ApplyToIdAgrees(ts, id, op, 0);
    D.ApplyToIdFrame(ts, id, ToDomain(op, 0));
  }

  /** Hence `clear_completed` of the older queue keeps exactly the tasks that
      are not Completed. */
  lemma RetainKeepsExactlyUnfinished(tasks: seq<TransferTask>, t: TransferTask)
    ensures t in Retain(tasks) <==> t in tasks && t.status != D.Completed
  {
    var ts := LiftAll(tasks);
    RetainAgrees(ts);
    D.RetainKeepsExactlyUnfinished(ts, Lift(t));
    assert t in Retain(tasks) <==> Lift(t) in D.Retain(ts) by {
      D.RetainMembers(ts);
      forall i | 0 <= i < |D.Retain(ts)| ensures D.Retain(ts)[i].startedAt == None {
        assert D.Retain(ts)[i] in D.Retain(ts);
      }
      ProjectLiftMembers(D.Retain(ts), t);
    }
    assert t in tasks <==> Lift(t) in ts by {
      ProjectLiftMembers(ts, t);
    }
  }

  /** For a list whose tasks carry no start time, `t` is in its projection iff
      `Lift(t)` is in the list. */
  lemma ProjectLiftMembers(ts: seq<D.TransferTask>, t: TransferTask)
    requires forall i :: 0 <= i < |ts| ==> ts[i].startedAt == None
    ensures t in ProjectAll(ts) <==> Lift(t) in ts
  {
    if t in ProjectAll(ts) {
      var i :| 0 <= i < |ts| && ProjectAll(ts)[i] == t;
      assert ts[i] == Lift(t);
    }
    if Lift(t) in ts {
      var i :| 0 <= i < |ts| && ts[i] == Lift(t);
      assert ProjectAll(ts)[i] == t;
    }
  }

  class TransferQueue {
    var tasks: seq<TransferTask>
    var nextId: nat

    ghost predicate Valid()
      reads this
    {
      IdsIncreasing(tasks) && forall i :: 0 <= i < |tasks| ==> tasks[i].id < nextId
    }

    constructor ()
      ensures Valid() && tasks == [] && nextId == 0
    {
      tasks := [];
      nextId := 0;
    }

    method Enqueue(direction: D.Direction, localPath: string, remotePath: string,
                   fileName: string, size: nat) returns (id: nat)
      requires Valid()
      modifies this
      ensures Valid()
      ensures id == old(nextId) && nextId == old(nextId) + 1
      ensures tasks == old(tasks) + [NewTask(id, direction, localPath, remotePath, fileName, size)]
    {
      id := nextId;
      nextId := nextId + 1;
      tasks := tasks + [NewTask(id, direction, localPath, remotePath, fileName, size)];
    }

    method Locate(id: nat) returns (k: nat)
      ensures k == Find(tasks, id)
    {
      k := 0;
      while k < |tasks| && tasks[k].id != id
        invariant k <= |tasks|
        invariant forall j :: 0 <= j < k ==> tasks[j].id != id
      {
        k := k + 1;
      }
      FindIsFirstMatch(tasks, id, k);
    }

    method NextPending() returns (t: Option<TransferTask>)
      ensures t == FirstPending(tasks)
    {
      var i := 0;
      while i < |tasks| && tasks[i].status != D.Pending
        invariant i <= |tasks|
        invariant FirstPending(tasks) == FirstPending(tasks[i..])
      {
        assert tasks[i..][1..] == tasks[i + 1..];
        i := i + 1;
      }
      t := if i < |tasks| then Some(tasks[i]) else None;
    }

    method UpdateProgress(id: nat, progress: real)
      requires Valid()
      modifies this
      ensures Valid() && nextId == old(nextId)
      ensures tasks == ApplyToId(old(tasks), id, SetProgress(progress))
    {
      var k := Locate(id);
      if k < |tasks| {
        tasks := tasks[k := tasks[k].(progress := progress, status := D.InProgress)];
      }
    }

    method MarkCompleted(id: nat)
      requires Valid()
      modifies this
      ensures Valid() && nextId == old(nextId)
      ensures tasks == ApplyToId(old(tasks), id, Complete)
    {
      var k := Locate(id);
      if k < |tasks| {
        tasks := tasks[k := tasks[k].(progress := 1.0, status := D.Completed)];
      }
    }

    method MarkFailed(id: nat, error: string)
      requires Valid()
      modifies this
      ensures Valid() && nextId == old(nextId)
      ensures tasks == ApplyToId(old(tasks), id, SetFailed(error))
    {
      var k := Locate(id);
      if k < |tasks| {
        tasks := tasks[k := tasks[k].(status := D.Failed(error))];
      }
    }

    method Snapshot() returns (s: seq<TransferTask>)
      ensures s == tasks
    {
      s := tasks;
    }

    method ClearCompleted()
      requires Valid()
      modifies this
      ensures Valid() && nextId == old(nextId)
      ensures tasks == Retain(old(tasks))
    {
      var all := tasks;
      var kept: seq<TransferTask> := [];
      var i := 0;
      while i < |all|
        invariant i <= |all|
        invariant kept == Retain(all[..i])
        invariant tasks == all && nextId == old(nextId)
      {
        RetainSnoc(all[..i], all[i]);
        assert all[..i + 1] == all[..i] + [all[i]];
        if all[i].status != D.Completed {
          kept := kept + [all[i]];
        }
        i := i + 1;
      }
      assert all[..i] == all;
      RetainKeepsValid(all, nextId);
      tasks := kept;
    }
  }

  lemma FindIsFirstMatch(tasks: seq<TransferTask>, id: nat, k: nat)
    requires k <= |tasks|
    requires k < |tasks| ==> tasks[k].id == id
    requires forall j :: 0 <= j < k ==> tasks[j].id != id
    ensures k == Find(tasks, id)
  {
  }

  lemma RetainSnoc(a: seq<TransferTask>, t: TransferTask)
    ensures Retain(a + [t]) == Retain(a) + (if t.status == D.Completed then [] else [t])
  {
    var ts := LiftAll(a);
    RetainAgrees(ts + [Lift(t)]);
    D.RetainSnoc(ts, Lift(t));
    RetainAgrees(ts);
    assert ProjectAll(ts + [Lift(t)]) == a + [t];
    assert ProjectAll(D.Retain(ts) + [Lift(t)]) == ProjectAll(D.Retain(ts)) + [t];
  }

  lemma RetainKeepsValid(tasks: seq<TransferTask>, n: nat)
    requires IdsIncreasing(tasks) && forall i :: 0 <= i < |tasks| ==> tasks[i].id < n
    ensures IdsIncreasing(Retain(tasks)) && forall i :: 0 <= i < |Retain(tasks)| ==> Retain(tasks)[i].id < n
  {
    var ts := LiftAll(tasks);
    IdsAgree(ts);
    D.RetainKeepsValid(ts, n);
    RetainAgrees(ts);
    IdsAgree(D.Retain(ts));
  }
}

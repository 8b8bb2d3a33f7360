/**
 The three list updaters the task store hands to its state setter
 (src/components/KanbanContext.tsx): `moveTask` maps, `addTask` appends
 unless the id is taken, `deleteTask` filters. Each takes the previous list
 and returns the next one.
 */
module TaskList {
  import opened KanbanTypes
  import opened Seqs

  /** Whether some task on the list carries the id `id`. */
  function ContainsId(tasks: seq<Task>, id: string): (b: bool)
    ensures b <==> exists i :: 0 <= i < |tasks| && tasks[i].id == id
  {
    if tasks == [] then false
    else tasks[0].id == id || ContainsId(tasks[1..], id)
  }

  /** The store's intended invariant: no two tasks share an id. */
  ghost predicate UniqueIds(tasks: seq<Task>) {
    forall i, j :: 0 <= i < j < |tasks| ==> tasks[i].id != tasks[j].id
  }

  // ---------------------------------------------------------------- moveTask

  /** The list with every task whose id is `taskId` placed in `newColumn`,
      all else as it was. */
  function MoveTask(tasks: seq<Task>, taskId: string, newColumn: Column): (r: seq<Task>)
    ensures |r| == |tasks|
    ensures forall i :: 0 <= i < |tasks| ==>
      r[i] == if tasks[i].id == taskId then tasks[i].(column := newColumn) else tasks[i]
  {
    if tasks == [] then []
    else
      var head := if tasks[0].id == taskId then tasks[0].(column := newColumn) else tasks[0];
      [head] + MoveTask(tasks[1..], taskId, newColumn)
  }

  /** Moving keeps every position's id, so the set of ids and their
      uniqueness are untouched. */
  lemma MoveTaskKeepsIds(tasks: seq<Task>, taskId: string, newColumn: Column)
    ensures forall i :: 0 <= i < |tasks| ==> MoveTask(tasks, taskId, newColumn)[i].id == tasks[i].id
    ensures forall id :: ContainsId(MoveTask(tasks, taskId, newColumn), id) <==> ContainsId(tasks, id)
    ensures UniqueIds(tasks) ==> UniqueIds(MoveTask(tasks, taskId, newColumn))
  {
  }

  /** An id that is not on the board leaves the list as it was. */
  lemma MoveTaskUnknownId(tasks: seq<Task>, taskId: string, newColumn: Column)
    requires !ContainsId(tasks, taskId)
    ensures MoveTask(tasks, taskId, newColumn) == tasks
  {
  }

  /** Moving twice to the same column is moving once. */
  lemma MoveTaskIdempotent(tasks: seq<Task>, taskId: string, newColumn: Column)
    ensures MoveTask(MoveTask(tasks, taskId, newColumn), taskId, newColumn) == MoveTask(tasks, taskId, newColumn)
  {
  }

  // ----------------------------------------------------------------- addTask

  /** The list with `task` appended, unless its id is already taken. */
  function AddTask(tasks: seq<Task>, task: Task): (r: seq<Task>)
    ensures ContainsId(r, task.id)
    ensures tasks <= r && |r| <= |tasks| + 1
  {
    if ContainsId(tasks, task.id) then tasks
    else
      assert (tasks + [task])[|tasks|] == task;
      tasks + [task]
  }

  /** A fresh id is appended at the end; a taken id changes nothing. */
  lemma AddTaskCases(tasks: seq<Task>, task: Task)
    ensures (forall i :: 0 <= i < |tasks| ==> tasks[i].id != task.id) ==> AddTask(tasks, task) == tasks + [task]
    ensures (exists i :: 0 <= i < |tasks| && tasks[i].id == task.id) ==> AddTask(tasks, task) == tasks
  {
  }

  /** Adding the same task again is a no-op. */
  lemma AddTaskIdempotent(tasks: seq<Task>, task: Task)
    ensures AddTask(AddTask(tasks, task), task) == AddTask(tasks, task)
  {
  }

  /** After an add, the ids on the board are the old ones plus the new one,
      and uniqueness is kept. */
  lemma AddTaskIds(tasks: seq<Task>, task: Task)
    ensures forall id :: ContainsId(AddTask(tasks, task), id) <==> ContainsId(tasks, id) || id == task.id
    ensures UniqueIds(tasks) ==> UniqueIds(AddTask(tasks, task))
  {
  }

  /** The list after a series of adds, one per element of `adds`. */
  function AddAll(tasks: seq<Task>, adds: seq<Task>): (r: seq<Task>)
    decreases |adds|
  {
    if adds == [] then tasks else AddAll(AddTask(tasks, adds[0]), adds[1..])
  }

  /** For any series of adds, duplicate submissions included, the board ends
      with exactly one task per distinct id: ids stay unique, and the ids
      present are the initial ones plus those submitted. */
  lemma {:induction false} AddAllUnique(tasks: seq<Task>, adds: seq<Task>)
    requires UniqueIds(tasks)
    ensures UniqueIds(AddAll(tasks, adds))
    ensures forall id :: ContainsId(AddAll(tasks, adds), id) <==>
      ContainsId(tasks, id) || exists k :: 0 <= k < |adds| && adds[k].id == id
    decreases |adds|
  {
    if adds != [] {
      var next := AddTask(tasks, adds[0]);
      AddTaskIds(tasks, adds[0]);
      AddAllUnique(next, adds[1..]);
      forall id
        ensures ContainsId(AddAll(tasks, adds), id) <==>
          ContainsId(tasks, id) || exists k :: 0 <= k < |adds| && adds[k].id == id
      {
        if exists k :: 0 <= k < |adds| && adds[k].id == id {
          var k :| 0 <= k < |adds| && adds[k].id == id;
          if k > 0 {
            assert adds[1..][k - 1].id == id;
          }
        }
        if exists k :: 0 <= k < |adds[1..]| && adds[1..][k].id == id {
          var k :| 0 <= k < |adds[1..]| && adds[1..][k].id == id;
          assert adds[k + 1].id == id;
        }
      }
    }
  }

  // -------------------------------------------------------------- deleteTask

  function NotId(taskId: string): Task -> bool {
    (t: Task) => t.id != taskId
  }

  /** The list without the tasks whose id is `taskId`. */
  function DeleteTask(tasks: seq<Task>, taskId: string): (r: seq<Task>)
    ensures !ContainsId(r, taskId)
    ensures forall t :: t in r <==> t in tasks && t.id != taskId
  {
    var r := Filter(tasks, NotId(taskId));
    assert forall i :: 0 <= i < |r| ==> r[i] in r;
    r
  }

  /** The survivors keep their relative order: the result is the
      subsequence of the old list at exactly the positions whose id differs. */
  lemma DeleteTaskKeepsOrder(tasks: seq<Task>, taskId: string) returns (idx: seq<nat>)
    ensures PicksOut(DeleteTask(tasks, taskId), tasks, idx)
    ensures forall i :: 0 <= i < |tasks| && tasks[i].id != taskId ==> i in idx
  {
    idx := FilterPicksOut(tasks, NotId(taskId));
  }

  /** An unknown id leaves the list as it was. */
  lemma DeleteTaskUnknownId(tasks: seq<Task>, taskId: string)
    requires !ContainsId(tasks, taskId)
    ensures DeleteTask(tasks, taskId) == tasks
  {
  }

  /** Deleting twice is deleting once. */
  lemma DeleteTaskIdempotent(tasks: seq<Task>, taskId: string)
    ensures DeleteTask(DeleteTask(tasks, taskId), taskId) == DeleteTask(tasks, taskId)
  {
    FilterIdempotent(tasks, NotId(taskId));
  }

  /** With unique ids, a delete removes exactly one task when the id is
      present and none otherwise. */
  lemma {:induction false} DeleteTaskLength(tasks: seq<Task>, taskId: string)
    requires UniqueIds(tasks)
    ensures |DeleteTask(tasks, taskId)| == |tasks| - (if ContainsId(tasks, taskId) then 1 else 0)
  {
    if tasks != [] {
      var rest := tasks[1..];
      assert forall i, j :: 0 <= i < j < |rest| ==> rest[i] == tasks[i + 1] && rest[j] == tasks[j + 1];
      DeleteTaskLength(rest, taskId);
      if tasks[0].id == taskId {
        assert forall k :: 0 <= k < |rest| ==> rest[k].id != taskId by {
          forall k | 0 <= k < |rest| ensures rest[k].id != taskId {
            assert rest[k] == tasks[k + 1];
          }
        }
        DeleteTaskUnknownId(rest, taskId);
      }
    }
  }

  /** Deleting keeps ids unique. */
  lemma DeleteTaskKeepsUnique(tasks: seq<Task>, taskId: string)
    requires UniqueIds(tasks)
    ensures UniqueIds(DeleteTask(tasks, taskId))
  {
    var r := DeleteTask(tasks, taskId);
    var idx := DeleteTaskKeepsOrder(tasks, taskId);
    forall i, j | 0 <= i < j < |r| ensures r[i].id != r[j].id {
      assert idx[i] < idx[j];
      assert r[i] == tasks[idx[i]] && r[j] == tasks[idx[j]];
    }
  }
}

/** The task-list updaters of App.tsx. Each takes the whole list and returns the new one,
    by replace-on-match `map`, by `filter`, or by prepending; the visible list and the
    header counters are projections of it. */
module TaskStore {
  import opened Types
  import opened Seqs

  /** The ids of the tasks, in list order. */
  function Ids(ts: seq<Task>): seq<string>
  {
    seq(|ts|, i requires 0 <= i < |ts| => ts[i].id)
  }

  /** No two tasks share an id. */
  predicate UniqueIds(ts: seq<Task>)
  {
    forall i, j :: 0 <= i < j < |ts| ==> ts[i].id != ts[j].id
  }

  // ---------------------------------------------------------------- create

  /** Creating a task: the new task is built from the dialog's input, with the generated
      id, the creation time, and not completed; it goes in front of the old list. */
  function CreateTask(ts: seq<Task>, id: string, createdAt: int, input: TaskInput): (r: seq<Task>)
    ensures |r| == |ts| + 1 && r[1..] == ts
    ensures r[0].id == id && r[0].createdAt == createdAt && !r[0].isCompleted
    ensures r[0].title == input.title && r[0].description == Some(input.description)
    ensures r[0].priority == input.priority && r[0].reminderTime == input.reminder
    ensures r[0].subTasks == input.subTasks
  {
    [Task(id, input.title, Some(input.description), false, createdAt,
          input.subTasks, input.priority, input.reminder)] + ts
  }

  /** With a fresh id, creating a task keeps the ids pairwise distinct. */
  lemma CreateKeepsIdsUnique(ts: seq<Task>, id: string, createdAt: int, input: TaskInput)
    requires UniqueIds(ts) && id !in Ids(ts)
    ensures UniqueIds(CreateTask(ts, id, createdAt, input))
  {
    var r := CreateTask(ts, id, createdAt, input);
    forall i, j | 0 <= i < j < |r| ensures r[i].id != r[j].id {
      if i == 0 {
        assert r[j] == ts[j - 1];
        assert Ids(ts)[j - 1] == ts[j - 1].id;
      } else {
        assert r[i] == ts[i - 1] && r[j] == ts[j - 1];
      }
    }
  }

  // ---------------------------------------------------------------- update

  /** The task after the edit dialog saved `input` over it: the edited fields are
      replaced, id, creation time and completion are kept. */
  function ApplyEdit(t: Task, input: TaskInput): Task
  {
    t.(title := input.title, description := Some(input.description), priority := input.priority,
       reminderTime := input.reminder, subTasks := input.subTasks)
  }

  /** Updating the edited task: every task with that id has title, description, priority,
      reminder and sub-tasks replaced; ids, creation times and completion states are kept
      everywhere, and every other task is unchanged. */
  function UpdateTask(ts: seq<Task>, id: string, input: TaskInput): (r: seq<Task>)
    ensures |r| == |ts|
    ensures forall i :: 0 <= i < |ts| ==>
      r[i].id == ts[i].id && r[i].createdAt == ts[i].createdAt && r[i].isCompleted == ts[i].isCompleted
    ensures forall i :: 0 <= i < |ts| && ts[i].id == id ==>
      r[i].title == input.title && r[i].description == Some(input.description) &&
      r[i].priority == input.priority && r[i].reminderTime == input.reminder &&
      r[i].subTasks == input.subTasks
    ensures forall i :: 0 <= i < |ts| && ts[i].id != id ==> r[i] == ts[i]
  {
    seq(|ts|, i requires 0 <= i < |ts| => if ts[i].id == id then ApplyEdit(ts[i], input) else ts[i])
  }

  /** Updating an id that no task has leaves the list unchanged. */
  lemma UpdateAbsentIsNoOp(ts: seq<Task>, id: string, input: TaskInput)
    requires id !in Ids(ts)
    ensures UpdateTask(ts, id, input) == ts
  {
    forall i | 0 <= i < |ts| ensures ts[i].id != id {
      assert Ids(ts)[i] == ts[i].id;
    }
  }

  /** Saving the same edit twice is saving it once. */
  lemma UpdateIdempotent(ts: seq<Task>, id: string, input: TaskInput)
    ensures UpdateTask(UpdateTask(ts, id, input), id, input) == UpdateTask(ts, id, input)
  {
  }

  // ---------------------------------------------------------------- toggle

  /** Toggling completion: the tasks with the id have `isCompleted` flipped, every other
      task is unchanged, and no other field of any task changes. */
  function ToggleTask(ts: seq<Task>, id: string): (r: seq<Task>)
    ensures |r| == |ts|
    ensures forall i :: 0 <= i < |ts| ==> r[i] == ts[i].(isCompleted := r[i].isCompleted)
    ensures forall i :: 0 <= i < |ts| ==> (r[i].isCompleted != ts[i].isCompleted <==> ts[i].id == id)
  {
    seq(|ts|, i requires 0 <= i < |ts| =>
      if ts[i].id == id then ts[i].(isCompleted := !ts[i].isCompleted) else ts[i])
  }

  /** Toggling the same task twice restores the list. */
  lemma ToggleTwice(ts: seq<Task>, id: string)
    ensures ToggleTask(ToggleTask(ts, id), id) == ts
  {
  }

  /** Toggling an id that no task has leaves the list unchanged. */
  lemma ToggleAbsentIsNoOp(ts: seq<Task>, id: string)
    requires id !in Ids(ts)
    ensures ToggleTask(ts, id) == ts
  {
    forall i | 0 <= i < |ts| ensures ts[i].id != id {
      assert Ids(ts)[i] == ts[i].id;
    }
  }

  // ---------------------------------------------------------------- delete

  /** The filter predicate of the delete handler: keep a task unless it has the id. */
  function IdIsNot(id: string): Task -> bool
  {
    (t: Task) => t.id != id
  }

  /** The filter predicate of the delete handler, negated: the task has the id. */
  function IdIs(id: string): Task -> bool
  {
    (t: Task) => t.id == id
  }

  /** Deleting by id: the result keeps the old order, holds no task with the id, and
      keeps every task with another id; it is shorter by the number of tasks with
      the id. */
  function DeleteTask(ts: seq<Task>, id: string): (r: seq<Task>)
    ensures IsSubsequence(r, ts)
    ensures forall i :: 0 <= i < |r| ==> r[i].id != id
    ensures forall i :: 0 <= i < |ts| && ts[i].id != id ==> ts[i] in r
    ensures |r| == |ts| - Count(ts, IdIs(id))
  {
    FilterIsSubsequence(ts, IdIsNot(id));
    FilterLength(ts, IdIsNot(id));
    CountPartition(ts, IdIsNot(id), IdIs(id));
    Filter(ts, IdIsNot(id))
  }

  /** Deleting an id that no task has leaves the list unchanged. */
  lemma DeleteAbsentIsNoOp(ts: seq<Task>, id: string)
    requires id !in Ids(ts)
    ensures DeleteTask(ts, id) == ts
  {
    forall i | 0 <= i < |ts| ensures IdIsNot(id)(ts[i]) {
      assert Ids(ts)[i] == ts[i].id;
    }
    FilterKeepsAll(ts, IdIsNot(id));
  }

  /** Deleting the same id twice is deleting it once. */
  lemma DeleteIdempotent(ts: seq<Task>, id: string)
    ensures DeleteTask(DeleteTask(ts, id), id) == DeleteTask(ts, id)
  {
    FilterIdempotent(ts, IdIsNot(id));
  }

  /** Deleting keeps the ids pairwise distinct. */
  lemma {:induction false} DeleteKeepsIdsUnique(ts: seq<Task>, id: string)
    requires UniqueIds(ts)
    ensures UniqueIds(DeleteTask(ts, id))
  {
    SubsequenceKeepsIdsUnique(DeleteTask(ts, id), ts);
  }

  /** A subsequence of a list with distinct ids has distinct ids. */
  lemma {:induction false} SubsequenceKeepsIdsUnique(a: seq<Task>, b: seq<Task>)
    requires IsSubsequence(a, b) && UniqueIds(b)
    ensures UniqueIds(a)
    ensures forall i :: 0 <= i < |a| ==> a[i] in b
    decreases |b|
  {
    if b != [] {
      assert UniqueIds(b[1..]) by {
        forall i, j | 0 <= i < j < |b[1..]| ensures b[1..][i].id != b[1..][j].id {
          assert b[1..][i] == b[i + 1] && b[1..][j] == b[j + 1];
        }
      }
      if a != [] && a[0] == b[0] && IsSubsequence(a[1..], b[1..]) {
        SubsequenceKeepsIdsUnique(a[1..], b[1..]);
        forall i, j | 0 <= i < j < |a| ensures a[i].id != a[j].id {
          assert a[j] == a[1..][j - 1];
          assert a[j] in b[1..];
          if i == 0 {
            var k :| 0 <= k < |b[1..]| && b[1..][k] == a[j];
            assert b[k + 1] == a[j];
          } else {
            assert a[i] == a[1..][i - 1];
          }
        }
        forall i | 0 <= i < |a| ensures a[i] in b {
          if i > 0 {
            assert a[i] == a[1..][i - 1];
          }
        }
      } else {
        SubsequenceKeepsIdsUnique(a, b[1..]);
      }
    }
  }

  /** Deleting the task just created restores the list, when its id was fresh. */
  lemma DeleteUndoesCreate(ts: seq<Task>, id: string, createdAt: int, input: TaskInput)
    requires id !in Ids(ts)
    ensures DeleteTask(CreateTask(ts, id, createdAt, input), id) == ts
  {
    var r := CreateTask(ts, id, createdAt, input);
    assert r == [r[0]] + ts;
    assert !IdIsNot(id)(r[0]);
    assert Filter(r, IdIsNot(id)) == Filter(ts, IdIsNot(id));
    DeleteAbsentIsNoOp(ts, id);
  }

  // ---------------------------------------------------------------- toggle a sub-task

  /** The sub-task list of one task after toggling the sub-task with id `subId`. */
  function ToggleSubTasks(subs: seq<SubTask>, subId: string): seq<SubTask>
  {
    seq(|subs|, k requires 0 <= k < |subs| =>
      if subs[k].id == subId then subs[k].(isCompleted := !subs[k].isCompleted) else subs[k])
  }

  /** Toggling a sub-task: only the sub-tasks with `subId` inside the tasks with `taskId`
      have `isCompleted` flipped. Tasks keep every other field, their number and their
      order; each sub-task list keeps its length, order and every other field; tasks
      with another id are unchanged. */
  function ToggleSubTask(ts: seq<Task>, taskId: string, subId: string): (r: seq<Task>)
    ensures |r| == |ts|
    ensures forall i :: 0 <= i < |ts| ==> r[i] == ts[i].(subTasks := r[i].subTasks)
    ensures forall i :: 0 <= i < |ts| && ts[i].id != taskId ==> r[i] == ts[i]
    ensures forall i :: 0 <= i < |ts| ==> |r[i].subTasks| == |ts[i].subTasks|
    ensures forall i, k :: 0 <= i < |ts| && 0 <= k < |ts[i].subTasks| ==>
      r[i].subTasks[k] == ts[i].subTasks[k].(isCompleted := r[i].subTasks[k].isCompleted) &&
      (r[i].subTasks[k].isCompleted != ts[i].subTasks[k].isCompleted <==>
        ts[i].id == taskId && ts[i].subTasks[k].id == subId)
  {
    seq(|ts|, i requires 0 <= i < |ts| =>
      if ts[i].id != taskId then ts[i] else ts[i].(subTasks := ToggleSubTasks(ts[i].subTasks, subId)))
  }

  /** Toggling the same sub-task twice restores the list. */
  lemma ToggleSubTaskTwice(ts: seq<Task>, taskId: string, subId: string)
    ensures ToggleSubTask(ToggleSubTask(ts, taskId, subId), taskId, subId) == ts
  {
    var r := ToggleSubTask(ToggleSubTask(ts, taskId, subId), taskId, subId);
    forall i | 0 <= i < |ts| ensures r[i] == ts[i] {
      assert r[i].subTasks == ts[i].subTasks;
    }
  }

  // ---------------------------------------------------------------- ids are kept

  /** Edits, toggles and sub-task toggles keep every task's id in place, so they keep
      the ids pairwise distinct. */
  lemma MapUpdatersKeepIds(ts: seq<Task>, id: string, subId: string, input: TaskInput)
    ensures Ids(UpdateTask(ts, id, input)) == Ids(ts)
    ensures Ids(ToggleTask(ts, id)) == Ids(ts)
    ensures Ids(ToggleSubTask(ts, id, subId)) == Ids(ts)
    ensures UniqueIds(ts) ==>
      UniqueIds(UpdateTask(ts, id, input)) && UniqueIds(ToggleTask(ts, id)) &&
      UniqueIds(ToggleSubTask(ts, id, subId))
  {
  }

  // ---------------------------------------------------------------- projections

  predicate IsActive(t: Task) { !t.isCompleted }

  predicate IsDone(t: Task) { t.isCompleted }

  /** The predicate of `filteredTasks` for each filter setting. */
  function Shows(f: FilterType): Task -> bool
  {
    match f
    case Active => IsActive
    case Completed => IsDone
    case All => (t: Task) => true
  }

  /** The visible list: an order-preserving subsequence of the tasks; `Active` keeps
      exactly the incomplete tasks, `Completed` exactly the completed ones, `All`
      everything. */
  function FilterTasks(ts: seq<Task>, f: FilterType): (r: seq<Task>)
    ensures IsSubsequence(r, ts)
    ensures forall i :: 0 <= i < |r| ==> r[i] in ts
    ensures f == Active ==> (forall i :: 0 <= i < |r| ==> !r[i].isCompleted) &&
                            (forall i :: 0 <= i < |ts| && !ts[i].isCompleted ==> ts[i] in r)
    ensures f == Completed ==> (forall i :: 0 <= i < |r| ==> r[i].isCompleted) &&
                               (forall i :: 0 <= i < |ts| && ts[i].isCompleted ==> ts[i] in r)
    ensures f == All ==> r == ts
    ensures |r| == Count(ts, Shows(f))
  {
    FilterIsSubsequence(ts, Shows(f));
    FilterLength(ts, Shows(f));
    if f == All then
      FilterKeepsAll(ts, Shows(f));
      Filter(ts, Shows(f))
    else
      Filter(ts, Shows(f))
  }

  /** The header counters. */
  datatype Stats = Stats(total: nat, active: nat, completed: nat)

  /** `stats`: the total is the length of the list, and the active and completed counts
      are the numbers of incomplete and completed tasks, which add up to the total. */
  function StatsOf(ts: seq<Task>): (s: Stats)
    ensures s.total == |ts|
    ensures s.active == Count(ts, IsActive) && s.completed == Count(ts, IsDone)
    ensures s.active + s.completed == s.total
  {
    FilterLength(ts, IsActive);
    FilterLength(ts, IsDone);
    CountPartition(ts, IsActive, IsDone);
    Stats(|ts|, |Filter(ts, IsActive)|, |Filter(ts, IsDone)|)
  }

  /** The counters agree with the lengths of the visible lists. */
  lemma StatsMatchFilters(ts: seq<Task>)
    ensures StatsOf(ts).active == |FilterTasks(ts, Active)|
    ensures StatsOf(ts).completed == |FilterTasks(ts, Completed)|
    ensures StatsOf(ts).total == |FilterTasks(ts, All)|
  {
  }
}

/**
 * The command-line to-do store of DevOps.py: a `TodoList` holding a list of
 * task records keyed by an integer `id`, saved as a whole to todos.json after
 * every change, and the input rules of its menu loop.
 */
module DevOps {
  import opened Wrappers
  import Seqs
  import Text

  /** One record of todos.json. `createdAt` is the `%Y-%m-%d %H:%M:%S` text of the clock, kept as given. */
  datatype Task = Task(id: int, description: string, priority: string, completed: bool, createdAt: string)

  /** The priorities the menu accepts (DevOps.py:126). */
  const Priorities: set<string> := {"high", "medium", "low"}

  predicate HasId(tasks: seq<Task>, taskId: int) {
    exists i :: 0 <= i < |tasks| && tasks[i].id == taskId
  }

  /** The position the store's scans stop at: the first record carrying `taskId`. */
  function FirstIndex(tasks: seq<Task>, taskId: int): (r: Option<nat>)
    ensures r.None? <==> !HasId(tasks, taskId)
    ensures r.Some? ==> r.value < |tasks| && tasks[r.value].id == taskId
    ensures r.Some? ==> forall j :: 0 <= j < r.value ==> tasks[j].id != taskId
  {
    if tasks == [] then None
    else if tasks[0].id == taskId then Some(0)
    else match FirstIndex(tasks[1..], taskId)
      case None => None
      case Some(i) => Some(i + 1)
  }

  /**
   * A scan that applies `change` to the first record carrying `taskId` and
   * stops there, as `complete_task` and `edit_task` do. Every other record,
   * and every record when no id matches, stays as it was.
   */
  function UpdateFirst(tasks: seq<Task>, taskId: int, change: Task -> Task): (r: seq<Task>)
    ensures FirstIndex(tasks, taskId).None? ==> r == tasks
    ensures FirstIndex(tasks, taskId).Some? ==>
      var i := FirstIndex(tasks, taskId).value;
      r == tasks[i := change(tasks[i])]
  {
    if tasks == [] then []
    else if tasks[0].id == taskId then [change(tasks[0])] + tasks[1..]
    else [tasks[0]] + UpdateFirst(tasks[1..], taskId, change)
  }

  function SetCompleted(t: Task): Task { t.(completed := true) }

  /** `complete_task(task_id)` on a list of records (DevOps.py:58-66). */
  function MarkCompleted(tasks: seq<Task>, taskId: int): seq<Task> {
    UpdateFirst(tasks, taskId, SetCompleted)
  }

  /** `edit_task(task_id, new_description)` on a list of records (DevOps.py:78-86). */
  function Redescribed(tasks: seq<Task>, taskId: int, description: string): seq<Task> {
    UpdateFirst(tasks, taskId, (t: Task) => t.(description := description))
  }

  /**
   * `delete_task(task_id)`: the record `pop` removes is the first one carrying
   * `taskId`; the others keep their order (DevOps.py:68-76).
   */
  function RemoveFirst(tasks: seq<Task>, taskId: int): (r: seq<Task>)
    ensures FirstIndex(tasks, taskId).None? ==> r == tasks
    ensures FirstIndex(tasks, taskId).Some? ==>
      var i := FirstIndex(tasks, taskId).value;
      r == tasks[..i] + tasks[i + 1..]
  {
    if tasks == [] then []
    else if tasks[0].id == taskId then tasks[1..]
    else [tasks[0]] + RemoveFirst(tasks[1..], taskId)
  }

  /** `add_task`: the new record's id is one more than the number of records (DevOps.py:22-31). */
  function WithNewTask(tasks: seq<Task>, description: string, priority: string, createdAt: string): seq<Task> {
    tasks + [Task(|tasks| + 1, description, priority, false, createdAt)]
  }

  predicate IsOpen(t: Task) { !t.completed }
  predicate IsDone(t: Task) { t.completed }

  /** The comprehension of `clear_completed`: the records not completed, in order (DevOps.py:91). */
  function Pending(tasks: seq<Task>): (r: seq<Task>)
    ensures forall t :: t in r <==> t in tasks && !t.completed
    ensures |r| == |tasks| - |Seqs.Filter(tasks, IsDone)|
  {
    Seqs.FilterContents(tasks, IsOpen);
    Seqs.FilterPartition(tasks, IsOpen, IsDone);
    Seqs.Filter(tasks, IsOpen)
  }

  /** What `view_tasks(show_completed)` lists, in order (DevOps.py:45-47). */
  function Shown(tasks: seq<Task>, showCompleted: bool): seq<Task> {
    if showCompleted then tasks else Pending(tasks)
  }

  /** A priority typed at the menu, stripped and lower-cased; anything else becomes `medium` (DevOps.py:125-127). */
  function CoercePriority(raw: string): (r: string)
    ensures r in Priorities
    ensures Text.Lower(Text.Trim(raw, Text.IsPySpace)) in Priorities ==> r == Text.Lower(Text.Trim(raw, Text.IsPySpace))
    ensures Text.Lower(Text.Trim(raw, Text.IsPySpace)) !in Priorities ==> r == "medium"
  {
    var p := Text.Lower(Text.Trim(raw, Text.IsPySpace));
    if p in Priorities then p else "medium"
  }

  // ---------------------------------------------------------------- properties

  /** Completing a task a second time changes nothing (DevOps.py:58-66). */
  lemma {:induction false} CompleteIdempotent(tasks: seq<Task>, taskId: int)
    ensures MarkCompleted(MarkCompleted(tasks, taskId), taskId) == MarkCompleted(tasks, taskId)
  {
    var once := MarkCompleted(tasks, taskId);
    match FirstIndex(tasks, taskId)
    case None =>
    case Some(i) =>
      assert forall j :: 0 <= j < |once| ==> once[j].id == tasks[j].id;
      assert FirstIndex(once, taskId) == Some(i);
  }

  /**
   * `complete_task` touches only the `completed` flag, and only of the first
   * record with the id; ids, descriptions, priorities and creation times all stay.
   */
  lemma CompleteChangesOnlyFlag(tasks: seq<Task>, taskId: int, j: nat)
    requires j < |tasks|
    ensures |MarkCompleted(tasks, taskId)| == |tasks|
    ensures var t := MarkCompleted(tasks, taskId)[j];
      && t.id == tasks[j].id && t.description == tasks[j].description
      && t.priority == tasks[j].priority && t.createdAt == tasks[j].createdAt
      && t.completed == (tasks[j].completed || FirstIndex(tasks, taskId) == Some(j))
  {
  }

  /** `edit_task` replaces only the description of the first record with the id. */
  lemma EditChangesOnlyDescription(tasks: seq<Task>, taskId: int, description: string, j: nat)
    requires j < |tasks|
    ensures |Redescribed(tasks, taskId, description)| == |tasks|
    ensures var t := Redescribed(tasks, taskId, description)[j];
      && t.id == tasks[j].id && t.completed == tasks[j].completed
      && t.priority == tasks[j].priority && t.createdAt == tasks[j].createdAt
      && t.description == (if FirstIndex(tasks, taskId) == Some(j) then description else tasks[j].description)
  {
  }

  /** Clearing completed tasks twice is clearing them once (DevOps.py:91). */
  lemma ClearCompletedIdempotent(tasks: seq<Task>)
    ensures Pending(Pending(tasks)) == Pending(tasks)
  {
    Seqs.FilterIdempotent(tasks, IsOpen);
  }

  /** The open tasks of a longer list are those of its prefix followed by the rest's: order is kept. */
  lemma PendingKeepsOrder(a: seq<Task>, b: seq<Task>)
    ensures Pending(a + b) == Pending(a) + Pending(b)
  {
    Seqs.FilterAppend(a, b, IsOpen);
  }

  /** Records numbered 1, 2, ... in order: the shape a store has while nothing was ever deleted. */
  predicate Numbered(tasks: seq<Task>) {
    forall i :: 0 <= i < |tasks| ==> tasks[i].id == i + 1
  }

  /**
   * Adding, completing and editing keep a store numbered, and a numbered store
   * has distinct ids: the `len(tasks) + 1` rule is sound while no task is deleted.
   */
  lemma NumberedWithoutDeletes(tasks: seq<Task>, taskId: int, description: string, priority: string, createdAt: string)
    requires Numbered(tasks)
    ensures Numbered(WithNewTask(tasks, description, priority, createdAt))
    ensures Numbered(MarkCompleted(tasks, taskId))
    ensures Numbered(Redescribed(tasks, taskId, description))
    ensures forall i, j :: 0 <= i < j < |tasks| ==> tasks[i].id != tasks[j].id
  {
  }

  /**
   * After a delete, the next `add_task` can reuse an id still in the list:
   * deleting any record but the last from a store whose last record has id
   * `len(tasks)` makes the new record's id equal to that last record's
   * (DevOps.py:25, DevOps.py:72).
   */
  lemma DeleteThenAddReusesId(tasks: seq<Task>, victim: int, description: string, priority: string, createdAt: string)
    requires FirstIndex(tasks, victim).Some? && FirstIndex(tasks, victim).value < |tasks| - 1
    requires tasks[|tasks| - 1].id == |tasks|
    ensures var after := WithNewTask(RemoveFirst(tasks, victim), description, priority, createdAt);
      |after| == |tasks| && after[|tasks| - 1].id == after[|tasks| - 2].id == |tasks|
  {
    var i := FirstIndex(tasks, victim).value;
    var rest := RemoveFirst(tasks, victim);
    assert rest == tasks[..i] + tasks[i + 1..];
    assert rest[|rest| - 1] == tasks[|tasks| - 1];
  }

  /**
   * A concrete run of the menu: add two tasks, delete the first, add another;
   * the two remaining records share id 2.
   */
  lemma IdCollisionExample()
    ensures var s0 := WithNewTask([], "Buy milk", "high", "t0");
      var s1 := WithNewTask(s0, "Clean house", "medium", "t1");
      var s2 := RemoveFirst(s1, 1);
      var s3 := WithNewTask(s2, "Walk dog", "low", "t2");
      |s3| == 2 && s3[0].id == 2 && s3[1].id == 2
  {
    var s0 := WithNewTask([], "Buy milk", "high", "t0");
    var s1 := WithNewTask(s0, "Clean house", "medium", "t1");
    assert FirstIndex(s1, 1) == Some(0);
  }

  // ---------------------------------------------------------------- the store object

  class TodoList {
    /** `self.tasks`, in insertion order. */
    var tasks: seq<Task>
    /** What todos.json holds: nothing when the file does not exist, else the records of the last `save_tasks`. */
    var saved: Option<seq<Task>>

    /** `TodoList()`: the records of todos.json, or none when the file does not exist (DevOps.py:6-15). */
    constructor (file: Option<seq<Task>>)
      ensures tasks == file.GetOr([])
      ensures saved == file
    {
      tasks := file.GetOr([]);
      saved := file;
    }

    /** `add_task(description, priority)`, saving afterwards (DevOps.py:22-32). */
    method AddTask(description: string, priority: string, createdAt: string)
      modifies this
      ensures tasks == WithNewTask(old(tasks), description, priority, createdAt)
      ensures saved == Some(tasks)
    {
      tasks := tasks + [Task(|tasks| + 1, description, priority, false, createdAt)];
      saved := Some(tasks);
    }

    /**
     * `complete_task(task_id)`: marks the first record with that id completed
     * and saves; reports whether there was one (DevOps.py:58-66).
     */
    method CompleteTask(taskId: int) returns (found: bool)
      modifies this
      ensures found <==> HasId(old(tasks), taskId)
      ensures tasks == MarkCompleted(old(tasks), taskId)
      ensures saved == if found then Some(tasks) else old(saved)
    {
      var i := 0;
      while i < |tasks|
        invariant 0 <= i <= |tasks|
        invariant tasks == old(tasks) && saved == old(saved)
        invariant forall j :: 0 <= j < i ==> tasks[j].id != taskId
      {
        if tasks[i].id == taskId {
          tasks := tasks[i := SetCompleted(tasks[i])];
          saved := Some(tasks);
          return true;
        }
        i := i + 1;
      }
      return false;
    }

    /**
     * `delete_task(task_id)`: pops the first record with that id, saves, and
     * hands back the removed record (DevOps.py:68-76).
     */
    method DeleteTask(taskId: int) returns (deleted: Option<Task>)
      modifies this
      ensures deleted.None? <==> !HasId(old(tasks), taskId)
      ensures deleted.Some? ==> deleted.value == old(tasks)[FirstIndex(old(tasks), taskId).value]
      ensures tasks == RemoveFirst(old(tasks), taskId)
      ensures saved == if deleted.Some? then Some(tasks) else old(saved)
    {
      var i := 0;
      while i < |tasks|
        invariant 0 <= i <= |tasks|
        invariant tasks == old(tasks) && saved == old(saved)
        invariant forall j :: 0 <= j < i ==> tasks[j].id != taskId
      {
        if tasks[i].id == taskId {
          deleted := Some(tasks[i]);
          tasks := tasks[..i] + tasks[i + 1..];
          saved := Some(tasks);
          return;
        }
        i := i + 1;
      }
      return None;
    }

    /** `edit_task(task_id, new_description)` (DevOps.py:78-86). */
    method EditTask(taskId: int, newDescription: string) returns (found: bool)
      modifies this
      ensures found <==> HasId(old(tasks), taskId)
      ensures tasks == Redescribed(old(tasks), taskId, newDescription)
      ensures saved == if found then Some(tasks) else old(saved)
    {
      var i := 0;
      while i < |tasks|
        invariant 0 <= i <= |tasks|
        invariant tasks == old(tasks) && saved == old(saved)
        invariant forall j :: 0 <= j < i ==> tasks[j].id != taskId
      {
        if tasks[i].id == taskId {
          tasks := tasks[i := tasks[i].(description := newDescription)];
          saved := Some(tasks);
          return true;
        }
        i := i + 1;
      }
      return false;
    }

    /** `clear_completed()`: keeps the open records, saves, and reports how many went (DevOps.py:88-94). */
    method ClearCompleted() returns (removed: int)
      modifies this
      ensures tasks == Pending(old(tasks))
      ensures removed == |old(tasks)| - |tasks|
      ensures removed == |Seqs.Filter(old(tasks), IsDone)|
      ensures saved == Some(tasks)
    {
      var originalCount := |tasks|;
      tasks := Pending(tasks);
      saved := Some(tasks);
      removed := originalCount - |tasks|;
    }

    /**
     * The records `view_tasks(show_completed)` prints, in the order it prints
     * them: all of them, or only the open ones (DevOps.py:35-56).
     */
    method ViewTasks(showCompleted: bool) returns (listed: seq<Task>)
      ensures listed == Shown(tasks, showCompleted)
    {
      listed := [];
      var i := 0;
      while i < |tasks|
        invariant 0 <= i <= |tasks|
        invariant listed == Shown(tasks[..i], showCompleted)
      {
        Seqs.FilterAppend(tasks[..i], [tasks[i]], IsOpen);
        assert tasks[..i + 1] == tasks[..i] + [tasks[i]];
        if !showCompleted && tasks[i].completed {
          i := i + 1;
          continue;
        }
        listed := listed + [tasks[i]];
        i := i + 1;
      }
      assert tasks[..i] == tasks;
    }

    /**
     * Menu choice 1: the description is stripped and refused when empty;
     * otherwise the priority is coerced and the task added (DevOps.py:122-130).
     */
    method SubmitAdd(rawDescription: string, rawPriority: string, createdAt: string) returns (added: bool)
      modifies this
      ensures added <==> Text.Trim(rawDescription, Text.IsPySpace) != []
      ensures !added ==> tasks == old(tasks) && saved == old(saved)
      ensures added ==> tasks == WithNewTask(old(tasks), Text.Trim(rawDescription, Text.IsPySpace), CoercePriority(rawPriority), createdAt)
      ensures added ==> saved == Some(tasks)
    {
      var description := Text.Trim(rawDescription, Text.IsPySpace);
      if description == [] {
        return false;
      }
      var priority := CoercePriority(rawPriority);
      AddTask(description, priority, createdAt);
      return true;
    }

    /**
     * Menu choice 5: the new description is stripped and refused when empty;
     * otherwise the record is edited (DevOps.py:145-152).
     */
    method SubmitEdit(taskId: int, rawDescription: string) returns (edited: bool)
      modifies this
      ensures edited <==> Text.Trim(rawDescription, Text.IsPySpace) != [] && HasId(old(tasks), taskId)
      ensures Text.Trim(rawDescription, Text.IsPySpace) == [] ==> tasks == old(tasks) && saved == old(saved)
      ensures Text.Trim(rawDescription, Text.IsPySpace) != [] ==>
        tasks == Redescribed(old(tasks), taskId, Text.Trim(rawDescription, Text.IsPySpace))
      ensures Text.Trim(rawDescription, Text.IsPySpace) != [] ==> saved == if edited then Some(tasks) else old(saved)
    {
      var description := Text.Trim(rawDescription, Text.IsPySpace);
      if description == [] {
        return false;
      }
      edited := EditTask(taskId, description);
    }
  }
}

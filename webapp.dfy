/**
 * The task store of the browser version, App.js: the module-level `tasks`,
 * `lists`, `currentList` and `editingIndex`, the normalisation applied when
 * tasks are read from localStorage or imported, and the handlers that change
 * them. A task is a plain JavaScript object keyed by its `_id` string.
 */
module WebApp {
  import opened Wrappers
  import Seqs
  import Text

  /**
   * A JavaScript value as the handlers see it. Arrays and objects nested in a
   * task are compared by identity, so they are only a reference here.
   */
  datatype JsValue =
    | Undefined
    | Null
    | Bool(b: bool)
    | Num(x: real)
    | Str(s: string)
    | Ref(id: nat)

  /** A task object: its own properties. */
  type JsObject = map<string, JsValue>

  /** `o.key`: the property, or `undefined` when the object has none. */
  function Get(o: JsObject, key: string): JsValue {
    if key in o then o[key] else Undefined
  }

  /** JavaScript's truth value (`if (v)`). */
  predicate JsTruthy(v: JsValue) {
    match v
    case Undefined => false
    case Null => false
    case Bool(b) => b
    case Num(x) => x != 0.0
    case Str(s) => s != []
    case Ref(_) => true
  }

  /** The names the page starts with, and falls back to (App.js:4, 35, 244). */
  const DefaultLists: seq<JsValue> := [Str("Tasks"), Str("Personal"), Str("Work"), Str("Shopping")]

  // ---------------------------------------------------------------- normalisation

  /** A task whose priority, list and `_id` are all set. */
  predicate Normalised(t: JsObject) {
    JsTruthy(Get(t, "priority")) && JsTruthy(Get(t, "list")) && JsTruthy(Get(t, "_id"))
  }

  /**
   * The callback of `(data.tasks || []).map(...)` in `loadData` and
   * `importData` (App.js:25-32, 236-243): a falsy priority becomes "medium",
   * a falsy list "Tasks", a falsy `_id` the generated `freshId`.
   */
  function Normalise(t: JsObject, freshId: string): (r: JsObject)
    requires freshId != []
    ensures Normalised(r)
    ensures r.Keys == t.Keys + {"priority", "list", "_id"}
    ensures Get(r, "priority") == if JsTruthy(Get(t, "priority")) then Get(t, "priority") else Str("medium")
    ensures Get(r, "list") == if JsTruthy(Get(t, "list")) then Get(t, "list") else Str("Tasks")
    ensures Get(r, "_id") == if JsTruthy(Get(t, "_id")) then Get(t, "_id") else Str(freshId)
    ensures forall k :: k in t && k !in {"priority", "list", "_id"} ==> r[k] == t[k]
  {
    var t1 := if !JsTruthy(Get(t, "priority")) then t["priority" := Str("medium")] else t;
    var t2 := if !JsTruthy(Get(t1, "list")) then t1["list" := Str("Tasks")] else t1;
    if !JsTruthy(Get(t2, "_id")) then t2["_id" := Str(freshId)] else t2
  }

  /** A task that is already normalised is left exactly as it is, whatever id is on offer. */
  lemma NormaliseKeepsNormalised(t: JsObject, freshId: string)
    requires freshId != [] && Normalised(t)
    ensures Normalise(t, freshId) == t
  {
    var r := Normalise(t, freshId);
    assert r.Keys == t.Keys;
    forall k | k in t ensures r[k] == t[k] {
      if k in {"priority", "list", "_id"} {
        assert Get(r, k) == Get(t, k);
      }
    }
  }

  /** Normalising twice is normalising once. */
  lemma NormaliseIdempotent(t: JsObject, a: string, b: string)
    requires a != [] && b != []
    ensures Normalise(Normalise(t, a), b) == Normalise(t, a)
  {
    NormaliseKeepsNormalised(Normalise(t, a), b);
  }

  /** The whole `map`: one normalised task per input task, in order; `idFor(i)` is what `generateId` gives for task `i`. */
  function NormaliseAll(ts: seq<JsObject>, idFor: nat -> string): (r: seq<JsObject>)
    requires forall i :: 0 <= i < |ts| ==> idFor(i) != []
    ensures |r| == |ts| && forall i :: 0 <= i < |r| ==> Normalised(r[i])
    ensures forall i :: 0 <= i < |r| ==> r[i] == Normalise(ts[i], idFor(i))
  {
    var r := seq(|ts|, i requires 0 <= i < |ts| => Normalise(ts[i], idFor(i)));
    assert forall i :: 0 <= i < |r| ==> r[i] == Normalise(ts[i], idFor(i));
    r
  }

  // ---------------------------------------------------------------- stored data

  /** The parsed `{tasks, lists}` object; `None` stands for a falsy property. */
  datatype Payload = Payload(tasks: Option<seq<JsObject>>, lists: Option<seq<JsValue>>)

  /** What localStorage holds under the storage key: nothing, text that does not parse, or a payload. */
  datatype Stored = Absent | Unreadable | Readable(data: Payload)

  /** The tasks `loadData` and `importData` take from a parsed payload (App.js:25-32). */
  function PayloadTasks(p: Payload, idFor: nat -> string): seq<JsObject>
    requires forall i :: 0 <= i < |p.tasks.GetOr([])| ==> idFor(i) != []
  {
    NormaliseAll(p.tasks.GetOr([]), idFor)
  }

  /** The lists they take: `data.lists || ["Tasks", "Personal", "Work", "Shopping"]` (App.js:33, 244). */
  function PayloadLists(p: Payload): seq<JsValue> {
    p.lists.GetOr(DefaultLists)
  }

  /** The snapshot `saveData` writes (App.js:51-54). */
  function Snapshot(tasks: seq<JsObject>, lists: seq<JsValue>): Stored {
    Readable(Payload(Some(tasks), Some(lists)))
  }

  // ---------------------------------------------------------------- the list registry

  /** `updateListsFromTasks` on `tasks`: each truthy list value not yet included is pushed (App.js:55-59). */
  function RegisteredJs(lists: seq<JsValue>, tasks: seq<JsObject>): (r: seq<JsValue>)
    ensures |r| <= |lists| + |tasks|
    decreases |tasks|
  {
    if tasks == [] then lists
    else
      var before := RegisteredJs(lists, tasks[..|tasks| - 1]);
      var l := Get(tasks[|tasks| - 1], "list");
      if JsTruthy(l) && l !in before then before + [l] else before
  }

  /** One step of the registry: the last task's truthy list is pushed when it is not yet included. */
  lemma RegisteredJsLast(lists: seq<JsValue>, tasks: seq<JsObject>)
    requires tasks != []
    ensures var before := RegisteredJs(lists, tasks[..|tasks| - 1]);
      var l := Get(tasks[|tasks| - 1], "list");
      var r := RegisteredJs(lists, tasks);
      && (if JsTruthy(l) && l !in before then r == before + [l] else r == before)
  {
  }

  /** The registry only appends: the old names stay first and in order. */
  lemma {:induction false} RegisteredJsExtends(lists: seq<JsValue>, tasks: seq<JsObject>)
    ensures |lists| <= |RegisteredJs(lists, tasks)| && RegisteredJs(lists, tasks)[..|lists|] == lists
    decreases |tasks|
  {
    if tasks != [] {
      var before := RegisteredJs(lists, tasks[..|tasks| - 1]);
      RegisteredJsExtends(lists, tasks[..|tasks| - 1]);
      RegisteredJsLast(lists, tasks);
      assert RegisteredJs(lists, tasks)[..|before|] == before;
    }
  }

  /** After registering, every task's truthy list is included. */
  lemma {:induction false} RegisteredJsCovers(lists: seq<JsValue>, tasks: seq<JsObject>)
    ensures forall k :: 0 <= k < |tasks| && JsTruthy(Get(tasks[k], "list")) ==> Get(tasks[k], "list") in RegisteredJs(lists, tasks)
    decreases |tasks|
  {
    if tasks != [] {
      var n := |tasks|;
      var front := tasks[..n - 1];
      var before := RegisteredJs(lists, front);
      var r := RegisteredJs(lists, tasks);
      RegisteredJsCovers(lists, front);
      RegisteredJsLast(lists, tasks);
      assert |before| <= |r| && r[..|before|] == before;
      forall k | 0 <= k < n && JsTruthy(Get(tasks[k], "list")) ensures Get(tasks[k], "list") in r {
        if k < n - 1 {
          assert tasks[k] == front[k];
          assert Get(front[k], "list") in before;
        }
      }
    }
  }

  /** Every name the registry adds is the truthy list of some task. */
  lemma {:induction false} RegisteredJsFromTasks(lists: seq<JsValue>, tasks: seq<JsObject>)
    ensures var r := RegisteredJs(lists, tasks);
      forall j :: |lists| <= j < |r| ==> JsTruthy(r[j]) && exists k :: 0 <= k < |tasks| && Get(tasks[k], "list") == r[j]
    decreases |tasks|
  {
    if tasks != [] {
      var n := |tasks|;
      var front := tasks[..n - 1];
      var before := RegisteredJs(lists, front);
      var r := RegisteredJs(lists, tasks);
      RegisteredJsFromTasks(lists, front);
      RegisteredJsLast(lists, tasks);
      assert |before| <= |r| && r[..|before|] == before;
      forall j | |lists| <= j < |r|
        ensures JsTruthy(r[j]) && exists k :: 0 <= k < n && Get(tasks[k], "list") == r[j]
      {
        if j < |before| {
          assert r[j] == before[j];
          var k :| 0 <= k < |front| && Get(front[k], "list") == before[j];
          assert tasks[k] == front[k];
        } else {
          assert Get(tasks[n - 1], "list") == r[j];
        }
      }
    }
  }

  /** No name the registry adds repeats an earlier one. */
  lemma {:induction false} RegisteredJsAddsNoDuplicate(lists: seq<JsValue>, tasks: seq<JsObject>)
    ensures var r := RegisteredJs(lists, tasks);
      forall i, j :: 0 <= i < j < |r| && |lists| <= j ==> r[i] != r[j]
    decreases |tasks|
  {
    if tasks != [] {
      var n := |tasks|;
      var front := tasks[..n - 1];
      var before := RegisteredJs(lists, front);
      var r := RegisteredJs(lists, tasks);
      RegisteredJsAddsNoDuplicate(lists, front);
      RegisteredJsLast(lists, tasks);
      forall i, j | 0 <= i < j < |r| && |lists| <= j ensures r[i] != r[j] {
        if j < |before| {
          assert r[i] == before[i] && r[j] == before[j];
        } else {
          assert r[i] == before[i] && before[i] in before;
        }
      }
    }
  }

  /** When every task's list is already registered, registering changes nothing. */
  lemma {:induction false} RegisteredJsNoop(lists: seq<JsValue>, tasks: seq<JsObject>)
    requires forall k :: 0 <= k < |tasks| && JsTruthy(Get(tasks[k], "list")) ==> Get(tasks[k], "list") in lists
    ensures RegisteredJs(lists, tasks) == lists
    decreases |tasks|
  {
    if tasks != [] {
      RegisteredJsNoop(lists, tasks[..|tasks| - 1]);
    }
  }

  /**
   * Loading back what `saveData` wrote gives the same tasks and lists, as
   * long as the tasks are normalised and their lists registered. The second
   * condition is not kept by the page: `importData` does not register the
   * imported lists, and `saveNewTask` files a new task under `currentList`,
   * which a stored `lists` need not contain (see `SnapshotMayGainList`).
   */
  lemma SnapshotRoundTrip(tasks: seq<JsObject>, lists: seq<JsValue>, idFor: nat -> string)
    requires forall i :: 0 <= i < |tasks| ==> idFor(i) != [] && Normalised(tasks[i])
    requires forall k :: 0 <= k < |tasks| ==> Get(tasks[k], "list") in lists
    ensures PayloadTasks(Snapshot(tasks, lists).data, idFor) == tasks
    ensures RegisteredJs(PayloadLists(Snapshot(tasks, lists).data), PayloadTasks(Snapshot(tasks, lists).data, idFor)) == lists
  {
    var loaded := PayloadTasks(Snapshot(tasks, lists).data, idFor);
    forall i | 0 <= i < |tasks| ensures loaded[i] == tasks[i] {
      NormaliseKeepsNormalised(tasks[i], idFor(i));
    }
    assert loaded == tasks;
    RegisteredJsNoop(lists, tasks);
  }

  /**
   * The page can save a snapshot that does not load back as it was.
   * `loadData` of `{tasks: [], lists: ["A"]}` leaves `lists` as `["A"]` while
   * the current list stays "Tasks"; `saveNewTask` then pushes a task filed
   * under "Tasks" and saves; reloading that snapshot registers "Tasks".
   */
  lemma SnapshotMayGainList()
    ensures var first := Payload(Some([]), Some([Str("A")]));
      RegisteredJs(PayloadLists(first), PayloadTasks(first, (i: nat) => "id")) == [Str("A")]
    ensures var t := NewTask("1", "x", DueOf(""), "c", PriorityOf(""), "Tasks");
      var stored := Snapshot([t], [Str("A")]).data;
      var loaded := PayloadTasks(stored, (i: nat) => "id");
      && loaded == [t]
      && RegisteredJs(PayloadLists(stored), loaded) == [Str("A"), Str("Tasks")]
  {
    var t := NewTask("1", "x", DueOf(""), "c", PriorityOf(""), "Tasks");
    NormaliseKeepsNormalised(t, "id");
    var loaded := PayloadTasks(Snapshot([t], [Str("A")]).data, (i: nat) => "id");
    assert loaded == [t];
    assert loaded[..0] == [];
  }

  // ---------------------------------------------------------------- filters and edits

  /** The list a task is shown under, `t.list || "Tasks"`. */
  function ListOf(t: JsObject): JsValue {
    if JsTruthy(Get(t, "list")) then Get(t, "list") else Str("Tasks")
  }

  /** The test of the `renderTasks` filter. */
  function InListTest(name: string): JsObject -> bool {
    (t: JsObject) => ListOf(t) == Str(name)
  }

  /** `tasks.filter(t => (t.list || "Tasks") === currentList)` (App.js:73). */
  function Visible(tasks: seq<JsObject>, name: string): seq<JsObject> {
    Seqs.Filter(tasks, InListTest(name))
  }

  /** The filter keeps exactly the tasks shown under `name`, in order. */
  lemma VisibleMeaning(tasks: seq<JsObject>, name: string, more: seq<JsObject>)
    ensures forall t :: t in Visible(tasks, name) <==> t in tasks && ListOf(t) == Str(name)
    ensures Visible(tasks + more, name) == Visible(tasks, name) + Visible(more, name)
  {
    Seqs.FilterContents(tasks, InListTest(name));
    Seqs.FilterAppend(tasks, more, InListTest(name));
  }

  /** The test of the `deleteTask` filter, `t._id !== id`. */
  function OtherId(id: JsValue): JsObject -> bool {
    (t: JsObject) => Get(t, "_id") != id
  }

  /** `tasks.filter(t => t._id !== task._id)` (App.js:199). */
  function WithoutId(tasks: seq<JsObject>, id: JsValue): seq<JsObject> {
    Seqs.Filter(tasks, OtherId(id))
  }

  /** Deleting removes every task with the id, keeps the rest in order, and so shortens the list when the id occurs. */
  lemma DeleteMeaning(tasks: seq<JsObject>, i: nat)
    requires i < |tasks|
    ensures var r := WithoutId(tasks, Get(tasks[i], "_id"));
      && (forall t :: t in r <==> t in tasks && Get(t, "_id") != Get(tasks[i], "_id"))
      && |r| < |tasks|
  {
    var id := Get(tasks[i], "_id");
    Seqs.FilterContents(tasks, OtherId(id));
    Seqs.FilterDropsSome(tasks, i, OtherId(id));
  }

  /** `task.completed = !task.completed` (App.js:185). */
  function Toggled(t: JsObject): (r: JsObject)
    ensures r.Keys == t.Keys + {"completed"}
    ensures JsTruthy(Get(r, "completed")) == !JsTruthy(Get(t, "completed"))
    ensures forall k :: k in t && k != "completed" ==> r[k] == t[k]
  {
    t["completed" := Bool(!JsTruthy(Get(t, "completed")))]
  }

  /** Toggling twice restores a boolean flag; any other flag becomes its truth value. */
  lemma ToggleTwice(t: JsObject)
    ensures Toggled(Toggled(t)) == t["completed" := Bool(JsTruthy(Get(t, "completed")))]
    ensures Get(t, "completed").Bool? ==> Toggled(Toggled(t)) == t
  {
    if Get(t, "completed").Bool? {
      assert t["completed" := Bool(JsTruthy(Get(t, "completed")))] == t;
    }
  }

  /** The position `tasks.find(tk => tk._id === id)` stops at. */
  function FindById(tasks: seq<JsObject>, id: JsValue): (r: Option<nat>)
    ensures r.None? <==> forall i :: 0 <= i < |tasks| ==> Get(tasks[i], "_id") != id
    ensures r.Some? ==> r.value < |tasks| && Get(tasks[r.value], "_id") == id
    ensures r.Some? ==> forall j :: 0 <= j < r.value ==> Get(tasks[j], "_id") != id
  {
    if tasks == [] then None
    else if Get(tasks[0], "_id") == id then Some(0)
    else match FindById(tasks[1..], id)
      case None => None
      case Some(i) => Some(i + 1)
  }

  /** What an edit writes into the task: text, due date, priority, and the current list (App.js:158-161). */
  function Edited(t: JsObject, text: string, due: JsValue, priority: string, list: string): (r: JsObject)
    ensures r.Keys == t.Keys + {"task", "due_date", "priority", "list"}
    ensures r["task"] == Str(text) && r["due_date"] == due && r["priority"] == Str(priority) && r["list"] == Str(list)
    ensures forall k :: k in t && k !in {"task", "due_date", "priority", "list"} ==> r[k] == t[k]
  {
    t["task" := Str(text)]["due_date" := due]["priority" := Str(priority)]["list" := Str(list)]
  }

  /** The edit branch of `saveNewTask` (App.js:154-164): the first task with the id is edited, if any. */
  function EditedById(tasks: seq<JsObject>, id: JsValue, text: string, due: JsValue, priority: string, list: string): (r: seq<JsObject>)
    ensures |r| == |tasks|
    ensures FindById(tasks, id).None? ==> r == tasks
    ensures FindById(tasks, id).Some? ==> forall j :: 0 <= j < |r| && j != FindById(tasks, id).value ==> r[j] == tasks[j]
    ensures FindById(tasks, id).Some? ==> r[FindById(tasks, id).value] == Edited(tasks[FindById(tasks, id).value], text, due, priority, list)
  {
    match FindById(tasks, id)
    case None => tasks
    case Some(i) => tasks[i := Edited(tasks[i], text, due, priority, list)]
  }

  /** The object `saveNewTask` pushes in add mode (App.js:165-174). */
  function NewTask(id: string, text: string, due: JsValue, createdAt: string, priority: string, list: string): (r: JsObject)
    ensures Get(r, "completed") == Bool(false) && ListOf(r) == (if list == [] then Str("Tasks") else Str(list))
    ensures Get(r, "_id") == Str(id) && Get(r, "task") == Str(text) && Get(r, "due_date") == due
    ensures Get(r, "priority") == Str(priority) && Get(r, "created_at") == Str(createdAt)
  {
    map["_id" := Str(id), "task" := Str(text), "completed" := Bool(false), "due_date" := due,
        "created_at" := Str(createdAt), "priority" := Str(priority), "list" := Str(list)]
  }

  /** The form's due date, `dueDate.value || null`, and priority, `priority.value || "medium"` (App.js:152-153). */
  function DueOf(dueValue: string): (r: JsValue)
    ensures JsTruthy(r) <==> dueValue != []
    ensures dueValue == [] ==> r == Null
    ensures dueValue != [] ==> r == Str(dueValue)
  {
    if dueValue == [] then Null else Str(dueValue)
  }

  function PriorityOf(priorityValue: string): (r: string)
    ensures r != [] && (priorityValue != [] ==> r == priorityValue)
    ensures priorityValue == [] ==> r == "medium"
  {
    if priorityValue == [] then "medium" else priorityValue
  }

  // ---------------------------------------------------------------- the page state

  /** The module-level state of App.js, with the storage entry as last written. */
  class TodoPage {
    var tasks: seq<JsObject>
    var lists: seq<JsValue>
    var currentList: string
    var editingIndex: JsValue
    var saved: Stored

    /**
     * The page's start-up (App.js:3-6 and the `loadData()` call at the end):
     * the initial state, then the stored data is loaded.
     */
    constructor (stored: Stored, idFor: nat -> string)
      requires forall i :: idFor(i) != []
      ensures currentList == "Tasks" && editingIndex == Null && saved == stored
      ensures stored.Absent? ==> tasks == [] && lists == DefaultLists
      ensures stored.Unreadable? ==> tasks == [] && lists == DefaultLists
      ensures stored.Readable? ==>
        && tasks == PayloadTasks(stored.data, idFor)
        && lists == RegisteredJs(PayloadLists(stored.data), tasks)
    {
      tasks := [];
      lists := DefaultLists;
      currentList := "Tasks";
      editingIndex := Null;
      saved := stored;
      new;
      LoadData(stored, idFor);
    }

    /**
     * `loadData` (App.js:21-50): nothing stored keeps the current tasks and
     * lists; text that does not parse resets both to the defaults; a payload
     * is normalised. The lists of the tasks are registered in every case.
     */
    method LoadData(stored: Stored, idFor: nat -> string)
      requires forall i :: idFor(i) != []
      modifies this`tasks, this`lists
      ensures stored.Absent? ==> tasks == old(tasks) && lists == RegisteredJs(old(lists), tasks)
      ensures stored.Unreadable? ==> tasks == [] && lists == DefaultLists
      ensures stored.Readable? ==>
        && tasks == PayloadTasks(stored.data, idFor)
        && lists == RegisteredJs(PayloadLists(stored.data), tasks)
    {
      match stored {
        case Absent =>
        case Unreadable =>
          tasks := [];
          lists := DefaultLists;
        case Readable(data) =>
          tasks := PayloadTasks(data, idFor);
          lists := PayloadLists(data);
      }
      UpdateListsFromTasks();
    }

    /** `saveData` (App.js:51-54). */
    method SaveData()
      modifies this`saved
      ensures saved == Snapshot(tasks, lists)
    {
      saved := Snapshot(tasks, lists);
    }

    /** `updateListsFromTasks` (App.js:55-59). */
    method UpdateListsFromTasks()
      modifies this`lists
      ensures lists == RegisteredJs(old(lists), tasks)
    {
      var i := 0;
      while i < |tasks|
        invariant 0 <= i <= |tasks|
        invariant lists == RegisteredJs(old(lists), tasks[..i])
      {
        assert tasks[..i + 1][..i] == tasks[..i];
        var l := Get(tasks[i], "list");
        if JsTruthy(l) && l !in lists {
          lists := lists + [l];
        }
        i := i + 1;
      }
      assert tasks[..|tasks|] == tasks;
    }

    /**
     * `importData`'s reader callback (App.js:226-257): a file that does not
     * parse changes nothing; otherwise tasks and lists are replaced, with the
     * lists of the tasks left unregistered, and saved.
     */
    method ImportData(parsed: Option<Payload>, idFor: nat -> string)
      requires forall i :: idFor(i) != []
      modifies this`tasks, this`lists, this`saved
      ensures parsed.None? ==> tasks == old(tasks) && lists == old(lists) && saved == old(saved)
      ensures parsed.Some? ==>
        && tasks == PayloadTasks(parsed.value, idFor)
        && lists == PayloadLists(parsed.value)
        && saved == Snapshot(tasks, lists)
    {
      if parsed.Some? {
        tasks := PayloadTasks(parsed.value, idFor);
        lists := PayloadLists(parsed.value);
        SaveData();
      }
    }

    /**
     * The part of `saveNewTask` after the text is accepted, with `resetForm`
     * (App.js:154-179): edit mode edits the task with the remembered `_id`,
     * add mode pushes a new task; then the data is saved and edit mode left.
     */
    method Commit(text: string, due: JsValue, pr: string, now: string, newId: string)
      modifies this`tasks, this`editingIndex, this`saved
      ensures editingIndex == Null && saved == Snapshot(tasks, lists)
      ensures old(editingIndex) != Null ==> tasks == EditedById(old(tasks), old(editingIndex), text, due, pr, currentList)
      ensures old(editingIndex) == Null ==> tasks == old(tasks) + [NewTask(newId, text, due, now, pr, currentList)]
    {
      if editingIndex != Null {
        var found := FindById(tasks, editingIndex);
        if found.Some? {
          var i := found.value;
          tasks := tasks[i := Edited(tasks[i], text, due, pr, currentList)];
        }
        editingIndex := Null;
      } else {
        tasks := tasks + [NewTask(newId, text, due, now, pr, currentList)];
      }
      SaveData();
      editingIndex := Null;
    }

    /**
     * `saveNewTask` (App.js:146-180): empty trimmed text changes nothing;
     * otherwise the form, with its due date and priority defaults, is committed.
     */
    method SaveNewTask(rawText: string, dueValue: string, priorityValue: string, now: string, newId: string)
      returns (accepted: bool)
      modifies this`tasks, this`editingIndex, this`saved
      ensures accepted <==> Text.Trim(rawText, Text.IsJsSpace) != []
      ensures !accepted ==> tasks == old(tasks) && editingIndex == old(editingIndex) && saved == old(saved)
      ensures accepted ==>
        var text := Text.Trim(rawText, Text.IsJsSpace);
        && editingIndex == Null && saved == Snapshot(tasks, lists)
        && (old(editingIndex) != Null ==>
              tasks == EditedById(old(tasks), old(editingIndex), text, DueOf(dueValue), PriorityOf(priorityValue), currentList))
        && (old(editingIndex) == Null ==>
              tasks == old(tasks) + [NewTask(newId, text, DueOf(dueValue), now, PriorityOf(priorityValue), currentList)])
    {
      var text := Text.Trim(rawText, Text.IsJsSpace);
      if text == [] {
        return false;
      }
      Commit(text, DueOf(dueValue), PriorityOf(priorityValue), now, newId);
      return true;
    }

    /** `toggleCompletion` on the card of task `i` (App.js:184-188). */
    method ToggleCompletion(i: nat)
      requires i < |tasks|
      modifies this`tasks, this`saved
      ensures tasks == old(tasks)[i := Toggled(old(tasks)[i])]
      ensures saved == Snapshot(tasks, lists)
    {
      tasks := tasks[i := Toggled(tasks[i])];
      SaveData();
    }

    /** `startEdit` on the card of task `i` (App.js:189-196): remembers the task's `_id`. */
    method StartEdit(i: nat)
      requires i < |tasks|
      modifies this`editingIndex
      ensures editingIndex == Get(tasks[i], "_id")
    {
      editingIndex := Get(tasks[i], "_id");
    }

    /** `deleteTask` on the card of task `i` (App.js:197-203): after confirmation every task with its `_id` is dropped and the data saved. */
    method DeleteTask(i: nat, confirmed: bool)
      requires i < |tasks|
      modifies this`tasks, this`saved
      ensures !confirmed ==> tasks == old(tasks) && saved == old(saved)
      ensures confirmed ==> tasks == WithoutId(old(tasks), Get(old(tasks)[i], "_id")) && saved == Snapshot(tasks, lists)
    {
      if !confirmed {
        return;
      }
      tasks := WithoutId(tasks, Get(tasks[i], "_id"));
      SaveData();
    }

    /**
     * `addNewList` (App.js:204-214): a non-empty name not yet included is
     * pushed and made current (without saving); a cancelled, empty or known
     * name changes nothing.
     */
    method AddNewList(answer: Option<string>)
      modifies this`lists, this`currentList
      ensures answer.Some? && answer.value != [] && Str(answer.value) !in old(lists) ==>
        lists == old(lists) + [Str(answer.value)] && currentList == answer.value
      ensures !(answer.Some? && answer.value != [] && Str(answer.value) !in old(lists)) ==>
        lists == old(lists) && currentList == old(currentList)
    {
      if answer.Some? && answer.value != [] && Str(answer.value) !in lists {
        lists := lists + [Str(answer.value)];
        currentList := answer.value;
      }
    }
  }
}

/**
 * The task store under the Tkinter window of app.py: task dictionaries read
 * from tasks.json with missing fields filled in, written back with dates as
 * text, and the `TodoApp` state the window's callbacks change (the task list,
 * the list names, the current list and the task being edited).
 */
module TkApp {
  import opened Wrappers
  import opened Dates
  import Seqs
  import Text

  /** A reading of the clock, as a `datetime.datetime` holds it; it is only stored and passed on. */
  datatype Instant = Instant(micros: int)

  /** A Python value held in a task dictionary: what `json.load` gives, plus the date objects the program puts there. */
  datatype Value =
    | Null
    | Bool(b: bool)
    | Int(i: int)
    | Float(x: real)
    | Str(s: string)
    | List(items: seq<Value>)
    | Dict(entries: map<string, Value>)
    | Day(date: Date)
    | Moment(at: Instant)

  /** A task dictionary. */
  type Record = map<string, Value>

  /** Python's truth value of a value (`if value:`). */
  predicate Truthy(v: Value) {
    match v
    case Null => false
    case Bool(b) => b
    case Int(i) => i != 0
    case Float(x) => x != 0.0
    case Str(s) => s != []
    case List(items) => items != []
    case Dict(entries) => entries != map[]
    case Day(_) => true
    case Moment(_) => true
  }

  /** The numeric reading of `bool`, `int` and `float`, which Python's `==` compares across types. */
  function NumberOf(v: Value): Option<real> {
    match v
    case Bool(b) => Some(if b then 1.0 else 0.0)
    case Int(i) => Some(i as real)
    case Float(x) => Some(x)
    case _ => None
  }

  /** Python's `==` on two values. */
  predicate PyEq(a: Value, b: Value) {
    if NumberOf(a).Some? && NumberOf(b).Some? then NumberOf(a) == NumberOf(b) else a == b
  }

  /** Python's `v in values` on a list. */
  predicate PyIn(v: Value, values: seq<Value>) {
    exists j :: 0 <= j < |values| && PyEq(values[j], v)
  }

  // ---------------------------------------------------------------- load_tasks

  /** A truthy `due_date` read back with `datetime.fromisoformat(...).date()`; a failure, caught, gives `None` (app.py:17-21). */
  function ReadDueDate(v: Value): Value {
    match v
    case Str(s) => (match ParseIsoDate(s) case Some(d) => Day(d) case None => Null)
    case _ => Null
  }

  /** `created_at` read back with `datetime.fromisoformat`; a failure, caught, gives the clock's reading (app.py:22-26). */
  function ReadCreatedAt(v: Value, parseStamp: string -> Option<Instant>, now: Instant): Value {
    match v
    case Str(s) => (match parseStamp(s) case Some(m) => Moment(m) case None => Moment(now))
    case _ => Moment(now)
  }

  /**
   * The shape every task has in memory: it has a priority and a list name; a
   * due date that is set is a date object; a creation time that is present is
   * a datetime.
   */
  predicate InMemoryShape(t: Record) {
    && "priority" in t && "list" in t
    && ("due_date" in t ==> t["due_date"].Day? || !Truthy(t["due_date"]))
    && ("created_at" in t ==> t["created_at"].Moment?)
  }

  /** The fields `load_tasks` may rewrite; all others are kept as read. */
  const LoadedFields: set<string> := {"due_date", "created_at", "priority", "list"}

  /** What the body of `load_tasks`' loop does to one dictionary (app.py:16-30). */
  function LoadRecord(t: Record, parseStamp: string -> Option<Instant>, now: Instant): (r: Record)
    ensures r.Keys == t.Keys + {"priority", "list"}
    ensures InMemoryShape(r)
    ensures r["priority"] == (if "priority" in t then t["priority"] else Str("medium"))
    ensures r["list"] == (if "list" in t then t["list"] else Str("Tasks"))
    ensures "due_date" in t && !Truthy(t["due_date"]) ==> r["due_date"] == t["due_date"]
    ensures "due_date" in t && Truthy(t["due_date"]) ==>
      r["due_date"] == (if t["due_date"].Str? && ParseIsoDate(t["due_date"].s).Some?
                        then Day(ParseIsoDate(t["due_date"].s).value) else Null)
    ensures "created_at" in t ==> r["created_at"] == ReadCreatedAt(t["created_at"], parseStamp, now)
    ensures forall k :: k in t && k !in LoadedFields ==> r[k] == t[k]
  {
    var t1 := if "due_date" in t && Truthy(t["due_date"]) then t["due_date" := ReadDueDate(t["due_date"])] else t;
    var t2 := if "created_at" in t1 then t1["created_at" := ReadCreatedAt(t1["created_at"], parseStamp, now)] else t1;
    var t3 := if "priority" !in t2 then t2["priority" := Str("medium")] else t2;
    if "list" !in t3 then t3["list" := Str("Tasks")] else t3
  }

  /** `load_tasks()` on each dictionary of the file, in order. */
  function LoadAll(records: seq<Record>, parseStamp: string -> Option<Instant>, now: Instant): (r: seq<Record>)
    ensures |r| == |records|
    ensures forall i :: 0 <= i < |r| ==> r[i] == LoadRecord(records[i], parseStamp, now)
  {
    seq(|records|, i requires 0 <= i < |records| => LoadRecord(records[i], parseStamp, now))
  }

  /**
   * `load_tasks()`: the dictionaries of tasks.json, each rewritten in place by
   * the loop, or none when the file does not exist (app.py:11-32).
   */
  method LoadTasks(file: Option<seq<Record>>, parseStamp: string -> Option<Instant>, now: Instant)
    returns (tasks: seq<Record>)
    ensures file.None? ==> tasks == []
    ensures file.Some? ==> tasks == LoadAll(file.value, parseStamp, now)
  {
    if file.None? {
      return [];
    }
    tasks := file.value;
    var i := 0;
    while i < |tasks|
      invariant 0 <= i <= |tasks| == |file.value|
      invariant forall j :: 0 <= j < i ==> tasks[j] == LoadRecord(file.value[j], parseStamp, now)
      invariant forall j :: i <= j < |tasks| ==> tasks[j] == file.value[j]
    {
      tasks := tasks[i := LoadRecord(tasks[i], parseStamp, now)];
      i := i + 1;
    }
  }

  // ---------------------------------------------------------------- save_tasks

  /** `.isoformat()` of a date or a datetime; any other value has no such method and raises. */
  function IsoText(v: Value, stampText: Instant -> string): Option<Value> {
    match v
    case Day(d) => Some(Str(IsoFormat(d)))
    case Moment(m) => Some(Str(stampText(m)))
    case _ => None
  }

  /**
   * The copy `save_tasks` writes for one dictionary: a truthy `due_date` and
   * a present `created_at` become text, everything else is copied; a value
   * without `isoformat` makes the save fail (app.py:37-43).
   */
  function SaveRecord(t: Record, stampText: Instant -> string): (r: Option<Record>)
    ensures r.Some? <==>
      && ("due_date" in t && Truthy(t["due_date"]) ==> IsoText(t["due_date"], stampText).Some?)
      && ("created_at" in t ==> IsoText(t["created_at"], stampText).Some?)
    ensures r.Some? ==> r.value.Keys == t.Keys
    ensures r.Some? ==> forall k :: k in t && k != "due_date" && k != "created_at" ==> r.value[k] == t[k]
    ensures r.Some? && "due_date" in t && !Truthy(t["due_date"]) ==> r.value["due_date"] == t["due_date"]
    ensures r.Some? && "due_date" in t && t["due_date"].Day? ==> r.value["due_date"] == Str(IsoFormat(t["due_date"].date))
    ensures r.Some? && "created_at" in t ==> r.value["created_at"] == IsoText(t["created_at"], stampText).value
  {
    var convertDue := "due_date" in t && Truthy(t["due_date"]);
    if convertDue && IsoText(t["due_date"], stampText).None? then None
    else if "created_at" in t && IsoText(t["created_at"], stampText).None? then None
    else
      var t1 := if convertDue then t["due_date" := IsoText(t["due_date"], stampText).value] else t;
      Some(if "created_at" in t then t1["created_at" := IsoText(t["created_at"], stampText).value] else t1)
  }

  /** `save_tasks(tasks)`: the list written to tasks.json, or `None` when a conversion fails. */
  function SaveAll(tasks: seq<Record>, stampText: Instant -> string): (r: Option<seq<Record>>)
    ensures r.Some? <==> forall i :: 0 <= i < |tasks| ==> SaveRecord(tasks[i], stampText).Some?
    ensures r.Some? ==> |r.value| == |tasks| && forall i :: 0 <= i < |tasks| ==> Some(r.value[i]) == SaveRecord(tasks[i], stampText)
  {
    if forall i :: 0 <= i < |tasks| ==> SaveRecord(tasks[i], stampText).Some? then
      Some(seq(|tasks|, i requires 0 <= i < |tasks| => SaveRecord(tasks[i], stampText).value))
    else None
  }

  /** `save_tasks(tasks)`: builds the serialisable copies one by one (app.py:34-45). */
  method SaveTasks(tasks: seq<Record>, stampText: Instant -> string) returns (written: Option<seq<Record>>)
    ensures written == SaveAll(tasks, stampText)
  {
    var serializable: seq<Record> := [];
    var i := 0;
    while i < |tasks|
      invariant 0 <= i <= |tasks| && |serializable| == i
      invariant forall j :: 0 <= j < i ==> Some(serializable[j]) == SaveRecord(tasks[j], stampText)
    {
      var copy := SaveRecord(tasks[i], stampText);
      if copy.None? {
        return None;
      }
      serializable := serializable + [copy.value];
      i := i + 1;
    }
    assert forall j :: 0 <= j < |tasks| ==> SaveRecord(tasks[j], stampText).Some?;
    assert serializable == SaveAll(tasks, stampText).value;
    return Some(serializable);
  }

  /**
   * Saving a task as it is held in memory and loading it back gives the same
   * task, provided the timestamp text reads back as the same instant
   * (app.py:37-43 then app.py:16-30).
   */
  lemma {:induction false} RecordRoundTrip(t: Record, stampText: Instant -> string,
                                           parseStamp: string -> Option<Instant>, now: Instant)
    requires InMemoryShape(t)
    requires forall m :: parseStamp(stampText(m)) == Some(m)
    ensures SaveRecord(t, stampText).Some?
    ensures LoadRecord(SaveRecord(t, stampText).value, parseStamp, now) == t
  {
    var u := SaveRecord(t, stampText).value;
    var back := LoadRecord(u, parseStamp, now);
    assert u.Keys == t.Keys;
    forall k | k in t ensures back[k] == t[k] {
      if k == "due_date" {
        DueDateRoundTrip(t, u, stampText, parseStamp, now);
      } else if k == "created_at" {
        var m := t["created_at"].at;
        assert u[k] == Str(stampText(m));
        assert parseStamp(stampText(m)) == Some(m);
      }
    }
  }

  /** The `due_date` part of `RecordRoundTrip`. */
  lemma DueDateRoundTrip(t: Record, u: Record, stampText: Instant -> string,
                         parseStamp: string -> Option<Instant>, now: Instant)
    requires InMemoryShape(t) && "due_date" in t
    requires SaveRecord(t, stampText) == Some(u)
    ensures LoadRecord(u, parseStamp, now)["due_date"] == t["due_date"]
  {
    if t["due_date"].Day? {
      var d := t["due_date"].date;
      IsoRoundTrip(d);
      assert u["due_date"] == Str(IsoFormat(d));
    }
  }

  /** The whole list survives a save followed by a load (the file's round trip). */
  lemma SaveLoadRoundTrip(tasks: seq<Record>, stampText: Instant -> string,
                          parseStamp: string -> Option<Instant>, now: Instant)
    requires forall i :: 0 <= i < |tasks| ==> InMemoryShape(tasks[i])
    requires forall m :: parseStamp(stampText(m)) == Some(m)
    ensures SaveAll(tasks, stampText).Some?
    ensures LoadAll(SaveAll(tasks, stampText).value, parseStamp, now) == tasks
  {
    forall i | 0 <= i < |tasks| ensures SaveRecord(tasks[i], stampText).Some? {
      RecordRoundTrip(tasks[i], stampText, parseStamp, now);
    }
    var saved := SaveAll(tasks, stampText).value;
    forall i | 0 <= i < |tasks| ensures LoadRecord(saved[i], parseStamp, now) == tasks[i] {
      RecordRoundTrip(tasks[i], stampText, parseStamp, now);
    }
  }

  // ---------------------------------------------------------------- the save_task form

  /** Why `save_task` refuses the form: it shows a warning or an error and returns. */
  datatype FormError = EmptyText | BadDate

  /**
   * The checks at the top of `save_task` (app.py:483-497): the text and the
   * due-date field are stripped; empty text is refused; a non-empty due date
   * must parse with `strptime(..., "%Y-%m-%d")`, and an empty one means no date.
   */
  function ReadForm(rawText: string, rawDue: string): (r: Result<(string, Value), FormError>)
    ensures r == Err(EmptyText) <==> Text.Trim(rawText, Text.IsPySpace) == []
    ensures r == Err(BadDate) <==>
      && Text.Trim(rawText, Text.IsPySpace) != []
      && Text.Trim(rawDue, Text.IsPySpace) != []
      && Strptime(Text.Trim(rawDue, Text.IsPySpace)).None?
    ensures r.Ok? ==> r.value.0 == Text.Trim(rawText, Text.IsPySpace) && r.value.0 != []
    ensures r.Ok? ==> (r.value.1 == Null <==> Text.Trim(rawDue, Text.IsPySpace) == [])
    ensures r.Ok? && r.value.1 != Null ==> r.value.1 == Day(Strptime(Text.Trim(rawDue, Text.IsPySpace)).value)
  {
    var text := Text.Trim(rawText, Text.IsPySpace);
    var dueText := Text.Trim(rawDue, Text.IsPySpace);
    if text == [] then Err(EmptyText)
    else if dueText == [] then Ok((text, Null))
    else match Strptime(dueText)
      case None => Err(BadDate)
      case Some(d) => Ok((text, Day(d)))
  }

  /**
   * `edit_task` fills the due-date field with the task's `isoformat()`
   * (app.py:460-465); saving that form again keeps the same date (app.py:494).
   */
  lemma FormKeepsEditedDate(rawText: string, d: Date)
    requires Text.Trim(rawText, Text.IsPySpace) != []
    ensures ReadForm(rawText, IsoFormat(d)) == Ok((Text.Trim(rawText, Text.IsPySpace), Day(d)))
  {
    var s := IsoFormat(d);
    assert !Text.IsPySpace(s[0]) && !Text.IsPySpace(s[|s| - 1]);
    Text.TrimLeavesUnspaced(s, Text.IsPySpace);
    StrptimeAcceptsIso(d);
  }

  // ---------------------------------------------------------------- tasks held by identity

  /** A task dictionary together with the identity of the Python object holding it (`id(task)`). */
  datatype Entry = Entry(handle: nat, fields: Record)

  /** The dictionaries of a task list, as `save_tasks` receives them. */
  function Fields(entries: seq<Entry>): seq<Record> {
    seq(|entries|, i requires 0 <= i < |entries| => entries[i].fields)
  }

  /** No two entries are the same object. */
  predicate HandlesDistinct(entries: seq<Entry>) {
    forall i, j :: 0 <= i < j < |entries| ==> entries[i].handle != entries[j].handle
  }

  /** The position of the object `h` in the list, found by scanning from the front. */
  function IndexOf(entries: seq<Entry>, h: nat): (r: Option<nat>)
    ensures r.None? <==> forall i :: 0 <= i < |entries| ==> entries[i].handle != h
    ensures r.Some? ==> r.value < |entries| && entries[r.value].handle == h
    ensures r.Some? ==> forall j :: 0 <= j < r.value ==> entries[j].handle != h
  {
    if entries == [] then None
    else if entries[0].handle == h then Some(0)
    else match IndexOf(entries[1..], h)
      case None => None
      case Some(i) => Some(i + 1)
  }

  /** The list name a task is filed under, `t.get("list", "Tasks")`. */
  function ListOf(t: Record): Value {
    if "list" in t then t["list"] else Str("Tasks")
  }

  /** The test of the current-list filter. */
  function InListTest(name: string): Entry -> bool {
    (e: Entry) => ListOf(e.fields) == Str(name)
  }

  /** The tasks `load_tasks_cards` shows for the list `name`, in list order (app.py:369). */
  function InList(entries: seq<Entry>, name: string): seq<Entry> {
    Seqs.Filter(entries, InListTest(name))
  }

  /** The filter keeps exactly the tasks filed under `name`, each as often as it occurs. */
  lemma InListMeaning(entries: seq<Entry>, name: string)
    ensures forall e :: e in InList(entries, name) <==> e in entries && ListOf(e.fields) == Str(name)
    ensures forall e ::
      multiset(InList(entries, name))[e] == if ListOf(e.fields) == Str(name) then multiset(entries)[e] else 0
  {
    Seqs.FilterContents(entries, InListTest(name));
  }

  /** The filter keeps the list's order: it distributes over concatenation. */
  lemma InListKeepsOrder(a: seq<Entry>, b: seq<Entry>, name: string)
    ensures InList(a + b, name) == InList(a, name) + InList(b, name)
  {
    Seqs.FilterAppend(a, b, InListTest(name));
  }

  /** `task["completed"] = not task["completed"]` (app.py:450). */
  function Toggled(t: Record): (r: Record)
    requires "completed" in t
    ensures r.Keys == t.Keys
    ensures Truthy(r["completed"]) == !Truthy(t["completed"])
    ensures forall k :: k in t && k != "completed" ==> r[k] == t[k]
  {
    t["completed" := Bool(!Truthy(t["completed"]))]
  }

  /** Toggling twice restores a boolean flag, and leaves any other flag as its truth value. */
  lemma ToggleTwice(t: Record)
    requires "completed" in t
    ensures Toggled(Toggled(t)) == t["completed" := Bool(Truthy(t["completed"]))]
    ensures t["completed"].Bool? ==> Toggled(Toggled(t)) == t
  {
    if t["completed"].Bool? {
      assert t["completed" := Bool(Truthy(t["completed"]))] == t;
    }
  }

  /** The object test of the `delete_task` comprehension, `id(t) != id(task)`. */
  function NotHandle(h: nat): Entry -> bool {
    (e: Entry) => e.handle != h
  }

  /** `[t for t in self.tasks if id(t) != id(task)]` (app.py:478). */
  function WithoutHandle(entries: seq<Entry>, h: nat): seq<Entry> {
    Seqs.Filter(entries, NotHandle(h))
  }

  /**
   * Deleting removes exactly the targeted task and keeps the others in order;
   * deleting a task that is not in the list changes nothing.
   */
  lemma DeleteRemovesExactlyOne(entries: seq<Entry>, h: nat)
    requires HandlesDistinct(entries)
    ensures IndexOf(entries, h).None? ==> WithoutHandle(entries, h) == entries
    ensures IndexOf(entries, h).Some? ==>
      var i := IndexOf(entries, h).value;
      WithoutHandle(entries, h) == entries[..i] + entries[i + 1..]
  {
    match IndexOf(entries, h)
    case None =>
      Seqs.FilterKeepsAll(entries, NotHandle(h));
    case Some(i) =>
      Seqs.FilterDropsOne(entries, i, NotHandle(h));
  }

  /** Removing one entry keeps the handles distinct. */
  lemma RemovedKeepsDistinct(entries: seq<Entry>, i: nat)
    requires HandlesDistinct(entries) && i < |entries|
    ensures HandlesDistinct(entries[..i] + entries[i + 1..])
  {
    var r := entries[..i] + entries[i + 1..];
    forall a, b | 0 <= a < b < |r| ensures r[a].handle != r[b].handle {
      var a' := if a < i then a else a + 1;
      var b' := if b < i then b else b + 1;
      assert r[a] == entries[a'] && r[b] == entries[b'];
    }
  }

  /** The fields `save_task` writes into the task being edited (app.py:503-505). */
  function Edited(t: Record, text: string, due: Value, priority: string): (r: Record)
    ensures r.Keys == t.Keys + {"task", "due_date", "priority"}
    ensures r["task"] == Str(text) && r["due_date"] == due && r["priority"] == Str(priority)
    ensures forall k :: k in t && k !in {"task", "due_date", "priority"} ==> r[k] == t[k]
  {
    t["task" := Str(text)]["due_date" := due]["priority" := Str(priority)]
  }

  /** The edit loop of `save_task`: the first entry that is the object `h` is edited (app.py:501-506). */
  function EditedAt(entries: seq<Entry>, h: nat, text: string, due: Value, priority: string): (r: seq<Entry>)
    ensures |r| == |entries|
    ensures forall j :: 0 <= j < |r| ==> r[j].handle == entries[j].handle
    ensures IndexOf(entries, h).None? ==> r == entries
    ensures IndexOf(entries, h).Some? ==>
      var i := IndexOf(entries, h).value;
      && r[i].fields == Edited(entries[i].fields, text, due, priority)
      && forall j :: 0 <= j < |r| && j != i ==> r[j] == entries[j]
  {
    match IndexOf(entries, h)
    case None => entries
    case Some(i) => entries[i := Entry(h, Edited(entries[i].fields, text, due, priority))]
  }

  /** The dictionary `save_task` appends in add mode (app.py:510-517). */
  function NewTask(text: string, due: Value, createdAt: Instant, priority: string, list: string): (r: Record)
    requires due == Null || due.Day?
    ensures InMemoryShape(r)
    ensures ListOf(r) == Str(list) && "completed" in r && r["completed"] == Bool(false)
  {
    map["task" := Str(text), "completed" := Bool(false), "due_date" := due,
        "created_at" := Moment(createdAt), "priority" := Str(priority), "list" := Str(list)]
  }

  /** A task added while `list` is current is the last one shown for that list. */
  lemma AddedTaskIsShown(entries: seq<Entry>, e: Entry, list: string)
    requires ListOf(e.fields) == Str(list)
    ensures InList(entries + [e], list) == InList(entries, list) + [e]
  {
    InListKeepsOrder(entries, [e], list);
    assert [e][1..] == [];
  }

  /**
   * The colour test of a task card (app.py:430-432): a task is overdue when it
   * has a due date before today and is not completed.
   */
  predicate IsOverdue(t: Record, today: Date)
    requires InMemoryShape(t) && "completed" in t
  {
    && "due_date" in t && t["due_date"].Day?
    && Before(t["due_date"].date, today)
    && !Truthy(t["completed"])
  }

  /** An open task that is overdue stays overdue on every later day, and is never overdue on its due day. */
  lemma OverdueStaysOverdue(t: Record, today: Date, later: Date)
    requires InMemoryShape(t) && "completed" in t
    requires IsOverdue(t, today) && !Before(later, today)
    ensures IsOverdue(t, later)
    ensures t["due_date"].Day? ==> !IsOverdue(t, t["due_date"].date)
  {
    var due := t["due_date"].date;
    if due.year == later.year && due.month == later.month {
      assert today.year == later.year && today.month == later.month;
    }
  }

  // ---------------------------------------------------------------- the list registry

  /** The names `TodoApp` starts with (app.py:63). */
  const DefaultLists: seq<Value> := [Str("Tasks"), Str("Personal"), Str("Work"), Str("Shopping")]

  /** No two list names are equal in Python's sense. */
  predicate Distinct(values: seq<Value>) {
    forall i, j :: 0 <= i < j < |values| ==> !PyEq(values[i], values[j])
  }

  /** `update_lists_from_tasks` on `records`: each unseen `list` value is appended (app.py:358-361). */
  function Registered(lists: seq<Value>, records: seq<Record>): (r: seq<Value>)
    ensures |r| <= |lists| + |records|
    decreases |records|
  {
    if records == [] then lists
    else
      var before := Registered(lists, records[..|records| - 1]);
      var t := records[|records| - 1];
      if "list" in t && !PyIn(t["list"], before) then before + [t["list"]] else before
  }

  /** One step of the registry: the last task's list is appended when it is unseen. */
  lemma RegisteredLast(lists: seq<Value>, records: seq<Record>)
    requires records != []
    ensures var before := Registered(lists, records[..|records| - 1]);
      var t := records[|records| - 1];
      var r := Registered(lists, records);
      && (if "list" in t && !PyIn(t["list"], before) then r == before + [t["list"]] else r == before)
  {
  }

  /** The registry only appends: the old names stay first and in order. */
  lemma {:induction false} RegisteredExtends(lists: seq<Value>, records: seq<Record>)
    ensures |lists| <= |Registered(lists, records)| && Registered(lists, records)[..|lists|] == lists
    decreases |records|
  {
    if records != [] {
      var before := Registered(lists, records[..|records| - 1]);
      RegisteredExtends(lists, records[..|records| - 1]);
      RegisteredLast(lists, records);
      assert Registered(lists, records)[..|before|] == before;
    }
  }

  /** After registering, every task's list name is registered. */
  lemma {:induction false} RegisteredCovers(lists: seq<Value>, records: seq<Record>)
    ensures forall k :: 0 <= k < |records| && "list" in records[k] ==> PyIn(records[k]["list"], Registered(lists, records))
    decreases |records|
  {
    if records != [] {
      var n := |records|;
      var front := records[..n - 1];
      var before := Registered(lists, front);
      var r := Registered(lists, records);
      RegisteredCovers(lists, front);
      RegisteredLast(lists, records);
      assert |before| <= |r| && r[..|before|] == before;
      forall k | 0 <= k < n && "list" in records[k] ensures PyIn(records[k]["list"], r) {
        var l := records[k]["list"];
        if k < n - 1 {
          assert records[k] == front[k];
          var w :| 0 <= w < |before| && PyEq(before[w], l);
          assert r[w] == before[w];
        } else if PyIn(l, before) {
          var w :| 0 <= w < |before| && PyEq(before[w], l);
          assert r[w] == before[w];
        } else {
          assert r[|before|] == l && PyEq(r[|before|], l);
        }
      }
    }
  }

  /** Every name the registry adds is the list name of some task. */
  lemma {:induction false} RegisteredFromTasks(lists: seq<Value>, records: seq<Record>)
    ensures var r := Registered(lists, records);
      forall j :: |lists| <= j < |r| ==>
        exists k :: 0 <= k < |records| && "list" in records[k] && records[k]["list"] == r[j]
    decreases |records|
  {
    if records != [] {
      var n := |records|;
      var front := records[..n - 1];
      var before := Registered(lists, front);
      var r := Registered(lists, records);
      RegisteredFromTasks(lists, front);
      RegisteredLast(lists, records);
      assert |before| <= |r| && r[..|before|] == before;
      forall j | |lists| <= j < |r|
        ensures exists k :: 0 <= k < n && "list" in records[k] && records[k]["list"] == r[j]
      {
        if j < |before| {
          assert r[j] == before[j];
          var k :| 0 <= k < |front| && "list" in front[k] && front[k]["list"] == before[j];
          assert records[k] == front[k];
        } else {
          assert records[n - 1]["list"] == r[j];
        }
      }
    }
  }

  /** No name the registry adds equals an earlier name. */
  lemma {:induction false} RegisteredAddsNoDuplicate(lists: seq<Value>, records: seq<Record>)
    ensures var r := Registered(lists, records);
      forall i, j :: 0 <= i < j < |r| && |lists| <= j ==> !PyEq(r[i], r[j])
    decreases |records|
  {
    if records != [] {
      var n := |records|;
      var front := records[..n - 1];
      var before := Registered(lists, front);
      var r := Registered(lists, records);
      RegisteredAddsNoDuplicate(lists, front);
      RegisteredLast(lists, records);
      forall i, j | 0 <= i < j < |r| && |lists| <= j ensures !PyEq(r[i], r[j]) {
        if j < |before| {
          assert r[i] == before[i] && r[j] == before[j];
        } else {
          assert r[i] == before[i];
        }
      }
    }
  }

  /** Registering keeps a registry free of duplicates. */
  lemma RegisteredKeepsDistinct(lists: seq<Value>, records: seq<Record>)
    requires Distinct(lists)
    ensures Distinct(Registered(lists, records))
  {
    RegisteredExtends(lists, records);
    RegisteredAddsNoDuplicate(lists, records);
    var r := Registered(lists, records);
    forall i, j | 0 <= i < j < |r| ensures !PyEq(r[i], r[j]) {
      if j < |lists| {
        assert r[i] == lists[i] && r[j] == lists[j];
      }
    }
  }

  /** Every loaded task has the in-memory shape. */
  lemma LoadedShape(file: Option<seq<Record>>, loaded: seq<Record>,
                    parseStamp: string -> Option<Instant>, now: Instant)
    requires loaded == if file.Some? then LoadAll(file.value, parseStamp, now) else []
    ensures forall i :: 0 <= i < |loaded| ==> InMemoryShape(loaded[i])
  {
  }

  /** The four starting names are distinct. */
  lemma DefaultListsDistinct()
    ensures Distinct(DefaultLists)
  {
  }

  /** Editing one task with a form value keeps every task in its in-memory shape. */
  lemma EditedAtKeepsShape(entries: seq<Entry>, h: nat, text: string, due: Value, priority: string)
    requires forall i :: 0 <= i < |entries| ==> InMemoryShape(entries[i].fields)
    requires due == Null || due.Day?
    ensures forall i :: 0 <= i < |entries| ==> InMemoryShape(EditedAt(entries, h, text, due, priority)[i].fields)
  {
  }

  /** Appending an object newer than all others keeps the identities distinct. */
  lemma AppendKeepsHandles(entries: seq<Entry>, e: Entry, next: nat)
    requires HandlesDistinct(entries) && forall i :: 0 <= i < |entries| ==> entries[i].handle < next
    requires e.handle == next
    ensures HandlesDistinct(entries + [e])
    ensures forall i :: 0 <= i < |entries| + 1 ==> (entries + [e])[i].handle < next + 1
  {
  }

  // ---------------------------------------------------------------- TodoApp

  /**
   * The state behind the window: the task objects, the registered list names,
   * the list shown, the object being edited, and the file as last written.
   * `nextHandle` hands out identities for new objects.
   */
  class TodoApp {
    var tasks: seq<Entry>
    var lists: seq<Value>
    var currentList: string
    var editing: Option<nat>
    var nextHandle: nat
    var saved: Option<seq<Record>>
    const stampText: Instant -> string

    /** Every object is distinct and older than `nextHandle`, every task has its in-memory shape, and no list name repeats. */
    ghost predicate Valid()
      reads this
    {
      && HandlesDistinct(tasks)
      && (forall i :: 0 <= i < |tasks| ==> tasks[i].handle < nextHandle)
      && (forall i :: 0 <= i < |tasks| ==> InMemoryShape(tasks[i].fields))
      && Distinct(lists)
    }

    /** `TodoApp.__init__` without its widgets (app.py:49-63): load the file, start on "Tasks", register the lists. */
    constructor (file: Option<seq<Record>>, parseStamp: string -> Option<Instant>, now: Instant,
                 stampText: Instant -> string)
      ensures Valid()
      ensures Fields(tasks) == if file.Some? then LoadAll(file.value, parseStamp, now) else []
      ensures lists == Registered(DefaultLists, Fields(tasks))
      ensures currentList == "Tasks" && editing.None?
      ensures saved == file && this.stampText == stampText
    {
      var loaded := LoadTasks(file, parseStamp, now);
      tasks := seq(|loaded|, i requires 0 <= i < |loaded| => Entry(i, loaded[i]));
      nextHandle := |loaded|;
      currentList := "Tasks";
      editing := None;
      lists := DefaultLists;
      saved := file;
      this.stampText := stampText;
      new;
      assert Fields(tasks) == loaded;
      LoadedShape(file, loaded, parseStamp, now);
      assert forall i :: 0 <= i < |tasks| ==> tasks[i].handle == i;
      DefaultListsDistinct();
      UpdateListsFromTasks();
      RegisteredKeepsDistinct(DefaultLists, Fields(tasks));
    }

    /** `update_lists_from_tasks` (app.py:358-361). */
    method UpdateListsFromTasks()
      modifies this`lists
      ensures lists == Registered(old(lists), Fields(tasks))
    {
      var i := 0;
      while i < |tasks|
        invariant 0 <= i <= |tasks|
        invariant lists == Registered(old(lists), Fields(tasks)[..i])
      {
        var task := tasks[i].fields;
        assert Fields(tasks)[..i + 1][..i] == Fields(tasks)[..i];
        if "list" in task && !PyIn(task["list"], lists) {
          lists := lists + [task["list"]];
        }
        i := i + 1;
      }
      assert Fields(tasks)[..|tasks|] == Fields(tasks);
    }

    /** `save_tasks(self.tasks)`; a valid state always serialises. */
    method Save()
      requires Valid()
      modifies this`saved
      ensures saved == SaveAll(Fields(tasks), stampText) && saved.Some?
    {
      forall i | 0 <= i < |tasks| ensures SaveRecord(Fields(tasks)[i], stampText).Some? {
        assert InMemoryShape(Fields(tasks)[i]);
      }
      saved := SaveTasks(Fields(tasks), stampText);
    }

    /**
     * `add_new_list` (app.py:349-356): a non-empty answer that is not yet a
     * list name is appended and becomes the current list; a cancelled, empty
     * or known name changes nothing.
     */
    method AddNewList(answer: Option<string>)
      requires Valid()
      modifies this`lists, this`currentList
      ensures Valid()
      ensures answer.Some? && answer.value != [] && !PyIn(Str(answer.value), old(lists)) ==>
        lists == old(lists) + [Str(answer.value)] && currentList == answer.value
      ensures !(answer.Some? && answer.value != [] && !PyIn(Str(answer.value), old(lists))) ==>
        lists == old(lists) && currentList == old(currentList)
    {
      if answer.Some? && answer.value != [] && !PyIn(Str(answer.value), lists) {
        lists := lists + [Str(answer.value)];
        currentList := answer.value;
      }
    }

    /**
     * `toggle_task_completion` (app.py:449-451): the object's flag is
     * negated and the file rewritten. An object without a "completed" key
     * raises `KeyError` before anything changes (`ok` is false).
     */
    method ToggleTaskCompletion(h: nat) returns (ok: bool)
      requires Valid()
      modifies this`tasks, this`saved
      ensures Valid()
      ensures IndexOf(old(tasks), h).None? ==> ok && tasks == old(tasks)
      ensures IndexOf(old(tasks), h).Some? ==>
        var i := IndexOf(old(tasks), h).value;
        && (ok <==> "completed" in old(tasks)[i].fields)
        && (ok ==> tasks == old(tasks)[i := Entry(h, Toggled(old(tasks)[i].fields))])
      ensures ok ==> saved == SaveAll(Fields(tasks), stampText)
      ensures !ok ==> tasks == old(tasks) && saved == old(saved)
    {
      var found := IndexOf(tasks, h);
      if found.Some? {
        var i := found.value;
        if "completed" !in tasks[i].fields {
          return false;
        }
        tasks := tasks[i := Entry(h, Toggled(tasks[i].fields))];
      }
      Save();
      return true;
    }

    /** `edit_task` (app.py:454-455): remembers which object the form edits. */
    method EditTask(h: nat)
      modifies this`editing
      ensures editing == Some(h)
    {
      editing := Some(h);
    }

    /**
     * `delete_task` (app.py:474-480): after confirmation the list is rebuilt
     * without the object and saved; otherwise nothing changes.
     */
    method DeleteTask(h: nat, confirmed: bool)
      requires Valid()
      modifies this`tasks, this`saved
      ensures Valid()
      ensures !confirmed ==> tasks == old(tasks) && saved == old(saved)
      ensures confirmed ==> tasks == WithoutHandle(old(tasks), h) && saved == SaveAll(Fields(tasks), stampText)
    {
      if confirmed {
        DeleteRemovesExactlyOne(tasks, h);
        var found := IndexOf(tasks, h);
        if found.Some? {
          RemovedKeepsDistinct(tasks, found.value);
        }
        tasks := WithoutHandle(tasks, h);
        Save();
      }
    }

    /** The edit loop of `save_task`: the first object that is `h` gets the form's fields (app.py:501-506). */
    method EditFirst(h: nat, text: string, due: Value, priority: string)
      modifies this`tasks
      ensures tasks == EditedAt(old(tasks), h, text, due, priority)
    {
      var i := 0;
      while i < |tasks| && tasks[i].handle != h
        invariant 0 <= i <= |tasks|
        invariant forall j :: 0 <= j < i ==> tasks[j].handle != h
      {
        i := i + 1;
      }
      if i < |tasks| {
        assert IndexOf(tasks, h) == Some(i);
        tasks := tasks[i := Entry(h, Edited(tasks[i].fields, text, due, priority))];
      }
    }

    /**
     * The part of `save_task` after the form is accepted, then `cancel_edit`
     * (app.py:499-526): the edited object gets the new text, due date and
     * priority, or a new task is appended to the current list; the file is
     * rewritten and the form leaves edit mode.
     */
    method Commit(text: string, due: Value, priority: string, now: Instant)
      requires Valid() && (due == Null || due.Day?)
      modifies this`tasks, this`editing, this`nextHandle, this`saved
      ensures Valid()
      ensures editing.None? && saved == SaveAll(Fields(tasks), stampText)
      ensures old(editing).Some? ==> tasks == EditedAt(old(tasks), old(editing).value, text, due, priority)
      ensures old(editing).None? ==>
        tasks == old(tasks) + [Entry(old(nextHandle), NewTask(text, due, now, priority, currentList))]
    {
      if editing.Some? {
        EditedAtKeepsShape(tasks, editing.value, text, due, priority);
        EditFirst(editing.value, text, due, priority);
        editing := None;
      } else {
        var e := Entry(nextHandle, NewTask(text, due, now, priority, currentList));
        AppendKeepsHandles(tasks, e, nextHandle);
        tasks := tasks + [e];
        nextHandle := nextHandle + 1;
      }
      Save();
      editing := None;
    }

    /**
     * `save_task` (app.py:482-521): a refused form changes nothing and reports
     * why; an accepted one is committed.
     */
    method SaveTask(rawText: string, rawDue: string, priority: string, now: Instant)
      returns (error: Option<FormError>)
      requires Valid()
      modifies this`tasks, this`editing, this`nextHandle, this`saved
      ensures Valid()
      ensures ReadForm(rawText, rawDue).Err? ==>
        && error == Some(ReadForm(rawText, rawDue).error)
        && tasks == old(tasks) && editing == old(editing)
        && nextHandle == old(nextHandle) && saved == old(saved)
      ensures ReadForm(rawText, rawDue).Ok? ==>
        var text := ReadForm(rawText, rawDue).value.0;
        var due := ReadForm(rawText, rawDue).value.1;
        && error.None? && editing.None?
        && saved == SaveAll(Fields(tasks), stampText)
        && (old(editing).Some? ==> tasks == EditedAt(old(tasks), old(editing).value, text, due, priority))
        && (old(editing).None? ==>
              tasks == old(tasks) + [Entry(old(nextHandle), NewTask(text, due, now, priority, currentList))])
    {
      var form := ReadForm(rawText, rawDue);
      if form.Err? {
        return Some(form.error);
      }
      Commit(form.value.0, form.value.1, priority, now);
      return None;
    }
  }
}

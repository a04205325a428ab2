# To-do list task store, modelled in Dafny

The repository holds three versions of one small to-do list manager:

- `DevOps.py`, a command-line `TodoList` that keys tasks by an integer `id`;
- `app.py`, a Tkinter `TodoApp` that keeps task dictionaries and finds them by
  Python object identity;
- `App.js`, a browser page that keeps task objects in module-level variables
  and keys them by a string `_id`.

The user interface sits on top of a task store in each version. This project
models that store for all three. Each version keeps its own field names:
`description`/`id` in the command-line version, and `task`/`list`/`_id` in the
other two.

Modules:

- `Wrappers`: `Option` and `Result`.
- `Seqs`: an order-keeping `Filter` and its lemmas. Every list comprehension
  and `Array.prototype.filter` of the sources is an instance of it.
- `Text`: `str.strip` and `String.prototype.trim`, each with its own
  whitespace set, plus `str.lower`.
- `Dates`: calendar dates of years 1 to 9999.
  - `date.isoformat`.
  - `datetime.fromisoformat` on `YYYY-MM-DD`, the full-date of section 5.6 of RFC 3339.
  - `datetime.strptime(s, "%Y-%m-%d")`, with its more lenient field rules.
- `DevOps`: the `Task` record and the `TodoList` class. Its methods are proved
  against the functions `FirstIndex`, `UpdateFirst`, `RemoveFirst`, `Pending`
  and `CoercePriority`.
- `TkApp`: Python values and task dictionaries (`map<string, Value>`), the
  load and save conversions, and the `TodoApp` class.
  - Object identity (`id(task)`) is a handle stored with each dictionary.
  - `Valid()` keeps the handles distinct, every task in its in-memory shape
    and the list names free of duplicates.
- `WebApp`: JavaScript values and task objects, the load and import
  normalisation, and the `TodoPage` class holding `tasks`, `lists`,
  `currentList` and `editingIndex`.
  - A task card is identified by its position in `tasks`.

Persistence is modelled as a `saved` field on each class. The field holds what
the last save wrote: the records, or the `{tasks, lists}` payload. Some things
are parameters instead:

- the clock;
- `generateId`;
- the `datetime` text codec used for `created_at`;
- the answers of the confirmation and prompt dialogs.

## Model

| member | source | states |
|---|---|---|
| Text.TrimEmpty | DevOps.py:123-124 | stripped text is empty exactly when every character is whitespace |
| Text.TrimBorders | app.py:483-484 | what strip leaves neither starts nor ends with whitespace |
| Text.TrimSlice | app.py:483-484 | strip keeps one contiguous slice of the text and removes only whitespace around it |
| Text.TrimIdempotent | App.js:147 | trimming trimmed text changes nothing |
| Text.TrimLeavesUnspaced | app.py:484 | a text that neither starts nor ends with whitespace is its own strip |
| Dates.IsoFormat | app.py:40 | `isoformat` of a date is ten characters: four year digits, `-`, two month digits, `-`, two day digits |
| Dates.ParseIsoDate | app.py:19 | a text that parses is ten characters long and names a real calendar date |
| Dates.Strptime | app.py:494 | a text that parses starts with four digits and a hyphen, and names a real calendar date |
| Dates.IsoRoundTrip | app.py:19 | `fromisoformat(d.isoformat())` is `d` for every calendar date |
| Dates.IsoCanonical | app.py:19 | every `YYYY-MM-DD` text that parses is exactly the `isoformat` of its date |
| Dates.StrptimeAcceptsIso | app.py:494 | `strptime(d.isoformat(), "%Y-%m-%d")` is `d` for every calendar date |
| Dates.StrptimeLenient | app.py:494 | `strptime` accepts one-digit and space-padded fields that `fromisoformat` rejects, and rejects 30 February and day 35 |
| DevOps.FirstIndex | DevOps.py:60-61 | no index exactly when no task has the id; otherwise the first task with the id |
| DevOps.UpdateFirst | DevOps.py:80-82 | an unknown id changes nothing; otherwise only the first task with the id is replaced |
| DevOps.RemoveFirst | DevOps.py:70-72 | an unknown id changes nothing; otherwise exactly the first task with the id is removed, the rest keep their order |
| DevOps.Pending | DevOps.py:91 | keeps exactly the open tasks; its length is the old length minus the number of completed tasks |
| DevOps.CoercePriority | DevOps.py:125-127 | the result is always high, medium or low: the stripped, lower-cased input when it is one of them, medium otherwise |
| DevOps.CompleteIdempotent | DevOps.py:58-66 | completing the same id twice is completing it once |
| DevOps.CompleteChangesOnlyFlag | DevOps.py:60-62 | completing keeps the length and every id, description, priority and creation time; only the first match's flag becomes true |
| DevOps.EditChangesOnlyDescription | DevOps.py:80-82 | editing keeps the length and every id, flag, priority and creation time; only the first match's description changes |
| DevOps.ClearCompletedIdempotent | DevOps.py:91 | clearing completed tasks twice is clearing them once |
| DevOps.PendingKeepsOrder | DevOps.py:45-47 | the open-task filter distributes over concatenation, so it keeps insertion order |
| DevOps.NumberedWithoutDeletes | DevOps.py:25 | without deletions, adding, completing and editing keep ids equal to positions 1..n, hence distinct |
| DevOps.DeleteThenAddReusesId | DevOps.py:25 | after deleting any task but the last, the next added task gets the id the last task already has |
| DevOps.IdCollisionExample | DevOps.py:72 | add, add, delete 1, add gives two tasks with id 2 |
| DevOps.TodoList.constructor | DevOps.py:6-15 | starts from the file's tasks, or none when there is no file; a missing file and an empty one stay distinct states |
| DevOps.TodoList.AddTask | DevOps.py:22-31 | appends one open task with id old length + 1 and the given fields, then saves |
| DevOps.TodoList.CompleteTask | DevOps.py:58-66 | reports whether the id exists; the tasks become `MarkCompleted` of the old ones; saves only when found |
| DevOps.TodoList.DeleteTask | DevOps.py:68-76 | returns the first task with the id, or nothing; the tasks become `RemoveFirst` of the old ones; saves only when found |
| DevOps.TodoList.EditTask | DevOps.py:78-86 | reports whether the id exists; the tasks become `Redescribed` of the old ones; saves only when found |
| DevOps.TodoList.ClearCompleted | DevOps.py:88-94 | keeps exactly the open tasks and reports how many completed ones were removed |
| DevOps.TodoList.ViewTasks | DevOps.py:45-47 | lists all tasks, or only the open ones, in order |
| DevOps.TodoList.SubmitAdd | DevOps.py:122-130 | empty stripped text changes nothing; otherwise adds the stripped text with the coerced priority |
| DevOps.TodoList.SubmitEdit | DevOps.py:145-152 | empty stripped text changes nothing; otherwise edits the first task with the id, and saves exactly when the id was found |
| TkApp.LoadRecord | app.py:16-30 | adds priority "medium" and list "Tasks" only when missing, keeps present ones; a truthy due date becomes a date or `None`, a falsy one is kept; `created_at` stays absent when absent; other keys are untouched |
| TkApp.LoadTasks | app.py:11-32 | no file gives no tasks; otherwise every dictionary is rewritten by `LoadRecord`, in order |
| TkApp.SaveRecord | app.py:37-43 | fails exactly when a truthy due date or a present `created_at` has no `isoformat`; keeps the keys; a date becomes its ISO text, `created_at` becomes its `isoformat` text, a falsy due date and every other field are kept |
| TkApp.SaveAll | app.py:36-43 | succeeds exactly when every task converts; one output per task, in order |
| TkApp.SaveTasks | app.py:34-45 | the loop builds exactly `SaveAll` |
| TkApp.RecordRoundTrip | app.py:37-43 | a task in its in-memory shape, saved and loaded, is the same task when the timestamp text reads back |
| TkApp.DueDateRoundTrip | app.py:40 | the due date of a saved task loads back unchanged |
| TkApp.SaveLoadRoundTrip | app.py:34-45 | saving a list of in-memory tasks never fails, and loading the output gives the list back |
| TkApp.ReadForm | app.py:483-497 | refused with EmptyText exactly when the stripped text is empty, and with BadDate exactly when a non-empty stripped date does not parse; otherwise the stripped text and the parsed date, or `None` for an empty date field |
| TkApp.FormKeepsEditedDate | app.py:461-463 | the due date `edit_task` puts in the form is accepted by `save_task` as the same date |
| TkApp.IndexOf | app.py:501-502 | the scan finds the first entry that is the object, or none exactly when the object is absent |
| TkApp.InListMeaning | app.py:369 | the current-list filter keeps exactly the tasks whose list, default "Tasks", is the current list, each as often as it occurs |
| TkApp.InListKeepsOrder | app.py:369 | the filter distributes over concatenation, so it keeps order |
| TkApp.Toggled | app.py:450 | only `completed` changes, to the negation of its truth value |
| TkApp.ToggleTwice | app.py:450 | toggling twice restores a boolean flag |
| TkApp.DeleteRemovesExactlyOne | app.py:478 | with distinct objects, deleting removes exactly the targeted task, keeps the others in order, and changes nothing when the object is absent |
| TkApp.Edited | app.py:503-505 | `task`, `due_date` and `priority` take the form's values; `completed`, `list`, `created_at` and the rest keep their values |
| TkApp.EditedAt | app.py:501-506 | an absent object changes nothing; otherwise only the first entry that is the object changes, and its fields become `Edited` of its old fields; every entry keeps its object |
| TkApp.NewTask | app.py:510-517 | the new task is open, filed under the current list, and in the in-memory shape |
| TkApp.AddedTaskIsShown | app.py:516 | a task added to the current list is the last one that list shows |
| TkApp.IsOverdue | app.py:430-432 | the red due-date test: a set due date before today on a task that is not completed |
| TkApp.OverdueStaysOverdue | app.py:430-432 | an overdue task stays overdue on every later day, and no task is overdue on its own due date |
| TkApp.Registered | app.py:358-361 | `update_lists_from_tasks` adds at most one name per task |
| TkApp.RegisteredExtends | app.py:358-361 | registering only appends: the old names stay first and in order |
| TkApp.RegisteredCovers | app.py:358-361 | afterwards every task's list name is registered |
| TkApp.RegisteredFromTasks | app.py:358-361 | every added name is the list name of some task |
| TkApp.RegisteredAddsNoDuplicate | app.py:358-361 | no added name equals an earlier name |
| TkApp.RegisteredKeepsDistinct | app.py:358-361 | a registry without duplicates stays without duplicates |
| TkApp.TodoApp.constructor | app.py:49-63 | loads the file, starts on "Tasks" with no edit, registers the four default lists plus the tasks' lists, and is `Valid` |
| TkApp.TodoApp.UpdateListsFromTasks | app.py:358-361 | the loop computes `Registered` of the old lists and the tasks |
| TkApp.TodoApp.Save | app.py:519 | a valid state always serialises, and the file receives `SaveAll` of the tasks |
| TkApp.TodoApp.AddNewList | app.py:349-356 | a non-empty, new name is appended and becomes current; a cancelled, empty or known name changes nothing; `Valid` is kept |
| TkApp.TodoApp.ToggleTaskCompletion | app.py:449-452 | flips the flag of exactly the object's task and saves; a task without a flag changes nothing |
| TkApp.TodoApp.EditTask | app.py:454-455 | the form now edits that object |
| TkApp.TodoApp.DeleteTask | app.py:474-480 | unconfirmed changes nothing; confirmed drops the object and saves, keeping `Valid` |
| TkApp.TodoApp.EditFirst | app.py:501-506 | the search loop edits exactly what `EditedAt` describes |
| TkApp.TodoApp.Commit | app.py:499-520 | in edit mode the task becomes `EditedAt`; otherwise one new task with a fresh object is appended; saves, leaves edit mode, keeps `Valid` |
| TkApp.TodoApp.SaveTask | app.py:482-521 | a refused form changes no task, edit state or file and reports why; an accepted form is committed |
| WebApp.Normalise | App.js:26-31 | falsy priority, list and `_id` become "medium", "Tasks" and a fresh id; truthy ones and all other properties are kept |
| WebApp.NormaliseKeepsNormalised | App.js:26-31 | a task that already has all three is left exactly as it is |
| WebApp.NormaliseIdempotent | App.js:237-243 | normalising twice is normalising once |
| WebApp.NormaliseAll | App.js:26-32 | one normalised task per input task, and task i is `Normalise` of input task i with the id generated for it |
| WebApp.RegisteredJs | App.js:55-59 | `updateListsFromTasks` adds at most one name per task |
| WebApp.RegisteredJsExtends | App.js:55-59 | registering only appends: the old names stay first and in order |
| WebApp.RegisteredJsCovers | App.js:55-59 | afterwards every truthy task list is included |
| WebApp.RegisteredJsFromTasks | App.js:55-59 | every added name is truthy and is the list of some task |
| WebApp.RegisteredJsAddsNoDuplicate | App.js:55-59 | no added name repeats an earlier one |
| WebApp.RegisteredJsNoop | App.js:55-59 | when all task lists are already known, registering changes nothing |
| WebApp.SnapshotRoundTrip | App.js:51-54 | loading what `saveData` wrote gives back the same normalised tasks and registered lists |
| WebApp.SnapshotMayGainList | App.js:21-54 | `loadData` of `{tasks: [], lists: ["A"]}` keeps lists `["A"]`; the task `saveNewTask` then builds under "Tasks" (App.js:165-174) reloads with "Tasks" added to the lists, so the round trip needs its precondition |
| WebApp.VisibleMeaning | App.js:73 | the rendered filter keeps exactly the tasks whose `list \|\| "Tasks"` is the current list, and keeps order |
| WebApp.DeleteMeaning | App.js:199 | deleting keeps exactly the tasks with a different `_id`, and the list gets shorter |
| WebApp.Toggled | App.js:185 | only `completed` changes, to the negation of its truth value |
| WebApp.ToggleTwice | App.js:185 | toggling twice restores a boolean flag |
| WebApp.FindById | App.js:156 | `find` stops at the first task with the `_id`, or finds none exactly when no task has it |
| WebApp.Edited | App.js:158-161 | `task`, `due_date`, `priority` and `list` take the form's values and the current list; `completed`, `created_at` and `_id` keep their values |
| WebApp.EditedById | App.js:154-164 | an unknown id changes nothing; otherwise every task except the first match is kept and the first match becomes `Edited` of itself |
| WebApp.NewTask | App.js:165-174 | the new task is open, shown under the current list, and carries the given `_id`, text, due date, priority and creation time |
| WebApp.DueOf | App.js:152 | an empty field gives `null`, any other gives its text |
| WebApp.PriorityOf | App.js:153 | an empty field gives "medium", a non-empty one is kept |
| WebApp.TodoPage.constructor | App.js:3-6 | starts on "Tasks" with no edit, then loads the stored data |
| WebApp.TodoPage.LoadData | App.js:21-50 | nothing stored keeps the tasks; unparsable data resets tasks and lists to the defaults; a payload is normalised; task lists are then registered |
| WebApp.TodoPage.SaveData | App.js:51-54 | stores the current `{tasks, lists}` |
| WebApp.TodoPage.UpdateListsFromTasks | App.js:55-59 | the loop computes `RegisteredJs` of the old lists and the tasks |
| WebApp.TodoPage.ImportData | App.js:234-251 | an unparsable file changes nothing; otherwise tasks and lists are replaced without registering the task lists, then saved |
| WebApp.TodoPage.Commit | App.js:154-179 | edit mode edits the task with the remembered `_id` and moves it to the current list; add mode appends one open task to the current list; then saves and leaves edit mode |
| WebApp.TodoPage.SaveNewTask | App.js:146-180 | empty trimmed text changes nothing; otherwise the trimmed text, with the due-date and priority defaults, is committed |
| WebApp.TodoPage.ToggleCompletion | App.js:184-188 | flips exactly that task's flag and saves |
| WebApp.TodoPage.StartEdit | App.js:189-190 | the form now edits the task's `_id` |
| WebApp.TodoPage.DeleteTask | App.js:197-203 | unconfirmed changes nothing; confirmed drops every task with that `_id` and saves |
| WebApp.TodoPage.AddNewList | App.js:204-214 | a non-empty, new name is appended and becomes current, without saving; any other answer changes nothing |

## Left out

- Reading and writing files and localStorage, and JSON text, are not modelled.
  - The file is a value: `Option<seq<Record>>`, or the `Stored` payload.
  - `json.dump` and `JSON.stringify` are not modelled.
  - Nested arrays and objects inside a browser task are only references.
- All widgets, DOM rendering, themes, focus handling, messages and the calendar popup are left out. They are user interface only.
  - The form fields and dialog answers are parameters.
  - The list selector's change handler is not modelled. It assigns the selected name to the current list and nothing else (app.py:345-347, App.js:280-283).
  - The JSON export is not modelled.
- The command-line menu loop, its printing and its `int()` parsing of ids are left out. Only the input rules of `main` are modelled.
- The clock, `generateId` and the `created_at` text codec are parameters.
  - `TkApp.RecordRoundTrip` assumes the codec reads its own output back.
  - Random ids are not assumed unique.
- TkApp.LoadRecord: one clock reading serves the whole load. The source reads the clock again for each record whose `created_at` does not parse.
- Dates.ParseIsoDate: accepts only `YYYY-MM-DD`. Python also accepts other ISO 8601 forms, such as `YYYYMMDD` and full datetimes; the model reads those as not parsing.
- Dates.Strptime: `%Y`, `%m` and `%d` match ASCII digits only. Python's `\d` also matches other Unicode decimal digits.
- TkApp.PyEq: lists and dictionaries are compared structurally. Python compares their elements with numeric cross-type equality. Floating-point NaN is not modelled.
- WebApp.JsTruthy: NaN is not modelled. Numbers are exact reals.
- Text.Lower: lower-cases ASCII only. No other character lowers to a plain ASCII letter of "high", "medium" or "low", so `CoercePriority` gives the same result as Python.
- WebApp.PayloadLists: a truthy `data.lists` that is not an array is not modelled. Neither is a `data.tasks` entry that is not an object; the browser may keep or reject such data differently.
- Python reuses `id()` values after an object is freed. Handles are never reused, so an edit aimed at a deleted task never reaches a new one.
- The browser's overdue colouring (App.js:116-122) is not modelled. It depends on `Date` parsing in local time.
- DevOps.Task: records are assumed to carry the five keys `add_task` writes, with those types. A todos.json lacking a key (where the source raises `KeyError`) or holding other types (such as an id stored as text, which never equals the menu's integer) is not modelled.

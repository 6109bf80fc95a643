# Notes Ave task list, modelled in Dafny

Notes Ave is a personal task list that runs as a mini-app inside a messaging client.
This project models its state logic.

- **Task list updates** (App.tsx). These are the `setTasks` updaters for creating, editing,
  completing and deleting a task, deleting all tasks, and toggling a sub-task. The model
  also covers the visible-list filter, the header counters, the confirmation dialog, and
  what the app takes from storage at start-up.
- **Edit dialog buffer** (components/AddEditModal.tsx). This covers how the fields are
  filled when the dialog opens, the sub-task handlers, and the save gate that decides what
  is handed to `onSave`.

Files and modules:

- `types.dfy`, module `Types`: the records of types.ts. `Task` also gets the optional
  `reminderTime` that App.tsx stores, and `TaskInput` holds the arguments of `onSave`.
- `seqs.dfy`, module `Seqs`: `Array.prototype.filter` as `Filter`, a separate `Count`
  definition, and "is a subsequence of" (`IsSubsequence`), with their lemmas.
- `js_text.dfy`, module `JsText`: `String.prototype.trim` over the ECMAScript whitespace
  and line-terminator code points.
- `task_store.dfy`, module `TaskStore`: the list updaters as pure functions on
  `seq<Task>`, the filter and the counters, and lemmas about them (involutions,
  "nothing else changes", id uniqueness).
- `alert_dialog.dfy`, module `AlertDialog`: the dialog descriptor. Each `onPress`
  closure is represented by what it does (`AlertAction`).
- `persistence.dfy`, module `Persistence`: the rules for adopting a stored task snapshot
  and a stored theme.
- `add_edit_modal.dfy`, module `AddEditModal`: the pure sub-task updaters, the open-time
  `Draft`, the `Submission` gate, and class `EditBuffer`, whose methods replace the
  buffer fields step by step.
- `app.dfy`, module `AppComponent`: class `App`, with the component's state (`tasks`,
  `isLoading`, `filter`, `isModalOpen`, `editingTask`, `isSettingsOpen`, `theme`,
  `alertConfig`) overwritten by its handler methods. It also holds the last values
  written to storage. `Valid()` states that nothing is written while loading, and that
  after loading the last write is the full current list and the current theme. The file
  ends with scenarios that compose the dialog and the app.

Behaviour of the code that a reader might not expect:

- The store does not check titles. `handleSaveTask` saves whatever title it receives,
  and only the dialog's `handleSave` refuses a title that is blank after trimming.
- When loading ends, the save effect runs at once and writes the list. If the snapshot
  was missing, unreadable or not an array, the list is empty, so the stored value is
  overwritten with `[]` straight away, not only by a later edit
  (`AppComponent.StartWithoutSnapshot`).
- The replace-on-match and filter updaters act on every task whose id matches. This
  makes no difference while ids are unique, and the lemmas show that they stay unique
  when the ids handed to creation are fresh.
- The default filter is `active`. The app's segmented control offers only `active` and
  `completed`, but `FilterType` also has `all`, and the model covers it.

## Model

| member | source | states |
|---|---|---|
| `Seqs.Filter` | App.tsx:303 | `filter` keeps exactly the elements that pass the predicate, each of them, and never grows the list |
| `Seqs.FilterIsSubsequence` | App.tsx:348-352 | what `filter` keeps stays in its original relative order |
| `Seqs.FilterLength` | App.tsx:206-207 | `filter(...).length` equals the number of elements that pass |
| `Seqs.CountPartition` | App.tsx:204-209 | two complementary predicates split the list, so their counts add up to its length |
| `Seqs.FilterKeepsAll` | App.tsx:303 | a filter that every element passes returns the list unchanged |
| `Seqs.FilterIdempotent` | App.tsx:303 | filtering twice by the same predicate is filtering once |
| `Seqs.FilterAppendRejected` | components/AddEditModal.tsx:50-58 | an appended element that the predicate rejects is filtered out again, and the rest is unaffected |
| `JsText.TrimStart` | components/AddEditModal.tsx:66 | the leading part of `trim`: returns a suffix, drops only whitespace, and the result does not start with whitespace |
| `JsText.TrimEnd` | components/AddEditModal.tsx:66 | the trailing part of `trim`: returns a prefix, drops only whitespace, and the result does not end with whitespace |
| `JsText.Trim` | components/AddEditModal.tsx:66 | `trim()` is the slice of the string after its leading whitespace run, with only whitespace outside it; it is empty exactly when the string is all whitespace, and otherwise neither starts nor ends with whitespace |
| `TaskStore.CreateTask` | App.tsx:248-258 | prepends exactly one task (the given id and creation time, the dialog's fields, not completed); the tail is the old list; the length grows by one |
| `TaskStore.CreateKeepsIdsUnique` | App.tsx:248-258 | with a fresh id, the task ids stay pairwise distinct |
| `TaskStore.UpdateTask` | App.tsx:229-243 | the tasks with the edited id get the new title, description, priority, reminder and sub-tasks; ids, creation times and completion are kept; length, order and all other tasks are unchanged |
| `TaskStore.UpdateAbsentIsNoOp` | App.tsx:231-243 | if no task has the id, the list is unchanged |
| `TaskStore.UpdateIdempotent` | App.tsx:231-243 | saving the same edit twice gives the same list as saving it once |
| `TaskStore.ToggleTask` | App.tsx:277-287 | `isCompleted` flips exactly on the tasks with the id; no other field of any task changes; the length is kept |
| `TaskStore.ToggleTwice` | App.tsx:277-287 | toggling twice restores the original list |
| `TaskStore.ToggleAbsentIsNoOp` | App.tsx:278-286 | toggling an absent id changes nothing |
| `TaskStore.DeleteTask` | App.tsx:303 | deleting keeps the original order, leaves no task with the id, keeps every task with another id, and shrinks by exactly the number of tasks with the id |
| `TaskStore.DeleteAbsentIsNoOp` | App.tsx:303 | deleting an absent id is a no-op |
| `TaskStore.DeleteIdempotent` | App.tsx:303 | deleting the same id twice is deleting it once |
| `TaskStore.DeleteKeepsIdsUnique` | App.tsx:303 | deleting keeps the ids pairwise distinct |
| `TaskStore.SubsequenceKeepsIdsUnique` | App.tsx:303 | every order-preserving sublist of a list with distinct ids has distinct ids and only elements of that list |
| `TaskStore.DeleteUndoesCreate` | App.tsx:258 | deleting a task just created with a fresh id gives back the old list |
| `TaskStore.ToggleSubTask` | App.tsx:335-346 | only the sub-tasks with the sub-task id inside the tasks with the task id flip `isCompleted`; task and sub-task counts and orders are kept; all other fields and the non-matching tasks are unchanged |
| `TaskStore.ToggleSubTaskTwice` | App.tsx:335-346 | toggling a sub-task twice restores the list |
| `TaskStore.MapUpdatersKeepIds` | App.tsx:231-243 | updating, toggling and toggling a sub-task keep every id in place, and so keep the ids distinct |
| `TaskStore.FilterTasks` | App.tsx:348-352 | the visible list is an order-preserving sublist: `active` keeps exactly the incomplete tasks, `completed` exactly the completed ones, `all` everything, and its length is the number of tasks the filter admits |
| `TaskStore.StatsOf` | App.tsx:204-209 | `total` is the list length; `active` and `completed` count the incomplete and the completed tasks, and the two add up to `total` |
| `TaskStore.StatsMatchFilters` | App.tsx:204-209 | each counter equals the length of the list shown under the matching filter |
| `AlertDialog.DeleteTaskPrompt` | App.tsx:293-309 | the delete request opens the dialog with a message, a cancel button first and a destructive button second |
| `AlertDialog.DeleteAllPrompt` | App.tsx:314-332 | the delete-all request opens the dialog with a message, a cancel button first and a destructive button second |
| `AlertDialog.TasksAfter` | App.tsx:298-329 | what a button's `onPress` does to the list: a cancel keeps it, a single deletion keeps exactly the tasks with another id in order, and delete-all empties it |
| `AlertDialog.Close` | App.tsx:289 | `closeAlert` clears `isOpen` and keeps title, message and buttons |
| `AlertDialog.PromptButtonsDoWhatTheySay` | App.tsx:291-333 | in both requests, the cancel button leaves the list unchanged; the destructive one deletes that task (keeping the others in order) or empties the list |
| `AlertDialog.CloseIdempotent` | App.tsx:289 | closing twice is closing once, and the buttons survive closing |
| `Persistence.LoadedTasks` | App.tsx:144-151 | a stored snapshot is adopted exactly when it is a non-empty string that parses to an array, and then as parsed |
| `Persistence.LoadedTheme` | App.tsx:153-155 | a stored theme is adopted exactly when it is `'light'` or `'dark'` |
| `Persistence.ThemeRoundTrip` | App.tsx:199-201 | the theme the app writes is adopted again at the next start |
| `AddEditModal.OpenDraft` | components/AddEditModal.tsx:22-39 | add mode resets to empty title, description and reminder, priority MEDIUM and no sub-tasks; edit mode copies the task, with a missing description or reminder becoming `''` |
| `AddEditModal.AddSubtask` | components/AddEditModal.tsx:49-55 | appends exactly one entry at the end, with the new id, an empty title and not completed; the earlier entries are unchanged |
| `AddEditModal.RemoveSubtask` | components/AddEditModal.tsx:57-59 | drops exactly the entries with the id and keeps the others in order, as many as there are entries with another id |
| `AddEditModal.RenameSubtask` | components/AddEditModal.tsx:61-63 | only the titles of matching entries change; ids, completion, length and order are kept |
| `AddEditModal.RemoveUndoesAdd` | components/AddEditModal.tsx:49-59 | removing an entry just added with a fresh id restores the list |
| `AddEditModal.RenameLastWins` | components/AddEditModal.tsx:61-63 | renaming twice leaves the later title, and renaming never changes ids |
| `AddEditModal.ReminderArg` | components/AddEditModal.tsx:67 | an empty reminder is passed as undefined, and a non-empty one unchanged |
| `AddEditModal.Submission` | components/AddEditModal.tsx:65-67 | nothing is saved exactly when the title is all whitespace; otherwise the title is passed as typed, description and priority unchanged, and exactly the non-blank sub-tasks in their original order, as many as there are non-blank entries |
| `AddEditModal.AddModeStartsUnsavable` | components/AddEditModal.tsx:33-38 | a freshly opened add dialog cannot be saved |
| `AddEditModal.EditBuffer.constructor` | components/AddEditModal.tsx:16-20 | the buffer starts empty, with priority MEDIUM |
| `AddEditModal.EditBuffer.Open` | components/AddEditModal.tsx:22-39 | the open effect sets the buffer to the mode's initial draft |
| `AddEditModal.EditBuffer.SetTitle` | components/AddEditModal.tsx:119 | the title input replaces the title only |
| `AddEditModal.EditBuffer.SetDescription` | components/AddEditModal.tsx:126 | the description input replaces the description only |
| `AddEditModal.EditBuffer.SetReminder` | components/AddEditModal.tsx:142 | the reminder input replaces the reminder only |
| `AddEditModal.EditBuffer.SetPriority` | components/AddEditModal.tsx:156 | a priority button replaces the priority only |
| `AddEditModal.EditBuffer.HandleAddSubtask` | components/AddEditModal.tsx:49-55 | the sub-task list becomes `AddSubtask` of the old one; nothing else changes |
| `AddEditModal.EditBuffer.HandleRemoveSubtask` | components/AddEditModal.tsx:57-59 | the sub-task list becomes `RemoveSubtask` of the old one; nothing else changes |
| `AddEditModal.EditBuffer.HandleUpdateSubtask` | components/AddEditModal.tsx:61-63 | the sub-task list becomes `RenameSubtask` of the old one; nothing else changes |
| `AddEditModal.EditBuffer.Save` | components/AddEditModal.tsx:65-67 | the save gate's result is the `Submission` of the current buffer, and the buffer is not changed |
| `AppComponent.AfterSave` | App.tsx:229-261 | in edit mode the list keeps its length and ids, the tasks with the edited id get the input's fields and the others are unchanged; in add mode one new incomplete task with the given id and time is put in front of the unchanged list |
| `AppComponent.App.constructor` | App.tsx:67-85 | the initial state: no tasks, loading, filter `active`, light theme, dialogs closed, the empty closed alert, nothing written |
| `AppComponent.App.SaveTasksEffect` | App.tsx:167-181 | the save effect writes the full list unless loading |
| `AppComponent.App.FinishLoad` | App.tsx:136-164 | an adopted snapshot replaces the list, otherwise the list stays; the theme is adopted only if valid; loading ends; the list and theme are written back, and nothing else changes |
| `AppComponent.App.AbortLoad` | App.tsx:156-160 | when a read rejects, neither stored value is adopted, loading ends and the list and theme are written back as they were |
| `AppComponent.App.HandleSaveTask` | App.tsx:222-263 | in edit mode it updates the edited task by id, otherwise it creates with the given id and time; the editing target is cleared; ids stay distinct under a fresh id; the last write is the new list |
| `AppComponent.App.OpenAddModal` | App.tsx:265-269 | opens the dialog with no editing target |
| `AppComponent.App.EditTask` | App.tsx:271-275 | opens the dialog on the given task |
| `AppComponent.App.CloseModal` | App.tsx:465 | closes the dialog |
| `AppComponent.App.Submit` | components/AddEditModal.tsx:65-69 | a rejected save changes nothing (neither `onSave` nor `onClose` runs); an accepted one saves and then closes the dialog |
| `AppComponent.App.HandleToggleTask` | App.tsx:277-287 | the list becomes `ToggleTask` of the old one and is written |
| `AppComponent.App.HandleToggleSubTask` | App.tsx:335-346 | the list becomes `ToggleSubTask` of the old one and is written |
| `AppComponent.App.HandleDeleteTask` | App.tsx:291-310 | the descriptor becomes the delete request whatever was open before (the last request wins) |
| `AppComponent.App.HandleDeleteAll` | App.tsx:312-333 | the descriptor becomes the delete-all request whatever was open before |
| `AppComponent.App.CloseAlert` | App.tsx:289 | the descriptor is closed, and title, message and buttons are kept |
| `AppComponent.App.PressAlertButton` | App.tsx:298-328 | a button press applies its action to the list (cancel: none; delete: that id; delete-all: the empty list, also closing settings) and then closes the dialog |
| `AppComponent.App.SetFilter` | App.tsx:401-417 | the segmented control sets the filter |
| `AppComponent.App.ChangeTheme` | App.tsx:184-202 | the theme is set; setting the current theme again writes nothing |
| `AppComponent.App.OpenSettings` | App.tsx:380-383 | the settings button opens the settings sheet |
| `AppComponent.App.CloseSettings` | App.tsx:473 | the settings sheet closes |
| `AppComponent.App.VisibleTasks` | App.tsx:348-352 | `filteredTasks` is an order-preserving sublist of the tasks: under `all` the whole list, under `active` exactly the incomplete tasks and under `completed` exactly the completed ones, as many as the header's counters say |
| `AppComponent.SaveFromDialog` | components/AddEditModal.tsx:65-69 | the dialog's save button, wired to the app: a blank title leaves the list, the dialog, the editing target and the stored snapshot as they were; otherwise the gate's result is saved, the editing target is cleared and the dialog closes; loading, filter, settings sheet, theme and alert never change |
| `AppComponent.StartWithoutSnapshot` | App.tsx:139-181 | when the snapshot read returns nothing, loading ends with no tasks and `[]` is written back right away |
| `AppComponent.DeleteScenario` | App.tsx:291-310 | requesting a deletion and confirming it removes exactly that task; cancelling leaves the list unchanged; either way the dialog ends as the closed delete request and the settings sheet stays, and only the list, its stored snapshot and the alert may change |
| `AppComponent.SaveUneditedKeepsTask` | components/AddEditModal.tsx:22-67 | opening a task and saving it untouched leaves it unchanged, given the fields the dialog normalises are already normal |
| `AppComponent.TitleIsNotTrimmed` | components/AddEditModal.tsx:66-67 | a title typed as `" Buy milk "` is stored exactly as typed |

## Left out

- The storage adapter (App.tsx:88-127): host cloud storage, local storage, the version
  check at App.tsx:62, and errors inside the adapter. This is asynchronous I/O through a
  host bridge. The model records only the last value handed to `setItem` (`savedTasks`,
  `savedTheme`). It says nothing about which of several overlapping writes lands last.
- `JSON.parse` and `JSON.stringify` (App.tsx:146, 171) are library calls. A parse result
  is a `ParseOutcome` parameter, and a parsed array is taken to be a list of tasks, as
  the source assumes. A serialise/parse round trip is therefore not stated.
- The two reads at start-up run concurrently (App.tsx:139-142). The model completes them
  in one `FinishLoad` step. When either read rejects (a throw from the storage call
  inside the adapter's promise, App.tsx:92 and 101), the outer `catch` (App.tsx:156-157)
  runs instead, modelled by `AbortLoad`: which of the two reads failed is not modelled.
- Haptics, header and background colours, and the `dark` class on the document
  (App.tsx:184-198, 211-215) are host and DOM side effects.
- Toasts (App.tsx:217-220, 245, 260, 327) and the 300 ms visibility timers of the dialogs
  (components/AddEditModal.tsx:40-46, components/Alert.tsx:20-30,
  components/SettingsModal.tsx:21-31) are animation timing. The PressAlertButton
  precondition is only that the button exists, because the buttons stay clickable during
  the slide-out.
- `uuidv4()` and `Date.now()` (App.tsx:249, 256; components/AddEditModal.tsx:51) are
  parameters. Freshness of an id is a hypothesis of the lemmas, not a precondition of
  the operations.
- A task without `subTasks`: types.ts declares the field as required, so the
  `taskToEdit.subTasks || []` default (components/AddEditModal.tsx:31) reduces to the
  list itself. A persisted task that lacks the field cannot be represented.
- services/geminiService.ts (an external generative call) is not used by this version of
  the edit dialog and is not part of this model.
- components/TaskItem.tsx, components/SettingsModal.tsx and components/Alert.tsx are
  rendering. Their wall-clock overdue check and locale date formatting are not part of
  this model. Their callbacks appear as the App methods they trigger.
- The user's name and photo from the host (App.tsx:65, 373, 389-395) are display only.

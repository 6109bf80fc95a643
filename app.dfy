/** The App component of App.tsx as an object: the state its handlers overwrite through
    React setters, and the two save effects, which run after every change of the task
    list or the theme once loading has finished. Persistence is represented by the last
    values handed to the storage adapter's `setItem`. */
module AppComponent {
  import opened Types
  import opened Seqs
  import opened TaskStore
  import opened AlertDialog
  import opened Persistence
  import opened AddEditModal
  import opened JsText

  /** The list after `handleSaveTask` with editing target `editing`: the edited task is
      updated in place, or, in add mode, a new task is prepended. */
  function AfterSave(ts: seq<Task>, editing: Option<Task>, input: TaskInput, newId: string, now: int): (r: seq<Task>)
    ensures editing.Some? ==> |r| == |ts| && Ids(r) == Ids(ts)
    ensures editing.Some? ==> forall i :: 0 <= i < |ts| ==>
      r[i] == if ts[i].id == editing.value.id then ApplyEdit(ts[i], input) else ts[i]
    ensures editing.None? ==> |r| == |ts| + 1 && r[1..] == ts
    ensures editing.None? ==> r[0] == Task(newId, input.title, Some(input.description), false, now,
                                           input.subTasks, input.priority, input.reminder)
  {
    match editing
    case Some(e) =>
      MapUpdatersKeepIds(ts, e.id, "", input);
      UpdateTask(ts, e.id, input)
    case None => CreateTask(ts, newId, now, input)
  }

  class App {
    var tasks: seq<Task>
    var isLoading: bool
    var filter: FilterType
    var isModalOpen: bool
    var editingTask: Option<Task>
    var isSettingsOpen: bool
    var theme: Theme
    var alertConfig: AlertConfig
    /** The last snapshot written under StorageKey in this session. */
    var savedTasks: Option<seq<Task>>
    /** The last theme written under ThemeKey in this session. */
    var savedTheme: Option<Theme>

    /** Nothing is written while loading; once loading is over, what was last written is
        the full current list and the current theme. */
    ghost predicate Valid()
      reads this
    {
      && (isLoading ==> savedTasks == None && savedTheme == None)
      && (!isLoading ==> savedTasks == Some(tasks) && savedTheme == Some(theme))
    }

    /** The initial `useState` values. */
    constructor ()
      ensures Valid()
      ensures tasks == [] && isLoading && filter == Active && theme == Light
      ensures !isModalOpen && editingTask == None && !isSettingsOpen
      ensures alertConfig == InitialAlert
    {
      tasks, isLoading, filter, theme := [], true, Active, Light;
      isModalOpen, editingTask, isSettingsOpen := false, None, false;
      alertConfig := InitialAlert;
      savedTasks, savedTheme := None, None;
    }

    /** The tasks save effect: skipped while loading, otherwise writes the whole list. */
    method SaveTasksEffect()
      modifies this`savedTasks
      ensures savedTasks == if isLoading then old(savedTasks) else Some(tasks)
    {
      if !isLoading {
        savedTasks := Some(tasks);
      }
    }

    /** `initApp` once both reads have returned, followed by the save effects that the end
        of loading triggers. A snapshot that parses to an array replaces the list; a stored
        theme is adopted only when it is "light" or "dark". Either way loading ends and the
        list and theme are written back. */
    method FinishLoad(rawTasks: Option<string>, parsed: ParseOutcome, rawTheme: Option<string>)
      requires Valid() && isLoading
      modifies this
      ensures Valid() && !isLoading
      ensures tasks == match LoadedTasks(rawTasks, parsed)
                       case Some(items) => items
                       case None => old(tasks)
      ensures theme == match LoadedTheme(rawTheme)
                       case Some(t) => t
                       case None => old(theme)
      ensures savedTasks == Some(tasks) && savedTheme == Some(theme)
      ensures filter == old(filter) && isModalOpen == old(isModalOpen)
      ensures editingTask == old(editingTask) && isSettingsOpen == old(isSettingsOpen)
      ensures alertConfig == old(alertConfig)
    {
      var loaded := LoadedTasks(rawTasks, parsed);
      if loaded.Some? {
        tasks := loaded.value;
      }
      var t := LoadedTheme(rawTheme);
      if t.Some? {
        theme := t.value;
      }
      isLoading := false;
      SaveTasksEffect();
      savedTheme := Some(theme);
    }

    /** `initApp` when one of the two reads rejects (the storage call throws inside the
        adapter's promise): `Promise.all` rejects, the outer `catch` only logs, and the
        `finally` ends loading. Neither stored value is adopted, even if the other read
        succeeded, and the save effects write the list and theme back as they were. */
    method AbortLoad()
      requires Valid() && isLoading
      modifies this
      ensures Valid() && !isLoading
      ensures tasks == old(tasks) && theme == old(theme)
      ensures savedTasks == Some(tasks) && savedTheme == Some(theme)
      ensures filter == old(filter) && isModalOpen == old(isModalOpen)
      ensures editingTask == old(editingTask) && isSettingsOpen == old(isSettingsOpen)
      ensures alertConfig == old(alertConfig)
    {
      isLoading := false;
      SaveTasksEffect();
      savedTheme := Some(theme);
    }

    /** `handleSaveTask`: with a task being edited, that task (by id) gets the input's
        fields; otherwise a new task with id `newId`, created at `now`, is prepended.
        Either way the editing target is cleared. The store does not check the title:
        the dialog does. */
    method HandleSaveTask(input: TaskInput, newId: string, now: int)
      requires Valid()
      modifies this
      ensures Valid()
      ensures tasks == AfterSave(old(tasks), old(editingTask), input, newId, now)
      ensures UniqueIds(old(tasks)) && (old(editingTask).None? ==> newId !in Ids(old(tasks))) ==> UniqueIds(tasks)
      ensures editingTask == None
      ensures isLoading == old(isLoading) && filter == old(filter) && isModalOpen == old(isModalOpen)
      ensures isSettingsOpen == old(isSettingsOpen) && theme == old(theme) && alertConfig == old(alertConfig)
    {
      if editingTask.Some? {
        MapUpdatersKeepIds(tasks, editingTask.value.id, "", input);
        tasks := UpdateTask(tasks, editingTask.value.id, input);
      } else {
        if UniqueIds(tasks) && newId !in Ids(tasks) {
          CreateKeepsIdsUnique(tasks, newId, now, input);
        }
        tasks := CreateTask(tasks, newId, now, input);
      }
      SaveTasksEffect();
      editingTask := None;
    }

    /** `handleOpenAddModal`: the dialog opens in add mode. */
    method OpenAddModal()
      modifies this`editingTask, this`isModalOpen
      ensures editingTask == None && isModalOpen
    {
      editingTask := None;
      isModalOpen := true;
    }

    /** `handleEditTask`: the dialog opens on `task`. */
    method EditTask(task: Task)
      modifies this`editingTask, this`isModalOpen
      ensures editingTask == Some(task) && isModalOpen
    {
      editingTask := Some(task);
      isModalOpen := true;
    }

    /** The dialog's `onClose`. */
    method CloseModal()
      modifies this`isModalOpen
      ensures !isModalOpen
    {
      isModalOpen := false;
    }

    /** The dialog's `handleSave` once its gate has produced `req`: with None (blank
        title) neither `onSave` nor `onClose` runs and nothing changes; otherwise
        `onSave` = `handleSaveTask` saves the input and `onClose` closes the dialog. */
    method Submit(req: Option<TaskInput>, newId: string, now: int)
      requires Valid()
      modifies this
      ensures Valid()
      ensures req.None? ==>
        tasks == old(tasks) && editingTask == old(editingTask) && isModalOpen == old(isModalOpen) &&
        savedTasks == old(savedTasks)
      ensures req.Some? ==>
        !isModalOpen && editingTask == None &&
        tasks == AfterSave(old(tasks), old(editingTask), req.value, newId, now)
      ensures isLoading == old(isLoading) && filter == old(filter) && isSettingsOpen == old(isSettingsOpen)
      ensures theme == old(theme) && alertConfig == old(alertConfig)
    {
      if req.Some? {
        HandleSaveTask(req.value, newId, now);
        CloseModal();
      }
    }

    /** `handleToggleTask`. */
    method HandleToggleTask(id: string)
      requires Valid()
      modifies this`tasks, this`savedTasks
      ensures Valid()
      ensures tasks == ToggleTask(old(tasks), id)
    {
      tasks := ToggleTask(tasks, id);
      SaveTasksEffect();
    }

    /** `handleToggleSubTask`. */
    method HandleToggleSubTask(taskId: string, subTaskId: string)
      requires Valid()
      modifies this`tasks, this`savedTasks
      ensures Valid()
      ensures tasks == ToggleSubTask(old(tasks), taskId, subTaskId)
    {
      tasks := ToggleSubTask(tasks, taskId, subTaskId);
      SaveTasksEffect();
    }

    /** `handleDeleteTask`: asks for confirmation; whatever was shown before is replaced. */
    method HandleDeleteTask(id: string)
      modifies this`alertConfig
      ensures alertConfig == DeleteTaskPrompt(id)
    {
      alertConfig := DeleteTaskPrompt(id);
    }

    /** `handleDeleteAll`: asks for confirmation; whatever was shown before is replaced. */
    method HandleDeleteAll()
      modifies this`alertConfig
      ensures alertConfig == DeleteAllPrompt()
    {
      alertConfig := DeleteAllPrompt();
    }

    /** `closeAlert`, also the backdrop's handler. */
    method CloseAlert()
      modifies this`alertConfig
      ensures alertConfig == Close(old(alertConfig))
    {
      alertConfig := Close(alertConfig);
    }

    /** Pressing the dialog's button `i` runs its `onPress`: the cancel button only
        closes; a delete button applies its deletion (delete-all also closes the settings
        sheet) and then closes. The buttons stay pressable while the sheet slides out. */
    method PressAlertButton(i: nat)
      requires Valid() && i < |alertConfig.buttons|
      modifies this`tasks, this`savedTasks, this`isSettingsOpen, this`alertConfig
      ensures Valid()
      ensures tasks == TasksAfter(old(alertConfig.buttons[i].onPress), old(tasks))
      ensures alertConfig == Close(old(alertConfig))
      ensures isSettingsOpen == (old(isSettingsOpen) && old(alertConfig.buttons[i].onPress) != DeleteEverything)
    {
      match alertConfig.buttons[i].onPress {
        case CloseOnly =>
        case DeleteOne(id) =>
          tasks := DeleteTask(tasks, id);
          SaveTasksEffect();
        case DeleteEverything =>
          tasks := [];
          SaveTasksEffect();
          isSettingsOpen := false;
      }
      CloseAlert();
    }

    /** The segmented control. */
    method SetFilter(f: FilterType)
      modifies this`filter
      ensures filter == f
    {
      filter := f;
    }

    /** The settings sheet's theme buttons. Setting the theme it already has changes
        nothing (React skips the effect); otherwise the theme effect writes it. */
    method ChangeTheme(t: Theme)
      requires Valid()
      modifies this`theme, this`savedTheme
      ensures Valid()
      ensures theme == t
      ensures old(theme) == t ==> savedTheme == old(savedTheme)
    {
      if t != theme {
        theme := t;
        if !isLoading {
          savedTheme := Some(t);
        }
      }
    }

    /** The settings button. */
    method OpenSettings()
      modifies this`isSettingsOpen
      ensures isSettingsOpen
    {
      isSettingsOpen := true;
    }

    /** The settings sheet's `onClose`. */
    method CloseSettings()
      modifies this`isSettingsOpen
      ensures !isSettingsOpen
    {
      isSettingsOpen := false;
    }

    /** `filteredTasks`: the tasks the list shows under the current filter, in order. */
    function VisibleTasks(): (r: seq<Task>)
      reads this
      ensures IsSubsequence(r, tasks)
      ensures filter == Active ==> (forall i :: 0 <= i < |r| ==> !r[i].isCompleted) &&
                                   (forall i :: 0 <= i < |tasks| && !tasks[i].isCompleted ==> tasks[i] in r)
      ensures filter == Completed ==> (forall i :: 0 <= i < |r| ==> r[i].isCompleted) &&
                                      (forall i :: 0 <= i < |tasks| && tasks[i].isCompleted ==> tasks[i] in r)
      ensures filter == All ==> r == tasks
      ensures filter == Active ==> |r| == StatsOf(tasks).active
      ensures filter == Completed ==> |r| == StatsOf(tasks).completed
    {
      StatsMatchFilters(tasks);
      FilterTasks(tasks, filter)
    }
  }

  /** Pressing the dialog's save button: the buffer's gate decides, and the application
      saves only what passes it. A blank title changes nothing. */
  method SaveFromDialog(app: App, buffer: EditBuffer, newId: string, now: int)
    requires app.Valid()
    modifies app
    ensures app.Valid()
    ensures IsBlank(buffer.title) ==>
      app.tasks == old(app.tasks) && app.isModalOpen == old(app.isModalOpen) &&
      app.editingTask == old(app.editingTask) && app.savedTasks == old(app.savedTasks)
    ensures !IsBlank(buffer.title) ==>
      !app.isModalOpen && app.editingTask == None &&
      app.tasks == AfterSave(old(app.tasks), old(app.editingTask), Submission(buffer.Current()).value, newId, now)
    ensures app.isLoading == old(app.isLoading) && app.filter == old(app.filter)
    ensures app.isSettingsOpen == old(app.isSettingsOpen) && app.theme == old(app.theme)
    ensures app.alertConfig == old(app.alertConfig)
  {
    var req := buffer.Save();
    app.Submit(req, newId, now);
  }

  /** Start-up when the snapshot read returned nothing (a missing key or a failed read,
      which the adapter both reports as null): loading ends with an empty list, and the
      empty list is written back under StorageKey at once. */
  method StartWithoutSnapshot(rawTheme: Option<string>) returns (app: App)
    ensures app.Valid() && !app.isLoading
    ensures app.tasks == [] && app.savedTasks == Some([])
    ensures app.theme == if rawTheme == Some("dark") then Dark else Light
  {
    app := new App();
    app.FinishLoad(None, Malformed, rawTheme);
  }

  /** Confirming a deletion removes exactly that task and closes the dialog; cancelling
      instead leaves the list as it was. Either way the dialog ends as the closed delete
      request, and the settings sheet and everything outside the frame stay. */
  method DeleteScenario(app: App, id: string, confirm: bool)
    requires app.Valid()
    modifies app`tasks, app`savedTasks, app`isSettingsOpen, app`alertConfig
    ensures app.Valid()
    ensures !app.alertConfig.isOpen
    ensures app.alertConfig == Close(DeleteTaskPrompt(id))
    ensures app.isSettingsOpen == old(app.isSettingsOpen)
    ensures confirm ==> app.tasks == DeleteTask(old(app.tasks), id)
    ensures !confirm ==> app.tasks == old(app.tasks)
  {
    app.HandleDeleteTask(id);
    app.PressAlertButton(if confirm then 1 else 0);
  }

  /** Opening the dialog on a task and saving without touching anything leaves the task
      as it was, provided its title is not blank, it has a description, its reminder is
      not the empty string and none of its sub-tasks has a blank title (those are the
      fields the dialog normalises). */
  lemma {:induction false} SaveUneditedKeepsTask(t: Task)
    requires !IsBlank(t.title) && t.description.Some? && t.reminderTime != Some("")
    requires forall k :: 0 <= k < |t.subTasks| ==> !IsBlank(t.subTasks[k].title)
    ensures Submission(OpenDraft(Some(t))).Some?
    ensures ApplyEdit(t, Submission(OpenDraft(Some(t))).value) == t
  {
    FilterKeepsAll(t.subTasks, HasText);
  }

  /** A save whose title is typed with surrounding spaces stores the title exactly as
      typed. */
  lemma TitleIsNotTrimmed(d: Draft, ts: seq<Task>, id: string, now: int)
    requires d.title == " Buy milk "
    ensures Submission(d).Some?
    ensures CreateTask(ts, id, now, Submission(d).value)[0].title == " Buy milk "
  {
    assert !IsWhitespace(d.title[1]);
  }
}

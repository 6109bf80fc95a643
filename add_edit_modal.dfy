/** The edit buffer of components/AddEditModal.tsx: the dialog's title, description,
    priority, reminder and sub-task fields, how opening fills them, the sub-task
    handlers, and the save gate that produces the `onSave` arguments. */
module AddEditModal {
  import opened Types
  import opened Seqs
  import opened JsText

  /** The buffer's contents at one moment. */
  datatype Draft = Draft(
    title: string,
    description: string,
    priority: PriorityLevel,
    reminder: string,
    subtasks: seq<SubTask>)

  /** `x || ''` on an optional string. */
  function OrEmpty(o: Option<string>): string
  {
    match o
    case Some(s) => s
    case None => ""
  }

  /** The buffer after the open effect: in add mode empty fields, priority MEDIUM and no
      sub-tasks; in edit mode the task's fields, a missing description or reminder
      becoming the empty string. */
  function OpenDraft(taskToEdit: Option<Task>): (d: Draft)
    ensures taskToEdit.None? ==> d == Draft("", "", Medium, "", [])
    ensures taskToEdit.Some? ==>
      d.title == taskToEdit.value.title && d.priority == taskToEdit.value.priority &&
      d.subtasks == taskToEdit.value.subTasks &&
      (taskToEdit.value.description.Some? ==> d.description == taskToEdit.value.description.value) &&
      (taskToEdit.value.description.None? ==> d.description == "") &&
      (taskToEdit.value.reminderTime.Some? ==> d.reminder == taskToEdit.value.reminderTime.value) &&
      (taskToEdit.value.reminderTime.None? ==> d.reminder == "")
  {
    match taskToEdit
    case Some(t) => Draft(t.title, OrEmpty(t.description), t.priority, OrEmpty(t.reminderTime), t.subTasks)
    case None => Draft("", "", Medium, "", [])
  }

  // ---------------------------------------------------------------- sub-task handlers

  /** `handleAddSubtask`: one new entry with the generated id, an empty title and not
      completed, at the end; the earlier entries are unchanged. */
  function AddSubtask(subs: seq<SubTask>, newId: string): (r: seq<SubTask>)
    ensures |r| == |subs| + 1 && r[..|subs|] == subs
    ensures r[|subs|] == SubTask(newId, "", false)
  {
    subs + [SubTask(newId, "", false)]
  }

  function SubIdIsNot(id: string): SubTask -> bool
  {
    (st: SubTask) => st.id != id
  }

  /** `handleRemoveSubtask`: the entries with the id are dropped, the others kept in
      order, each as many times as it occurred. */
  function RemoveSubtask(subs: seq<SubTask>, id: string): (r: seq<SubTask>)
    ensures IsSubsequence(r, subs)
    ensures forall k :: 0 <= k < |r| ==> r[k].id != id
    ensures forall k :: 0 <= k < |subs| && subs[k].id != id ==> subs[k] in r
    ensures |r| == Count(subs, SubIdIsNot(id))
  {
    FilterIsSubsequence(subs, SubIdIsNot(id));
    FilterLength(subs, SubIdIsNot(id));
    Filter(subs, SubIdIsNot(id))
  }

  /** `handleUpdateSubtask`: the entries with the id get the new title and keep id and
      completion; the others are unchanged; length and order are kept. */
  function RenameSubtask(subs: seq<SubTask>, id: string, value: string): (r: seq<SubTask>)
    ensures |r| == |subs|
    ensures forall k :: 0 <= k < |subs| ==> r[k] == subs[k].(title := r[k].title)
    ensures forall k :: 0 <= k < |subs| ==> r[k].title == if subs[k].id == id then value else subs[k].title
  {
    seq(|subs|, k requires 0 <= k < |subs| => if subs[k].id == id then subs[k].(title := value) else subs[k])
  }

  /** Removing the entry just added restores the list, when its id was fresh. */
  lemma RemoveUndoesAdd(subs: seq<SubTask>, newId: string)
    requires forall k :: 0 <= k < |subs| ==> subs[k].id != newId
    ensures RemoveSubtask(AddSubtask(subs, newId), newId) == subs
  {
    FilterKeepsAll(subs, SubIdIsNot(newId));
    FilterAppendRejected(subs, SubTask(newId, "", false), SubIdIsNot(newId));
  }

  /** Renaming twice leaves the later title; renaming never changes the ids. */
  lemma RenameLastWins(subs: seq<SubTask>, id: string, first: string, second: string)
    ensures RenameSubtask(RenameSubtask(subs, id, first), id, second) == RenameSubtask(subs, id, second)
    ensures forall k :: 0 <= k < |subs| ==> RenameSubtask(subs, id, first)[k].id == subs[k].id
  {
  }

  // ---------------------------------------------------------------- save

  /** `reminder || undefined`: the empty reminder is passed as absent. */
  function ReminderArg(reminder: string): (r: Option<string>)
    ensures r == None <==> reminder == ""
    ensures r.Some? ==> r.value == reminder
  {
    if reminder == "" then None else Some(reminder)
  }

  function HasText(st: SubTask): bool
  {
    !IsBlank(st.title)
  }

  /** `handleSave`: nothing is saved when the title is empty after trimming. Otherwise
      the `onSave` arguments carry the title as typed (untrimmed), the description and
      priority, the reminder with "" as absent, and exactly the sub-tasks whose trimmed
      title is non-empty, in their original order and with their multiplicity. */
  function Submission(d: Draft): (r: Option<TaskInput>)
    ensures r.None? <==> forall i :: 0 <= i < |d.title| ==> IsWhitespace(d.title[i])
    ensures r.Some? ==>
      r.value.title == d.title && r.value.description == d.description &&
      r.value.priority == d.priority && r.value.reminder == ReminderArg(d.reminder)
    ensures r.Some? ==> IsSubsequence(r.value.subTasks, d.subtasks)
    ensures r.Some? ==> forall k :: 0 <= k < |r.value.subTasks| ==> !IsBlank(r.value.subTasks[k].title)
    ensures r.Some? ==> forall k :: 0 <= k < |d.subtasks| && !IsBlank(d.subtasks[k].title) ==>
      d.subtasks[k] in r.value.subTasks
    ensures r.Some? ==> |r.value.subTasks| == Count(d.subtasks, HasText)
  {
    if IsBlank(d.title) then None
    else
      FilterIsSubsequence(d.subtasks, HasText);
      FilterLength(d.subtasks, HasText);
      Some(TaskInput(d.title, d.description, d.priority, ReminderArg(d.reminder), Filter(d.subtasks, HasText)))
  }

  /** Opening in add mode and saving at once saves nothing. */
  lemma AddModeStartsUnsavable()
    ensures Submission(OpenDraft(None)) == None
  {
  }

  /** The dialog's buffer. The open effect and the change handlers replace its fields;
      `Save` reads them. */
  class EditBuffer {
    var title: string
    var description: string
    var priority: PriorityLevel
    var reminder: string
    var subtasks: seq<SubTask>

    function Current(): Draft
      reads this
    {
      Draft(title, description, priority, reminder, subtasks)
    }

    /** The initial `useState` values. */
    constructor ()
      ensures Current() == Draft("", "", Medium, "", [])
    {
      title, description, priority, reminder, subtasks := "", "", Medium, "", [];
    }

    /** The open effect, run when the dialog opens with `taskToEdit` (None: add mode). */
    method Open(taskToEdit: Option<Task>)
      modifies this
      ensures Current() == OpenDraft(taskToEdit)
    {
      var d := OpenDraft(taskToEdit);
      title, description, priority, reminder, subtasks := d.title, d.description, d.priority, d.reminder, d.subtasks;
    }

    /** The title input's change handler. */
    method SetTitle(value: string)
      modifies this
      ensures Current() == old(Current()).(title := value)
    {
      title := value;
    }

    /** The description input's change handler. */
    method SetDescription(value: string)
      modifies this
      ensures Current() == old(Current()).(description := value)
    {
      description := value;
    }

    /** The reminder input's change handler. */
    method SetReminder(value: string)
      modifies this
      ensures Current() == old(Current()).(reminder := value)
    {
      reminder := value;
    }

    /** The priority buttons' handler. */
    method SetPriority(p: PriorityLevel)
      modifies this
      ensures Current() == old(Current()).(priority := p)
    {
      priority := p;
    }

    method HandleAddSubtask(newId: string)
      modifies this
      ensures Current() == old(Current()).(subtasks := AddSubtask(old(subtasks), newId))
    {
      subtasks := AddSubtask(subtasks, newId);
    }

    method HandleRemoveSubtask(id: string)
      modifies this
      ensures Current() == old(Current()).(subtasks := RemoveSubtask(old(subtasks), id))
    {
      subtasks := RemoveSubtask(subtasks, id);
    }

    method HandleUpdateSubtask(id: string, value: string)
      modifies this
      ensures Current() == old(Current()).(subtasks := RenameSubtask(old(subtasks), id, value))
    {
      subtasks := RenameSubtask(subtasks, id, value);
    }

    /** `handleSave`'s gate: the arguments for `onSave`, or None when it returns early.
        The buffer itself is not changed. */
    method Save() returns (req: Option<TaskInput>)
      ensures req == Submission(Current())
    {
      req := Submission(Current());
    }
  }
}

/** The confirmation dialog of App.tsx: a descriptor (open flag, title, optional message,
    buttons) that a request replaces wholesale and `closeAlert` closes. The buttons'
    `onPress` closures are represented by what they do. */
module AlertDialog {
  import opened Types
  import opened Seqs
  import TaskStore

  datatype AlertStyle = Default | Destructive | Cancel

  /** What a button's `onPress` does: only close (the cancel buttons and the backdrop),
      delete one task and close, or delete every task, close the settings sheet and close. */
  datatype AlertAction = CloseOnly | DeleteOne(id: string) | DeleteEverything

  datatype AlertButton = AlertButton(text: string, style: AlertStyle, onPress: AlertAction)

  datatype AlertConfig = AlertConfig(
    isOpen: bool,
    title: string,
    message: Option<string>,
    buttons: seq<AlertButton>)

  /** The descriptor the component starts with: closed, empty title, no buttons. */
  const InitialAlert := AlertConfig(false, "", None, [])

  /** `handleDeleteTask`'s request: a cancel button that only closes, then a destructive
      button that deletes the task with `id`. */
  function DeleteTaskPrompt(id: string): (a: AlertConfig)
    ensures a.isOpen && a.message.Some? && |a.buttons| == 2
    ensures a.buttons[0].style == Cancel && a.buttons[1].style == Destructive
  {
    AlertConfig(true, "Удалить задачу?", Some("Это действие нельзя отменить."),
      [AlertButton("Отмена", Cancel, CloseOnly), AlertButton("Удалить", Destructive, DeleteOne(id))])
  }

  /** `handleDeleteAll`'s request: a cancel button that only closes, then a destructive
      button that empties the list. */
  function DeleteAllPrompt(): (a: AlertConfig)
    ensures a.isOpen && a.message.Some? && |a.buttons| == 2
    ensures a.buttons[0].style == Cancel && a.buttons[1].style == Destructive
  {
    AlertConfig(true, "Удалить все задачи?",
      Some("Это действие удалит все ваши задачи. Отменить его невозможно."),
      [AlertButton("Отмена", Cancel, CloseOnly), AlertButton("Удалить все", Destructive, DeleteEverything)])
  }

  /** `closeAlert`: the dialog is closed; title, message and buttons stay as they were
      (the sheet keeps showing them while it slides away). */
  function Close(a: AlertConfig): (r: AlertConfig)
    ensures !r.isOpen
    ensures r.title == a.title && r.message == a.message && r.buttons == a.buttons
  {
    a.(isOpen := false)
  }

  /** The task list after a button's action has run: a cancel leaves it as it was, a
      single deletion keeps, in order, exactly the tasks with another id, and the
      delete-all action (`setTasks([])`) empties it. */
  function TasksAfter(action: AlertAction, ts: seq<Task>): (r: seq<Task>)
    ensures action == CloseOnly ==> r == ts
    ensures action.DeleteOne? ==> IsSubsequence(r, ts)
    ensures action.DeleteOne? ==> forall i :: 0 <= i < |r| ==> r[i].id != action.id
    ensures action.DeleteOne? ==> forall i :: 0 <= i < |ts| && ts[i].id != action.id ==> ts[i] in r
    ensures action.DeleteOne? ==> |r| == |ts| - Count(ts, TaskStore.IdIs(action.id))
    ensures action == DeleteEverything ==> r == []
  {
    match action
    case CloseOnly => ts
    case DeleteOne(id) => TaskStore.DeleteTask(ts, id)
    case DeleteEverything => []
  }

  /** In both confirmation requests, the cancel button leaves the list unchanged and the
      destructive button performs the deletion it confirms; removing a single task keeps
      every task with another id in order. */
  lemma PromptButtonsDoWhatTheySay(id: string, ts: seq<Task>)
    ensures forall b :: b in DeleteTaskPrompt(id).buttons && b.style == Cancel ==> TasksAfter(b.onPress, ts) == ts
    ensures forall b :: b in DeleteAllPrompt().buttons && b.style == Cancel ==> TasksAfter(b.onPress, ts) == ts
    ensures forall b :: b in DeleteTaskPrompt(id).buttons && b.style == Destructive ==>
      TasksAfter(b.onPress, ts) == TaskStore.DeleteTask(ts, id) &&
      IsSubsequence(TasksAfter(b.onPress, ts), ts)
    ensures forall b :: b in DeleteAllPrompt().buttons && b.style == Destructive ==> TasksAfter(b.onPress, ts) == []
  {
  }

  /** Closing is idempotent, and closing a request's descriptor keeps its buttons, so a
      press after closing (during the slide-out) still does the same thing. */
  lemma CloseIdempotent(a: AlertConfig)
    ensures Close(Close(a)) == Close(a)
    ensures Close(a).buttons == a.buttons
  {
  }
}

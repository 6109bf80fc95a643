/** The records of types.ts, plus the reminder field the application stores on a task. */
module Types {

  datatype Option<T> = None | Some(value: T)

  datatype PriorityLevel = Low | Medium | High

  /** Which tasks the list shows. */
  datatype FilterType = All | Active | Completed

  datatype Theme = Light | Dark

  /** A step within a task; its id is unique within its parent only. */
  datatype SubTask = SubTask(id: string, title: string, isCompleted: bool)

  /** A to-do item. `createdAt` is a millisecond timestamp; `description` and
      `reminderTime` are optional, as in the persisted JSON. */
  datatype Task = Task(
    id: string,
    title: string,
    description: Option<string>,
    isCompleted: bool,
    createdAt: int,
    subTasks: seq<SubTask>,
    priority: PriorityLevel,
    reminderTime: Option<string>)

  /** The arguments the edit dialog hands to the application's `onSave` callback. */
  datatype TaskInput = TaskInput(
    title: string,
    description: string,
    priority: PriorityLevel,
    reminder: Option<string>,
    subTasks: seq<SubTask>)
}

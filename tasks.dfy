/** The records the components share: a task as the store keeps it, and a category. */
module Tasks {
  import opened Wrappers

  /** A task record. JavaScript's falsy values are encoded as follows: an empty
      `startTime` is "not scheduled"; 0 in `duration`, `reminderMinutes` or
      `categoryId` is a missing value (undefined, null or 0); `date` is an abstract
      day number, `None` when absent; `reminderEnabled` is `None` when the record
      has no such field (undefined). */
  datatype Task = Task(
    id: int,
    title: string,
    description: string,
    categoryId: int,
    date: Option<int>,
    startTime: string,
    duration: int,
    completed: bool,
    reminderEnabled: Option<bool>,
    reminderMinutes: int)

  datatype Category = Category(id: int, name: string, color: string, icon: string)

  /** `task.startTime` is truthy. */
  predicate HasStartTime(t: Task) { t.startTime != "" }

  /** `task.reminderEnabled` is truthy. */
  predicate RemindersOn(t: Task) { t.reminderEnabled == Some(true) }

  /** `task.reminderMinutes || 5`: the reminder's lead time in minutes. */
  function LeadMinutes(t: Task): int
  {
    if t.reminderMinutes == 0 then 5 else t.reminderMinutes
  }

  /** `task.duration || 30`: the task's length in minutes. */
  function DurationMinutes(t: Task): int
  {
    if t.duration == 0 then 30 else t.duration
  }
}

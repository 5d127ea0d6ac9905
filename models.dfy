/** The `tasks` table of backend/app/models.py: one row per task. Timestamps
    are instants (seconds); the clock is a parameter of whoever writes a row. */
module Models {
  import opened Wrappers
  import opened TaskStatus

  /** A stored row. `id` is the primary key; only `description` may be null. */
  datatype Task = Task(
    id: int,
    title: string,
    description: Option<string>,
    status: Status,
    dueDate: int,
    createdAt: int,
    updatedAt: int)

  /** The columns a client may write through an update. */
  datatype Column = TitleColumn | DescriptionColumn | StatusColumn | DueDateColumn

  /** Only `description` is declared nullable. */
  predicate Nullable(c: Column) {
    c == DescriptionColumn
  }

  /** The row an INSERT produces: `status` falls back to its column default TODO
      when none is given, and `created_at` and `updated_at` both take the
      insertion time. */
  function InsertedRow(id: int, title: string, description: Option<string>,
                       status: Option<Status>, dueDate: int, now: int): (t: Task)
    ensures t.id == id && t.title == title && t.description == description && t.dueDate == dueDate
    ensures status.None? ==> t.status == Todo
    ensures status.Some? ==> t.status == status.value
    ensures t.createdAt == now && t.updatedAt == now
  {
    Task(id, title, description, if status.Some? then status.value else Todo, dueDate, now, now)
  }
}

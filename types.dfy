/** The client-side shapes of frontend/src/types/task.ts. Timestamps travel
    as ISO-8601 strings; here they are the instants those strings denote. */
module Types {
  import opened Wrappers
  import opened TaskStatus

  /** A task as the API returns it: only `description` may be null. */
  datatype Task = Task(
    id: int,
    title: string,
    description: Option<string>,
    status: Status,
    dueDate: int,
    createdAt: int,
    updatedAt: int)

  datatype TaskListResponse = TaskListResponse(tasks: seq<Task>, total: int)

  /** `title` and `due_date` are required; `description` may be left out or
      null; `status` may be left out. */
  datatype CreateTaskPayload = CreateTaskPayload(
    title: string, description: Field<string>, status: Option<Status>, dueDate: int)

  /** Every member may be left out; `description` may also be null. */
  datatype UpdateTaskPayload = UpdateTaskPayload(
    title: Option<string>, description: Field<string>, status: Option<Status>, dueDate: Option<int>)

  datatype UpdateTaskStatusPayload = UpdateTaskStatusPayload(status: Status)
}

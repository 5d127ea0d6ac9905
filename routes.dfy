/** The handlers of backend/app/routes.py, mounted under `/api/tasks`. The
    framework validates the path, the query and the body before a handler
    runs, so a malformed request answers 422 whether or not the id exists;
    a handler then looks the id up and answers 404 when it is missing. */
module Routes {
  import opened Wrappers
  import opened TaskStatus
  import opened Models
  import opened Schemas
  import opened Listing
  import opened Crud
  import opened Decimal

  // Status codes of section 15 of RFC 9110.
  const HttpOk := 200
  const HttpCreated := 201
  const HttpNoContent := 204
  const HttpNotFound := 404
  const HttpUnprocessable := 422
  const HttpServerError := 500

  const DefaultSkip := 0
  const DefaultLimit := 100
  const MaxLimit := 500

  datatype Body =
    | TaskBody(task: Task)
    | ListBody(tasks: seq<Task>, total: int)
    | Detail(detail: string)
    | Invalid(errors: seq<ValidationError>)
    | Empty

  datatype Response = Response(code: int, body: Body)

  function NotFoundDetail(id: int): string {
    "Task with id " + IntToString(id) + " not found"
  }

  function NotFound(id: int): Response {
    Response(HttpNotFound, Detail(NotFoundDetail(id)))
  }

  /** Distinct ids give distinct 404 messages. */
  lemma NotFoundDetailNamesId(a: int, b: int)
    requires NotFoundDetail(a) == NotFoundDetail(b)
    ensures a == b
  {
    var prefix, suffix := "Task with id ", " not found";
    var sa, sb := IntToString(a), IntToString(b);
    assert |sa| == |sb|;
    assert sa == NotFoundDetail(a)[|prefix|..|prefix| + |sa|];
    assert sb == NotFoundDetail(b)[|prefix|..|prefix| + |sb|];
    IntToStringInjective(a, b);
  }

  /** Errors drawn by the list endpoint's query parameters. */
  function QueryErrors(status: Option<string>, skip: int, limit: int): seq<ValidationError>
  {
    (if status.Some? && Parse(status.value).None? then [ValidationError(StatusQuery, NotAStatus)] else [])
    + (if skip < 0 then [ValidationError(SkipQuery, TooSmall(0))] else [])
    + (if limit < 1 then [ValidationError(LimitQuery, TooSmall(1))]
       else if limit > MaxLimit then [ValidationError(LimitQuery, TooLarge(MaxLimit))] else [])
  }

  /** `GET /api/tasks`: the crud page as `tasks` and the crud count as `total`. */
  function GetAllTasks(store: TaskStore, status: Option<string>, skip: Option<int>, limit: Option<int>): (r: Response)
    reads store
    requires store.Valid()
    ensures var s := if skip.Some? then skip.value else DefaultSkip;
            var l := if limit.Some? then limit.value else DefaultLimit;
            && (r.code == HttpOk <==>
                  (status.Some? ==> Parse(status.value).Some?) && s >= 0 && 1 <= l <= MaxLimit)
            && (r.code != HttpOk ==> r.code == HttpUnprocessable && r.body.Invalid? && r.body.errors != [])
            && (r.code == HttpOk ==>
                  var page := store.GetAllTasks(if status.Some? then Parse(status.value) else None, s, l);
                  r.body == ListBody(page.tasks, page.total))
  {
    var s := if skip.Some? then skip.value else DefaultSkip;
    var l := if limit.Some? then limit.value else DefaultLimit;
    var errors := QueryErrors(status, s, l);
    if errors != [] then Response(HttpUnprocessable, Invalid(errors))
    else
      var page := store.GetAllTasks(if status.Some? then Parse(status.value) else None, s, l);
      Response(HttpOk, ListBody(page.tasks, page.total))
  }

  /** `GET /api/tasks/{id}`. */
  function GetTask(store: TaskStore, id: int): (r: Response)
    reads store
    requires store.Valid()
    ensures r.code == HttpOk <==> id in store.rows
    ensures r.code == HttpOk ==> r.body == TaskBody(store.rows[id]) && r.body.task.id == id
    ensures r.code != HttpOk ==> r == NotFound(id)
  {
    match store.GetTask(id)
    case None => NotFound(id)
    case Some(t) => Response(HttpOk, TaskBody(t))
  }

  /** `POST /api/tasks`: 201 with the new row, or 422 and no change. */
  method CreateTask(store: TaskStore, input: TaskCreateInput, now: int) returns (r: Response)
    requires store.Valid()
    modifies store
    ensures store.Valid()
    ensures ValidateCreate(input, now).Err? ==>
      r == Response(HttpUnprocessable, Invalid(ValidateCreate(input, now).error))
      && store.rows == old(store.rows) && store.nextId == old(store.nextId)
    ensures ValidateCreate(input, now).Ok? ==>
      && r.code == HttpCreated && r.body.TaskBody?
      && r.body.task.id == old(store.nextId) && r.body.task.id !in old(store.rows)
      && store.rows == old(store.rows)[r.body.task.id := r.body.task]
      && var d := ValidateCreate(input, now).value;
         r.body.task == InsertedRow(old(store.nextId), d.title, d.description, Some(d.status), StoredDueDate(d.dueDate), now)
  {
    match ValidateCreate(input, now)
    case Err(errors) =>
      r := Response(HttpUnprocessable, Invalid(errors));
    case Ok(data) =>
      var task := store.CreateTask(data, now);
      r := Response(HttpCreated, TaskBody(task));
  }

  /** `PATCH /api/tasks/{id}/status`. */
  method UpdateTaskStatus(store: TaskStore, id: int, status: Field<string>, now: int) returns (r: Response)
    requires store.Valid()
    modifies store
    ensures store.Valid() && store.nextId == old(store.nextId)
    ensures ValidateUpdateStatus(status).Err? ==>
      r == Response(HttpUnprocessable, Invalid(ValidateUpdateStatus(status).error)) && store.rows == old(store.rows)
    ensures ValidateUpdateStatus(status).Ok? && id !in old(store.rows) ==>
      r == NotFound(id) && store.rows == old(store.rows)
    ensures ValidateUpdateStatus(status).Ok? && id in old(store.rows) ==>
      var task := old(store.rows[id]).(status := ValidateUpdateStatus(status).value.status, updatedAt := now);
      r == Response(HttpOk, TaskBody(task)) && store.rows == old(store.rows)[id := task]
  {
    match ValidateUpdateStatus(status)
    case Err(errors) =>
      r := Response(HttpUnprocessable, Invalid(errors));
    case Ok(data) =>
      if store.GetTask(id).None? {
        r := NotFound(id);
      } else {
        var task := store.UpdateTaskStatus(id, data, now);
        r := Response(HttpOk, TaskBody(task));
      }
  }

  /** `PUT /api/tasks/{id}`. A null sent for title, status or due_date passes
      validation and is refused by the database on commit: 500, no change. */
  method UpdateTask(store: TaskStore, id: int, input: TaskUpdateInput, now: int) returns (r: Response)
    requires store.Valid()
    modifies store
    ensures store.Valid() && store.nextId == old(store.nextId)
    ensures ValidateUpdate(input, now).Err? ==>
      r == Response(HttpUnprocessable, Invalid(ValidateUpdate(input, now).error)) && store.rows == old(store.rows)
    ensures ValidateUpdate(input, now).Ok? && id !in old(store.rows) ==>
      r == NotFound(id) && store.rows == old(store.rows)
    ensures ValidateUpdate(input, now).Ok? && id in old(store.rows) ==>
      var data := ValidateUpdate(input, now).value;
      if NullColumn(data).Some? then
        r.code == HttpServerError && store.rows == old(store.rows)
      else
        var task := Patched(old(store.rows[id]), data).(updatedAt := now);
        r == Response(HttpOk, TaskBody(task)) && store.rows == old(store.rows)[id := task]
  {
    match ValidateUpdate(input, now)
    case Err(errors) =>
      r := Response(HttpUnprocessable, Invalid(errors));
    case Ok(data) =>
      if store.GetTask(id).None? {
        r := NotFound(id);
      } else {
        var result := store.UpdateTask(id, data, now);
        match result
        case Err(_) =>
          r := Response(HttpServerError, Detail("Internal Server Error"));
        case Ok(task) =>
          r := Response(HttpOk, TaskBody(task));
      }
  }

  /** `DELETE /api/tasks/{id}`: 204 and the row is gone, or 404 and no change. */
  method DeleteTask(store: TaskStore, id: int) returns (r: Response)
    requires store.Valid()
    modifies store
    ensures store.Valid() && store.nextId == old(store.nextId)
    ensures id !in old(store.rows) ==> r == NotFound(id) && store.rows == old(store.rows)
    ensures id in old(store.rows) ==> r == Response(HttpNoContent, Empty) && store.rows == old(store.rows) - {id}
    ensures GetTask(store, id) == NotFound(id)
  {
    if store.GetTask(id).None? {
      r := NotFound(id);
    } else {
      store.DeleteTask(id);
      r := Response(HttpNoContent, Empty);
    }
  }
}

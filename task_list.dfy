/** The container of frontend/src/components/TaskList.tsx: eight pieces of
    state and the handlers that update them around awaited API calls. Each
    handler runs as one uninterrupted sequence; how each API call settles is
    an input, and each handler returns the requests it sent, in order.

    The handlers are specified by pure transitions on a snapshot of the state
    (`ListState`); the lemmas after them state what those transitions promise. */
module TaskList {
  import opened Wrappers
  import opened TaskStatus
  import opened Decimal
  import opened Types
  import opened Api

  datatype ListState = ListState(
    tasks: seq<Task>,
    total: int,
    loading: bool,
    saving: bool,
    error: Option<string>,
    showForm: bool,
    editingTask: Option<Task>,
    statusFilter: string)

  const LoadFailed := "Failed to load tasks"
  const CreateFailed := "Failed to create task"
  const UpdateFailed := "Failed to update task"
  const StatusFailed := "Failed to update status"
  const DeleteFailed := "Failed to delete task"

  /** The first render: nothing loaded yet, loading under way, no form, no filter. */
  const Initial := ListState([], 0, true, false, None, false, None, "all")

  /** Between handlers nothing is being saved, and a task is only being
      edited while the form is open. */
  predicate Valid(s: ListState) {
    !s.saving && (s.editingTask.Some? ==> s.showForm)
  }

  /** `err instanceof ApiError ? err.message : fallback`. */
  function ErrorText(f: Failure, fallback: string): (r: string)
    ensures f.ApiError? ==> r == f.message
    ensures f.OtherError? ==> r == fallback
  {
    match f
    case ApiError(message, _) => message
    case OtherError => fallback
  }

  /** The list call delivered a body; an empty 204 leaves `data` undefined,
      and reading `data.tasks` then throws. */
  predicate Loaded(o: Outcome<TaskListResponse>) {
    o.Resolved? && o.value.Some?
  }

  function LoadError(o: Outcome<TaskListResponse>): string {
    if o.Rejected? then ErrorText(o.failure, LoadFailed) else LoadFailed
  }

  /** `fetchTasks`. */
  function AfterFetch(s: ListState, listed: Outcome<TaskListResponse>): ListState {
    var s1 := s.(loading := true, error := None);
    var s2 := if Loaded(listed) then s1.(tasks := listed.value.value.tasks, total := listed.value.value.total)
              else s1.(error := Some(LoadError(listed)));
    s2.(loading := false)
  }

  /** The list request `fetchTasks` sends. */
  function FetchSent(base: string, s: ListState): seq<Request> {
    [GetAllRequest(base, Some(s.statusFilter))]
  }

  /** `handleCreate`. */
  function AfterCreate(s: ListState, created: Outcome<Task>, listed: Outcome<TaskListResponse>): ListState {
    var s1 := s.(saving := true, error := None);
    var s2 := if created.Rejected? then s1.(error := Some(ErrorText(created.failure, CreateFailed)))
              else AfterFetch(s1.(showForm := false), listed);
    s2.(saving := false)
  }

  function CreateSent(base: string, s: ListState, data: CreateTaskPayload, created: Outcome<Task>): seq<Request> {
    [CreateRequest(base, data)] + (if created.Rejected? then [] else FetchSent(base, s))
  }

  /** The form always produces a full payload; sent as an update, every member is present. */
  function AsUpdatePayload(p: CreateTaskPayload): (r: UpdateTaskPayload)
    ensures r.title == Some(p.title) && r.description == p.description
    ensures r.status == p.status && r.dueDate == Some(p.dueDate)
  {
    UpdateTaskPayload(Some(p.title), p.description, p.status, Some(p.dueDate))
  }

  /** `handleUpdate`. */
  function AfterUpdate(s: ListState, updated: Outcome<Task>, listed: Outcome<TaskListResponse>): ListState {
    if s.editingTask.None? then s
    else
      var s1 := s.(saving := true, error := None);
      var s2 := if updated.Rejected? then s1.(error := Some(ErrorText(updated.failure, UpdateFailed)))
                else AfterFetch(s1.(editingTask := None, showForm := false), listed);
      s2.(saving := false)
  }

  function UpdateSent(base: string, s: ListState, data: CreateTaskPayload, updated: Outcome<Task>): seq<Request> {
    if s.editingTask.None? then []
    else [UpdateRequest(base, s.editingTask.value.id, AsUpdatePayload(data))]
         + (if updated.Rejected? then [] else FetchSent(base, s))
  }

  /** `handleUpdateStatus`. */
  function AfterStatusChange(s: ListState, changed: Outcome<Task>, listed: Outcome<TaskListResponse>): ListState {
    var s1 := s.(error := None);
    if changed.Rejected? then s1.(error := Some(ErrorText(changed.failure, StatusFailed)))
    else AfterFetch(s1, listed)
  }

  function UpdateStatusSent(base: string, s: ListState, id: int, status: Status, changed: Outcome<Task>): seq<Request> {
    [UpdateStatusRequest(base, id, UpdateTaskStatusPayload(status))]
    + (if changed.Rejected? then [] else FetchSent(base, s))
  }

  /** `handleDelete`; `confirmed` is the answer to the confirmation dialog. */
  function AfterDelete(s: ListState, confirmed: bool, deleted: Outcome<()>, listed: Outcome<TaskListResponse>): ListState {
    if !confirmed then s
    else
      var s1 := s.(error := None);
      if deleted.Rejected? then s1.(error := Some(ErrorText(deleted.failure, DeleteFailed)))
      else AfterFetch(s1, listed)
  }

  function DeleteSent(base: string, s: ListState, id: int, confirmed: bool, deleted: Outcome<()>): seq<Request> {
    if !confirmed then []
    else [DeleteRequest(base, id)] + (if deleted.Rejected? then [] else FetchSent(base, s))
  }

  /** The page body below the filter. */
  datatype Screen = Spinner | EmptyState | Cards(tasks: seq<Task>)

  function ScreenOf(s: ListState): (r: Screen)
    ensures r == Spinner <==> s.loading
    ensures r == EmptyState <==> !s.loading && s.tasks == []
    ensures r.Cards? ==> r.tasks == s.tasks && r.tasks != []
  {
    if s.loading then Spinner else if s.tasks == [] then EmptyState else Cards(s.tasks)
  }

  /** `{error && ...}`: the banner shows a non-empty message only. */
  function Banner(s: ListState): (r: Option<string>)
    ensures r.Some? <==> s.error.Some? && s.error.value != ""
    ensures r.Some? ==> r == s.error
  {
    if s.error.Some? && s.error.value != "" then s.error else None
  }

  /** The heading over the open form. */
  function FormHeading(s: ListState): (r: Option<string>)
    ensures r.Some? <==> s.showForm
    ensures r.Some? ==> r.value == (if s.editingTask.Some? then "Edit Task" else "Create New Task")
  {
    if !s.showForm then None
    else if s.editingTask.Some? then Some("Edit Task") else Some("Create New Task")
  }

  /** `{total} task{total !== 1 ? "s" : ""} total`. */
  function HeaderText(total: int): (r: string)
    ensures total == 1 ==> r == "1 task total"
    ensures total != 1 ==> r == IntToString(total) + " tasks total"
  {
    IntToString(total) + " task" + (if total != 1 then "s" else "") + " total"
  }

  class TaskListComponent {
    /** The API's base URL. */
    const baseUrl: string
    var tasks: seq<Task>
    var total: int
    var loading: bool
    var saving: bool
    var error: Option<string>
    var showForm: bool
    var editingTask: Option<Task>
    var statusFilter: string

    function Snapshot(): ListState
      reads this
    {
      ListState(tasks, total, loading, saving, error, showForm, editingTask, statusFilter)
    }

    constructor(base: string)
      ensures baseUrl == base && Snapshot() == Initial
    {
      baseUrl := base;
      tasks := [];
      total := 0;
      loading := true;
      saving := false;
      error := None;
      showForm := false;
      editingTask := None;
      statusFilter := "all";
    }

    method FetchTasks(listed: Outcome<TaskListResponse>) returns (sent: seq<Request>)
      modifies this
      ensures Snapshot() == AfterFetch(old(Snapshot()), listed)
      ensures sent == FetchSent(baseUrl, old(Snapshot()))
    {
      loading := true;
      error := None;
      var url := GetAllUrl(baseUrl, Some(statusFilter));
      sent := [Request(Get, url, None)];
      if listed.Resolved? && listed.value.Some? {
        tasks := listed.value.value.tasks;
        total := listed.value.value.total;
      } else {
        error := Some(LoadError(listed));
      }
      loading := false;
    }

    method HandleCreate(data: CreateTaskPayload, created: Outcome<Task>, listed: Outcome<TaskListResponse>)
      returns (sent: seq<Request>)
      modifies this
      ensures Snapshot() == AfterCreate(old(Snapshot()), created, listed)
      ensures sent == CreateSent(baseUrl, old(Snapshot()), data, created)
    {
      saving := true;
      error := None;
      sent := [CreateRequest(baseUrl, data)];
      if created.Rejected? {
        error := Some(ErrorText(created.failure, CreateFailed));
      } else {
        showForm := false;
        var fetched := FetchTasks(listed);
        sent := sent + fetched;
      }
      saving := false;
    }

    method HandleUpdate(data: CreateTaskPayload, updated: Outcome<Task>, listed: Outcome<TaskListResponse>)
      returns (sent: seq<Request>)
      modifies this
      ensures Snapshot() == AfterUpdate(old(Snapshot()), updated, listed)
      ensures sent == UpdateSent(baseUrl, old(Snapshot()), data, updated)
    {
      if editingTask.None? {
        return [];
      }
      saving := true;
      error := None;
      sent := [UpdateRequest(baseUrl, editingTask.value.id, AsUpdatePayload(data))];
      if updated.Rejected? {
        error := Some(ErrorText(updated.failure, UpdateFailed));
      } else {
        editingTask := None;
        showForm := false;
        var fetched := FetchTasks(listed);
        sent := sent + fetched;
      }
      saving := false;
    }

    method HandleUpdateStatus(id: int, status: Status, changed: Outcome<Task>, listed: Outcome<TaskListResponse>)
      returns (sent: seq<Request>)
      modifies this
      ensures Snapshot() == AfterStatusChange(old(Snapshot()), changed, listed)
      ensures sent == UpdateStatusSent(baseUrl, old(Snapshot()), id, status, changed)
    {
      error := None;
      sent := [UpdateStatusRequest(baseUrl, id, UpdateTaskStatusPayload(status))];
      if changed.Rejected? {
        error := Some(ErrorText(changed.failure, StatusFailed));
      } else {
        var fetched := FetchTasks(listed);
        sent := sent + fetched;
      }
    }

    method HandleDelete(id: int, confirmed: bool, deleted: Outcome<()>, listed: Outcome<TaskListResponse>)
      returns (sent: seq<Request>)
      modifies this
      ensures Snapshot() == AfterDelete(old(Snapshot()), confirmed, deleted, listed)
      ensures sent == DeleteSent(baseUrl, old(Snapshot()), id, confirmed, deleted)
    {
      if !confirmed {
        return [];
      }
      error := None;
      sent := [DeleteRequest(baseUrl, id)];
      if deleted.Rejected? {
        error := Some(ErrorText(deleted.failure, DeleteFailed));
      } else {
        var fetched := FetchTasks(listed);
        sent := sent + fetched;
      }
    }

    method HandleEdit(task: Task)
      modifies this
      ensures Snapshot() == old(Snapshot()).(editingTask := Some(task), showForm := true)
    {
      editingTask := Some(task);
      showForm := true;
    }

    method HandleCancel()
      modifies this
      ensures Snapshot() == old(Snapshot()).(showForm := false, editingTask := None)
    {
      showForm := false;
      editingTask := None;
    }

    /** The "+ New Task" button. */
    method NewTask()
      modifies this
      ensures Snapshot() == old(Snapshot()).(editingTask := None, showForm := true)
    {
      editingTask := None;
      showForm := true;
    }

    /** Choosing a filter; the effect that depends on it fetches again. */
    method ChangeFilter(value: string, listed: Outcome<TaskListResponse>) returns (sent: seq<Request>)
      modifies this
      ensures Snapshot() == AfterFetch(old(Snapshot()).(statusFilter := value), listed)
      ensures sent == [GetAllRequest(baseUrl, Some(value))]
    {
      statusFilter := value;
      sent := FetchTasks(listed);
    }

    /** The form's `onSubmit`: the update handler while editing, otherwise create. */
    method SubmitForm(data: CreateTaskPayload, saved: Outcome<Task>, listed: Outcome<TaskListResponse>)
      returns (sent: seq<Request>)
      modifies this
      ensures old(editingTask).Some? ==> Snapshot() == AfterUpdate(old(Snapshot()), saved, listed)
      ensures old(editingTask).None? ==> Snapshot() == AfterCreate(old(Snapshot()), saved, listed)
      ensures sent != [] && sent[0].verb == (if old(editingTask).Some? then Put else Post)
    {
      if editingTask.Some? {
        sent := HandleUpdate(data, saved, listed);
      } else {
        sent := HandleCreate(data, saved, listed);
      }
    }
  }

  /** `fetchTasks` always ends with loading off and leaves the form alone; a
      delivered list replaces tasks and total and clears the error, anything
      else keeps them and reports the API's message or the fallback. */
  lemma FetchSettles(s: ListState, listed: Outcome<TaskListResponse>)
    ensures var r := AfterFetch(s, listed);
      && !r.loading && r.saving == s.saving && r.showForm == s.showForm
      && r.editingTask == s.editingTask && r.statusFilter == s.statusFilter
      && (Loaded(listed) ==> r.tasks == listed.value.value.tasks && r.total == listed.value.value.total && r.error == None)
      && (!Loaded(listed) ==> r.tasks == s.tasks && r.total == s.total && r.error.Some?)
      && (listed.Rejected? && listed.failure.ApiError? ==> r.error == Some(listed.failure.message))
      && (listed == Resolved(None) || listed == Rejected(OtherError) ==> r.error == Some(LoadFailed))
  {
  }

  /** A create closes the form only when the server accepted it; a refused one
      keeps the form open with the reason shown. */
  lemma CreateOutcomes(s: ListState, created: Outcome<Task>, listed: Outcome<TaskListResponse>)
    ensures var r := AfterCreate(s, created, listed);
      && !r.saving
      && (created.Resolved? ==> !r.showForm)
      && (created.Rejected? ==> r.showForm == s.showForm && r.tasks == s.tasks
                                && r.error == Some(ErrorText(created.failure, CreateFailed)))
  {
  }

  /** Without a task being edited an update does nothing and sends nothing. */
  lemma UpdateNeedsEditingTask(base: string, s: ListState, data: CreateTaskPayload, updated: Outcome<Task>,
                               listed: Outcome<TaskListResponse>)
    requires s.editingTask.None?
    ensures AfterUpdate(s, updated, listed) == s && UpdateSent(base, s, data, updated) == []
  {
  }

  /** A successful update ends the edit; a refused one keeps it. */
  lemma UpdateOutcomes(s: ListState, updated: Outcome<Task>, listed: Outcome<TaskListResponse>)
    requires s.editingTask.Some?
    ensures var r := AfterUpdate(s, updated, listed);
      && !r.saving
      && (updated.Resolved? ==> !r.showForm && r.editingTask.None?)
      && (updated.Rejected? ==> r.showForm == s.showForm && r.editingTask == s.editingTask
                                && r.error == Some(ErrorText(updated.failure, UpdateFailed)))
  {
  }

  /** Status changes and deletions never touch `saving`, the form or the edit target. */
  lemma QuickActionsKeepForm(s: ListState, confirmed: bool, changed: Outcome<Task>, deleted: Outcome<()>,
                             listed: Outcome<TaskListResponse>)
    ensures var r := AfterStatusChange(s, changed, listed);
      r.saving == s.saving && r.showForm == s.showForm && r.editingTask == s.editingTask
    ensures var r := AfterDelete(s, confirmed, deleted, listed);
      r.saving == s.saving && r.showForm == s.showForm && r.editingTask == s.editingTask
    ensures changed.Rejected? ==> AfterStatusChange(s, changed, listed).error == Some(ErrorText(changed.failure, StatusFailed))
    ensures confirmed && deleted.Rejected? ==>
      AfterDelete(s, confirmed, deleted, listed).error == Some(ErrorText(deleted.failure, DeleteFailed))
  {
  }

  /** Declining the confirmation dialog changes nothing and sends nothing. */
  lemma DeclinedDeleteDoesNothing(base: string, s: ListState, id: int, deleted: Outcome<()>,
                                  listed: Outcome<TaskListResponse>)
    ensures AfterDelete(s, false, deleted, listed) == s
    ensures DeleteSent(base, s, id, false, deleted) == []
  {
  }

  /** Every handler keeps the state valid, from the first render on; create is
      only reached while no task is being edited. */
  lemma HandlersKeepValid(s: ListState, task: Task, value: string, confirmed: bool,
                          saved: Outcome<Task>, deleted: Outcome<()>, listed: Outcome<TaskListResponse>)
    requires Valid(s)
    ensures Valid(Initial)
    ensures Valid(AfterFetch(s, listed))
    ensures s.editingTask.None? ==> Valid(AfterCreate(s, saved, listed))
    ensures Valid(AfterUpdate(s, saved, listed))
    ensures Valid(AfterStatusChange(s, saved, listed))
    ensures Valid(AfterDelete(s, confirmed, deleted, listed))
    ensures Valid(s.(editingTask := Some(task), showForm := true))
    ensures Valid(s.(showForm := false, editingTask := None))
    ensures Valid(s.(editingTask := None, showForm := true))
    ensures Valid(AfterFetch(s.(statusFilter := value), listed))
  {
  }

  /** After a list arrives, an empty one shows the empty state and any other
      the cards in server order. */
  lemma LoadedScreen(s: ListState, listed: Outcome<TaskListResponse>)
    requires Loaded(listed)
    ensures listed.value.value.tasks == [] ==> ScreenOf(AfterFetch(s, listed)) == EmptyState
    ensures listed.value.value.tasks != [] ==> ScreenOf(AfterFetch(s, listed)) == Cards(listed.value.value.tasks)
  {
  }

  lemma HeaderExamples()
    ensures HeaderText(1) == "1 task total"
    ensures HeaderText(0) == "0 tasks total"
    ensures HeaderText(3) == "3 tasks total"
  {
  }
}

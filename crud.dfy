/** backend/app/crud.py over an in-memory table: a map from id to row plus
    the next id the autoincrement key will hand out. The clock reading `now`
    is a parameter of every operation that stamps a row. */
module Crud {
  import opened Wrappers
  import opened TaskStatus
  import opened Models
  import opened Schemas
  import opened Listing

  /** One `setattr(task, field, value)` of `update_task`; None is a null. */
  datatype Assignment =
    | SetTitle(title: Option<string>)
    | SetDescription(description: Option<string>)
    | SetStatus(status: Option<Status>)
    | SetDueDate(dueDate: Option<int>)

  function ColumnOf(a: Assignment): Column {
    match a
    case SetTitle(_) => TitleColumn
    case SetDescription(_) => DescriptionColumn
    case SetStatus(_) => StatusColumn
    case SetDueDate(_) => DueDateColumn
  }

  /** The assignment puts a null into a NOT NULL column. */
  predicate WritesNull(a: Assignment) {
    match a
    case SetTitle(v) => v.None?
    case SetDescription(_) => false
    case SetStatus(v) => v.None?
    case SetDueDate(v) => v.None?
  }

  function TitleSet(f: Field<string>): seq<Assignment> {
    match f case Absent => [] case Null => [SetTitle(None)] case Given(s) => [SetTitle(Some(s))]
  }

  function DescriptionSet(f: Field<string>): seq<Assignment> {
    match f case Absent => [] case Null => [SetDescription(None)] case Given(s) => [SetDescription(Some(s))]
  }

  function StatusSet(f: Field<Status>): seq<Assignment> {
    match f case Absent => [] case Null => [SetStatus(None)] case Given(s) => [SetStatus(Some(s))]
  }

  /** What the default SQLite engine keeps of a `DateTime(timezone=True)`
      value: the wall-clock fields, with the UTC offset dropped. The stored
      value is the instant only for a naive or a UTC input. */
  function StoredDueDate(d: DateTime): (w: int)
    ensures d.offset.None? || d.offset == Some(0) ==> w == Instant(d)
    ensures d.offset.Some? ==> w == Instant(d) + d.offset.value
  {
    d.wall
  }

  function DueDateSet(f: Field<DateTime>): seq<Assignment> {
    match f case Absent => [] case Null => [SetDueDate(None)] case Given(d) => [SetDueDate(Some(StoredDueDate(d)))]
  }

  /** `model_dump(exclude_unset=True)`: the members the client sent, in
      declaration order, each with its value or null. */
  function SetFields(u: TaskUpdate): (r: seq<Assignment>)
    ensures |r| <= 4
  {
    TitleSet(u.title) + DescriptionSet(u.description) + StatusSet(u.status) + DueDateSet(u.dueDate)
  }

  /** The effect of one assignment on a row that is committed; a null written to
      a NOT NULL column never reaches a committed row. */
  function Assign(t: Task, a: Assignment): Task {
    match a
    case SetTitle(v) => if v.Some? then t.(title := v.value) else t
    case SetDescription(v) => t.(description := v)
    case SetStatus(v) => if v.Some? then t.(status := v.value) else t
    case SetDueDate(v) => if v.Some? then t.(dueDate := v.value) else t
  }

  /** The assignments applied in order. */
  function AssignAll(t: Task, s: seq<Assignment>): Task {
    if s == [] then t else Assign(AssignAll(t, s[..|s| - 1]), s[|s| - 1])
  }

  /** The first NOT NULL column the assignments put a null into. */
  function FirstNull(s: seq<Assignment>): Option<Column> {
    if s == [] then None
    else
      var earlier := FirstNull(s[..|s| - 1]);
      if earlier.Some? then earlier
      else if WritesNull(s[|s| - 1]) then Some(ColumnOf(s[|s| - 1]))
      else None
  }

  /** Field-by-field reference for a partial update: a member that was sent
      replaces its column, a member that was not sent leaves it alone. */
  function Patched(t: Task, u: TaskUpdate): Task {
    t.(title := if u.title.Given? then u.title.value else t.title,
       description := match u.description case Absent => t.description case Null => None case Given(d) => Some(d),
       status := if u.status.Given? then u.status.value else t.status,
       dueDate := if u.dueDate.Given? then StoredDueDate(u.dueDate.value) else t.dueDate)
  }

  /** The NOT NULL column, if any, that an update sets to null. */
  function NullColumn(u: TaskUpdate): Option<Column> {
    if u.title.Null? then Some(TitleColumn)
    else if u.status.Null? then Some(StatusColumn)
    else if u.dueDate.Null? then Some(DueDateColumn)
    else None
  }

  lemma {:induction false} AssignAllAppend(t: Task, a: seq<Assignment>, b: seq<Assignment>)
    ensures AssignAll(t, a + b) == AssignAll(AssignAll(t, a), b)
    decreases |b|
  {
    if b == [] {
      assert a + b == a;
    } else {
      assert (a + b)[..|a + b| - 1] == a + b[..|b| - 1];
      AssignAllAppend(t, a, b[..|b| - 1]);
    }
  }

  lemma {:induction false} FirstNullAppend(a: seq<Assignment>, b: seq<Assignment>)
    ensures FirstNull(a + b) == if FirstNull(a).Some? then FirstNull(a) else FirstNull(b)
    decreases |b|
  {
    if b == [] {
      assert a + b == a;
    } else {
      assert (a + b)[..|a + b| - 1] == a + b[..|b| - 1];
      FirstNullAppend(a, b[..|b| - 1]);
    }
  }

  lemma AssignOne(t: Task, s: seq<Assignment>)
    requires |s| <= 1
    ensures AssignAll(t, s) == if s == [] then t else Assign(t, s[0])
  {
    if s != [] {
      assert s[..0] == [];
    }
  }

  lemma FirstNullOne(s: seq<Assignment>)
    requires |s| <= 1
    ensures FirstNull(s) == if s != [] && WritesNull(s[0]) then Some(ColumnOf(s[0])) else None
  {
    if s != [] {
      assert s[..0] == [];
    }
  }

  lemma TitleStep(t: Task, f: Field<string>)
    ensures AssignAll(t, TitleSet(f)) == t.(title := if f.Given? then f.value else t.title)
  {
    AssignOne(t, TitleSet(f));
  }

  lemma DescriptionStep(t: Task, f: Field<string>)
    ensures AssignAll(t, DescriptionSet(f))
      == t.(description := match f case Absent => t.description case Null => None case Given(d) => Some(d))
  {
    AssignOne(t, DescriptionSet(f));
  }

  lemma StatusStep(t: Task, f: Field<Status>)
    ensures AssignAll(t, StatusSet(f)) == t.(status := if f.Given? then f.value else t.status)
  {
    AssignOne(t, StatusSet(f));
  }

  lemma DueDateStep(t: Task, f: Field<DateTime>)
    ensures AssignAll(t, DueDateSet(f)) == t.(dueDate := if f.Given? then StoredDueDate(f.value) else t.dueDate)
  {
    AssignOne(t, DueDateSet(f));
  }

  /** Applying the sent members one `setattr` at a time is the field-wise
      partial update. */
  lemma SetFieldsIsPatch(t: Task, u: TaskUpdate)
    ensures AssignAll(t, SetFields(u)) == Patched(t, u)
  {
    var a, b, c, d := TitleSet(u.title), DescriptionSet(u.description), StatusSet(u.status), DueDateSet(u.dueDate);
    TitleStep(t, u.title);
    var t1 := AssignAll(t, a);
    DescriptionStep(t1, u.description);
    var t2 := AssignAll(t1, b);
    StatusStep(t2, u.status);
    var t3 := AssignAll(t2, c);
    DueDateStep(t3, u.dueDate);
    AssignAllAppend(t, a, b);
    AssignAllAppend(t, a + b, c);
    AssignAllAppend(t, a + b + c, d);
  }

  lemma TitleNull(f: Field<string>)
    ensures FirstNull(TitleSet(f)) == if f.Null? then Some(TitleColumn) else None
  {
    FirstNullOne(TitleSet(f));
  }

  lemma DescriptionNeverNull(f: Field<string>)
    ensures FirstNull(DescriptionSet(f)) == None
  {
    FirstNullOne(DescriptionSet(f));
  }

  lemma StatusNull(f: Field<Status>)
    ensures FirstNull(StatusSet(f)) == if f.Null? then Some(StatusColumn) else None
  {
    FirstNullOne(StatusSet(f));
  }

  lemma DueDateNull(f: Field<DateTime>)
    ensures FirstNull(DueDateSet(f)) == if f.Null? then Some(DueDateColumn) else None
  {
    FirstNullOne(DueDateSet(f));
  }

  /** The first null that the `setattr` loop meets in a NOT NULL column is the
      update's null column. */
  lemma SetFieldsFirstNull(u: TaskUpdate)
    ensures FirstNull(SetFields(u)) == NullColumn(u)
  {
    var a, b, c, d := TitleSet(u.title), DescriptionSet(u.description), StatusSet(u.status), DueDateSet(u.dueDate);
    TitleNull(u.title);
    DescriptionNeverNull(u.description);
    StatusNull(u.status);
    DueDateNull(u.dueDate);
    FirstNullAppend(a, b);
    FirstNullAppend(a + b, c);
    FirstNullAppend(a + b + c, d);
  }

  /** Sending the same update twice changes nothing the first did not. */
  lemma PatchedIdempotent(t: Task, u: TaskUpdate)
    ensures Patched(Patched(t, u), u) == Patched(t, u)
  {
  }

  class TaskStore {
    var rows: map<int, Task>
    var nextId: int

    /** Keys start at 1, lie below the next id, and each row carries its key. */
    ghost predicate Valid()
      reads this
    {
      nextId >= 1 && WellKeyed(rows) && forall id :: id in rows ==> 1 <= id < nextId
    }

    constructor ()
      ensures Valid() && rows == map[] && nextId == 1
    {
      rows := map[];
      nextId := 1;
    }

    /** `create_task`: a new row under a fresh id holding exactly the validated fields. */
    method CreateTask(data: TaskCreate, now: int) returns (task: Task)
      requires Valid()
      modifies this
      ensures Valid()
      ensures task.id == old(nextId) && task.id !in old(rows) && nextId == old(nextId) + 1
      ensures rows == old(rows)[task.id := task]
      ensures task == InsertedRow(task.id, data.title, data.description, Some(data.status), StoredDueDate(data.dueDate), now)
    {
      task := InsertedRow(nextId, data.title, data.description, Some(data.status), StoredDueDate(data.dueDate), now);
      rows := rows[nextId := task];
      nextId := nextId + 1;
    }

    /** `get_task`: the row with that id, or None. */
    function GetTask(id: int): (r: Option<Task>)
      reads this
      requires Valid()
      ensures r.Some? <==> id in rows
      ensures r.Some? ==> r.value == rows[id] && r.value.id == id
    {
      if id in rows then Some(rows[id]) else None
    }

    /** `get_all_tasks`: the page of matching rows, newest first, and the count of
        all matching rows. */
    function GetAllTasks(filter: Option<Status>, skip: nat, limit: nat): (r: Listing)
      reads this
      requires Valid()
      ensures r.total == |MatchingIds(rows, filter)|
      ensures |r.tasks| == Min(limit, Max(0, r.total - skip))
      ensures NewestFirst(r.tasks)
      ensures forall t :: t in r.tasks ==> t.id in rows && rows[t.id] == t && Matches(t, filter)
      ensures IsWindowOfMatches(r, rows, filter, skip, limit)
    {
      ListTotalCountsMatches(rows, nextId, filter, skip, limit);
      ListPageShape(rows, nextId, filter, skip, limit);
      ListTasks(rows, nextId, filter, skip, limit)
    }

    /** `update_task_status`: only `status` and `updated_at` change. */
    method UpdateTaskStatus(id: int, data: TaskUpdateStatus, now: int) returns (task: Task)
      requires Valid() && id in rows
      modifies this
      ensures Valid() && nextId == old(nextId)
      ensures task == old(rows[id]).(status := data.status, updatedAt := now)
      ensures rows == old(rows)[id := task]
    {
      task := rows[id].(status := data.status, updatedAt := now);
      rows := rows[id := task];
    }

    /** `update_task`: `setattr` for each member the client sent, then
        `updated_at`, then the commit, which the NOT NULL constraint refuses
        (leaving the table as it was) when a sent null landed in title, status
        or due_date. */
    method UpdateTask(id: int, data: TaskUpdate, now: int) returns (r: Result<Task, Column>)
      requires Valid() && id in rows
      modifies this
      ensures Valid() && nextId == old(nextId)
      ensures r.Err? <==> NullColumn(data).Some?
      ensures r.Err? ==> r.error == NullColumn(data).value && rows == old(rows)
      ensures r.Ok? ==> r.value == Patched(old(rows[id]), data).(updatedAt := now)
      ensures r.Ok? ==> rows == old(rows)[id := r.value]
    {
      var fields := SetFields(data);
      var task := rows[id];
      var nulled: Option<Column> := None;
      for i := 0 to |fields|
        invariant task == AssignAll(rows[id], fields[..i])
        invariant nulled == FirstNull(fields[..i])
      {
        assert fields[..i + 1][..i] == fields[..i];
        var a := fields[i];
        if nulled.None? && WritesNull(a) {
          nulled := Some(ColumnOf(a));
        }
        task := Assign(task, a);
      }
      assert fields[..|fields|] == fields;
      SetFieldsIsPatch(rows[id], data);
      SetFieldsFirstNull(data);
      task := task.(updatedAt := now);
      if nulled.Some? {
        r := Err(nulled.value);
      } else {
        rows := rows[id := task];
        r := Ok(task);
      }
    }

    /** `delete_task`: that row goes, every other row stays. */
    method DeleteTask(id: int)
      requires Valid() && id in rows
      modifies this
      ensures Valid() && nextId == old(nextId)
      ensures rows == old(rows) - {id}
    {
      rows := rows - {id};
    }
  }
}

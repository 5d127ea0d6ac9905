/** The task form of frontend/src/components/TaskForm.tsx: its five pieces
    of state, the change handlers, `validate`, which rebuilds the error map
    field by field, and the payload `handleSubmit` hands to `onSubmit`. */
module TaskForm {
  import opened Wrappers
  import opened TaskStatus
  import opened Types
  import opened Utils
  import opened JsText
  import Api
  import Schemas
  import Crud

  /** The keys of the error map. */
  datatype FormField = TitleKey | DueDateKey

  const TitleRequired := "Title is required"
  const TitleTooLong := "Title must be 255 characters or fewer"
  const DueDateRequired := "Due date is required"
  const DueDateInPast := "Due date cannot be in the past"
  const MaxTitleLength := 255

  /** The title's entry, if any: too long wins over blank. */
  function TitleErrors(title: string): map<FormField, string> {
    if |title| > MaxTitleLength then map[TitleKey := TitleTooLong]
    else if Trim(title) == [] then map[TitleKey := TitleRequired]
    else map[]
  }

  /** Adds the due date's entry, if any, to the title's. */
  function WithDueDateError(errors: map<FormField, string>, dueDate: string, dueInstant: Option<int>, now: int)
    : map<FormField, string>
  {
    if dueDate == "" then errors[DueDateKey := DueDateRequired]
    else if dueInstant.Some? && dueInstant.value < now then errors[DueDateKey := DueDateInPast]
    else errors
  }

  /** The errors `validate` finds. `dueInstant` is `new Date(dueDate)` read in
      the browser's time zone, `None` when the text is not a date; `now` is
      the browser's clock. */
  function FormErrors(title: string, dueDate: string, dueInstant: Option<int>, now: int): map<FormField, string> {
    WithDueDateError(TitleErrors(title), dueDate, dueInstant, now)
  }

  /** Which field gets which message. */
  lemma FormErrorsByField(title: string, dueDate: string, dueInstant: Option<int>, now: int)
    ensures var r := FormErrors(title, dueDate, dueInstant, now);
      && r.Keys <= {TitleKey, DueDateKey}
      && (TitleKey in r <==> AllTrimmable(title) || |title| > MaxTitleLength)
      && (TitleKey in r ==> r[TitleKey] == (if |title| > MaxTitleLength then TitleTooLong else TitleRequired))
      && (DueDateKey in r <==> dueDate == "" || (dueInstant.Some? && dueInstant.value < now))
      && (DueDateKey in r ==> r[DueDateKey] == (if dueDate == "" then DueDateRequired else DueDateInPast))
  {
    TrimSpec(title);
  }

  /** The payload of a valid submission: the title trimmed, a blank
      description sent as null, the selected status, the due date as an instant. */
  function BuildPayload(title: string, description: string, status: Status, due: int): (r: CreateTaskPayload)
    ensures r.title == Trim(title) && r.status == Some(status) && r.dueDate == due
    ensures r.description.Null? <==> AllTrimmable(description)
    ensures r.description.Given? ==> r.description.value == Trim(description)
    ensures !r.description.Absent?
  {
    TrimSpec(description);
    var d := Trim(description);
    CreateTaskPayload(title := Trim(title), description := if d == [] then Null else Given(d),
                      status := Some(status), dueDate := due)
  }

  /** What a submit does: nothing when validation fails, an exception when the
      due date is text that is no date (`toISOString` throws), or a call of
      `onSubmit` with the payload. */
  datatype Submission = Blocked | Crashed | Submitted(payload: CreateTaskPayload)

  /** The submit button's caption. */
  function SubmitLabel(isLoading: bool, editing: bool): (r: string)
    ensures isLoading ==> r == "Saving\U{2026}"
    ensures !isLoading && editing ==> r == "Update Task"
    ensures !isLoading && !editing ==> r == "Create Task"
  {
    if isLoading then "Saving\U{2026}" else if editing then "Update Task" else "Create Task"
  }

  /** The submit button is disabled exactly while saving. */
  predicate SubmitDisabled(isLoading: bool) {
    isLoading
  }

  /** The button is disabled exactly when it reads "Saving…", editing or not. */
  lemma DisabledWhileSaving(isLoading: bool, editing: bool)
    ensures SubmitDisabled(isLoading) <==> SubmitLabel(isLoading, editing) == "Saving\U{2026}"
  {
  }

  class Form {
    /** The task being edited, if any (the `task` prop). */
    const editing: Option<Task>
    var title: string
    var description: string
    var status: Status
    var dueDate: string
    var errors: map<FormField, string>

    /** The initial state. `dueLocal` is the edited task's due date read in the
        browser's time zone. */
    constructor(task: Option<Task>, dueLocal: LocalDateTime)
      requires task.Some? ==> dueLocal.InRange()
      ensures editing == task
      ensures title == (if task.Some? then task.value.title else "")
      ensures description == (if task.Some? && task.value.description.Some? then task.value.description.value else "")
      ensures status == (if task.Some? then task.value.status else Todo)
      ensures dueDate == (if task.Some? then FormatDateForInput(dueLocal) else "")
      ensures errors == map[]
    {
      editing := task;
      title := if task.Some? then task.value.title else "";
      description := if task.Some? && task.value.description.Some? then task.value.description.value else "";
      status := if task.Some? then task.value.status else Todo;
      dueDate := if task.Some? then FormatDateForInput(dueLocal) else "";
      errors := map[];
    }

    method SetTitle(value: string)
      modifies this
      ensures title == value
      ensures description == old(description) && status == old(status) && dueDate == old(dueDate) && errors == old(errors)
    {
      title := value;
    }

    method SetDescription(value: string)
      modifies this
      ensures description == value
      ensures title == old(title) && status == old(status) && dueDate == old(dueDate) && errors == old(errors)
    {
      description := value;
    }

    method SetStatus(value: Status)
      modifies this
      ensures status == value
      ensures title == old(title) && description == old(description) && dueDate == old(dueDate) && errors == old(errors)
    {
      status := value;
    }

    method SetDueDate(value: string)
      modifies this
      ensures dueDate == value
      ensures title == old(title) && description == old(description) && status == old(status) && errors == old(errors)
    {
      dueDate := value;
    }

    /** `validate`: a fresh error map replaces the old one whole; the form is
        valid iff that map is empty. */
    method Validate(dueInstant: Option<int>, now: int) returns (ok: bool)
      modifies this
      ensures errors == FormErrors(title, dueDate, dueInstant, now)
      ensures ok <==> errors == map[]
      ensures title == old(title) && description == old(description) && status == old(status) && dueDate == old(dueDate)
    {
      var newErrors: map<FormField, string> := map[];
      var blank := Trim(title) == [];
      if blank {
        newErrors := newErrors[TitleKey := TitleRequired];
      }
      if |title| > MaxTitleLength {
        newErrors := newErrors[TitleKey := TitleTooLong];
      }
      assert newErrors == (if |title| > MaxTitleLength then map[TitleKey := TitleTooLong]
                           else if blank then map[TitleKey := TitleRequired] else map[]);
      ghost var titleErrors := newErrors;
      if dueDate == "" {
        newErrors := newErrors[DueDateKey := DueDateRequired];
      } else if dueInstant.Some? && dueInstant.value < now {
        newErrors := newErrors[DueDateKey := DueDateInPast];
      }
      assert newErrors == WithDueDateError(titleErrors, dueDate, dueInstant, now);
      errors := newErrors;
      ok := |newErrors.Keys| == 0;
      assert ok <==> newErrors == map[] by {
        if newErrors != map[] {
          var k :| k in newErrors;
        }
      }
    }

    /** `handleSubmit`. */
    method HandleSubmit(dueInstant: Option<int>, now: int) returns (result: Submission)
      modifies this
      ensures errors == FormErrors(title, dueDate, dueInstant, now)
      ensures result == Blocked <==> errors != map[]
      ensures result == Crashed <==> errors == map[] && dueInstant.None?
      ensures result.Submitted? ==> result.payload == BuildPayload(title, description, status, dueInstant.value)
      ensures title == old(title) && description == old(description) && status == old(status) && dueDate == old(dueDate)
    {
      var ok := Validate(dueInstant, now);
      if !ok {
        return Blocked;
      }
      if dueInstant.None? {
        return Crashed;
      }
      result := Submitted(BuildPayload(title, description, status, dueInstant.value));
    }
  }

  /** What passes the form passes the server: a form without errors yields a
      create body the server validates, provided the description fits the
      text area's 2000-character limit and the server's clock does not run
      ahead of the browser's. The due date travels in UTC, so the row the
      server stores holds the instant the form parsed. */
  lemma {:induction false} ValidFormIsAccepted(
    title: string, description: string, status: Status, dueDate: string, due: int, now: int, serverNow: int)
    requires FormErrors(title, dueDate, Some(due), now) == map[]
    requires |description| <= Schemas.DescriptionMaxLength
    requires serverNow <= now
    ensures Schemas.ValidateCreate(Api.CreateBodyOnWire(BuildPayload(title, description, status, due)), serverNow).Ok?
    ensures Crud.StoredDueDate(Schemas.ValidateCreate(Api.CreateBodyOnWire(BuildPayload(title, description, status, due)), serverNow).value.dueDate) == due
  {
    FormErrorsByField(title, dueDate, Some(due), now);
    TrimSpec(title);
    TrimSpec(description);
    assert TitleKey !in FormErrors(title, dueDate, Some(due), now);
    assert DueDateKey !in FormErrors(title, dueDate, Some(due), now);
    ParseName(status);
  }
}

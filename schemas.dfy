/** Request validation of backend/app/schemas.py. A request body arrives as a
    record of JSON members (each absent, null or given); validation either
    yields the typed schema value or the list of field errors, one per
    offending field in declaration order, as the validator collects them. */
module Schemas {
  import opened Wrappers
  import opened TaskStatus

  const TitleMinLength := 1
  const TitleMaxLength := 255
  const DescriptionMaxLength := 2000
  const PastDueMessage := "Due date cannot be in the past"

  /** A parsed datetime: wall-clock seconds plus an optional UTC offset in
      seconds; a naive value has no offset. */
  datatype DateTime = DateTime(wall: int, offset: Option<int>)

  /** The instant a datetime denotes, reading a naive value as UTC. */
  function Instant(d: DateTime): int {
    match d.offset
    case None => d.wall
    case Some(o) => d.wall - o
  }

  /** The request members and query parameters that can be rejected. */
  datatype FieldName =
    | TitleField | DescriptionField | StatusField | DueDateField
    | StatusQuery | SkipQuery | LimitQuery

  datatype ErrorKind =
    | Missing                    // a required member is absent
    | WrongType                  // null where a string or datetime is required
    | TooShort(min: nat)
    | TooLong(max: nat)
    | NotAStatus                 // outside the three-value enum (null included)
    | TooSmall(lowest: int)      // a query integer below its lower bound
    | TooLarge(highest: int)     // a query integer above its upper bound
    | ValueError(message: string)

  datatype ValidationError = ValidationError(field: FieldName, kind: ErrorKind)

  /** The body of a create request as received. */
  datatype TaskCreateInput = TaskCreateInput(
    title: Field<string>, description: Field<string>, status: Field<string>, dueDate: Field<DateTime>)

  /** `TaskCreate` once validated. */
  datatype TaskCreate = TaskCreate(
    title: string, description: Option<string>, status: Status, dueDate: DateTime)

  /** `TaskUpdateStatus` once validated. */
  datatype TaskUpdateStatus = TaskUpdateStatus(status: Status)

  /** The body of a full update as received. */
  datatype TaskUpdateInput = TaskUpdateInput(
    title: Field<string>, description: Field<string>, status: Field<string>, dueDate: Field<DateTime>)

  /** `TaskUpdate` once validated: a member left out stays Absent (unset), an
      explicit null stays Null, so the update can tell the two apart. */
  datatype TaskUpdate = TaskUpdate(
    title: Field<string>, description: Field<string>, status: Field<Status>, dueDate: Field<DateTime>)

  predicate TitleLengthOk(s: string) {
    TitleMinLength <= |s| <= TitleMaxLength
  }

  predicate DescriptionLengthOk(s: string) {
    |s| <= DescriptionMaxLength
  }

  /** `due_date_must_not_be_in_past`: a due date strictly before now is refused. */
  predicate NotInPast(d: DateTime, now: int) {
    Instant(d) >= now
  }

  function TitleErrors(f: Field<string>, required: bool): (e: seq<ValidationError>)
  {
    match f
    case Absent => if required then [ValidationError(TitleField, Missing)] else []
    case Null => if required then [ValidationError(TitleField, WrongType)] else []
    case Given(s) =>
      if |s| < TitleMinLength then [ValidationError(TitleField, TooShort(TitleMinLength))]
      else if |s| > TitleMaxLength then [ValidationError(TitleField, TooLong(TitleMaxLength))]
      else []
  }

  function DescriptionErrors(f: Field<string>): seq<ValidationError>
  {
    if f.Given? && !DescriptionLengthOk(f.value)
    then [ValidationError(DescriptionField, TooLong(DescriptionMaxLength))] else []
  }

  /** `status` of TaskCreate: absent falls back to the default; null or any
      other string is outside the enum. */
  function CreateStatusErrors(f: Field<string>): seq<ValidationError>
  {
    match f
    case Absent => []
    case Null => [ValidationError(StatusField, NotAStatus)]
    case Given(s) => if Parse(s).None? then [ValidationError(StatusField, NotAStatus)] else []
  }

  function DueDateErrors(f: Field<DateTime>, required: bool, now: int): seq<ValidationError>
  {
    match f
    case Absent => if required then [ValidationError(DueDateField, Missing)] else []
    case Null => if required then [ValidationError(DueDateField, WrongType)] else []
    case Given(d) => if NotInPast(d, now) then [] else [ValidationError(DueDateField, ValueError(PastDueMessage))]
  }

  /** Every error a create body draws, in field order. */
  function CreateErrors(input: TaskCreateInput, now: int): (e: seq<ValidationError>)
    ensures (exists k :: ValidationError(TitleField, k) in e)
      <==> !(input.title.Given? && TitleLengthOk(input.title.value))
    ensures (exists k :: ValidationError(DescriptionField, k) in e)
      <==> input.description.Given? && !DescriptionLengthOk(input.description.value)
    ensures (exists k :: ValidationError(StatusField, k) in e)
      <==> input.status.Null? || (input.status.Given? && Parse(input.status.value).None?)
    ensures ValidationError(DueDateField, ValueError(PastDueMessage)) in e
      <==> input.dueDate.Given? && Instant(input.dueDate.value) < now
    ensures (exists k :: ValidationError(DueDateField, k) in e)
      <==> !(input.dueDate.Given? && NotInPast(input.dueDate.value, now))
  {
    TitleErrors(input.title, true) + DescriptionErrors(input.description)
      + CreateStatusErrors(input.status) + DueDateErrors(input.dueDate, true, now)
  }

  /** `TaskCreate(**body)`: the typed value, or every error found. */
  function ValidateCreate(input: TaskCreateInput, now: int): (r: Result<TaskCreate, seq<ValidationError>>)
    ensures r.Ok? <==>
      && input.title.Given? && TitleLengthOk(input.title.value)
      && (input.description.Given? ==> DescriptionLengthOk(input.description.value))
      && !input.status.Null? && (input.status.Given? ==> Parse(input.status.value).Some?)
      && input.dueDate.Given? && NotInPast(input.dueDate.value, now)
    ensures r.Ok? ==>
      && r.value.title == input.title.value
      && r.value.description == (if input.description.Given? then Some(input.description.value) else None)
      && (input.status.Absent? ==> r.value.status == Todo)
      && (input.status.Given? ==> r.value.status.Name() == input.status.value)
      && r.value.dueDate == input.dueDate.value
    ensures r.Err? ==> r.error != [] && r.error == CreateErrors(input, now)
  {
    var errors := CreateErrors(input, now);
    if errors != [] then Err(errors)
    else
      assert ValidationError(DueDateField, Missing) !in errors;
      Ok(TaskCreate(
        input.title.value,
        if input.description.Given? then Some(input.description.value) else None,
        if input.status.Given? then Parse(input.status.value).value else Todo,
        input.dueDate.value))
  }

  /** `TaskUpdateStatus(**body)`: the status is required and must be one of the three. */
  function ValidateUpdateStatus(status: Field<string>): (r: Result<TaskUpdateStatus, seq<ValidationError>>)
    ensures r.Ok? <==> status.Given? && Parse(status.value).Some?
    ensures r.Ok? ==> r.value.status.Name() == status.value
    ensures status.Absent? ==> r == Err([ValidationError(StatusField, Missing)])
  {
    match status
    case Absent => Err([ValidationError(StatusField, Missing)])
    case Null => Err([ValidationError(StatusField, NotAStatus)])
    case Given(s) =>
      match Parse(s)
      case None => Err([ValidationError(StatusField, NotAStatus)])
      case Some(st) => Ok(TaskUpdateStatus(st))
  }

  function UpdateStatusErrors(f: Field<string>): seq<ValidationError>
  {
    if f.Given? && Parse(f.value).None? then [ValidationError(StatusField, NotAStatus)] else []
  }

  /** Every error an update body draws, in field order. */
  function UpdateErrors(input: TaskUpdateInput, now: int): seq<ValidationError>
  {
    TitleErrors(input.title, false) + DescriptionErrors(input.description)
      + UpdateStatusErrors(input.status) + DueDateErrors(input.dueDate, false, now)
  }

  /** `TaskUpdate(**body)`: every member optional, null accepted for each, and
      the length, enum and past-date rules applied to the members given. */
  function ValidateUpdate(input: TaskUpdateInput, now: int): (r: Result<TaskUpdate, seq<ValidationError>>)
    ensures r.Ok? <==>
      && (input.title.Given? ==> TitleLengthOk(input.title.value))
      && (input.description.Given? ==> DescriptionLengthOk(input.description.value))
      && (input.status.Given? ==> Parse(input.status.value).Some?)
      && (input.dueDate.Given? ==> NotInPast(input.dueDate.value, now))
    ensures r.Ok? ==>
      && r.value.title == input.title && r.value.description == input.description
      && r.value.dueDate == input.dueDate
      && (input.status.Absent? <==> r.value.status.Absent?)
      && (input.status.Null? <==> r.value.status.Null?)
      && (input.status.Given? ==> r.value.status.Given? && r.value.status.value.Name() == input.status.value)
    ensures r.Err? ==> r.error != [] && r.error == UpdateErrors(input, now)
  {
    var errors := UpdateErrors(input, now);
    if errors != [] then Err(errors)
    else
      Ok(TaskUpdate(
        input.title,
        input.description,
        match input.status
        case Absent => Absent
        case Null => Null
        case Given(s) => Given(Parse(s).value),
        input.dueDate))
  }

  /** A due date equal to now is accepted; one a second earlier is not, with the
      validator's message. */
  lemma DueDateBoundary(title: string, now: int)
    requires TitleLengthOk(title)
    ensures ValidateCreate(TaskCreateInput(Given(title), Absent, Absent, Given(DateTime(now, None))), now).Ok?
    ensures ValidateCreate(TaskCreateInput(Given(title), Absent, Absent, Given(DateTime(now - 1, None))), now)
      == Err([ValidationError(DueDateField, ValueError(PastDueMessage))])
  {
    var late := TaskCreateInput(Given(title), Absent, Absent, Given(DateTime(now - 1, None)));
    assert TitleErrors(late.title, true) == [];
    assert CreateErrors(late, now) == [ValidationError(DueDateField, ValueError(PastDueMessage))];
  }

  /** An offset-carrying due date is compared at its UTC instant: a wall
      clock reading east of UTC (a positive offset) is that much earlier, and
      one at offset zero is read like a naive one. */
  lemma OffsetShiftsInstant(wall: int, offset: int, now: int)
    ensures NotInPast(DateTime(wall, Some(offset)), now) <==> wall - offset >= now
    ensures NotInPast(DateTime(wall, Some(0)), now) <==> NotInPast(DateTime(wall, None), now)
    ensures wall == now && offset > 0 ==> !NotInPast(DateTime(wall, Some(offset)), now)
  {
  }
}

# Task management: a verified model

This project models the task-management application: a FastAPI/SQLAlchemy
backend that stores caseworker tasks, and a Next.js/React frontend that lists,
creates, edits, re-statuses and deletes them. The model is written in Dafny.

Backend:

- `TaskStatus` and `Models` hold the three-value status enum and the `tasks` row.
- `Schemas` holds request validation. A JSON member is absent, null or given.
  Validation returns the typed value or the list of field errors. A due date
  strictly before "now" is refused with "Due date cannot be in the past".
- `Listing` and `Crud` model the store as a class. Its table is a map from id
  to row, and the autoincrement counter is a field.
  - Listing filters, counts before paging, orders newest first, then applies
    OFFSET/LIMIT.
  - `update_task` runs its `setattr` loop field by field over the members the
    client sent.
  - A null in a NOT NULL column makes the commit fail and leaves the table as
    it was.
- `Routes` holds the HTTP handlers. The framework's 422 comes before the
  handler's 404. The responses are 201, 200, 204 and 404, and the
  "Task with id N not found" detail names the id.

Frontend:

- `Types` holds the wire types.
- `Utils` holds labels, badge colours, the overdue test and the
  `YYYY-MM-DDTHH:MM` formatter, with a parser proving the formatter loses nothing.
- `Api` is the client.
  - The (method, URL) of every operation.
  - The `URLSearchParams` query string, with `FormUrlEncoding` for the
    `application/x-www-form-urlencoded` serializer.
  - `handleResponse`: ok is 200..299, 204 gives no body, and an error gives
    an `ApiError` carrying `detail` or "API error: N".
- `TaskCard` holds the overdue marker and the button set.
- `TaskForm` is a class with the form's five pieces of state. `validate`
  builds the error map step by step. The payload uses ECMAScript `trim`, from
  `JsText`.
- `TaskList` is a class with the eight pieces of state. Each handler is
  specified by a pure transition on a snapshot of that state and by the
  requests it sends.

Clocks are parameters: `now` on the server, `now` and the parsed due date in
the browser, and the local-time reading of a date. So is everything the
network delivers: the outcome of each API call and the answer of the
confirmation dialog. Instants are integers (seconds since the epoch).

One cross-layer property is proved, `TaskForm.ValidFormIsAccepted`. Suppose
the form accepts a submission, and the description fits the text area's limit.
Then the body the browser sends passes the server's `TaskCreate` validation,
as long as the server's clock is not ahead of the browser's.

## Model

| member | source | states |
|---|---|---|
| TaskStatus.Parse | backend/app/models.py:11-16 | exactly "todo", "in_progress" and "completed" are statuses, each read back as the status of that name |
| TaskStatus.ParseName | frontend/src/types/task.ts:5 | every status's wire name reads back as that status |
| TaskStatus.AllStatusesListsEachOnce | backend/app/models.py:11-16 | the enum lists each of its three values exactly once |
| Models.InsertedRow | backend/app/models.py:24-39 | an inserted row keeps id, title, description and due date; status defaults to TODO; created_at and updated_at are both the insertion time |
| Schemas.CreateErrors | backend/app/schemas.py:11-33 | a create body draws a title error iff the title is not a given string of length 1..255; a description error iff the description is longer than 2000; a status error iff it is null or not one of the three names; the past-date message iff the due date is given and strictly before now |
| Schemas.ValidateCreate | backend/app/schemas.py:11-33 | the body is accepted iff every field rule holds; the accepted value keeps title, description (None when absent), status (TODO when absent) and due date; a refusal lists exactly the errors found, never none |
| Schemas.ValidateUpdateStatus | backend/app/schemas.py:36-39 | a status update is accepted iff the status is present and one of the three names; an absent status is reported missing |
| Schemas.ValidateUpdate | backend/app/schemas.py:42-63 | every member is optional; a given title must be 1..255 long, a given description at most 2000, a given status one of the three, a given due date not in the past; absent and null are kept apart for the update |
| Schemas.DueDateBoundary | backend/app/schemas.py:25-33 | a due date equal to now is accepted; one second earlier is refused with exactly the past-date error |
| Schemas.OffsetShiftsInstant | backend/app/schemas.py:28-31 | an aware due date passes iff its wall clock minus its offset is not before now; offset zero is read like a naive value; the current wall clock east of UTC is in the past |
| Listing.Scan | backend/app/crud.py:38 | the scan holds exactly the stored rows whose keys lie in the range |
| Listing.ScanIdsIncreasing | backend/app/crud.py:38 | the scan visits the rows in ascending id order |
| Listing.Filter | backend/app/crud.py:39-40 | keeps exactly the rows matching the status filter, and never more rows than it was given |
| Listing.FilterIdsIncreasing | backend/app/crud.py:39-40 | filtering keeps the rows in the order it found them |
| Listing.SortNewestFirst | backend/app/crud.py:42 | the sorted rows are a permutation of its input |
| Listing.SortIsNewestFirst | backend/app/crud.py:42 | the sorted rows are ordered by created_at descending |
| Listing.InsertNewestFirst | backend/app/crud.py:42 | insertion adds exactly that row and nothing else |
| Listing.InsertKeepsNewestFirst | backend/app/crud.py:42 | inserting into a newest-first list keeps it newest first |
| Listing.Page | backend/app/crud.py:42 | OFFSET skip LIMIT limit: the page has min(limit, max(0, n - skip)) rows, row i is row skip + i, order is kept |
| Listing.ListTotalCountsMatches | backend/app/crud.py:38-41 | total is the number of stored rows the filter selects, counted before paging |
| Listing.ListPageShape | backend/app/crud.py:38-43 | the page is newest first, has min(limit, max(0, total - skip)) rows, holds only stored rows that pass the filter, and is the skip..skip + limit window of a newest-first listing of all total matching rows, each listed once |
| Listing.ListPageWindow | backend/app/crud.py:38-43 | the page is the slice from min(skip, total) to min(total, skip + limit) of a newest-first sequence of length total whose rows are exactly the stored rows the filter selects |
| Listing.FilteredScanRows | backend/app/crud.py:38-40 | the filtered scan holds exactly the stored rows the filter selects |
| Listing.FivePagedByTwo | backend/tests/test_crud.py:111-122 | five stored rows read with skip 2 and limit 2 give total 5 and two rows |
| Crud.SetFields | backend/app/crud.py:57 | the members the client set yield at most four assignments |
| Crud.SetFieldsIsPatch | backend/app/crud.py:57-59 | applying the set members one assignment at a time is the field-wise partial update |
| Crud.SetFieldsFirstNull | backend/app/crud.py:58-61 | the first null the assignment loop puts into a NOT NULL column is title, then status, then due_date, as the update sends them |
| Crud.PatchedIdempotent | backend/app/crud.py:55-59 | applying the same partial update twice is the same as applying it once |
| Crud.StoredDueDate | backend/app/models.py:28 | the default SQLite engine keeps the wall clock of a due date and drops its offset: the stored value is the UTC instant for a naive or offset-zero input and the instant plus the offset otherwise |
| Crud.TaskStore.constructor | backend/app/models.py:24 | an empty table whose autoincrement starts at 1 |
| Crud.TaskStore.CreateTask | backend/app/crud.py:12-23 | the new row gets a fresh id never used before and holds exactly the validated fields; every other row stays; the table invariant holds |
| Crud.TaskStore.GetTask | backend/app/crud.py:26-28 | the row with that id, or None exactly when there is none |
| Crud.TaskStore.GetAllTasks | backend/app/crud.py:31-43 | total counts all matching rows; the page is newest first, bounded by skip and limit, holds stored matching rows, and is the skip..skip + limit window of a newest-first listing of all matching rows, each listed once |
| Crud.TaskStore.UpdateTaskStatus | backend/app/crud.py:46-52 | only status and updated_at of that row change; no other row changes |
| Crud.TaskStore.UpdateTask | backend/app/crud.py:55-63 | with no null for a NOT NULL column, the row becomes the field-wise patch with updated_at refreshed and nothing else changes; otherwise the commit fails naming that column and the table is unchanged |
| Crud.TaskStore.DeleteTask | backend/app/crud.py:66-69 | that row goes and every other row stays |
| Routes.NotFoundDetailNamesId | backend/app/routes.py:66-69 | distinct ids give distinct 404 details |
| Routes.GetAllTasks | backend/app/routes.py:34-53 | 200 iff the status query is a status, skip >= 0 and 1 <= limit <= 500 (defaults 0 and 100), with the crud page as tasks and the crud count as total; otherwise 422 with errors |
| Routes.GetTask | backend/app/routes.py:56-70 | 200 with the stored row iff the id exists, else 404 "Task with id N not found" |
| Routes.CreateTask | backend/app/routes.py:22-31 | a valid body answers 201 with the row stored under a fresh id, holding the validated title, description, status (todo when absent) and stored due date, created and updated now; an invalid one answers 422 and changes nothing |
| Routes.UpdateTaskStatus | backend/app/routes.py:73-89 | 422 for a bad status, 404 and no change for a missing id, else 200 with only status and updated_at changed |
| Routes.UpdateTask | backend/app/routes.py:92-108 | 422 for a bad body, 404 and no change for a missing id; a null title, status or due date fails at commit with 500 and no change; otherwise 200 with the patched row |
| Routes.DeleteTask | backend/app/routes.py:111-125 | 204 and the row removed when it exists, else 404 and no change; afterwards a GET of that id is 404 |
| Decimal.NatToString | backend/app/routes.py:68 | the digits of a number: non-empty, all digits, no leading zero |
| Decimal.DigitsValueOfNatToString | backend/app/routes.py:68 | the digits read back as the number |
| Decimal.ParseDigits | backend/app/routes.py:68 | a digit string reads back as its unsigned value |
| Decimal.ParseNegated | backend/app/routes.py:68 | a minus sign before a digit string reads back as the negated value |
| Decimal.IntToStringRoundTrip | backend/app/routes.py:68 | an integer rendered in decimal reads back as itself |
| Decimal.IntToStringInjective | backend/app/routes.py:68 | distinct integers render differently |
| Decimal.DigitsValueLeadingZero | frontend/src/lib/utils.ts:20 | a leading zero does not change a digit string's value |
| Decimal.NatToStringFourDigits | frontend/src/lib/utils.ts:21 | a four-digit year renders in four characters |
| JsText.TrimStartDrops | frontend/src/components/TaskForm.tsx:29 | trimming the start keeps a suffix, drops only whitespace and stops at a non-whitespace character |
| JsText.TrimEndDrops | frontend/src/components/TaskForm.tsx:29 | trimming the end keeps a prefix, drops only whitespace and stops at a non-whitespace character |
| JsText.TrimSpec | frontend/src/components/TaskForm.tsx:29 | trim gives the empty string iff the text is all whitespace; otherwise the result starts and ends with non-whitespace |
| JsText.TrimStripsPadding | frontend/src/components/TaskForm.tsx:45-46 | whitespace around a core that has no whitespace at its ends trims away to exactly that core |
| JsText.TrimEndStrips | frontend/src/components/TaskForm.tsx:45-46 | trailing whitespace after a core ending in non-whitespace trims away to that core |
| JsText.TrimIdempotent | frontend/src/components/TaskForm.tsx:45-46 | trimming twice is trimming once |
| FormUrlEncoding.Utf8 | frontend/src/lib/api.ts:39-40 | one to four bytes per code point, one exactly for ASCII, and every byte of a longer encoding at or above 0x80 |
| FormUrlEncoding.SerializeByte | frontend/src/lib/api.ts:40 | a byte becomes one character when unreserved or a space, else a three-character percent escape, always from the output alphabet; an unreserved byte stands for itself |
| FormUrlEncoding.Serialize | frontend/src/lib/api.ts:40 | the serialization uses only the output alphabet and is one to three times as long as the bytes |
| FormUrlEncoding.EscapedByte | frontend/src/lib/api.ts:40 | a byte written as `%HH` carries two hex digits whose value is that byte |
| FormUrlEncoding.DeserializeByte | frontend/src/lib/api.ts:40 | one serialized byte in front of parseable text is parsed back first |
| FormUrlEncoding.DeserializeSerialize | frontend/src/lib/api.ts:40 | the serialized bytes decode back to exactly the bytes |
| FormUrlEncoding.SerializeUnreserved | frontend/src/lib/api.ts:39-40 | text made only of unreserved ASCII characters serializes to itself |
| FormUrlEncoding.LowerWordUnchanged | frontend/src/lib/api.ts:39-40 | a word of lower-case letters and underscores serializes to itself |
| FormUrlEncoding.EncodeParameter | frontend/src/lib/api.ts:40 | a name=value pair is at least as long as the name, "=" and the value |
| Api.SearchParams.constructor | frontend/src/lib/api.ts:38 | a new URLSearchParams holds no pairs |
| Api.SearchParams.Set | frontend/src/lib/api.ts:39 | set replaces the named pair's value, or appends the pair when it is missing |
| Api.SetEntry | frontend/src/lib/api.ts:39 | afterwards the pair is present, every pair with that name has the new value, and pairs with other names are exactly the old ones |
| Api.SetEntryOnce | frontend/src/lib/api.ts:39 | after set, no two pairs carry that name |
| Api.SetEntryInPlace | frontend/src/lib/api.ts:39 | set puts the pair where the first pair with that name was, or at the end, and keeps every pair before it in place |
| Api.RemoveNamed | frontend/src/lib/api.ts:39 | removes exactly the pairs with that name |
| Api.SerializeEntries | frontend/src/lib/api.ts:40 | the query string is empty iff there are no pairs |
| Api.GetAllUrl | frontend/src/lib/api.ts:37-40 | building the URL through URLSearchParams gives the collection URL, with the "?status=" query only when it filters |
| Api.ListUrlFilters | frontend/src/lib/api.ts:37-40 | a status name gives base + "/api/tasks?status=" + name, unescaped |
| Api.StatusParameterIsPlain | frontend/src/lib/api.ts:39-40 | the status parameter of any status encodes as "status=" + its name |
| Api.StatusKeyIsPlain | frontend/src/lib/api.ts:39 | the parameter name "status" needs no escaping |
| Api.StatusNameIsPlain | frontend/src/lib/api.ts:39 | no status name needs escaping |
| Api.ListUrlUnfiltered | frontend/src/lib/api.ts:39-40 | "all", the empty string and no status give base + "/api/tasks" with no "?" |
| Api.TaskUrlNamesTask | frontend/src/lib/api.ts:46 | distinct task ids give distinct task URLs |
| Api.GetAllRequest | frontend/src/lib/api.ts:37-42 | getAll is a GET of the list URL without a body |
| Api.GetByIdRequest | frontend/src/lib/api.ts:45-50 | getById is a GET of /api/tasks/{id} without a body |
| Api.CreateRequest | frontend/src/lib/api.ts:52-59 | create is a POST of /api/tasks carrying the payload |
| Api.UpdateStatusRequest | frontend/src/lib/api.ts:61-68 | updateStatus is a PATCH of /api/tasks/{id}/status carrying the status |
| Api.UpdateRequest | frontend/src/lib/api.ts:70-77 | update is a PUT of /api/tasks/{id} carrying the payload |
| Api.DeleteRequest | frontend/src/lib/api.ts:79-84 | delete is a DELETE of /api/tasks/{id} without a body |
| Api.RequestsDistinct | frontend/src/lib/api.ts:45-84 | the four id-based operations use four different methods, and the status update's path differs from the update's |
| Api.CreateBodyOnWire | frontend/src/lib/api.ts:56 | the JSON body the server receives has the title, a null or given description, the status name or no status, and the due date at the same UTC instant |
| Api.ErrorMessage | frontend/src/lib/api.ts:26-27 | a non-empty string detail is the message; a missing or falsy detail gives "API error: N"; another truthy detail gives its rendering |
| Api.HandleResponse | frontend/src/lib/api.ts:24-34 | ApiError with that status and message iff the status is outside 200..299; no value iff the status is 204; the parsed body iff another ok status has JSON |
| Api.Complete | frontend/src/lib/api.ts:41-42 | a failed fetch rejects with a non-API error; otherwise handleResponse decides |
| Api.NotFoundMessage | frontend/src/__tests__/api.test.ts:83-92 | a 404 with detail "Not found" rejects with ApiError("Not found", 404) |
| Api.GenericMessage | frontend/src/lib/api.ts:26-28 | a failed response without a detail rejects with "API error: N" and status N |
| Utils.StatusBadgeColor | frontend/src/lib/utils.ts:24-35 | blue, yellow and green iff the input is todo, in_progress and completed; gray iff it is anything else |
| Utils.StatusLabel | frontend/src/lib/utils.ts:37-48 | "To Do", "In Progress" and "Completed" for the three statuses; any other string unchanged |
| Utils.StatusDisplayDistinguishes | frontend/src/lib/utils.ts:24-48 | two statuses with the same label or the same colour are the same status |
| Utils.OverdueBoundary | frontend/src/lib/utils.ts:50-52 | a due date at the current instant is not overdue; one a second earlier is |
| Utils.OverdueStaysOverdue | frontend/src/lib/utils.ts:50-52 | an overdue date stays overdue at every later clock reading |
| Utils.OverdueExamples | frontend/src/__tests__/utils.test.ts:40-48 | with the clock anywhere between them, 2020-01-01 is overdue and 2099-01-01 is not |
| Utils.Pad2 | frontend/src/lib/utils.ts:20 | a string of digits with the number's value, exactly two long below 100, unpadded at 100 and above |
| Utils.FormatDateForInput | frontend/src/lib/utils.ts:17-22 | the text is twelve characters longer than the year |
| Utils.FormatDateForInputLength | frontend/src/lib/utils.ts:17-22 | a four-digit year gives the sixteen characters of YYYY-MM-DDTHH:MM |
| Utils.Pad2Digits | frontend/src/lib/utils.ts:20 | a padded field reads back as its number |
| Utils.FormatDateForInputRoundTrip | frontend/src/lib/utils.ts:17-22 | reading the formatted text back gives year, 0-based month, day, hours and minutes unchanged |
| TaskCard.Overdue | frontend/src/components/TaskCard.tsx:15 | overdue iff the task is not completed and its due date is strictly before now |
| TaskCard.DescriptionShownUnlessEmpty | frontend/src/components/TaskCard.tsx:32-36 | the description paragraph is hidden for a null and for an empty description and shown for any other text |
| TaskCard.DueSuffix | frontend/src/components/TaskCard.tsx:40 | " (Overdue)" iff overdue, else nothing |
| TaskCard.QuickStatusButtons | frontend/src/components/TaskCard.tsx:50-73 | exactly two buttons, each moving this task to a status other than its own and captioned with that status's quick label, in the order to do, in progress, completed, together with the current status covering all three |
| TaskCard.ActionButtons | frontend/src/components/TaskCard.tsx:48-87 | the two quick buttons, then Edit calling onEdit(task), then Delete calling onDelete(task.id) |
| TaskCard.TodoTaskButtons | frontend/src/__tests__/TaskCard.test.tsx:56-62 | a todo task offers "In Progress" and "Complete" |
| TaskCard.CompletedNeverOverdue | frontend/src/components/TaskCard.tsx:15 | a completed task never shows the overdue marker |
| TaskForm.FormErrorsByField | frontend/src/components/TaskForm.tsx:27-35 | a title error iff the title is blank after trimming or longer than 255, too-long winning; a due-date error iff it is empty ("required") or parses to an instant before now ("in the past") |
| TaskForm.BuildPayload | frontend/src/components/TaskForm.tsx:44-49 | the title trimmed; the description trimmed, or null iff it is all whitespace; the selected status; the due instant |
| TaskForm.SubmitLabel | frontend/src/components/TaskForm.tsx:143 | "Saving…" while loading, else "Update Task" when editing, else "Create Task" |
| TaskForm.DisabledWhileSaving | frontend/src/components/TaskForm.tsx:138-144 | the submit button is disabled exactly when its caption is "Saving…", whether or not a task is being edited |
| TaskForm.Form.constructor | frontend/src/components/TaskForm.tsx:15-21 | fields from the edited task (description "" when null, due date formatted for the input), otherwise "", "", todo, ""; no errors |
| TaskForm.Form.SetTitle | frontend/src/components/TaskForm.tsx:64 | only the title changes |
| TaskForm.Form.SetDescription | frontend/src/components/TaskForm.tsx:84 | only the description changes |
| TaskForm.Form.SetStatus | frontend/src/components/TaskForm.tsx:100 | only the status changes |
| TaskForm.Form.SetDueDate | frontend/src/components/TaskForm.tsx:119 | only the due date changes |
| TaskForm.Form.Validate | frontend/src/components/TaskForm.tsx:27-38 | the error map is replaced whole by the errors found; valid iff it is empty; the fields are untouched |
| TaskForm.Form.HandleSubmit | frontend/src/components/TaskForm.tsx:40-51 | nothing is submitted iff there are errors; a due date that is no date throws; otherwise onSubmit receives the built payload |
| TaskForm.ValidFormIsAccepted | frontend/src/components/TaskForm.tsx:27-49 | a submission the form accepts passes the server's TaskCreate validation, given a description within the text area's 2000 limit and a server clock not ahead of the browser's; the due date the server stores is the instant the form parsed |
| TaskList.ErrorText | frontend/src/components/TaskList.tsx:27 | an ApiError shows its message, anything else the fallback |
| TaskList.AsUpdatePayload | frontend/src/components/TaskList.tsx:56 | the form's payload sent as an update carries every member |
| TaskList.ScreenOf | frontend/src/components/TaskList.tsx:161-181 | the spinner iff loading, the empty state iff loaded with no tasks, otherwise the cards in list order |
| TaskList.Banner | frontend/src/components/TaskList.tsx:121-125 | the banner shows the error iff it is set and non-empty |
| TaskList.FormHeading | frontend/src/components/TaskList.tsx:128-132 | a heading iff the form is shown: "Edit Task" while editing, else "Create New Task" |
| TaskList.HeaderText | frontend/src/components/TaskList.tsx:105 | "1 task total" for one, "N tasks total" otherwise |
| TaskList.TaskListComponent.constructor | frontend/src/components/TaskList.tsx:10-17 | no tasks, total 0, loading, not saving, no error, no form, nothing edited, filter "all" |
| TaskList.TaskListComponent.FetchTasks | frontend/src/components/TaskList.tsx:19-31 | the state becomes the fetch transition and one list request with the current filter is sent |
| TaskList.TaskListComponent.HandleCreate | frontend/src/components/TaskList.tsx:37-49 | the state becomes the create transition; the POST is sent, then the list request only when it succeeded |
| TaskList.TaskListComponent.HandleUpdate | frontend/src/components/TaskList.tsx:51-65 | the state becomes the update transition; nothing is sent without an edited task, else the PUT of that task and, on success, the list request |
| TaskList.TaskListComponent.HandleUpdateStatus | frontend/src/components/TaskList.tsx:67-75 | the state becomes the status-change transition; the PATCH is sent, then the list request on success |
| TaskList.TaskListComponent.HandleDelete | frontend/src/components/TaskList.tsx:77-86 | the state becomes the delete transition; nothing is sent when declined, else the DELETE and, on success, the list request |
| TaskList.TaskListComponent.HandleEdit | frontend/src/components/TaskList.tsx:88-91 | the task becomes the edited one and the form opens; nothing else changes |
| TaskList.TaskListComponent.HandleCancel | frontend/src/components/TaskList.tsx:93-96 | the form closes and no task is edited; nothing else changes |
| TaskList.TaskListComponent.NewTask | frontend/src/components/TaskList.tsx:109-112 | the form opens with no task edited; nothing else changes |
| TaskList.TaskListComponent.ChangeFilter | frontend/src/components/TaskList.tsx:150 | the filter changes and the list is fetched again with it |
| TaskList.TaskListComponent.SubmitForm | frontend/src/components/TaskList.tsx:135 | the form's submission goes to the update handler iff a task is being edited, else to create, and sends a PUT or a POST first accordingly |
| TaskList.FetchSettles | frontend/src/components/TaskList.tsx:19-31 | loading ends false; a delivered list replaces tasks and total and clears the error; otherwise tasks and total stay and the error is the API message or "Failed to load tasks" |
| TaskList.CreateOutcomes | frontend/src/components/TaskList.tsx:37-49 | saving ends false; an accepted create closes the form; a refused one keeps the form and the tasks and shows the message or "Failed to create task" |
| TaskList.UpdateNeedsEditingTask | frontend/src/components/TaskList.tsx:52 | without an edited task an update changes nothing and sends nothing |
| TaskList.UpdateOutcomes | frontend/src/components/TaskList.tsx:51-65 | saving ends false; an accepted update closes the form and ends the edit; a refused one keeps both and shows the message or "Failed to update task" |
| TaskList.QuickActionsKeepForm | frontend/src/components/TaskList.tsx:67-86 | status changes and deletions leave saving, the form and the edited task alone; their failures show the message or "Failed to update status" / "Failed to delete task" |
| TaskList.DeclinedDeleteDoesNothing | frontend/src/components/TaskList.tsx:78 | declining the confirmation changes nothing and sends nothing |
| TaskList.HandlersKeepValid | frontend/src/components/TaskList.tsx:10-112 | from the first render on, no handler leaves saving on, and a task is edited only while the form is shown |
| TaskList.LoadedScreen | frontend/src/components/TaskList.tsx:161-181 | after a list arrives, an empty one shows the empty state and any other the cards in server order |
| TaskList.HeaderExamples | frontend/src/components/TaskList.tsx:105 | 1 gives "1 task total"; 0 and 3 give "0 tasks total" and "3 tasks total" |

## Left out

- backend/app/database.py and backend/app/main.py are not part of this model. They hold engine and session setup, CORS, router wiring and the health endpoint.
- Persistence, sessions, `commit` and `refresh` are left out. The table is an in-memory map.
- The autoincrement counter never reuses an id. SQLite without AUTOINCREMENT can reuse the largest id after that row is deleted; the model does not capture this.
- Crud.TaskStore.GetAllTasks: the order among rows with equal `created_at` is left to the database. The model takes a stable sort over ascending ids, and the contract only promises the window of some newest-first listing of the matches.
- The `String(255)` length of the title column is not enforced by SQLite, and the model does not enforce it either. Only validation bounds the title.
- Time zones are reduced to instants and offsets in seconds.
  - The default SQLite engine keeps an aware due date's wall clock and drops its offset (`Crud.StoredDueDate`). Another engine that stores the instant is not modelled.
  - The stored value therefore equals the instant only for naive and UTC input, which covers every body the frontend sends (`Api.CreateBodyOnWire` writes UTC).
  - The row's due date comes back with no offset, and the browser's `new Date(text)` reads such a value as local time. That reading is a parameter of the frontend model, so the shift it causes is not captured.
  - The clock readings (`datetime.now`, `new Date()`) are parameters.
  - So is the browser's local-time reading of a date: the `getFullYear`/`getMonth`/`getDate`/`getHours`/`getMinutes` fields, and `new Date(text)`.
- `formatDate`, the en-GB locale rendering, is left out.
- `minDateTime` and the `min`/`maxLength` attributes of the inputs are left out. They are enforced by the browser, not by the code.
- `isOverdue` on a string that is no date (an invalid `Date` compares false) is left out. Due dates are instants.
- Lengths count code points. JavaScript's `length` counts UTF-16 code units and Python's `len` counts code points. A title with characters outside the Basic Multilingual Plane can therefore count differently in the browser.
- The `fetch` transport, headers, the `cache` option and JSON encoding are left out.
  - The base URL is a parameter.
  - A response is an input: its status, its body parsed as the expected type, and its `detail`.
  - A JSON error body that is `null` (reading `.detail` throws a TypeError) is not modelled.
  - How a non-string `detail` is rendered is an input.
- React rendering, markup and CSS are left out. So are StatusBadge.tsx, a pure render of `Utils.StatusLabel` and `Utils.StatusBadgeColor`, and page.tsx.
- Asynchronous interleaving is left out. Each handler runs as one uninterrupted sequence, so overlapping fetches and their last-response-wins race are not modelled. `window.confirm` is a boolean input.
- The effect that re-fetches on mount is left out. So is the one that re-fetches on filter change, except as `ChangeFilter`.

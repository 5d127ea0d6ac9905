/** The API client of frontend/src/lib/api.ts: the request each `taskApi`
    operation sends, and `handleResponse`, which turns the server's answer
    into a value or an `ApiError`. The transport is not modelled: what `fetch`
    delivers is an input. */
module Api {
  import opened Wrappers
  import opened TaskStatus
  import opened Decimal
  import opened Types
  import opened FormUrlEncoding
  import Schemas

  /** The pairs of a `URLSearchParams`, in order. */
  class SearchParams {
    var entries: seq<(string, string)>

    constructor()
      ensures entries == []
    {
      entries := [];
    }

    /** `params.set(name, value)`. */
    method Set(name: string, value: string)
      modifies this
      ensures entries == SetEntry(old(entries), name, value)
    {
      entries := SetEntry(entries, name, value);
    }

    /** `params.toString()`. */
    function ToString(): string
      reads this
    {
      SerializeEntries(entries)
    }
  }

  /** The position of the first pair named `name`, or the length when there is none. */
  function FirstNamed(entries: seq<(string, string)>, name: string): (k: nat)
    ensures k <= |entries|
    ensures k < |entries| ==> entries[k].0 == name
    ensures forall i :: 0 <= i < k ==> entries[i].0 != name
  {
    if entries == [] || entries[0].0 == name then 0 else 1 + FirstNamed(entries[1..], name)
  }

  /** The first pair named `name` takes the new value and any later pair with
      that name goes; with no such pair, one is appended. */
  function SetEntry(entries: seq<(string, string)>, name: string, value: string): (r: seq<(string, string)>)
    ensures (name, value) in r
    ensures forall i :: 0 <= i < |r| && r[i].0 == name ==> r[i].1 == value
    ensures forall p :: p in entries && p.0 != name ==> p in r
    ensures forall p :: p in r && p.0 != name ==> p in entries
  {
    if entries == [] then [(name, value)]
    else if entries[0].0 == name then [(name, value)] + RemoveNamed(entries[1..], name)
    else [entries[0]] + SetEntry(entries[1..], name, value)
  }

  /** No two pairs share the name `name`. */
  predicate AtMostOneNamed(entries: seq<(string, string)>, name: string) {
    forall i, j :: 0 <= i < j < |entries| && entries[i].0 == name ==> entries[j].0 != name
  }

  /** `set` leaves exactly one pair named `name`. */
  lemma {:induction false} SetEntryOnce(entries: seq<(string, string)>, name: string, value: string)
    ensures AtMostOneNamed(SetEntry(entries, name, value), name)
    decreases |entries|
  {
    var r := SetEntry(entries, name, value);
    if entries != [] && entries[0].0 != name {
      var rest := SetEntry(entries[1..], name, value);
      SetEntryOnce(entries[1..], name, value);
      assert r == [entries[0]] + rest;
      forall i, j | 0 <= i < j < |r| && r[i].0 == name ensures r[j].0 != name {
        assert r[i] == rest[i - 1] && r[j] == rest[j - 1];
      }
    } else if entries != [] {
      var rest := RemoveNamed(entries[1..], name);
      forall i, j | 0 <= i < j < |r| && r[i].0 == name ensures r[j].0 != name {
        assert r[j] == rest[j - 1] && rest[j - 1] in rest;
      }
    }
  }

  /** `set` puts the pair where the first pair named `name` was, or at the end,
      and leaves every pair before it in place. */
  lemma {:induction false} SetEntryInPlace(entries: seq<(string, string)>, name: string, value: string)
    ensures var r := SetEntry(entries, name, value); var k := FirstNamed(entries, name);
      k < |r| && r[..k] == entries[..k] && r[k] == (name, value)
    decreases |entries|
  {
    if entries != [] && entries[0].0 != name {
      var r := SetEntry(entries, name, value);
      var rest := SetEntry(entries[1..], name, value);
      SetEntryInPlace(entries[1..], name, value);
      var k := FirstNamed(entries[1..], name);
      assert r[..k + 1] == [entries[0]] + rest[..k];
      assert entries[..k + 1] == [entries[0]] + entries[1..][..k];
    }
  }

  function RemoveNamed(entries: seq<(string, string)>, name: string): (r: seq<(string, string)>)
    ensures forall p :: p in r <==> p in entries && p.0 != name
  {
    if entries == [] then []
    else if entries[0].0 == name then RemoveNamed(entries[1..], name)
    else [entries[0]] + RemoveNamed(entries[1..], name)
  }

  /** Pairs joined by `&`. */
  function SerializeEntries(entries: seq<(string, string)>): (r: string)
    ensures r == [] <==> entries == []
  {
    if entries == [] then []
    else if |entries| == 1 then EncodeParameter(entries[0].0, entries[0].1)
    else EncodeParameter(entries[0].0, entries[0].1) + "&" + SerializeEntries(entries[1..])
  }

  /** `getAll` filters only on a given, non-empty status other than `all`. */
  predicate FiltersOn(status: Option<string>) {
    status.Some? && status.value != "" && status.value != "all"
  }

  const TasksPath := "/api/tasks"

  /** The URL `getAll` fetches: the query is present only when it filters. */
  function ListUrl(base: string, status: Option<string>): string {
    if FiltersOn(status) then base + TasksPath + "?" + EncodeParameter("status", status.value)
    else base + TasksPath
  }

  /** `getAll`'s URL construction, through a `URLSearchParams`. */
  method GetAllUrl(base: string, status: Option<string>) returns (url: string)
    ensures url == ListUrl(base, status)
  {
    var params := new SearchParams();
    if FiltersOn(status) {
      params.Set("status", status.value);
    }
    var query := params.ToString();
    url := base + TasksPath + (if query != [] then "?" + query else "");
  }

  /** A status name travels as `status=<name>`, with nothing escaped. */
  lemma ListUrlFilters(base: string, s: Status)
    ensures ListUrl(base, Some(s.Name())) == base + "/api/tasks?status=" + s.Name()
  {
    StatusParameterIsPlain(s);
    assert FiltersOn(Some(s.Name()));
  }

  lemma StatusParameterIsPlain(s: Status)
    ensures EncodeParameter("status", s.Name()) == "status=" + s.Name()
  {
    StatusKeyIsPlain();
    StatusNameIsPlain(s);
  }

  /** The parameter name needs no escaping. */
  lemma StatusKeyIsPlain()
    ensures Serialize(Utf8Encode("status")) == "status"
  {
    assert LowerWord("status");
    LowerWordUnchanged("status");
  }

  /** No status name needs escaping. */
  lemma StatusNameIsPlain(s: Status)
    ensures Serialize(Utf8Encode(s.Name())) == s.Name()
  {
    assert LowerWord(s.Name()) by {
      match s
      case Todo =>
      case InProgress =>
      case Completed =>
    }
    LowerWordUnchanged(s.Name());
  }

  /** `all`, the empty string and a missing status give the bare collection URL. */
  lemma ListUrlUnfiltered(base: string)
    ensures ListUrl(base, Some("all")) == base + "/api/tasks"
    ensures ListUrl(base, Some("")) == base + "/api/tasks"
    ensures ListUrl(base, None) == base + "/api/tasks"
  {
  }

  datatype HttpMethod = Get | Post | Patch | Put | Delete

  datatype RequestBody =
    | CreateBody(create: CreateTaskPayload)
    | UpdateBody(update: UpdateTaskPayload)
    | StatusBody(status: UpdateTaskStatusPayload)

  /** What `fetch` is asked to do; headers and cache options are not modelled. */
  datatype Request = Request(verb: HttpMethod, url: string, body: Option<RequestBody>)

  function TaskUrl(base: string, id: int): string {
    base + TasksPath + "/" + IntToString(id)
  }

  /** Each task has its own URL. */
  lemma TaskUrlNamesTask(base: string, a: int, b: int)
    requires TaskUrl(base, a) == TaskUrl(base, b)
    ensures a == b
  {
    var prefix := base + TasksPath + "/";
    assert IntToString(a) == TaskUrl(base, a)[|prefix|..];
    assert IntToString(b) == TaskUrl(base, b)[|prefix|..];
    IntToStringInjective(a, b);
  }

  function GetAllRequest(base: string, status: Option<string>): (r: Request)
    ensures r.verb == Get && r.url == ListUrl(base, status) && r.body == None
  {
    Request(Get, ListUrl(base, status), None)
  }

  function GetByIdRequest(base: string, id: int): (r: Request)
    ensures r.verb == Get && r.url == TaskUrl(base, id) && r.body == None
  {
    Request(Get, TaskUrl(base, id), None)
  }

  function CreateRequest(base: string, data: CreateTaskPayload): (r: Request)
    ensures r.verb == Post && r.url == base + TasksPath && r.body == Some(CreateBody(data))
  {
    Request(Post, base + TasksPath, Some(CreateBody(data)))
  }

  function UpdateStatusRequest(base: string, id: int, data: UpdateTaskStatusPayload): (r: Request)
    ensures r.verb == Patch && r.url == TaskUrl(base, id) + "/status" && r.body == Some(StatusBody(data))
  {
    Request(Patch, TaskUrl(base, id) + "/status", Some(StatusBody(data)))
  }

  function UpdateRequest(base: string, id: int, data: UpdateTaskPayload): (r: Request)
    ensures r.verb == Put && r.url == TaskUrl(base, id) && r.body == Some(UpdateBody(data))
  {
    Request(Put, TaskUrl(base, id), Some(UpdateBody(data)))
  }

  function DeleteRequest(base: string, id: int): (r: Request)
    ensures r.verb == Delete && r.url == TaskUrl(base, id) && r.body == None
  {
    Request(Delete, TaskUrl(base, id), None)
  }

  /** Two requests to the same task differ in method or path: the five
      operations never send the same request. */
  lemma RequestsDistinct(base: string, id: int, d: UpdateTaskStatusPayload, u: UpdateTaskPayload)
    ensures UpdateStatusRequest(base, id, d).url != UpdateRequest(base, id, u).url
    ensures |{GetByIdRequest(base, id).verb, UpdateRequest(base, id, u).verb,
              DeleteRequest(base, id).verb, UpdateStatusRequest(base, id, d).verb}| == 4
  {
    var s := UpdateStatusRequest(base, id, d).url;
    assert |s| == |TaskUrl(base, id)| + 7;
  }

  /** The members of a create body as the server receives them:
      `JSON.stringify` leaves out what is undefined and writes null as null;
      the due date travels in `toISOString` form, in UTC. */
  function CreateBodyOnWire(p: CreateTaskPayload): (r: Schemas.TaskCreateInput)
    ensures r.title == Given(p.title) && r.description == p.description
    ensures r.status == (if p.status.Some? then Given(p.status.value.Name()) else Absent)
    ensures r.dueDate.Given? && Schemas.Instant(r.dueDate.value) == p.dueDate
  {
    Schemas.TaskCreateInput(
      Given(p.title), p.description,
      if p.status.Some? then Given(p.status.value.Name()) else Absent,
      Given(Schemas.DateTime(p.dueDate, Some(0))))
  }

  /** `response.ok`. */
  predicate IsOk(status: int) {
    200 <= status <= 299
  }

  /** What `errorBody.detail` holds: missing (also when the body is not JSON,
      which the client reads as `{}`), a string, or some other JSON value,
      which is truthy or not and which `Error` renders as `shown`. */
  datatype Detail = NoDetail | Text(text: string) | OtherValue(truthy: bool, shown: string)

  predicate Truthy(d: Detail) {
    match d
    case NoDetail => false
    case Text(s) => s != ""
    case OtherValue(t, _) => t
  }

  /** `errorBody.detail || \`API error: ${response.status}\``. */
  function ErrorMessage(status: int, detail: Detail): (r: string)
    ensures detail.Text? && detail.text != "" ==> r == detail.text
    ensures !Truthy(detail) ==> r == "API error: " + IntToString(status)
    ensures detail.OtherValue? && detail.truthy ==> r == detail.shown
  {
    match detail
    case Text(s) => if s != "" then s else "API error: " + IntToString(status)
    case OtherValue(t, shown) => if t then shown else "API error: " + IntToString(status)
    case NoDetail => "API error: " + IntToString(status)
  }

  /** A response as `handleResponse` sees it: the status, the body parsed as
      the expected type (`None` when it is not such JSON), and its `detail`. */
  datatype HttpResponse<T> = HttpResponse(status: int, parsed: Option<T>, detail: Detail)

  datatype Failure =
    | ApiError(message: string, status: int)
    /** Any other exception: a network failure or a body that is not JSON. */
    | OtherError

  /** How the promise settles: a value (`None` for `undefined`) or an exception. */
  datatype Outcome<T> = Resolved(value: Option<T>) | Rejected(failure: Failure)

  /** `handleResponse`. */
  function HandleResponse<T>(response: HttpResponse<T>): (r: Outcome<T>)
    ensures r.Rejected? && r.failure.ApiError? <==> !IsOk(response.status)
    ensures r.Rejected? && r.failure.ApiError? ==>
      r.failure == ApiError(ErrorMessage(response.status, response.detail), response.status)
    ensures r == Resolved(None) <==> IsOk(response.status) && response.status == 204
    ensures r.Resolved? && r.value.Some? <==> IsOk(response.status) && response.status != 204 && response.parsed.Some?
    ensures r.Resolved? && r.value.Some? ==> r.value == response.parsed
  {
    if !IsOk(response.status) then
      Rejected(ApiError(ErrorMessage(response.status, response.detail), response.status))
    else if response.status == 204 then Resolved(None)
    else if response.parsed.Some? then Resolved(response.parsed)
    else Rejected(OtherError)
  }

  /** What `fetch` delivers. */
  datatype Fetched<T> = NetworkFailure | Received(response: HttpResponse<T>)

  /** One `taskApi` call once the request is sent: a failed fetch rejects with
      its own error, otherwise `handleResponse` decides. */
  function Complete<T>(fetched: Fetched<T>): (r: Outcome<T>)
    ensures fetched.NetworkFailure? ==> r == Rejected(OtherError)
    ensures fetched.Received? ==> r == HandleResponse(fetched.response)
  {
    match fetched
    case NetworkFailure => Rejected(OtherError)
    case Received(response) => HandleResponse(response)
  }

  /** The 404 of the client's tests: the server's detail becomes the message. */
  lemma NotFoundMessage<T>()
    ensures HandleResponse<T>(HttpResponse(404, None, Text("Not found"))) == Rejected(ApiError("Not found", 404))
  {
  }

  /** A failed request without a usable detail reports its status. */
  lemma GenericMessage<T>(status: int, parsed: Option<T>)
    requires !IsOk(status)
    ensures HandleResponse(HttpResponse(status, parsed, NoDetail)) == Rejected(ApiError("API error: " + IntToString(status), status))
  {
  }
}

/** The three statuses a task can have, shared by the backend's `TaskStatus`
    enum and the frontend's `TaskStatus` string union, with their wire names. */
module TaskStatus {
  import opened Wrappers

  datatype Status = Todo | InProgress | Completed {

    /** The value carried in JSON bodies and query strings. */
    function Name(): string {
      match this
      case Todo => "todo"
      case InProgress => "in_progress"
      case Completed => "completed"
    }
  }

  /** Reads a wire value back; anything outside the three names is rejected. */
  function Parse(s: string): (r: Option<Status>)
    ensures r.Some? <==> s == "todo" || s == "in_progress" || s == "completed"
    ensures r.Some? ==> r.value.Name() == s
  {
    if s == "todo" then Some(Todo)
    else if s == "in_progress" then Some(InProgress)
    else if s == "completed" then Some(Completed)
    else None
  }

  lemma ParseName(s: Status)
    ensures Parse(s.Name()) == Some(s)
  {
  }

  /** Every status, in declaration order. */
  const AllStatuses: seq<Status> := [Todo, InProgress, Completed]

  lemma AllStatusesListsEachOnce(s: Status)
    ensures s in AllStatuses
    ensures multiset(AllStatuses)[s] == 1
  {
  }
}

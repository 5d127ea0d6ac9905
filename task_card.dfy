/** What frontend/src/components/TaskCard.tsx shows for one task and which
    callbacks its buttons fire. Markup and styling are not modelled. */
module TaskCard {
  import opened Wrappers
  import opened TaskStatus
  import opened Types
  import opened Utils

  /** `overdue`: only an unfinished task whose due date has passed. */
  function Overdue(task: Task, now: int): (r: bool)
    ensures r <==> task.status != Completed && task.dueDate < now
    ensures task.status == Completed ==> !r
  {
    task.status != Completed && IsOverdue(task.dueDate, now)
  }

  /** The marker after the due date. */
  function DueSuffix(task: Task, now: int): (r: string)
    ensures r == " (Overdue)" <==> Overdue(task, now)
    ensures r == "" <==> !Overdue(task, now)
  {
    if Overdue(task, now) then " (Overdue)" else ""
  }

  /** `{task.description && ...}`: null and the empty string are both skipped. */
  predicate ShowsDescription(task: Task) {
    task.description.Some? && task.description.value != ""
  }

  /** A missing and an empty description both hide the paragraph; any other
      text shows it. */
  lemma DescriptionShownUnlessEmpty(task: Task)
    ensures task.description == None ==> !ShowsDescription(task)
    ensures task.description == Some("") ==> !ShowsDescription(task)
    ensures task.description.Some? && task.description.value != "" ==> ShowsDescription(task)
  {
  }

  /** What a click calls: `onUpdateStatus(id, status)`, `onEdit(task)` or `onDelete(id)`. */
  datatype Action = ChangeStatus(id: int, target: Status) | Edit(task: Task) | Delete(id: int)

  datatype Button = Button(caption: string, action: Action)

  /** The caption of the quick-change button that moves a task to `s`. */
  function QuickLabel(s: Status): string {
    match s
    case Todo => "To Do"
    case InProgress => "In Progress"
    case Completed => "Complete"
  }

  function QuickButton(task: Task, target: Status): Button {
    Button(QuickLabel(target), ChangeStatus(task.id, target))
  }

  /** The rank of a status in the order the buttons appear. */
  function Rank(s: Status): nat {
    match s
    case Todo => 0
    case InProgress => 1
    case Completed => 2
  }

  /** One button per status other than the current one, in the order to do,
      in progress, completed. */
  function QuickStatusButtons(task: Task): (r: seq<Button>)
    ensures |r| == 2
    ensures forall i :: 0 <= i < |r| ==> r[i].action.ChangeStatus? && r[i].action.id == task.id
    ensures forall i :: 0 <= i < |r| ==> r[i].caption == QuickLabel(r[i].action.target)
    ensures Rank(r[0].action.target) < Rank(r[1].action.target)
    ensures forall i :: 0 <= i < |r| ==> r[i].action.target != task.status
    ensures r[0].action.target != r[1].action.target
    ensures {r[0].action.target, r[1].action.target, task.status} == {Todo, InProgress, Completed}
  {
    (if task.status != Todo then [QuickButton(task, Todo)] else [])
    + (if task.status != InProgress then [QuickButton(task, InProgress)] else [])
    + (if task.status != Completed then [QuickButton(task, Completed)] else [])
  }

  /** The whole action row: the quick-change buttons, then edit and delete. */
  function ActionButtons(task: Task): (r: seq<Button>)
    ensures |r| == 4
    ensures r[..2] == QuickStatusButtons(task)
    ensures r[2] == Button("Edit", Edit(task))
    ensures r[3] == Button("Delete", Delete(task.id))
  {
    QuickStatusButtons(task) + [Button("Edit", Edit(task)), Button("Delete", Delete(task.id))]
  }

  function Labels(buttons: seq<Button>): seq<string> {
    if buttons == [] then [] else [buttons[0].caption] + Labels(buttons[1..])
  }

  /** A task still to do offers "In Progress" and "Complete". */
  lemma TodoTaskButtons(task: Task)
    requires task.status == Todo
    ensures Labels(QuickStatusButtons(task)) == ["In Progress", "Complete"]
  {
    var r := QuickStatusButtons(task);
    assert r == [QuickButton(task, InProgress), QuickButton(task, Completed)];
    assert Labels(r) == [r[0].caption] + Labels(r[1..]);
    assert Labels(r[1..]) == [r[1].caption] + Labels(r[2..]);
  }

  /** A completed task is never marked overdue, however old its due date. */
  lemma CompletedNeverOverdue(task: Task, now: int)
    requires task.status == Completed
    ensures DueSuffix(task, now) == ""
  {
  }
}

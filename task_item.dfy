/**
 * The rules one task card applies (client/src/components/TaskItem.jsx): the
 * status cycle, the progress width, the border colour, the due-date badge,
 * and the `isEditing`/`editedTask` state with its change, save and
 * status-change handlers.
 */
module TaskItem {
  import opened Wrappers
  import opened TaskModel
  import opened Reconcile
  import opened TaskContext

  /** `['pending', 'in_progress', 'completed']`. */
  const StatusOrder: seq<Status> := [Pending, InProgress, Completed]

  /** `Array.prototype.indexOf`: the first position holding the value, or -1. */
  function IndexOf<T(==)>(xs: seq<T>, x: T): (i: int)
    ensures -1 <= i < |xs|
    ensures i == -1 <==> x !in xs
    ensures i >= 0 ==> xs[i] == x && x !in xs[..i]
  {
    if xs == [] then -1
    else if xs[0] == x then 0
    else
      var j := IndexOf(xs[1..], x);
      assert xs[1..][..j + 1] == xs[..j + 2][1..] by { assert j >= -1; }
      if j == -1 then -1 else j + 1
  }

  /** `handleStatusChange`: the status after the one at `indexOf`, wrapping. */
  function NextStatus(s: Status): (r: Status)
    ensures IsKnownStatus(r)
  {
    StatusOrder[(IndexOf(StatusOrder, s) + 1) % |StatusOrder|]
  }

  /** Where each status sits in the list. */
  lemma StatusIndex(s: Status)
    ensures IndexOf(StatusOrder, s) == match s
      case Pending => 0
      case InProgress => 1
      case Completed => 2
      case Unrecognised(_) => -1
  {
    var i := IndexOf(StatusOrder, s);
    if IsKnownStatus(s) {
      assert s in StatusOrder;
      assert StatusOrder[i] == s;
    } else {
      assert s !in StatusOrder;
    }
  }

  /** The cycle pending → in_progress → completed → pending, and a status
      outside the list (index -1) advances to pending. */
  lemma StatusCycle(s: Status)
    ensures NextStatus(Pending) == InProgress
    ensures NextStatus(InProgress) == Completed
    ensures NextStatus(Completed) == Pending
    ensures !IsKnownStatus(s) ==> NextStatus(s) == Pending
  {
    StatusIndex(Pending);
    StatusIndex(InProgress);
    StatusIndex(Completed);
    StatusIndex(s);
    assert (0 + 1) % 3 == 1 && (1 + 1) % 3 == 2 && (2 + 1) % 3 == 0 && (-1 + 1) % 3 == 0;
  }

  /** Three advances return to the starting status. */
  lemma ThreeAdvancesReturn(s: Status)
    requires IsKnownStatus(s)
    ensures NextStatus(NextStatus(NextStatus(s))) == s
  {
    StatusCycle(s);
  }

  /** The body `handleStatusChange` sends: the task with the next status. */
  function StatusChangePayload(task: Task): (r: Task)
    ensures r.status == NextStatus(task.status)
    ensures r.(status := task.status) == task
  {
    task.(status := NextStatus(task.status))
  }

  /** `statusConfig[status].width` in percent; an unrecognised status has no
      entry, and reading `.width` of it throws during rendering. */
  function ProgressWidth(s: Status): (w: Option<nat>)
    ensures w.Some? <==> IsKnownStatus(s)
  {
    match s
    case Pending => Some(0)
    case InProgress => Some(50)
    case Completed => Some(100)
    case Unrecognised(_) => None
  }

  /** The width is half the status's position in the cycle, so each advance
      short of wrapping adds 50 points. */
  lemma ProgressWidthFollowsCycle(s: Status)
    requires IsKnownStatus(s)
    ensures ProgressWidth(s) == Some(50 * IndexOf(StatusOrder, s))
    ensures s != Completed ==> ProgressWidth(NextStatus(s)).value == ProgressWidth(s).value + 50
  {
    StatusCycle(s);
    StatusIndex(s);
    StatusIndex(NextStatus(s));
  }

  // ---------------------------------------------------------------------------
  // Card decorations.

  /** `border-green-500`, `border-rose-500`, `border-purple-500`. */
  datatype BorderColour = GreenBorder | RoseBorder | PurpleBorder

  function Border(task: Task): (c: BorderColour)
    ensures c == GreenBorder <==> task.status == Completed
    ensures c == RoseBorder <==> task.status != Completed && task.priority == High
  {
    if task.status == Completed then GreenBorder
    else if task.priority == High then RoseBorder
    else PurpleBorder
  }

  /** A completed task's border ignores the priority, and the border depends
      only on status and priority. */
  lemma BorderIgnoresOtherFields(a: Task, b: Task)
    requires a.status == b.status
    requires a.status == Completed || a.priority == b.priority
    ensures Border(a) == Border(b)
  {
  }

  /** `calculateDaysLeft`: `Math.ceil((due - now) / 86400000)`, on integer
      milliseconds. */
  const MillisPerDay: int := 1000 * 60 * 60 * 24

  function DaysLeft(dueDate: int, now: int): (d: int)
    ensures (d - 1) * MillisPerDay < dueDate - now <= d * MillisPerDay
  {
    -((now - dueDate) / MillisPerDay)
  }

  /** The badge colours `bg-red-100`, `bg-amber-100`, `bg-blue-100`. */
  datatype BadgeColour = RedBadge | AmberBadge | BlueBadge

  function DueBadgeColour(daysLeft: int): (c: BadgeColour)
    ensures c == RedBadge <==> daysLeft <= 0
    ensures c == AmberBadge <==> 1 <= daysLeft <= 3
  {
    if daysLeft <= 0 then RedBadge else if daysLeft <= 3 then AmberBadge else BlueBadge
  }

  /** A decimal numeral for a non-negative number. */
  function DecimalText(n: nat): (r: string)
    ensures |r| >= 1
    decreases n
  {
    var digit := [('0' as int + n % 10) as char];
    if n < 10 then digit else DecimalText(n / 10) + digit
  }

  /** The badge text; `dateText` is `format(dueDate, 'MMM d')`, which the
      model does not compute. Within three days of the due date the label is
      one of four fixed texts whatever the date; beyond it, the date. */
  function DueLabel(daysLeft: int, dateText: string): (r: string)
    ensures daysLeft <= 3 ==> r in ["Overdue", "Due tomorrow", "Due in 2 days", "Due in 3 days"]
    ensures daysLeft > 3 ==> r == dateText
  {
    assert DecimalText(2) == "2" && DecimalText(3) == "3";
    if daysLeft <= 0 then "Overdue"
    else if daysLeft == 1 then "Due tomorrow"
    else if daysLeft <= 3 then
      var r := "Due in " + DecimalText(daysLeft) + " days";
      assert r == "Due in 2 days" || r == "Due in 3 days";
      r
    else dateText
  }

  /** The badge bands: red exactly for "Overdue", amber for the three
      "due soon" labels, blue for the formatted date. */
  lemma DueBadgeBands(daysLeft: int, dateText: string)
    ensures daysLeft <= 0 ==> DueLabel(daysLeft, dateText) == "Overdue" && DueBadgeColour(daysLeft) == RedBadge
    ensures daysLeft == 1 ==> DueLabel(daysLeft, dateText) == "Due tomorrow" && DueBadgeColour(daysLeft) == AmberBadge
    ensures daysLeft == 2 ==> DueLabel(daysLeft, dateText) == "Due in 2 days" && DueBadgeColour(daysLeft) == AmberBadge
    ensures daysLeft == 3 ==> DueLabel(daysLeft, dateText) == "Due in 3 days" && DueBadgeColour(daysLeft) == AmberBadge
    ensures daysLeft > 3 ==> DueLabel(daysLeft, dateText) == dateText && DueBadgeColour(daysLeft) == BlueBadge
  {
    assert DecimalText(2) == "2";
    assert DecimalText(3) == "3";
  }

  // ---------------------------------------------------------------------------
  // Editing.

  /** One `onChange` of the edit form: the input's `name` and its value. */
  datatype Edit =
    | EditTitle(title: string)
    | EditDescription(description: string)
    | EditStatus(status: Status)
    | EditPriority(priority: Priority)
    | EditDueDate(dueDate: int)

  /** `{ ...prev, [name]: value }`: only the named field changes. */
  function ApplyEdit(t: Task, e: Edit): (r: Task)
    ensures e.EditTitle? ==> r == t.(title := e.title)
    ensures e.EditDescription? ==> r == t.(description := Some(e.description))
    ensures e.EditStatus? ==> r == t.(status := e.status)
    ensures e.EditPriority? ==> r == t.(priority := e.priority)
    ensures e.EditDueDate? ==> r == t.(dueDate := e.dueDate)
    ensures r.id == t.id && r.assignedTo == t.assignedTo && r.createdBy == t.createdBy
    ensures r.createdAt == t.createdAt && r.updatedAt == t.updatedAt
  {
    match e
    case EditTitle(v) => t.(title := v)
    case EditDescription(v) => t.(description := Some(v))
    case EditStatus(v) => t.(status := v)
    case EditPriority(v) => t.(priority := v)
    case EditDueDate(v) => t.(dueDate := v)
  }

  /** The form field an edit writes: the input's `name`. */
  datatype Field = TitleField | DescriptionField | StatusField | PriorityField | DueDateField

  function FieldOf(e: Edit): Field {
    match e
    case EditTitle(_) => TitleField
    case EditDescription(_) => DescriptionField
    case EditStatus(_) => StatusField
    case EditPriority(_) => PriorityField
    case EditDueDate(_) => DueDateField
  }

  /** A later edit of a field overwrites an earlier one, and edits of
      different fields commute. */
  lemma EditsOfOneFieldOverwrite(t: Task, e1: Edit, e2: Edit)
    ensures FieldOf(e1) == FieldOf(e2) ==> ApplyEdit(ApplyEdit(t, e1), e2) == ApplyEdit(t, e2)
    ensures FieldOf(e1) != FieldOf(e2) ==> ApplyEdit(ApplyEdit(t, e1), e2) == ApplyEdit(ApplyEdit(t, e2), e1)
  {
  }

  /** The card's local state. `task` is the prop, which the list passes
      again on every render; `editedTask` starts as the task prop and is not
      re-synchronised when the prop changes. */
  class TaskCard {
    var task: Task
    var isEditing: bool
    var editedTask: Task

    constructor(task: Task)
      ensures this.task == task && !isEditing && editedTask == task
    {
      this.task := task;
      isEditing := false;
      editedTask := task;
    }

    /** A re-render with a new `task` prop: `useState` keeps both pieces of
        local state, so the edit copy stays as it was. */
    method ReceiveProps(t: Task)
      modifies this
      ensures task == t
      ensures isEditing == old(isEditing) && editedTask == old(editedTask)
    {
      task := t;
    }

    /** The pencil button. */
    method StartEditing()
      modifies this
      ensures isEditing && editedTask == old(editedTask)
    {
      isEditing := true;
    }

    /** The Cancel button: leaves edit mode, keeping the edits made so far. */
    method CancelEditing()
      modifies this
      ensures !isEditing && editedTask == old(editedTask)
    {
      isEditing := false;
    }

    /** `handleChange`. */
    method HandleChange(e: Edit)
      modifies this
      ensures editedTask == ApplyEdit(old(editedTask), e)
      ensures isEditing == old(isEditing)
    {
      editedTask := ApplyEdit(editedTask, e);
    }

    /** `handleSave`: sends `editedTask` for this task's id and leaves edit
        mode whatever the outcome, since `updateTask` swallows failures. */
    method HandleSave(ctx: TaskProvider, response: Result<Task, RequestError>) returns (sent: Task)
      modifies this, ctx
      ensures sent == old(editedTask)
      ensures ctx.tasks == (if response.Ok? then ReplacedById(old(ctx.tasks), task.id, response.value) else old(ctx.tasks))
      ensures ctx.loading == old(ctx.loading)
      ensures !isEditing && editedTask == old(editedTask) && task == old(task)
    {
      sent := editedTask;
      ctx.UpdateTask(task.id, response);
      isEditing := false;
    }

    /** `handleStatusChange`: sends the task with its next status. */
    method HandleStatusChange(ctx: TaskProvider, response: Result<Task, RequestError>) returns (sent: Task)
      modifies ctx
      ensures sent == StatusChangePayload(task)
      ensures ctx.tasks == (if response.Ok? then ReplacedById(old(ctx.tasks), task.id, response.value) else old(ctx.tasks))
      ensures ctx.loading == old(ctx.loading)
    {
      sent := StatusChangePayload(task);
      ctx.UpdateTask(task.id, response);
    }
  }
}

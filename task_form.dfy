/**
 * The new-task form (client/src/components/TaskForm.jsx): the `formData`
 * and `isExpanded` state cells, the single-field setters, and `handleSubmit`,
 * which awaits `createTask`, then clears title and description, then
 * collapses the form.
 */
module TaskForm {
  import opened Wrappers
  import opened TaskModel
  import opened TaskSchema
  import opened Reconcile
  import opened TaskContext

  /** The form fields; the due date is a day as an integer, or None once the
      date input has been cleared (its value is then the empty string). */
  datatype FormData = FormData(
    title: string,
    description: string,
    status: Status,
    priority: Priority,
    dueDate: Option<int>,
    assignedTo: string,
    createdBy: string
  )

  /** The initial `formData`; `today` stands for `format(new Date(), 'yyyy-MM-dd')`. */
  function InitialForm(today: int): (f: FormData)
    ensures f.title == "" && f.description == ""
    ensures f.status == Pending && f.priority == Medium && f.dueDate == Some(today)
    ensures f.assignedTo == "user123" && f.createdBy == "user123"
  {
    FormData("", "", Pending, Medium, Some(today), "user123", "user123")
  }

  /** The JSON body `createTask(formData)` posts: every key present, the
      texts verbatim, status and priority as stored enum texts. A cleared date
      is sent as `''`, which the Date cast turns into null, so it reaches the
      validators as a missing due date. */
  function RequestBody(f: FormData): (r: TaskInput)
    ensures r.title == Some(f.title) && r.description == Some(f.description)
    ensures r.assignedTo == Some(f.assignedTo) && r.createdBy == Some(f.createdBy)
    ensures r.dueDate == f.dueDate
    ensures r.status.Some? && (IsKnownStatus(f.status) <==> r.status.value in StatusTexts)
    ensures r.priority.Some? && r.priority.value in ["low", "medium", "high"]
  {
    TaskInput(Some(f.title), Some(f.description), Some(StatusText(f.status)),
              Some(PriorityText(f.priority)), f.dueDate, Some(f.assignedTo), Some(f.createdBy))
  }

  /** A submitted form passes the schema exactly when its title has a
      non-whitespace character, its date is set and both owner fields are
      non-empty (its status is the one the form keeps); the stored task then
      carries the trimmed title and description, the chosen status, priority
      and date. */
  lemma SubmittedFormValidates(f: FormData, id: Id, now: int)
    requires IsKnownStatus(f.status)
    ensures Validate(RequestBody(f), id, now).Ok? <==>
              HasContent(f.title) && f.dueDate.Some? && f.assignedTo != "" && f.createdBy != ""
    ensures Validate(RequestBody(f), id, now).Ok? ==>
              var t := Validate(RequestBody(f), id, now).value;
              t.title == Trim(f.title) && t.description == Some(Trim(f.description))
              && t.status == f.status && t.priority == f.priority && t.dueDate == f.dueDate.value
  {
    EnumTextRoundTrip(f.status, f.priority);
  }

  /** Submitting the untouched form fails validation on the title, so the
      server answers 500 and the form keeps its contents. */
  lemma InitialFormIsRejected(today: int, id: Id, now: int)
    ensures Validate(RequestBody(InitialForm(today)), id, now).Err?
    ensures Required("title") in Validate(RequestBody(InitialForm(today)), id, now).error
  {
    RequiredFieldsReported(RequestBody(InitialForm(today)), id, now);
  }

  /** Submitting with the date input cleared fails on the due date, whatever
      the other fields hold. */
  lemma ClearedDateIsRejected(f: FormData, id: Id, now: int)
    requires f.dueDate.None?
    ensures Validate(RequestBody(f), id, now).Err?
    ensures Required("dueDate") in Validate(RequestBody(f), id, now).error
  {
    RequiredFieldsReported(RequestBody(f), id, now);
  }

  class TaskFormView {
    var isExpanded: bool
    var formData: FormData

    constructor(today: int)
      ensures !isExpanded && formData == InitialForm(today)
    {
      isExpanded := false;
      formData := InitialForm(today);
    }

    /** The title input's `onChange`. */
    method SetTitle(v: string)
      modifies this
      ensures formData == old(formData).(title := v) && isExpanded == old(isExpanded)
    {
      formData := formData.(title := v);
    }

    /** The date input's `onChange`; None when the input is cleared. */
    method SetDueDate(v: Option<int>)
      modifies this
      ensures formData == old(formData).(dueDate := v) && isExpanded == old(isExpanded)
    {
      formData := formData.(dueDate := v);
    }

    /** A priority button's `onClick`. */
    method ChoosePriority(p: Priority)
      modifies this
      ensures formData == old(formData).(priority := p) && isExpanded == old(isExpanded)
    {
      formData := formData.(priority := p);
    }

    /** The description textarea's `onChange`. */
    method SetDescription(v: string)
      modifies this
      ensures formData == old(formData).(description := v) && isExpanded == old(isExpanded)
    {
      formData := formData.(description := v);
    }

    /** The plus button. */
    method ToggleExpanded()
      modifies this
      ensures isExpanded == !old(isExpanded) && formData == old(formData)
    {
      isExpanded := !isExpanded;
    }

    /** Clicking the title input. */
    method Expand()
      modifies this
      ensures isExpanded && formData == old(formData)
    {
      isExpanded := true;
    }

    /** The Cancel button. */
    method Collapse()
      modifies this
      ensures !isExpanded && formData == old(formData)
    {
      isExpanded := false;
    }

    /** `handleSubmit`: posts the form; when `createTask` rethrows, the
        handler stops there and the form is left as it was; otherwise title
        and description are cleared, every other field kept, and the form
        collapses. */
    method HandleSubmit(ctx: TaskProvider, response: Result<Task, RequestError>)
      returns (sent: TaskInput, thrown: Option<RequestError>)
      modifies this, ctx
      ensures sent == RequestBody(old(formData))
      ensures ctx.tasks == (if response.Ok? then Appended(old(ctx.tasks), response.value) else old(ctx.tasks))
      ensures ctx.loading == old(ctx.loading)
      ensures thrown == (if response.Ok? then None else Some(response.error))
      ensures response.Err? ==> formData == old(formData) && isExpanded == old(isExpanded)
      ensures response.Ok? ==> formData == old(formData).(title := "", description := "") && !isExpanded
    {
      sent := RequestBody(formData);
      thrown := ctx.CreateTask(response);
      if thrown.Some? {
        return;
      }
      formData := formData.(title := "", description := "");
      isExpanded := false;
    }
  }
}

/**
 * The field rules of the task schema (server/models/Task.js) as a
 * validator and normaliser: `required`, `trim`, `enum`, `default` and the
 * `timestamps` option. A request body is a record of optional fields; the
 * validator either produces a normalised task or the list of failing paths,
 * in schema order.
 */
module TaskSchema {
  import opened Wrappers
  import opened TaskModel

  /** The user-settable fields of a request body; a missing key is None. */
  datatype TaskInput = TaskInput(
    title: Option<string>,
    description: Option<string>,
    status: Option<string>,
    priority: Option<string>,
    dueDate: Option<int>,
    assignedTo: Option<string>,
    createdBy: Option<string>
  )

  /** One validator failure: a required path missing (or empty), or a value
      outside a path's enum. */
  datatype FieldError = Required(path: string) | NotInEnum(path: string, value: string)

  // ---------------------------------------------------------------------------
  // String.prototype.trim, which the schema's `trim: true` setter applies.

  /** The characters JavaScript's trim removes: WhiteSpace and LineTerminator. */
  predicate IsJsWhitespace(c: char) {
    var n := c as int;
    n == 0x09 || n == 0x0A || n == 0x0B || n == 0x0C || n == 0x0D || n == 0x20
    || n == 0xA0 || n == 0x1680 || (0x2000 <= n <= 0x200A) || n == 0x2028
    || n == 0x2029 || n == 0x202F || n == 0x205F || n == 0x3000 || n == 0xFEFF
  }

  /** Drops the longest whitespace prefix. */
  function TrimStart(s: string): (r: string)
    ensures |r| <= |s| && r == s[|s| - |r|..]
    ensures r == [] || !IsJsWhitespace(r[0])
    ensures forall i :: 0 <= i < |s| - |r| ==> IsJsWhitespace(s[i])
  {
    if s != [] && IsJsWhitespace(s[0]) then TrimStart(s[1..]) else s
  }

  /** Drops the longest whitespace suffix. */
  function TrimEnd(s: string): (r: string)
    ensures |r| <= |s| && r == s[..|r|]
    ensures r == [] || !IsJsWhitespace(r[|r| - 1])
    ensures forall i :: |r| <= i < |s| ==> IsJsWhitespace(s[i])
  {
    if s != [] && IsJsWhitespace(s[|s| - 1]) then TrimEnd(s[..|s| - 1]) else s
  }

  /** `trim()`: never longer than its input, and neither end of a non-empty
      result is whitespace. */
  function Trim(s: string): (r: string)
    ensures |r| <= |s|
    ensures r == [] || (!IsJsWhitespace(r[0]) && !IsJsWhitespace(r[|r| - 1]))
  {
    TrimEndKeepsStart(TrimStart(s));
    TrimEnd(TrimStart(s))
  }

  /** The trimmed text is the piece of the input starting after its leading
      whitespace, with no whitespace at either end, and everything cut off
      at either end is whitespace. */
  lemma TrimSpec(s: string)
    ensures var r, k := Trim(s), |s| - |TrimStart(s)|;
      && k + |r| <= |s| && (forall i :: 0 <= i < |r| ==> r[i] == s[k + i])
      && (r == [] || (!IsJsWhitespace(r[0]) && !IsJsWhitespace(r[|r| - 1])))
      && (forall i :: 0 <= i < k ==> IsJsWhitespace(s[i]))
      && (forall i :: k + |r| <= i < |s| ==> IsJsWhitespace(s[i]))
  {
    var t := TrimStart(s);
    var r := TrimEnd(t);
    assert Trim(s) == r;
    TrimEndOfSuffix(s, t);
    TrimEndKeepsStart(t);
  }

  /** Trimming the end of a suffix `t` of `s` leaves a slice of `s`, and what
      it cuts off is whitespace of `s`. */
  lemma TrimEndOfSuffix(s: string, t: string)
    requires |t| <= |s| && t == s[|s| - |t|..]
    ensures var r, k := TrimEnd(t), |s| - |t|;
      && k + |r| <= |s|
      && (forall i :: 0 <= i < |r| ==> r[i] == s[k + i])
      && (forall i :: k + |r| <= i < |s| ==> IsJsWhitespace(s[i]))
  {
    var r, k := TrimEnd(t), |s| - |t|;
    forall i | k + |r| <= i < |s| ensures IsJsWhitespace(s[i]) {
      assert s[i] == t[i - k];
    }
  }

  /** Trimming the end of a text that starts with non-whitespace keeps that
      start. */
  lemma TrimEndKeepsStart(t: string)
    requires t == [] || !IsJsWhitespace(t[0])
    ensures TrimEnd(t) == [] || !IsJsWhitespace(TrimEnd(t)[0])
  {
    var r := TrimEnd(t);
    if r != [] {
      assert r[0] == t[0];
    }
  }

  /** Trimming twice is trimming once. */
  lemma TrimIdempotent(s: string)
    ensures Trim(Trim(s)) == Trim(s)
  {
    var r := Trim(s);
    TrimSpec(s);
    if r != [] {
      assert TrimStart(r) == r;
      assert TrimEnd(r) == r;
    }
  }

  /** A value trims to the empty string exactly when it is all whitespace. */
  lemma {:induction false} TrimEmptyIffBlank(s: string)
    ensures Trim(s) == [] <==> forall i :: 0 <= i < |s| ==> IsJsWhitespace(s[i])
  {
    TrimSpec(s);
    var r, k := Trim(s), |s| - |TrimStart(s)|;
    if r != [] {
      assert s[k] == r[0];
    }
  }

  // ---------------------------------------------------------------------------
  // Enums and defaults.

  /** The `enum` of `status`; None for any other text. */
  function ParseStatus(s: string): (r: Option<Status>)
    ensures r.Some? <==> s in StatusTexts
    ensures r.Some? ==> IsKnownStatus(r.value)
  {
    if s == "pending" then Some(Pending)
    else if s == "in_progress" then Some(InProgress)
    else if s == "completed" then Some(Completed)
    else None
  }

  /** The `enum` of `priority`; None for any other text. */
  function ParsePriority(s: string): (r: Option<Priority>)
    ensures r.Some? <==> s in ["low", "medium", "high"]
  {
    if s == "low" then Some(Low)
    else if s == "medium" then Some(Medium)
    else if s == "high" then Some(High)
    else None
  }

  /** The text each enum value is stored as. */
  function StatusText(s: Status): string {
    match s
    case Pending => "pending"
    case InProgress => "in_progress"
    case Completed => "completed"
    case Unrecognised(text) => text
  }

  function PriorityText(p: Priority): string {
    match p
    case Low => "low"
    case Medium => "medium"
    case High => "high"
  }

  /** Parsing is the inverse of the stored text on the schema's values, and
      the text of any other status is refused by the enum. */
  lemma EnumTextRoundTrip(s: Status, p: Priority)
    ensures IsKnownStatus(s) ==> ParseStatus(StatusText(s)) == Some(s)
    ensures !IsKnownStatus(s) ==> ParseStatus(StatusText(s)) == None
    ensures ParsePriority(PriorityText(p)) == Some(p)
  {
  }

  /** Distinct statuses are stored as distinct texts. */
  lemma StatusTextInjective(s1: Status, s2: Status)
    ensures StatusText(s1) == StatusText(s2) ==> s1 == s2
  {
  }

  /** `default: 'pending'` and `default: 'medium'` for an absent key. */
  function StatusOrDefault(v: Option<string>): Option<Status> {
    if v.None? then Some(Pending) else ParseStatus(v.value)
  }

  function PriorityOrDefault(v: Option<string>): Option<Priority> {
    if v.None? then Some(Medium) else ParsePriority(v.value)
  }

  // ---------------------------------------------------------------------------
  // Validators. A required String path fails when absent or empty (the value
  // is checked after the setters, so after trimming for `title`).

  function RequiredText(path: string, v: Option<string>): seq<FieldError> {
    if v.None? || v.value == "" then [Required(path)] else []
  }

  function InEnum<T>(path: string, v: Option<string>, parsed: Option<T>): seq<FieldError> {
    if v.Some? && parsed.None? then [NotInEnum(path, v.value)] else []
  }

  function TrimmedOpt(v: Option<string>): Option<string> {
    if v.None? then None else Some(Trim(v.value))
  }

  /** The schema paths that carry a validator, in schema order. */
  const CreatePaths: seq<string> := ["title", "status", "priority", "dueDate", "assignedTo", "createdBy"]

  /** Every validator failure of a new document, in schema path order: at
      most one per validated path, and a missing due date always among them. */
  function CreateErrors(input: TaskInput): (r: seq<FieldError>)
    ensures |r| <= 6
    ensures forall i :: 0 <= i < |r| ==> r[i].path in CreatePaths
    ensures Required("dueDate") in r <==> input.dueDate.None?
  {
    RequiredText("title", TrimmedOpt(input.title))
    + InEnum("status", input.status, StatusOrDefault(input.status))
    + InEnum("priority", input.priority, PriorityOrDefault(input.priority))
    + (if input.dueDate.None? then [Required("dueDate")] else [])
    + RequiredText("assignedTo", input.assignedTo)
    + RequiredText("createdBy", input.createdBy)
  }

  /** Some character of the text is not whitespace. */
  predicate HasContent(s: string) {
    exists i :: 0 <= i < |s| && !IsJsWhitespace(s[i])
  }

  /** What the schema demands of a new task, field by field. */
  predicate Acceptable(input: TaskInput) {
    && input.title.Some? && HasContent(input.title.value)
    && (input.status.Some? ==> input.status.value in ["pending", "in_progress", "completed"])
    && (input.priority.Some? ==> input.priority.value in ["low", "medium", "high"])
    && input.dueDate.Some?
    && input.assignedTo.Some? && input.assignedTo.value != ""
    && input.createdBy.Some? && input.createdBy.value != ""
  }

  lemma CreateErrorsEmptyIff(input: TaskInput)
    ensures CreateErrors(input) == [] <==> Acceptable(input)
  {
    var title := RequiredText("title", TrimmedOpt(input.title));
    var status := InEnum("status", input.status, StatusOrDefault(input.status));
    var priority := InEnum("priority", input.priority, PriorityOrDefault(input.priority));
    var due: seq<FieldError> := if input.dueDate.None? then [Required("dueDate")] else [];
    var assignee := RequiredText("assignedTo", input.assignedTo);
    var creator := RequiredText("createdBy", input.createdBy);
    assert |CreateErrors(input)| == |title| + |status| + |priority| + |due| + |assignee| + |creator|;
    assert title == [] <==> input.title.Some? && HasContent(input.title.value) by {
      if input.title.Some? {
        TrimEmptyIffBlank(input.title.value);
      }
    }
    assert status == [] <==> (input.status.Some? ==> input.status.value in ["pending", "in_progress", "completed"]);
    assert priority == [] <==> (input.priority.Some? ==> input.priority.value in ["low", "medium", "high"]);
  }

  /**
   * `new Task(body)` followed by validation on `save()`: either the list of
   * failures, or the normalised task with the store-assigned id and both
   * timestamps set to the save time.
   */
  function Validate(input: TaskInput, id: Id, now: int): (r: Result<Task, seq<FieldError>>)
    ensures r.Ok? <==> Acceptable(input)
    ensures r.Err? ==> r.error != []
    ensures r.Ok? ==>
      && r.value.id == id
      && r.value.title == Trim(input.title.value) && r.value.title != ""
      && r.value.description == TrimmedOpt(input.description)
      && r.value.status == (if input.status.None? then Pending else ParseStatus(input.status.value).value)
      && r.value.priority == (if input.priority.None? then Medium else ParsePriority(input.priority.value).value)
      && IsKnownStatus(r.value.status)
      && r.value.dueDate == input.dueDate.value
      && r.value.assignedTo == input.assignedTo.value
      && r.value.createdBy == input.createdBy.value
      && r.value.createdAt == now && r.value.updatedAt == now
  {
    CreateErrorsEmptyIff(input);
    var errors := CreateErrors(input);
    if errors != [] then Err(errors)
    else
      Ok(Task(id, Trim(input.title.value), TrimmedOpt(input.description),
              StatusOrDefault(input.status).value, PriorityOrDefault(input.priority).value,
              input.dueDate.value, input.assignedTo.value, input.createdBy.value, now, now))
  }

  /** A missing or blank title, a missing due date, assignee or creator each
      make validation fail and are named in the error list. */
  lemma RequiredFieldsReported(input: TaskInput, id: Id, now: int)
    ensures (input.title.None? || Trim(input.title.value) == "")
            ==> Validate(input, id, now).Err? && Required("title") in Validate(input, id, now).error
    ensures input.dueDate.None?
            ==> Validate(input, id, now).Err? && Required("dueDate") in Validate(input, id, now).error
    ensures (input.assignedTo.None? || input.assignedTo.value == "")
            ==> Validate(input, id, now).Err? && Required("assignedTo") in Validate(input, id, now).error
    ensures (input.createdBy.None? || input.createdBy.value == "")
            ==> Validate(input, id, now).Err? && Required("createdBy") in Validate(input, id, now).error
  {
    var errors := CreateErrors(input);
    if input.title.None? || Trim(input.title.value) == "" {
      assert errors[0] == Required("title");
    }
  }

  /** An out-of-enum status or priority is reported with its value. */
  lemma EnumViolationsReported(input: TaskInput, id: Id, now: int)
    ensures input.status.Some? && ParseStatus(input.status.value).None?
            ==> Validate(input, id, now).Err?
                && NotInEnum("status", input.status.value) in Validate(input, id, now).error
    ensures input.priority.Some? && ParsePriority(input.priority.value).None?
            ==> Validate(input, id, now).Err?
                && NotInEnum("priority", input.priority.value) in Validate(input, id, now).error
  {
  }

  // ---------------------------------------------------------------------------
  // `findByIdAndUpdate(id, {...body, updatedAt}, {runValidators: true})`:
  // update validators run only on the paths the body sets.

  /** The update validators report nothing the create validators would not
      report for the same body, and never a missing due date. */
  function UpdateErrors(input: TaskInput): (r: seq<FieldError>)
    ensures forall e :: e in r ==> e in CreateErrors(input)
    ensures Required("dueDate") !in r
  {
    (if input.title.Some? then RequiredText("title", TrimmedOpt(input.title)) else [])
    + InEnum("status", input.status, StatusOrDefault(input.status))
    + InEnum("priority", input.priority, PriorityOrDefault(input.priority))
    + (if input.assignedTo.Some? then RequiredText("assignedTo", input.assignedTo) else [])
    + (if input.createdBy.Some? then RequiredText("createdBy", input.createdBy) else [])
  }

  /** An update that sets nothing passes the update validators, and any
      update that sets every path passes them exactly when the same values
      would pass as a new document. */
  lemma UpdateErrorsAgreeWithCreate(input: TaskInput)
    ensures (input.title.None? && input.status.None? && input.priority.None?
             && input.assignedTo.None? && input.createdBy.None?) ==> UpdateErrors(input) == []
    ensures input.title.Some? && input.dueDate.Some? && input.assignedTo.Some? && input.createdBy.Some?
            ==> UpdateErrors(input) == CreateErrors(input)
  {
  }

  /** The stored task after a validated update: each path the body sets takes
      its normalised value, `updatedAt` becomes the update time, and the id,
      `createdAt` and every unset path keep their stored values. */
  function ApplyUpdate(t: Task, input: TaskInput, now: int): (r: Task)
    requires UpdateErrors(input) == []
    ensures r.id == t.id && r.createdAt == t.createdAt && r.updatedAt == now
    ensures r.title == (if input.title.Some? then Trim(input.title.value) else t.title)
    ensures r.description == (if input.description.Some? then Some(Trim(input.description.value)) else t.description)
    ensures input.status.Some? ==> Some(r.status) == ParseStatus(input.status.value)
    ensures input.status.None? ==> r.status == t.status
    ensures input.priority.Some? ==> Some(r.priority) == ParsePriority(input.priority.value)
    ensures input.priority.None? ==> r.priority == t.priority
    ensures r.dueDate == (if input.dueDate.Some? then input.dueDate.value else t.dueDate)
    ensures r.assignedTo == (if input.assignedTo.Some? then input.assignedTo.value else t.assignedTo)
    ensures r.createdBy == (if input.createdBy.Some? then input.createdBy.value else t.createdBy)
  {
    t.(
      title := if input.title.Some? then Trim(input.title.value) else t.title,
      description := if input.description.Some? then Some(Trim(input.description.value)) else t.description,
      status := if input.status.Some? then ParseStatus(input.status.value).value else t.status,
      priority := if input.priority.Some? then ParsePriority(input.priority.value).value else t.priority,
      dueDate := if input.dueDate.Some? then input.dueDate.value else t.dueDate,
      assignedTo := if input.assignedTo.Some? then input.assignedTo.value else t.assignedTo,
      createdBy := if input.createdBy.Some? then input.createdBy.value else t.createdBy,
      updatedAt := now
    )
  }

  /** A validated update keeps a task that satisfied the schema satisfying it:
      non-blank title, known status. */
  lemma UpdateKeepsSchemaInvariant(t: Task, input: TaskInput, now: int)
    requires UpdateErrors(input) == []
    requires t.title != "" && IsKnownStatus(t.status)
    ensures ApplyUpdate(t, input, now).title != ""
    ensures IsKnownStatus(ApplyUpdate(t, input, now).status)
  {
    if input.title.Some? {
      assert RequiredText("title", TrimmedOpt(input.title)) == [];
    }
  }

  /** Sending the same update body twice at the same time is sending it once. */
  lemma {:induction false} UpdateIdempotent(t: Task, input: TaskInput, now: int)
    requires UpdateErrors(input) == []
    ensures ApplyUpdate(ApplyUpdate(t, input, now), input, now) == ApplyUpdate(t, input, now)
  {
    if input.title.Some? {
      TrimIdempotent(input.title.value);
    }
    if input.description.Some? {
      TrimIdempotent(input.description.value);
    }
  }
}

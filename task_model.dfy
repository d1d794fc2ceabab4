/**
 * The task entity shared by the server store and the client list
 * (the schema in server/models/Task.js and the JSON the client receives).
 * Dates and timestamps are integers (milliseconds since the epoch).
 */
module TaskModel {
  import opened Wrappers

  type Id = string

  /** A status as stored text: the schema's three values, or some other text.
      The client's status cycle also handles a value outside the three
      (`indexOf` returning -1). */
  datatype RawStatus = Pending | InProgress | Completed | Unrecognised(text: string)

  /** The three texts the schema's `status` enum admits. */
  const StatusTexts: seq<string> := ["pending", "in_progress", "completed"]

  /** `status`: `Unrecognised` stands only for text that is none of the three
      enum values, so every text has exactly one representation. */
  type Status = s: RawStatus | !s.Unrecognised? || s.text !in StatusTexts witness Pending

  /** `priority`: the schema's enum. */
  datatype Priority = Low | Medium | High

  predicate IsKnownStatus(s: Status) {
    !s.Unrecognised?
  }

  /** One stored task, as the store returns it: `_id` plus the schema fields
      and the two timestamps the schema's `timestamps` option maintains.
      `description` is optional in the schema, hence an Option. */
  datatype Task = Task(
    id: Id,
    title: string,
    description: Option<string>,
    status: Status,
    priority: Priority,
    dueDate: int,
    assignedTo: string,
    createdBy: string,
    createdAt: int,
    updatedAt: int
  )

  /** The three Socket.IO events: a full task, or the bare id for a delete. */
  datatype Event = TaskCreated(task: Task) | TaskUpdated(task: Task) | TaskDeleted(id: Id)
}

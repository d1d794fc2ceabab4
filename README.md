# Task manager: the task list, its server and its screens

This project models the core of a small task manager:

- an Express/Mongoose server that stores tasks;
- a React client that keeps a copy of the task list in a context provider, updates it from REST responses and Socket.IO events, and renders cards, a form, statistics and a sort menu.

Each part of the source has its own module.

| module | source | form |
|---|---|---|
| `TaskModel` | server/models/Task.js | The task record and the three socket events. |
| `TaskSchema` | server/models/Task.js | The schema as a validator and normaliser. It covers `required`, `trim` with JavaScript's whitespace set, `enum`, `default` and the timestamps. It also covers the update validators that `findByIdAndUpdate(…, {runValidators: true})` runs. |
| `TaskController` | server/controllers/taskController.js | Class `TaskServer` with three fields: the collection (`store`, a map from id to task), whether an `io` server is attached, and the events emitted so far. Each handler is a method that returns the HTTP response. |
| `Reconcile` | client/src/context/TaskContext.jsx | The three list transforms that the REST handlers and socket handlers apply: append, replace by id and filter by id. Lemmas relate them. |
| `TaskContext` | client/src/context/TaskContext.jsx | Class `TaskProvider` with the `tasks` and `loading` state, and one method per handler. |
| `TaskItem` | client/src/components/TaskItem.jsx | The status cycle, progress width, border colour and due-date badge. Class `TaskCard` holds the edit state and the save and status-change handlers. |
| `TaskForm` | client/src/components/TaskForm.jsx | Class `TaskFormView` with the `formData` and `isExpanded` state, the setters and `handleSubmit`. |
| `TaskSort` | client/src/components/TaskFilter.jsx, client/src/components/TaskStats.jsx | The comparator, which both files repeat. It is modelled once, as a stable insertion sort. |
| `TaskStats` | client/src/components/TaskStats.jsx, client/src/components/TaskProgress.jsx | The status counts and the completion percentage. |
| `Sync` | all of the above | A predicate that says a client's list mirrors the server's collection. Complete round trips check whether each list still mirrors it. |

How the model stands in for the outside world:

- The network is a parameter. Each client handler receives what its awaited axios call produced: the response body, or an `HttpStatus`/`NetworkError` rejection.
- The database is the `store` map.
- Ids come from the store and times from the clock. Both are parameters.
- Dates are integers (milliseconds).
- Statuses are closed values with an `Unrecognised(text)` case. That case stands for any text other than the three enum values, which `indexOf` reports as -1. The `Status` type excludes `Unrecognised` of an enum text, so every text has exactly one representation.

Where the code and its documentation differ, the model follows the code:

- `createTask` and the `taskCreated` handler both append without looking at ids. So when the server emits, the client that created the task holds it twice (`Reconcile.CreateEchoDuplicates`, `Sync.EchoBreaksMirror`).
- server/server.js imports Socket.IO (line 5) but never calls `app.set('io', …)`. So `req.app.get('io')` is empty and nothing is ever emitted. The deployed server is the `TaskServer` built with `io == false`. The round trips show the cost: without events, every other client goes stale.
- A validation failure is not answered with 400. It reaches the error middleware and comes back as 500. So does saving under an id that is already taken.
- On update, the validators run before the lookup. An invalid body gives 500 even for an unknown id.
- A `taskUpdated` event for an id the list does not hold changes nothing.

## Model

| member | source | states |
|---|---|---|
| TaskSchema.TrimStart | server/models/Task.js:7 | The result is a suffix of the input that does not start with JavaScript whitespace. Everything dropped is whitespace. |
| TaskSchema.TrimEnd | server/models/Task.js:7 | The result is a prefix of the input that does not end with whitespace. Everything dropped is whitespace. |
| TaskSchema.Trim | server/models/Task.js:7 | The trimmed value is never longer than the input, and a non-empty result neither starts nor ends with whitespace. |
| TaskSchema.TrimSpec | server/models/Task.js:7 | The trimmed text is the slice of the input between a maximal whitespace prefix and a maximal whitespace suffix. |
| TaskSchema.TrimIdempotent | server/models/Task.js:7 | Trimming a trimmed value changes nothing. |
| TaskSchema.TrimEmptyIffBlank | server/models/Task.js:4-8 | A title trims to '' exactly when every character is whitespace. |
| TaskSchema.ParseStatus | server/models/Task.js:13-17 | A text parses if and only if it is one of the three enum strings, and each gives a known status. |
| TaskSchema.ParsePriority | server/models/Task.js:18-22 | A text parses if and only if it is one of `low`, `medium`, `high`. |
| TaskSchema.EnumTextRoundTrip | server/models/Task.js:13-22 | Parsing the stored text of a known status or of a priority gives it back. The text of an unrecognised status is refused by the enum. |
| TaskSchema.StatusTextInjective | server/models/Task.js:13-17 | Distinct statuses are stored as distinct texts. |
| TaskSchema.CreateErrors | server/models/Task.js:3-37 | At most six errors, each on a path that carries a validator. A missing due date is reported if and only if the body has none. |
| TaskSchema.CreateErrorsEmptyIff | server/models/Task.js:3-37 | The validator list is empty exactly when the body is acceptable, field by field: a non-blank title, enum-valid status and priority (when present), a due date, and non-empty assignee and creator. |
| TaskSchema.Validate | server/models/Task.js:3-37 | The body validates if and only if it is acceptable. Errors are never an empty list. A saved task has the given id, the trimmed title and description, the defaulted enums, the given owners and due date, and both timestamps equal to the save time. |
| TaskSchema.RequiredFieldsReported | server/models/Task.js:4-34 | A missing or blank title, or a missing due date, assignee or creator, fails validation and is named in the errors. |
| TaskSchema.EnumViolationsReported | server/models/Task.js:13-22 | A status or priority outside its enum fails validation and is reported with its value. |
| TaskSchema.UpdateErrors | server/controllers/taskController.js:35-39 | Every update-validator error is one the create validators would report for the same body, and a missing due date is never reported. |
| TaskSchema.UpdateErrorsAgreeWithCreate | server/controllers/taskController.js:35-39 | An empty update passes the update validators. An update that sets every path passes them exactly as the same values would pass on create. |
| TaskSchema.ApplyUpdate | server/controllers/taskController.js:35-39 | Each path the body sets takes its normalised value. Unset paths, the id and `createdAt` are kept. `updatedAt` becomes the update time. |
| TaskSchema.UpdateKeepsSchemaInvariant | server/controllers/taskController.js:35-39 | A validated update of a valid task keeps the title non-blank and the status known. |
| TaskSchema.UpdateIdempotent | server/controllers/taskController.js:35-39 | Applying the same update body twice at the same time is the same as applying it once. |
| TaskController.InsertNewestFirst | server/controllers/taskController.js:6 | Inserting into a newest-first listing keeps it newest first. It adds exactly that task and its id. |
| TaskController.TaskServer.constructor | server/server.js:5 | An empty collection with no events. Whether `io` is attached is a parameter. |
| TaskController.TaskServer.GetAllTasks | server/controllers/taskController.js:5-8 | The listing holds every stored id exactly once (as a multiset), each entry is the stored task, and the list is ordered by `createdAt` descending. |
| TaskController.TaskServer.GetTaskById | server/controllers/taskController.js:11-17 | Returns 200 with the stored task, or 404 with "Task not found". |
| TaskController.TaskServer.CreateTask | server/controllers/taskController.js:20-31 | An invalid body gives 500 with the errors and no change. A taken id gives 500 and no change. Otherwise the response is 201 with the saved task, the store gains exactly that entry, and `taskCreated` is emitted only when `io` is attached. The schema invariant is kept. |
| TaskController.TaskServer.UpdateTask | server/controllers/taskController.js:34-52 | Invalid body: 500 (checked first). Unknown id: 404. Otherwise 200 with the updated task, the store changed at that id only, and `taskUpdated` emitted only when `io` is attached. |
| TaskController.TaskServer.DeleteTask | server/controllers/taskController.js:55-71 | Unknown id: 404 and no change. Otherwise 200 with the message and id, the id removed from the store, and `taskDeleted` emitted only when `io` is attached. |
| Reconcile.Appended | client/src/context/TaskContext.jsx:42 | The old list with the new task after it. |
| Reconcile.ReplacedById | client/src/context/TaskContext.jsx:55-57 | Same length. Each entry carrying the id becomes the new record, and every other entry is kept. |
| Reconcile.RemovedById | client/src/context/TaskContext.jsx:69 | A task is in the result if and only if it was in the list and does not carry the id. |
| Reconcile.RemovedDistributes | client/src/context/TaskContext.jsx:69 | Filtering distributes over concatenation, so the survivors keep their order. |
| Reconcile.RemovedLength | client/src/context/TaskContext.jsx:69 | Exactly the entries carrying the id are dropped, and none is left. |
| Reconcile.RemoveAbsentIsNoop | client/src/context/TaskContext.jsx:91 | Deleting an id nobody carries leaves the list as it was. |
| Reconcile.RemoveIdempotent | client/src/context/TaskContext.jsx:91 | A repeated delete is a single delete. |
| Reconcile.RemovesCommute | client/src/context/TaskContext.jsx:91 | Deletes of two ids commute. |
| Reconcile.ReplaceAbsentIsNoop | client/src/context/TaskContext.jsx:85-87 | An update for an id nobody carries adds nothing and changes nothing. |
| Reconcile.ReplaceIdempotent | client/src/context/TaskContext.jsx:85-87 | A repeated update is a single update. |
| Reconcile.LaterUpdateWins | client/src/context/TaskContext.jsx:85-87 | Of two updates to the same id, the later record wins. |
| Reconcile.CreateEchoDuplicates | client/src/context/TaskContext.jsx:80-82 | The REST append followed by the echo append leaves two more entries with that id, so a new task appears twice. |
| Reconcile.DeleteUndoesCreate | client/src/context/TaskContext.jsx:90-92 | Deleting the id of a just-created task removes every copy of it. It restores the list when the id was absent before. |
| Reconcile.ApplyEvent | client/src/context/TaskContext.jsx:80-92 | An event adds no task except its own payload (none for a delete), and every task with another id survives it. |
| Reconcile.UpdateAndDeleteEventsIdempotent | client/src/context/TaskContext.jsx:84-92 | A repeated `taskUpdated` or `taskDeleted` event changes nothing. |
| Reconcile.CreateCommutes | client/src/context/TaskContext.jsx:80-92 | A creation commutes with an update or delete of a different id. |
| Reconcile.RemoveReplaceCommute | client/src/context/TaskContext.jsx:84-92 | An update and a delete of different ids commute. |
| Reconcile.ReplacesCommute | client/src/context/TaskContext.jsx:84-88 | Updates of different ids commute. |
| Reconcile.EventsOnDistinctIdsCommute | client/src/context/TaskContext.jsx:78-93 | Events on different ids give the same list in either order, except for two creations. Those give the same entries with the same multiplicities. |
| TaskContext.TaskProvider.constructor | client/src/context/TaskContext.jsx:20-21 | An empty list, loading. |
| TaskContext.TaskProvider.FetchTasks | client/src/context/TaskContext.jsx:25-36 | A listing replaces the list, and a failure keeps it. `loading` ends false either way. |
| TaskContext.TaskProvider.CreateTask | client/src/context/TaskContext.jsx:39-49 | Success appends the created task. Failure keeps the list and rethrows the error. |
| TaskContext.TaskProvider.UpdateTask | client/src/context/TaskContext.jsx:52-63 | Success replaces by the request's id. Failure is swallowed and changes nothing. |
| TaskContext.TaskProvider.DeleteTask | client/src/context/TaskContext.jsx:66-75 | Success filters out the id. Failure changes nothing. |
| TaskContext.TaskProvider.OnTaskCreated | client/src/context/TaskContext.jsx:80-82 | Appends the payload. |
| TaskContext.TaskProvider.OnTaskUpdated | client/src/context/TaskContext.jsx:84-88 | Replaces by the payload's own id. |
| TaskContext.TaskProvider.OnTaskDeleted | client/src/context/TaskContext.jsx:90-92 | Filters out the id. |
| TaskContext.TaskProvider.OnEvent | client/src/context/TaskContext.jsx:78-93 | The list becomes `ApplyEvent` of the old list and the event. |
| TaskItem.IndexOf | client/src/components/TaskItem.jsx:60 | Returns -1 exactly when the value is absent. Otherwise it is the first position holding the value. |
| TaskItem.NextStatus | client/src/components/TaskItem.jsx:58-61 | The next status is always one of the three known statuses. |
| TaskItem.StatusIndex | client/src/components/TaskItem.jsx:59-60 | The positions of pending, in_progress and completed are 0, 1 and 2. Any other status gives -1. |
| TaskItem.StatusCycle | client/src/components/TaskItem.jsx:58-62 | The cycle is pending → in_progress → completed → pending. An unrecognised status advances to pending. |
| TaskItem.ThreeAdvancesReturn | client/src/components/TaskItem.jsx:59-61 | Three clicks return a known status to itself. |
| TaskItem.StatusChangePayload | client/src/components/TaskItem.jsx:62 | The body sent is the task with only its status advanced. |
| TaskItem.ProgressWidth | client/src/components/TaskItem.jsx:40-56 | A width exists exactly for the three known statuses. |
| TaskItem.ProgressWidthFollowsCycle | client/src/components/TaskItem.jsx:40-61 | The width is 50 times the position in the cycle. Each advance short of wrapping adds 50. |
| TaskItem.Border | client/src/components/TaskItem.jsx:97 | Green if and only if completed. Rose if and only if not completed and high priority. Purple otherwise. |
| TaskItem.BorderIgnoresOtherFields | client/src/components/TaskItem.jsx:97 | The border depends only on status, and on priority when not completed. |
| TaskItem.DaysLeft | client/src/components/TaskItem.jsx:78-84 | The ceiling of the time left in days: `(d-1)·day < due-now <= d·day`. |
| TaskItem.DueBadgeColour | client/src/components/TaskItem.jsx:244-246 | Red if and only if at most 0 days are left. Amber if and only if 1 to 3 days are left. |
| TaskItem.DueLabel | client/src/components/TaskItem.jsx:249-252 | Within three days of the due date, or past it, the label is one of four fixed texts whatever the date. Beyond that it is the formatted date. |
| TaskItem.DueBadgeBands | client/src/components/TaskItem.jsx:243-253 | The label for each band ("Overdue", "Due tomorrow", "Due in 2 days", "Due in 3 days", the formatted date) and its colour. |
| TaskItem.ApplyEdit | client/src/components/TaskItem.jsx:70-76 | Only the named field changes. Id, owners and timestamps are kept. |
| TaskItem.EditsOfOneFieldOverwrite | client/src/components/TaskItem.jsx:70-76 | For any two edits: if they name the same field, the later one overwrites the earlier one; if they name different fields, they commute. |
| TaskItem.TaskCard.constructor | client/src/components/TaskItem.jsx:18-19 | Not editing, and the edit copy is the task. |
| TaskItem.TaskCard.ReceiveProps | client/src/components/TaskItem.jsx:16-19 | A new `task` prop replaces the old one. Edit mode and the edit copy are kept, as `useState` keeps them. |
| TaskItem.TaskCard.StartEditing | client/src/components/TaskItem.jsx:205 | Enters edit mode and keeps the edit copy. |
| TaskItem.TaskCard.CancelEditing | client/src/components/TaskItem.jsx:166 | Leaves edit mode and keeps the edits made so far. |
| TaskItem.TaskCard.HandleChange | client/src/components/TaskItem.jsx:70-76 | The edit copy becomes the edit applied to it. |
| TaskItem.TaskCard.HandleSave | client/src/components/TaskItem.jsx:65-68 | Sends the edit copy for the card's id. The list is updated as `updateTask` does, and `loading` is untouched. The card always leaves edit mode. |
| TaskItem.TaskCard.HandleStatusChange | client/src/components/TaskItem.jsx:58-63 | Sends the current `task` prop with the next status. The list is updated as `updateTask` does, and `loading` is untouched. |
| TaskForm.InitialForm | client/src/components/TaskForm.jsx:10-18 | The form starts with an empty title and description, pending, medium, today, and user123 as both owners. |
| TaskForm.RequestBody | client/src/components/TaskForm.jsx:22 | Every key is sent. Texts go verbatim, the date as the form holds it, the priority as an enum text, and the status as an enum text exactly when it is a known status. |
| TaskForm.SubmittedFormValidates | client/src/components/TaskForm.jsx:20-22 | A submitted form is saved exactly when its title has a non-whitespace character, its date is set, and both owners are non-empty. The saved task carries the trimmed text, the chosen status and priority, and the due date. |
| TaskForm.ClearedDateIsRejected | client/src/components/TaskForm.jsx:96 | Submitting with the date input cleared fails validation, with the due date among the errors. |
| TaskForm.InitialFormIsRejected | client/src/components/TaskForm.jsx:10-22 | Submitting the untouched form fails on the title. |
| TaskForm.TaskFormView.constructor | client/src/components/TaskForm.jsx:9-18 | Collapsed, with the initial form. |
| TaskForm.TaskFormView.SetTitle | client/src/components/TaskForm.jsx:74 | Only the title changes. |
| TaskForm.TaskFormView.SetDueDate | client/src/components/TaskForm.jsx:96 | Only the due date changes; clearing the input makes it absent. |
| TaskForm.TaskFormView.ChoosePriority | client/src/components/TaskForm.jsx:113 | Only the priority changes. |
| TaskForm.TaskFormView.SetDescription | client/src/components/TaskForm.jsx:132 | Only the description changes. |
| TaskForm.TaskFormView.ToggleExpanded | client/src/components/TaskForm.jsx:65 | Flips `isExpanded` and keeps the form. |
| TaskForm.TaskFormView.Expand | client/src/components/TaskForm.jsx:76 | Expands and keeps the form. |
| TaskForm.TaskFormView.Collapse | client/src/components/TaskForm.jsx:144 | Collapses and keeps the form. |
| TaskForm.TaskFormView.HandleSubmit | client/src/components/TaskForm.jsx:20-29 | Posts the form. `loading` is untouched. On failure, the error propagates and the form and expansion are untouched. On success, the task is appended, only the title and description are cleared, and the form collapses. |
| TaskSort.PriorityRank | client/src/components/TaskFilter.jsx:65-69 | Ranks run from 1 to 3. |
| TaskSort.StatusRank | client/src/components/TaskFilter.jsx:71-72 | A rank exists exactly for the three known statuses. |
| TaskSort.Compare | client/src/components/TaskFilter.jsx:58-78 | Unless it ranks statuses and one of them has no rank, the comparator is the difference of the two tasks' sort values. A missing rank (NaN) and an unknown key give 0. |
| TaskSort.Insert | client/src/components/TaskFilter.jsx:58 | One insertion step adds exactly the one task (as a multiset). |
| TaskSort.InsertSorted | client/src/components/TaskFilter.jsx:58-78 | Inserting into a list sorted by a consistent key keeps it sorted. |
| TaskSort.SortedCopy | client/src/components/TaskFilter.jsx:58 | The sorted copy is a permutation of the tasks. |
| TaskSort.SortedCopySorted | client/src/components/TaskFilter.jsx:58-78 | The sorted copy is in non-decreasing sort value whenever the comparator is consistent on the list. |
| TaskSort.UnknownKeyKeepsOrder | client/src/components/TaskFilter.jsx:75-76 | An unknown sort value (comparator 0) leaves the order unchanged, because the sort is stable. |
| TaskSort.SortOptionsOrder | client/src/components/TaskFilter.jsx:59-74 | Each option orders as its label says: earliest or latest due date first, high or low priority first, newest first. |
| TaskSort.StatusSortGroups | client/src/components/TaskFilter.jsx:70-72 | With every status ranked, completed tasks come before in-progress ones, which come before pending ones. |
| TaskSort.SortTasks | client/src/components/TaskStats.jsx:63-87 | An empty or absent `sortBy` returns the input itself. Otherwise the result is a sorted permutation. |
| TaskSort.SortSelection.HandleSort | client/src/components/TaskFilter.jsx:54-80 | Records the option and returns the sorted copy for it. |
| TaskSort.SortSelection.ClearSort | client/src/components/TaskFilter.jsx:129 | Resets `sortBy` to ''. |
| TaskStats.CountStatus | client/src/components/TaskStats.jsx:29-31 | The count is at most the total. It is the total if and only if every task has the status, and 0 if and only if none has it. |
| TaskStats.StatsOf | client/src/components/TaskStats.jsx:27-32 | The total and the three counts, which together never exceed the total. |
| TaskStats.BucketsPartition | client/src/components/TaskStats.jsx:27-32 | The three counts sum to at most the total, and to exactly the total when every status is known. |
| TaskStats.InProgressPlusCompletedBounded | client/src/components/TaskProgress.jsx:39-47 | The in-progress and completed counts together never exceed the total. |
| TaskStats.CompletionPercent | client/src/components/TaskStats.jsx:43 | At most 100, and the round-half-up of the exact ratio `100·c/t`: `2tp <= 200c+t < 2t(p+1)`. |
| TaskStats.PercentBounds | client/src/components/TaskProgress.jsx:8-12 | 0 when none are completed, and 100 when all are. 199 of 200 also reads 100. |
| TaskStats.PercentMonotone | client/src/components/TaskStats.jsx:43 | For a fixed total, more completed tasks never lower the percentage. |
| TaskStats.Progress | client/src/components/TaskProgress.jsx:8-12 | A percentage: at most 100, and 0 for an empty list. |
| TaskStats.ProgressExtremes | client/src/components/TaskProgress.jsx:8-12 | The progress is 0 for an empty list or when no task is completed, 100 when every task is completed, and at most 100 always. |
| Sync.ListingMirrors | client/src/context/TaskContext.jsx:29 | The full listing installed by a fetch mirrors the collection. |
| Sync.CreateKeepsMirror | client/src/context/TaskContext.jsx:42 | Appending the task saved under a fresh id keeps the mirror. |
| Sync.UpdateKeepsMirror | client/src/context/TaskContext.jsx:55-57 | Replacing by id with the stored record keeps the mirror. |
| Sync.DeleteKeepsMirror | client/src/context/TaskContext.jsx:69 | Filtering out a deleted id keeps the mirror. |
| Sync.EchoBreaksMirror | client/src/context/TaskContext.jsx:80-82 | A task appended twice (response and echo) mirrors no collection. |
| Sync.FetchRoundTrip | client/src/context/TaskContext.jsx:25-36 | After a fetch, the client mirrors the store whatever it held before. |
| Sync.DeliverCreate | client/src/context/TaskContext.jsx:39-49 | Delivering a create response and its echo: the other client mirrors the store when `io` is attached, and the originator does not. |
| Sync.CreateRoundTrip | server/controllers/taskController.js:20-31 | Without `io`, the originator mirrors the store and the other client is unchanged (stale). With `io`, the other client mirrors it and, after a 201, the originator does not. |
| Sync.DeliverUpdate | client/src/context/TaskContext.jsx:52-63 | Delivering an update response and its echo: the originator always mirrors the store, and the other client does when an event arrives. |
| Sync.UpdateRoundTrip | server/controllers/taskController.js:34-52 | The originator mirrors the store after any update. The other client mirrors it only with `io`, or when nothing changed. |
| Sync.DeliverDelete | client/src/context/TaskContext.jsx:66-75 | Delivering a delete response and its echo: the originator always mirrors the store, and the other client does when an event arrives. |
| Sync.DeleteRoundTrip | server/controllers/taskController.js:55-71 | The originator mirrors the store after any delete. The other client mirrors it only with `io`, or when nothing changed. |

## Left out

- Rendering, animations, icons, toasts and `console` logging are not modelled. They do not affect state.
- `format(dueDate, 'MMM d')` and `format(new Date(), 'yyyy-MM-dd')` are not computed. The badge takes the formatted text as a parameter, and the form's initial date is a parameter.
- Floating point is not modelled. `Math.ceil` of the day count is computed on integer milliseconds.
- TaskStats.CompletionPercent: rounds the exact ratio half up, while the source rounds the double-precision `(c / t) * 100`. They differ where that product falls just below a half: 23 of 40 is `57.49999999999999` in double precision, so the source shows 57 and the model 58 (likewise 29 of 200 gives 14 against 15, and 57 of 200 gives 28 against 29). `TaskStats.Progress` inherits the difference.
- Request bodies that carry `_id`, `createdAt`, `updatedAt` or `__v` are not modelled. `handleStatusChange` and `handleSave` send such a body, and those keys are not modelled.
- Ids that are not valid ObjectIds are not modelled. The server would answer them with a cast error (500). In the model, every id is a valid key.
- Mongoose's error messages and the error middleware's JSON body are not modelled. The model keeps only the status code and the list of failing paths.
- Ordering under an inconsistent comparator is not modelled. `status` sorting with an unrecognised status yields a NaN comparison, which the model treats as 0. There the model proves only that the result is a permutation. `TaskSort.SortTasks` states sortedness only when every status has a rank.
- The reconnect policy of client/src/hooks/useSocket.js is not modelled. The socket appears only as events delivered to `OnEvent`.
- The `fetchTasks` defined inside client/src/components/TaskStats.jsx (lines 90-103) is not modelled. It is never called, and it refers to names that are not in scope.
- The context provides no `filters` or `setFilters`, so TaskFilter as written throws when it renders `filters.sortBy`. `TaskSort.SortSelection` models the evident intent: a `sortBy` cell that the sort options write. For that reason its constructor has no source row.
- The card's edit form date input yields a string, but `TaskItem.ApplyEdit` keeps `dueDate` as an integer, so clearing that input is not modelled. Priority is a closed type, so a stored priority outside the enum (which would make `priorityConfig[...]` throw) is not representable.
- The wall clock and the store's id generator are parameters (`now`, `newId`).
- Concurrency between requests is not modelled. Each round trip in `Sync` runs to completion, and the echo is delivered right after the REST response.
- server/config/db.js, the routes file, server.js beyond its `io` wiring, App.jsx, TaskList.jsx, Welcome.jsx and Notification.jsx are not part of this model.

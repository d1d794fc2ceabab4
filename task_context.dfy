/**
 * The client's task provider (client/src/context/TaskContext.jsx): the
 * `tasks` and `loading` state cells and the handlers that overwrite them.
 * Each REST handler receives what its awaited axios call produced (the
 * response body or the rejection), so the network is a parameter; each
 * socket handler receives the event payload.
 */
module TaskContext {
  import opened Wrappers
  import opened TaskModel
  import opened Reconcile

  /** Why an axios call rejected: a non-2xx status or no response at all. */
  datatype RequestError = HttpStatus(code: int) | NetworkError

  class TaskProvider {
    var tasks: seq<Task>
    var loading: bool

    /** `useState([])` and `useState(true)`. */
    constructor()
      ensures tasks == [] && loading
    {
      tasks := [];
      loading := true;
    }

    /** `fetchTasks`: the listing replaces the whole list; a failed request
        keeps it; `loading` is false afterwards either way. */
    method FetchTasks(response: Result<seq<Task>, RequestError>)
      modifies this
      ensures tasks == (if response.Ok? then response.value else old(tasks))
      ensures !loading
    {
      loading := true;
      if response.Ok? {
        tasks := response.value;
      }
      loading := false;
    }

    /** `createTask`: the created task is appended; a failure leaves the
        list alone and is rethrown to the caller. */
    method CreateTask(response: Result<Task, RequestError>) returns (thrown: Option<RequestError>)
      modifies this
      ensures tasks == (if response.Ok? then Appended(old(tasks), response.value) else old(tasks))
      ensures thrown == (if response.Ok? then None else Some(response.error))
      ensures loading == old(loading)
    {
      match response
      case Ok(created) =>
        tasks := Appended(tasks, created);
        thrown := None;
      case Err(e) =>
        thrown := Some(e);
    }

    /** `updateTask(taskId, data)`: entries whose id is `taskId` (the request's
        id, not the response's) become the response body; a failure is
        swallowed and leaves the list alone. */
    method UpdateTask(taskId: Id, response: Result<Task, RequestError>)
      modifies this
      ensures tasks == (if response.Ok? then ReplacedById(old(tasks), taskId, response.value) else old(tasks))
      ensures loading == old(loading)
    {
      if response.Ok? {
        tasks := ReplacedById(tasks, taskId, response.value);
      }
    }

    /** `deleteTask(taskId)`: entries with the id are dropped once the request
        succeeds; a failure is swallowed and leaves the list alone. */
    method DeleteTask(taskId: Id, response: Result<Id, RequestError>)
      modifies this
      ensures tasks == (if response.Ok? then RemovedById(old(tasks), taskId) else old(tasks))
      ensures loading == old(loading)
    {
      if response.Ok? {
        tasks := RemovedById(tasks, taskId);
      }
    }

    /** The `taskCreated` handler: appends without looking at ids. */
    method OnTaskCreated(newTask: Task)
      modifies this
      ensures tasks == ApplyEvent(old(tasks), TaskCreated(newTask))
      ensures loading == old(loading)
    {
      tasks := Appended(tasks, newTask);
    }

    /** The `taskUpdated` handler: matches on the payload's own id. */
    method OnTaskUpdated(updatedTask: Task)
      modifies this
      ensures tasks == ApplyEvent(old(tasks), TaskUpdated(updatedTask))
      ensures loading == old(loading)
    {
      tasks := ReplacedById(tasks, updatedTask.id, updatedTask);
    }

    /** The `taskDeleted` handler: the payload is the bare id. */
    method OnTaskDeleted(taskId: Id)
      modifies this
      ensures tasks == ApplyEvent(old(tasks), TaskDeleted(taskId))
      ensures loading == old(loading)
    {
      tasks := RemovedById(tasks, taskId);
    }

    /** Whatever the socket delivers, dispatched to its handler. */
    method OnEvent(e: Event)
      modifies this
      ensures tasks == ApplyEvent(old(tasks), e)
      ensures loading == old(loading)
    {
      match e
      case TaskCreated(t) => OnTaskCreated(t);
      case TaskUpdated(t) => OnTaskUpdated(t);
      case TaskDeleted(id) => OnTaskDeleted(id);
    }
  }
}

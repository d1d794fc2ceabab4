/**
 * The request handlers of server/controllers/taskController.js over an
 * abstract document store. Each handler validates, changes the store,
 * emits a Socket.IO event when the app holds an `io` server, and responds.
 * A thrown error (a failed validation, a duplicate key on save) reaches the
 * app's error middleware, which answers 500.
 */
module TaskController {
  import opened Wrappers
  import opened TaskModel
  import opened TaskSchema

  /** The errors the handlers throw, as the error middleware receives them. */
  datatype ServerError = ValidationFailed(errors: seq<FieldError>) | DuplicateKey(id: Id)

  datatype Body =
    | TaskBody(task: Task)
    | TaskListBody(tasks: seq<Task>)
    | NotFound(message: string)
    | DeletedBody(message: string, id: Id)
    | InternalError(cause: ServerError)

  datatype Response = Response(status: int, body: Body)

  const TaskNotFound: Response := Response(404, NotFound("Task not found"))

  /** The ids of a listing, in order. */
  function Ids(ts: seq<Task>): (r: seq<Id>)
    ensures |r| == |ts|
    ensures forall i :: 0 <= i < |ts| ==> r[i] == ts[i].id
  {
    seq(|ts|, i requires 0 <= i < |ts| => ts[i].id)
  }

  /** The order of `sort({ createdAt: -1 })`. */
  predicate NewestFirst(ts: seq<Task>) {
    forall i, j :: 0 <= i < j < |ts| ==> ts[i].createdAt >= ts[j].createdAt
  }

  /** Where a task goes in a newest-first listing: after every strictly newer
      entry, before the first entry that is not newer. */
  function NewestFirstSlot(t: Task, ts: seq<Task>): (k: nat)
    ensures k <= |ts|
    ensures forall i :: 0 <= i < k ==> ts[i].createdAt > t.createdAt
    ensures k < |ts| ==> t.createdAt >= ts[k].createdAt
  {
    if ts == [] || t.createdAt >= ts[0].createdAt then 0 else 1 + NewestFirstSlot(t, ts[1..])
  }

  /** Places a task into a newest-first listing, keeping it newest first and
      adding exactly that task and its id. */
  function InsertNewestFirst(t: Task, ts: seq<Task>): (r: seq<Task>)
    requires NewestFirst(ts)
    ensures NewestFirst(r)
    ensures forall x :: x in r <==> x in ts || x == t
    ensures multiset(Ids(r)) == multiset(Ids(ts)) + multiset{t.id}
  {
    var k := NewestFirstSlot(t, ts);
    SpliceNewestFirst(t, ts, k);
    SpliceIds(t, ts, k);
    assert ts == ts[..k] + ts[k..];
    ts[..k] + [t] + ts[k..]
  }

  lemma SpliceNewestFirst(t: Task, ts: seq<Task>, k: nat)
    requires NewestFirst(ts) && k == NewestFirstSlot(t, ts)
    ensures NewestFirst(ts[..k] + [t] + ts[k..])
  {
    var r := ts[..k] + [t] + ts[k..];
    forall i, j | 0 <= i < j < |r| ensures r[i].createdAt >= r[j].createdAt {
      SplicePair(t, ts, k, i, j);
    }
  }

  lemma SplicePair(t: Task, ts: seq<Task>, k: nat, i: nat, j: nat)
    requires NewestFirst(ts) && k == NewestFirstSlot(t, ts)
    requires i < j <= |ts|
    ensures (ts[..k] + [t] + ts[k..])[i].createdAt >= (ts[..k] + [t] + ts[k..])[j].createdAt
  {
    var r := ts[..k] + [t] + ts[k..];
    assert r[i] == (if i < k then ts[i] else if i == k then t else ts[i - 1]);
    assert r[j] == (if j < k then ts[j] else if j == k then t else ts[j - 1]);
    if i == k {
      assert t.createdAt >= ts[k].createdAt;
    } else if i < k && k < j {
      assert ts[i].createdAt > t.createdAt >= ts[k].createdAt;
    }
  }

  lemma SpliceIds(t: Task, ts: seq<Task>, k: nat)
    requires k <= |ts|
    ensures multiset(Ids(ts[..k] + [t] + ts[k..])) == multiset(Ids(ts)) + multiset{t.id}
  {
    var ids := Ids(ts);
    assert Ids(ts[..k] + [t] + ts[k..]) == ids[..k] + [t.id] + ids[k..];
    assert ids == ids[..k] + ids[k..];
  }

  /** Moving one key from the unvisited set to the visited ones. */
  lemma TakeKey(keys: set<Id>, rest: set<Id>, id: Id)
    requires rest <= keys && id in rest
    ensures multiset(keys - (rest - {id})) == multiset(keys - rest) + multiset{id}
  {
    assert keys - (rest - {id}) == (keys - rest) + {id};
  }

  class TaskServer {
    /** The collection, keyed by `_id`. */
    var store: map<Id, Task>
    /** Whether `req.app.get('io')` yields a Socket.IO server. */
    const io: bool
    /** Every event emitted so far, in order. */
    var emitted: seq<Event>

    /** Every stored task sits under its own id and satisfies the schema, and
        nothing is ever emitted without an `io` server. */
    ghost predicate Valid()
      reads this
    {
      && (forall id :: id in store ==> store[id].id == id)
      && (forall id :: id in store ==> store[id].title != "" && IsKnownStatus(store[id].status))
      && (io || emitted == [])
    }

    /** An empty collection. server/server.js never calls `app.set('io', …)`,
        so the deployed server is the one built with `io == false`. */
    constructor(io: bool)
      ensures Valid()
      ensures store == map[] && emitted == [] && this.io == io
    {
      store := map[];
      this.io := io;
      emitted := [];
    }

    /** `getAllTasks`: every stored task exactly once, newest first. */
    method GetAllTasks() returns (resp: Response)
      requires Valid()
      ensures resp.status == 200 && resp.body.TaskListBody?
      ensures multiset(Ids(resp.body.tasks)) == multiset(store.Keys)
      ensures forall i :: 0 <= i < |resp.body.tasks| ==>
                resp.body.tasks[i].id in store && store[resp.body.tasks[i].id] == resp.body.tasks[i]
      ensures NewestFirst(resp.body.tasks)
    {
      var listing: seq<Task> := [];
      var rest := store.Keys;
      while rest != {}
        invariant rest <= store.Keys
        invariant NewestFirst(listing)
        invariant multiset(Ids(listing)) == multiset(store.Keys - rest)
        invariant forall i :: 0 <= i < |listing| ==> listing[i].id in store && store[listing[i].id] == listing[i]
        decreases rest
      {
        var id :| id in rest;
        var before := listing;
        listing := InsertNewestFirst(store[id], listing);
        TakeKey(store.Keys, rest, id);
        forall i | 0 <= i < |listing|
          ensures listing[i].id in store && store[listing[i].id] == listing[i]
        {
          assert listing[i] in listing;
        }
        rest := rest - {id};
      }
      resp := Response(200, TaskListBody(listing));
    }

    /** `getTaskById`: the stored task, or 404 for an unknown id. */
    method GetTaskById(id: Id) returns (resp: Response)
      ensures id in store ==> resp == Response(200, TaskBody(store[id]))
      ensures id !in store ==> resp == TaskNotFound
    {
      if id !in store {
        return TaskNotFound;
      }
      resp := Response(200, TaskBody(store[id]));
    }

    /** `createTask`: a valid body is saved under the store-assigned id,
        announced when `io` is set, and answered with 201 and the saved task;
        a failed validation or a taken id answers 500 and changes nothing. */
    method CreateTask(body: TaskInput, newId: Id, now: int) returns (resp: Response)
      requires Valid()
      modifies this
      ensures Valid()
      ensures match Validate(body, newId, now)
        case Err(errors) =>
          resp == Response(500, InternalError(ValidationFailed(errors)))
          && store == old(store) && emitted == old(emitted)
        case Ok(saved) =>
          if newId in old(store) then
            resp == Response(500, InternalError(DuplicateKey(newId)))
            && store == old(store) && emitted == old(emitted)
          else
            resp == Response(201, TaskBody(saved))
            && store == old(store)[newId := saved]
            && emitted == old(emitted) + (if io then [TaskCreated(saved)] else [])
    {
      var validated := Validate(body, newId, now);
      if validated.Err? {
        return Response(500, InternalError(ValidationFailed(validated.error)));
      }
      if newId in store {
        return Response(500, InternalError(DuplicateKey(newId)));
      }
      var saved := validated.value;
      store := store[newId := saved];
      if io {
        emitted := emitted + [TaskCreated(saved)];
      }
      resp := Response(201, TaskBody(saved));
    }

    /** `updateTask`: the update validators run first (500 on failure), then
        an unknown id answers 404; otherwise only the target record changes,
        its `updatedAt` becomes the update time, and the response body is the
        same task the `taskUpdated` event carries. */
    method UpdateTask(id: Id, body: TaskInput, now: int) returns (resp: Response)
      requires Valid()
      modifies this
      ensures Valid()
      ensures UpdateErrors(body) != [] ==>
        resp == Response(500, InternalError(ValidationFailed(UpdateErrors(body))))
        && store == old(store) && emitted == old(emitted)
      ensures UpdateErrors(body) == [] && id !in old(store) ==>
        resp == TaskNotFound && store == old(store) && emitted == old(emitted)
      ensures UpdateErrors(body) == [] && id in old(store) ==>
        var updated := ApplyUpdate(old(store)[id], body, now);
        && resp == Response(200, TaskBody(updated))
        && store == old(store)[id := updated]
        && updated.updatedAt == now
        && emitted == old(emitted) + (if io then [TaskUpdated(updated)] else [])
    {
      var errors := UpdateErrors(body);
      if errors != [] {
        return Response(500, InternalError(ValidationFailed(errors)));
      }
      if id !in store {
        return TaskNotFound;
      }
      var updated := ApplyUpdate(store[id], body, now);
      UpdateKeepsSchemaInvariant(store[id], body, now);
      store := store[id := updated];
      if io {
        emitted := emitted + [TaskUpdated(updated)];
      }
      resp := Response(200, TaskBody(updated));
    }

    /** `deleteTask`: an unknown id answers 404 and changes nothing; otherwise
        only that id leaves the store, `taskDeleted` carries the bare id, and
        the response names the id. */
    method DeleteTask(id: Id) returns (resp: Response)
      requires Valid()
      modifies this
      ensures Valid()
      ensures id !in old(store) ==>
        resp == TaskNotFound && store == old(store) && emitted == old(emitted)
      ensures id in old(store) ==>
        && resp == Response(200, DeletedBody("Task deleted successfully", id))
        && store == old(store) - {id}
        && emitted == old(emitted) + (if io then [TaskDeleted(id)] else [])
    {
      if id !in store {
        return TaskNotFound;
      }
      store := store - {id};
      if io {
        emitted := emitted + [TaskDeleted(id)];
      }
      resp := Response(200, DeletedBody("Task deleted successfully", id));
    }
  }
}

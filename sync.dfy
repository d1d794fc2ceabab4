/**
 * How the client list tracks the server store. A list mirrors the store when
 * it holds every stored task exactly once and nothing else. A full round trip
 * runs a controller handler, hands its response to the originating client's
 * REST handler, and, when the server has an `io` server, delivers the
 * emitted event to the originator (the echo) and to one other client.
 */
module Sync {
  import opened Wrappers
  import opened TaskModel
  import opened TaskSchema
  import opened Reconcile
  import opened TaskContext
  import opened TaskController

  ghost predicate Mirrors(ts: seq<Task>, store: map<Id, Task>) {
    && (forall i :: 0 <= i < |ts| ==> ts[i].id in store && store[ts[i].id] == ts[i])
    && (forall id :: id in store ==> CountId(ts, id) == 1)
  }

  // ---------------------------------------------------------------------------
  // Counting ids through the transforms.

  lemma {:induction false} CountIdOfIds(ts: seq<Task>, id: Id)
    ensures CountId(ts, id) == multiset(Ids(ts))[id]
  {
    if ts != [] {
      CountIdOfIds(ts[1..], id);
      assert Ids(ts) == [ts[0].id] + Ids(ts[1..]);
    }
  }

  lemma {:induction false} CountIdSameIds(a: seq<Task>, b: seq<Task>, id: Id)
    requires |a| == |b| && forall i :: 0 <= i < |a| ==> a[i].id == b[i].id
    ensures CountId(a, id) == CountId(b, id)
  {
    if a != [] {
      CountIdSameIds(a[1..], b[1..], id);
    }
  }

  lemma {:induction false} CountIdRemoved(ts: seq<Task>, removed: Id, id: Id)
    requires id != removed
    ensures CountId(RemovedById(ts, removed), id) == CountId(ts, id)
  {
    if ts != [] {
      CountIdRemoved(ts[1..], removed, id);
      if ts[0].id != removed {
        assert RemovedById(ts, removed)[1..] == RemovedById(ts[1..], removed);
      }
    }
  }

  // ---------------------------------------------------------------------------
  // The transforms preserve the mirror.

  /** A full listing of the store mirrors it (what `fetchTasks` installs). */
  lemma ListingMirrors(listing: seq<Task>, store: map<Id, Task>)
    requires multiset(Ids(listing)) == multiset(store.Keys)
    requires forall i :: 0 <= i < |listing| ==> listing[i].id in store && store[listing[i].id] == listing[i]
    ensures Mirrors(listing, store)
  {
    forall id | id in store ensures CountId(listing, id) == 1 {
      CountIdOfIds(listing, id);
    }
  }

  /** Appending the task saved under a fresh id keeps the mirror. */
  lemma CreateKeepsMirror(ts: seq<Task>, store: map<Id, Task>, t: Task)
    requires Mirrors(ts, store) && t.id !in store
    ensures Mirrors(Appended(ts, t), store[t.id := t])
  {
    var r := Appended(ts, t);
    forall id | id in store[t.id := t] ensures CountId(r, id) == 1 {
      CountIdAppend(ts, [t], id);
      assert CountId([t], id) == (if t.id == id then 1 else 0);
    }
  }

  /** Replacing the entries of a stored id by its new record keeps the mirror. */
  lemma UpdateKeepsMirror(ts: seq<Task>, store: map<Id, Task>, id: Id, u: Task)
    requires Mirrors(ts, store) && id in store && u.id == id
    ensures Mirrors(ReplacedById(ts, id, u), store[id := u])
  {
    var r := ReplacedById(ts, id, u);
    var s := store[id := u];
    forall i | 0 <= i < |r| ensures r[i].id in s && s[r[i].id] == r[i] {
      if ts[i].id != id {
        assert r[i] == ts[i];
      }
    }
    forall x | x in s ensures CountId(r, x) == 1 {
      CountIdSameIds(r, ts, x);
    }
  }

  /** Filtering out a deleted id keeps the mirror. */
  lemma DeleteKeepsMirror(ts: seq<Task>, store: map<Id, Task>, id: Id)
    requires Mirrors(ts, store)
    ensures Mirrors(RemovedById(ts, id), store - {id})
  {
    var r := RemovedById(ts, id);
    forall i | 0 <= i < |r| ensures r[i].id in store - {id} && (store - {id})[r[i].id] == r[i] {
      assert r[i] in r;
    }
    forall x | x in store - {id} ensures CountId(r, x) == 1 {
      CountIdRemoved(ts, id, x);
    }
  }

  /** A created task delivered twice (response and echo) breaks the mirror
      with every store. */
  lemma EchoBreaksMirror(ts: seq<Task>, t: Task, store: map<Id, Task>)
    ensures !Mirrors(Appended(Appended(ts, t), t), store)
  {
    var r := Appended(Appended(ts, t), t);
    CreateEchoDuplicates(ts, t);
  }

  // ---------------------------------------------------------------------------
  // Round trips.

  /** What axios makes of a controller response: 2xx resolves with the body. */
  function ToTaskResult(resp: Response): Result<Task, RequestError> {
    if (resp.status == 200 || resp.status == 201) && resp.body.TaskBody? then Ok(resp.body.task)
    else Err(HttpStatus(resp.status))
  }

  function ToDeleteResult(resp: Response): Result<Id, RequestError> {
    if resp.status == 200 && resp.body.DeletedBody? then Ok(resp.body.id) else Err(HttpStatus(resp.status))
  }

  /** Initial load or reconnect: a fetch of the listing makes the client mirror
      the store, whatever it held before. */
  method FetchRoundTrip(server: TaskServer, client: TaskProvider)
    requires server.Valid()
    modifies client
    ensures Mirrors(client.tasks, server.store) && !client.loading
  {
    var resp := server.GetAllTasks();
    client.FetchTasks(Ok(resp.body.tasks));
    ListingMirrors(client.tasks, server.store);
  }

  /** What the originating client does with a create response, and what the
      broadcast does when the server has an `io` server: the originator
      appends the response body and then the echo; the other client appends
      the echo only. */
  method DeliverCreate(client: TaskProvider, other: TaskProvider, response: Result<Task, RequestError>,
                       io: bool, ghost before: map<Id, Task>, ghost after: map<Id, Task>)
    requires client != other
    requires Mirrors(client.tasks, before) && Mirrors(other.tasks, before)
    requires response.Ok? ==> response.value.id !in before && after == before[response.value.id := response.value]
    requires response.Err? ==> after == before
    modifies client, other
    ensures response.Err? ==> Mirrors(client.tasks, after) && Mirrors(other.tasks, after)
    ensures !io ==> Mirrors(client.tasks, after) && other.tasks == old(other.tasks)
    ensures io ==> Mirrors(other.tasks, after)
    ensures io && response.Ok? ==> !Mirrors(client.tasks, after)
  {
    ghost var mine, theirs := client.tasks, other.tasks;
    var thrown := client.CreateTask(response);
    if response.Ok? {
      var saved := response.value;
      CreateKeepsMirror(mine, before, saved);
      CreateKeepsMirror(theirs, before, saved);
      if io {
        client.OnEvent(TaskCreated(saved));
        other.OnEvent(TaskCreated(saved));
        EchoBreaksMirror(mine, saved, after);
      }
    }
  }

  /** A create from `client`. Without `io` (as deployed) the originator keeps
      mirroring the store and the other client goes stale; with `io` the other
      client keeps mirroring and the originator holds the new task twice. */
  method CreateRoundTrip(server: TaskServer, client: TaskProvider, other: TaskProvider,
                         body: TaskInput, newId: Id, now: int) returns (resp: Response)
    requires server.Valid() && client != other
    requires Mirrors(client.tasks, server.store) && Mirrors(other.tasks, server.store)
    modifies server, client, other
    ensures server.Valid()
    ensures resp.status == 201 || server.store == old(server.store)
    ensures resp.status != 201 ==> Mirrors(client.tasks, server.store) && Mirrors(other.tasks, server.store)
    ensures !server.io ==> Mirrors(client.tasks, server.store) && other.tasks == old(other.tasks)
    ensures server.io ==> Mirrors(other.tasks, server.store)
    ensures server.io && resp.status == 201 ==> !Mirrors(client.tasks, server.store)
  {
    ghost var before := server.store;
    resp := server.CreateTask(body, newId, now);
    DeliverCreate(client, other, ToTaskResult(resp), server.io, before, server.store);
  }

  /** The originator replaces by the request's id with the response body and
      then with the echo; the other client replaces with the echo only. */
  method DeliverUpdate(client: TaskProvider, other: TaskProvider, id: Id, response: Result<Task, RequestError>,
                       io: bool, ghost before: map<Id, Task>, ghost after: map<Id, Task>)
    requires client != other
    requires Mirrors(client.tasks, before) && Mirrors(other.tasks, before)
    requires response.Ok? ==> id in before && response.value.id == id && after == before[id := response.value]
    requires response.Err? ==> after == before
    modifies client, other
    ensures Mirrors(client.tasks, after)
    ensures io || response.Err? ==> Mirrors(other.tasks, after)
    ensures !io ==> other.tasks == old(other.tasks)
  {
    ghost var mine, theirs := client.tasks, other.tasks;
    client.UpdateTask(id, response);
    if response.Ok? {
      var updated := response.value;
      UpdateKeepsMirror(mine, before, id, updated);
      UpdateKeepsMirror(theirs, before, id, updated);
      if io {
        ReplaceIdempotent(mine, id, updated);
        client.OnEvent(TaskUpdated(updated));
        other.OnEvent(TaskUpdated(updated));
      }
    }
  }

  /** An update from `client`: both the response and its echo replace by id,
      so the originator mirrors the store with or without `io`; the other
      client mirrors it only when `io` delivers the event. */
  method UpdateRoundTrip(server: TaskServer, client: TaskProvider, other: TaskProvider,
                         id: Id, body: TaskInput, now: int) returns (resp: Response)
    requires server.Valid() && client != other
    requires Mirrors(client.tasks, server.store) && Mirrors(other.tasks, server.store)
    modifies server, client, other
    ensures server.Valid()
    ensures Mirrors(client.tasks, server.store)
    ensures server.io || resp.status != 200 ==> Mirrors(other.tasks, server.store)
    ensures !server.io ==> other.tasks == old(other.tasks)
  {
    ghost var before := server.store;
    resp := server.UpdateTask(id, body, now);
    DeliverUpdate(client, other, id, ToTaskResult(resp), server.io, before, server.store);
  }

  /** The originator filters out the id on the response and again on the
      echo; the other client filters on the echo only. */
  method DeliverDelete(client: TaskProvider, other: TaskProvider, id: Id, response: Result<Id, RequestError>,
                       io: bool, ghost before: map<Id, Task>, ghost after: map<Id, Task>)
    requires client != other
    requires Mirrors(client.tasks, before) && Mirrors(other.tasks, before)
    requires response.Ok? ==> after == before - {id}
    requires response.Err? ==> after == before
    modifies client, other
    ensures Mirrors(client.tasks, after)
    ensures io || response.Err? ==> Mirrors(other.tasks, after)
    ensures !io ==> other.tasks == old(other.tasks)
  {
    ghost var mine, theirs := client.tasks, other.tasks;
    client.DeleteTask(id, response);
    if response.Ok? {
      DeleteKeepsMirror(mine, before, id);
      DeleteKeepsMirror(theirs, before, id);
      if io {
        RemoveIdempotent(mine, id);
        client.OnEvent(TaskDeleted(id));
        assert client.tasks == RemovedById(RemovedById(mine, id), id);
        other.OnEvent(TaskDeleted(id));
        assert other.tasks == RemovedById(theirs, id);
      }
    }
  }

  /** A delete from `client`: the response and its echo both filter by id. */
  method DeleteRoundTrip(server: TaskServer, client: TaskProvider, other: TaskProvider, id: Id)
    returns (resp: Response)
    requires server.Valid() && client != other
    requires Mirrors(client.tasks, server.store) && Mirrors(other.tasks, server.store)
    modifies server, client, other
    ensures server.Valid()
    ensures Mirrors(client.tasks, server.store)
    ensures server.io || resp.status != 200 ==> Mirrors(other.tasks, server.store)
    ensures !server.io ==> other.tasks == old(other.tasks)
  {
    ghost var before := server.store;
    resp := server.DeleteTask(id);
    DeliverDelete(client, other, id, ToDeleteResult(resp), server.io, before, server.store);
  }
}

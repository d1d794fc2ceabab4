/**
 * The list transforms the client applies to its `tasks` state
 * (client/src/context/TaskContext.jsx): spread-append for a created task,
 * `map` replacing entries with a matching `_id` for an updated one, and
 * `filter` dropping entries with the id for a deleted one. The REST handlers
 * and the Socket.IO handlers use the same three transforms.
 */
module Reconcile {
  import opened TaskModel

  /** `[...prev, t]`: the old list followed by the new task. */
  function Appended(ts: seq<Task>, t: Task): (r: seq<Task>)
    ensures |r| == |ts| + 1 && r[..|ts|] == ts && r[|ts|] == t
  {
    ts + [t]
  }

  /** `prev.map(task => task._id === id ? t : task)`. */
  function ReplacedById(ts: seq<Task>, id: Id, t: Task): (r: seq<Task>)
    ensures |r| == |ts|
    ensures forall i :: 0 <= i < |ts| ==> r[i] == (if ts[i].id == id then t else ts[i])
  {
    if ts == [] then [] else [if ts[0].id == id then t else ts[0]] + ReplacedById(ts[1..], id, t)
  }

  /** `prev.filter(task => task._id !== id)`. */
  function RemovedById(ts: seq<Task>, id: Id): (r: seq<Task>)
    ensures |r| <= |ts|
    ensures forall x :: x in r <==> x in ts && x.id != id
  {
    if ts == [] then []
    else if ts[0].id == id then RemovedById(ts[1..], id)
    else [ts[0]] + RemovedById(ts[1..], id)
  }

  /** How many entries of the list carry the id. */
  function CountId(ts: seq<Task>, id: Id): (n: nat)
    ensures n <= |ts|
    ensures n == 0 <==> forall i :: 0 <= i < |ts| ==> ts[i].id != id
  {
    if ts == [] then 0 else (if ts[0].id == id then 1 else 0) + CountId(ts[1..], id)
  }

  lemma {:induction false} CountIdAppend(a: seq<Task>, b: seq<Task>, id: Id)
    ensures CountId(a + b, id) == CountId(a, id) + CountId(b, id)
  {
    if a == [] {
      assert a + b == b;
    } else {
      assert (a + b)[0] == a[0] && (a + b)[1..] == a[1..] + b;
      CountIdAppend(a[1..], b, id);
    }
  }

  // ---------------------------------------------------------------------------
  // Delete (TaskContext.jsx lines 69 and 91).

  /** Filtering distributes over concatenation, so the survivors keep their
      relative order. */
  lemma {:induction false} RemovedDistributes(a: seq<Task>, b: seq<Task>, id: Id)
    ensures RemovedById(a + b, id) == RemovedById(a, id) + RemovedById(b, id)
  {
    if a == [] {
      assert a + b == b;
    } else {
      assert (a + b)[0] == a[0] && (a + b)[1..] == a[1..] + b;
      RemovedDistributes(a[1..], b, id);
    }
  }

  /** Exactly the entries carrying the id are dropped. */
  lemma {:induction false} RemovedLength(ts: seq<Task>, id: Id)
    ensures |RemovedById(ts, id)| == |ts| - CountId(ts, id)
    ensures CountId(RemovedById(ts, id), id) == 0
  {
    if ts != [] {
      RemovedLength(ts[1..], id);
    }
  }

  /** Deleting an id no entry carries changes nothing. */
  lemma {:induction false} RemoveAbsentIsNoop(ts: seq<Task>, id: Id)
    requires forall i :: 0 <= i < |ts| ==> ts[i].id != id
    ensures RemovedById(ts, id) == ts
  {
    if ts != [] {
      RemoveAbsentIsNoop(ts[1..], id);
    }
  }

  /** Applying the same delete twice is applying it once. */
  lemma RemoveIdempotent(ts: seq<Task>, id: Id)
    ensures RemovedById(RemovedById(ts, id), id) == RemovedById(ts, id)
  {
    var r := RemovedById(ts, id);
    forall i | 0 <= i < |r| ensures r[i].id != id {
      assert r[i] in r;
    }
    RemoveAbsentIsNoop(r, id);
  }

  /** Deletes of two ids commute. */
  lemma {:induction false} RemovesCommute(ts: seq<Task>, a: Id, b: Id)
    ensures RemovedById(RemovedById(ts, a), b) == RemovedById(RemovedById(ts, b), a)
  {
    if ts != [] {
      RemovesCommute(ts[1..], a, b);
    }
  }

  // ---------------------------------------------------------------------------
  // Update (TaskContext.jsx lines 55-57 and 85-87).

  /** An update for an id no entry carries appends nothing and changes nothing. */
  lemma ReplaceAbsentIsNoop(ts: seq<Task>, id: Id, t: Task)
    requires forall i :: 0 <= i < |ts| ==> ts[i].id != id
    ensures ReplacedById(ts, id, t) == ts
  {
  }

  /** Applying the same update twice is applying it once, whether or not the
      new record carries the matched id. */
  lemma ReplaceIdempotent(ts: seq<Task>, id: Id, t: Task)
    ensures ReplacedById(ReplacedById(ts, id, t), id, t) == ReplacedById(ts, id, t)
  {
  }

  /** Two updates of the same id in succession leave the later record only. */
  lemma LaterUpdateWins(ts: seq<Task>, id: Id, t1: Task, t2: Task)
    requires t1.id == id
    ensures ReplacedById(ReplacedById(ts, id, t1), id, t2) == ReplacedById(ts, id, t2)
  {
  }

  // ---------------------------------------------------------------------------
  // Create (TaskContext.jsx lines 42 and 81).

  /** Create never looks at ids: the REST response appended and then its
      socket echo appended leaves the id on two more entries than before, so
      a task that was absent is held twice. */
  lemma CreateEchoDuplicates(ts: seq<Task>, t: Task)
    ensures CountId(Appended(Appended(ts, t), t), t.id) == CountId(ts, t.id) + 2
    ensures CountId(ts, t.id) == 0 ==> CountId(Appended(Appended(ts, t), t), t.id) == 2
    ensures Appended(Appended(ts, t), t) != Appended(ts, t)
  {
    CountIdAppend(ts, [t], t.id);
    CountIdAppend(ts + [t], [t], t.id);
  }

  /** Deleting the id of a task just created removes every copy of it and
      restores a list that did not hold the id. */
  lemma DeleteUndoesCreate(ts: seq<Task>, t: Task)
    ensures RemovedById(Appended(ts, t), t.id) == RemovedById(ts, t.id)
    ensures CountId(ts, t.id) == 0 ==> RemovedById(Appended(ts, t), t.id) == ts
  {
    RemovedDistributes(ts, [t], t.id);
    if CountId(ts, t.id) == 0 {
      RemoveAbsentIsNoop(ts, t.id);
    }
  }

  // ---------------------------------------------------------------------------
  // Socket events.

  function EventId(e: Event): Id {
    match e
    case TaskCreated(t) => t.id
    case TaskUpdated(t) => t.id
    case TaskDeleted(id) => id
  }

  /** The socket handlers: `taskUpdated` matches on the payload's own `_id`.
      An event adds nothing but its own payload, and every entry carrying
      another id survives it. */
  function ApplyEvent(ts: seq<Task>, e: Event): (r: seq<Task>)
    ensures forall x :: x in r ==> x in ts || (!e.TaskDeleted? && x == e.task)
    ensures forall x :: x in ts && x.id != EventId(e) ==> x in r
  {
    match e
    case TaskCreated(t) => Appended(ts, t)
    case TaskUpdated(t) => ReplacedById(ts, t.id, t)
    case TaskDeleted(id) => RemovedById(ts, id)
  }

  /** Applying any update or delete event a second time changes nothing;
      a created event is the exception. */
  lemma UpdateAndDeleteEventsIdempotent(ts: seq<Task>, e: Event)
    requires !e.TaskCreated?
    ensures ApplyEvent(ApplyEvent(ts, e), e) == ApplyEvent(ts, e)
  {
    if e.TaskDeleted? {
      RemoveIdempotent(ts, e.id);
    }
  }

  lemma ReplaceThenAppend(ts: seq<Task>, id: Id, u: Task, t: Task)
    requires t.id != id
    ensures ReplacedById(ts + [t], id, u) == ReplacedById(ts, id, u) + [t]
  {
  }

  lemma RemoveThenAppend(ts: seq<Task>, id: Id, t: Task)
    requires t.id != id
    ensures RemovedById(ts + [t], id) == RemovedById(ts, id) + [t]
  {
    RemovedDistributes(ts, [t], id);
  }

  lemma {:induction false} RemoveReplaceCommute(ts: seq<Task>, a: Id, u: Task, b: Id)
    requires a != b && u.id != b
    ensures RemovedById(ReplacedById(ts, a, u), b) == ReplacedById(RemovedById(ts, b), a, u)
  {
    if ts != [] {
      RemoveReplaceCommute(ts[1..], a, u, b);
      assert ReplacedById(ts, a, u)[1..] == ReplacedById(ts[1..], a, u);
      if ts[0].id != b {
        assert RemovedById(ts, b)[1..] == RemovedById(ts[1..], b);
      }
    }
  }

  lemma ReplacesCommute(ts: seq<Task>, a: Id, u: Task, b: Id, v: Task)
    requires a != b && u.id != b && v.id != a
    ensures ReplacedById(ReplacedById(ts, a, u), b, v) == ReplacedById(ReplacedById(ts, b, v), a, u)
  {
  }

  /**
   * Events for two different ids reach the same collection in either order:
   * the same sequence unless both are creates, and in every case the same
   * entries with the same multiplicities.
   */
  lemma EventsOnDistinctIdsCommute(ts: seq<Task>, e1: Event, e2: Event)
    requires EventId(e1) != EventId(e2)
    ensures multiset(ApplyEvent(ApplyEvent(ts, e1), e2)) == multiset(ApplyEvent(ApplyEvent(ts, e2), e1))
    ensures !(e1.TaskCreated? && e2.TaskCreated?) ==>
              ApplyEvent(ApplyEvent(ts, e1), e2) == ApplyEvent(ApplyEvent(ts, e2), e1)
  {
    if e1.TaskCreated? && e2.TaskCreated? {
      assert multiset(ts + [e1.task] + [e2.task]) == multiset(ts + [e2.task] + [e1.task]);
    } else if e1.TaskCreated? {
      CreateCommutes(ts, e1.task, e2);
    } else if e2.TaskCreated? {
      CreateCommutes(ts, e2.task, e1);
    } else if e1.TaskUpdated? && e2.TaskUpdated? {
      ReplacesCommute(ts, e1.task.id, e1.task, e2.task.id, e2.task);
    } else if e1.TaskUpdated? {
      RemoveReplaceCommute(ts, e1.task.id, e1.task, e2.id);
    } else if e2.TaskUpdated? {
      RemoveReplaceCommute(ts, e2.task.id, e2.task, e1.id);
    } else {
      RemovesCommute(ts, e1.id, e2.id);
    }
  }

  lemma CreateCommutes(ts: seq<Task>, t: Task, e: Event)
    requires !e.TaskCreated? && EventId(e) != t.id
    ensures ApplyEvent(ApplyEvent(ts, TaskCreated(t)), e) == ApplyEvent(ApplyEvent(ts, e), TaskCreated(t))
  {
    if e.TaskUpdated? {
      ReplaceThenAppend(ts, e.task.id, e.task, t);
    } else {
      RemoveThenAppend(ts, e.id, t);
    }
  }
}

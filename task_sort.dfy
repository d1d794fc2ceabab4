/**
 * The task comparator of `handleSort` (client/src/components/TaskFilter.jsx),
 * which `sortTasks` in client/src/components/TaskStats.jsx repeats verbatim,
 * and the sort of a copied list with it. `Array.prototype.sort` is stable,
 * so the sort is a stable insertion sort; a comparator result that is NaN
 * (a status outside the rank table) counts as 0, as JavaScript's sort does.
 */
module TaskSort {
  import opened Wrappers
  import opened TaskModel

  /** The `sortBy` values the options offer; anything else takes `default`. */
  datatype SortKey =
    | DueDateAsc | DueDateDesc | PriorityDesc | PriorityAsc | ByStatus | CreatedDesc
    | OtherKey(text: string)

  function ParseSortKey(s: string): SortKey {
    if s == "dueDate_asc" then DueDateAsc
    else if s == "dueDate_desc" then DueDateDesc
    else if s == "priority_desc" then PriorityDesc
    else if s == "priority_asc" then PriorityAsc
    else if s == "status" then ByStatus
    else if s == "created_desc" then CreatedDesc
    else OtherKey(s)
  }

  /** `{ high: 3, medium: 2, low: 1 }`. */
  function PriorityRank(p: Priority): (r: int)
    ensures 1 <= r <= 3
  {
    match p
    case High => 3
    case Medium => 2
    case Low => 1
  }

  /** `{ completed: 3, in_progress: 2, pending: 1 }`; no entry otherwise. */
  function StatusRank(s: Status): (r: Option<int>)
    ensures r.Some? <==> IsKnownStatus(s)
  {
    match s
    case Completed => Some(3)
    case InProgress => Some(2)
    case Pending => Some(1)
    case Unrecognised(_) => None
  }

  /** The comparator: negative puts `a` first, positive puts `b` first.
      Unless it ranks statuses and one of them has no rank, it is the
      difference of the two tasks' sort values; otherwise it is 0 (the NaN
      of a missing rank, or the `default` branch). */
  function Compare(key: SortKey, a: Task, b: Task): (c: int)
    ensures (key.ByStatus? ==> IsKnownStatus(a.status) && IsKnownStatus(b.status))
            ==> c == SortValue(key, a) - SortValue(key, b)
    ensures key.ByStatus? && !(IsKnownStatus(a.status) && IsKnownStatus(b.status)) ==> c == 0
    ensures key.OtherKey? ==> c == 0
  {
    match key
    case DueDateAsc => a.dueDate - b.dueDate
    case DueDateDesc => b.dueDate - a.dueDate
    case PriorityDesc => PriorityRank(b.priority) - PriorityRank(a.priority)
    case PriorityAsc => PriorityRank(a.priority) - PriorityRank(b.priority)
    case ByStatus =>
      if StatusRank(a.status).Some? && StatusRank(b.status).Some?
      then StatusRank(b.status).value - StatusRank(a.status).value
      else 0
    case CreatedDesc => b.createdAt - a.createdAt
    case OtherKey(_) => 0
  }

  /** The number each key orders by, ascending. */
  function SortValue(key: SortKey, t: Task): int {
    match key
    case DueDateAsc => t.dueDate
    case DueDateDesc => -t.dueDate
    case PriorityDesc => -PriorityRank(t.priority)
    case PriorityAsc => PriorityRank(t.priority)
    case ByStatus => if IsKnownStatus(t.status) then -StatusRank(t.status).value else 0
    case CreatedDesc => -t.createdAt
    case OtherKey(_) => 0
  }

  /** The comparator is consistent on a list unless it ranks statuses and
      some status has no rank. */
  predicate Consistent(key: SortKey, ts: seq<Task>) {
    key.ByStatus? ==> forall i :: 0 <= i < |ts| ==> IsKnownStatus(ts[i].status)
  }

  predicate SortedBy(key: SortKey, ts: seq<Task>) {
    forall i, j :: 0 <= i < j < |ts| ==> SortValue(key, ts[i]) <= SortValue(key, ts[j])
  }

  /** Inserts `x`, which came before every element of `ts`, in front of the
      first element the comparator does not put strictly before it. */
  function Insert(key: SortKey, x: Task, ts: seq<Task>): (r: seq<Task>)
    ensures multiset(r) == multiset(ts) + multiset{x}
    ensures |r| == |ts| + 1
  {
    if ts == [] || Compare(key, x, ts[0]) <= 0 then [x] + ts
    else
      assert ts == [ts[0]] + ts[1..];
      [ts[0]] + Insert(key, x, ts[1..])
  }

  lemma {:induction false} InsertSorted(key: SortKey, x: Task, ts: seq<Task>)
    requires SortedBy(key, ts)
    requires Consistent(key, ts) && Consistent(key, [x])
    ensures SortedBy(key, Insert(key, x, ts))
  {
    if ts != [] {
      assert [x][0] == x;
      if Compare(key, x, ts[0]) > 0 {
        var rest := Insert(key, x, ts[1..]);
        InsertSorted(key, x, ts[1..]);
        forall j | 0 <= j < |rest| ensures SortValue(key, ts[0]) <= SortValue(key, rest[j]) {
          assert rest[j] in multiset(ts[1..]) + multiset{x};
          if rest[j] != x {
            assert rest[j] in ts[1..];
          }
        }
        SortedCons(key, ts[0], rest);
      } else {
        SortedCons(key, x, ts);
      }
    }
  }

  /** A sorted list stays sorted under a new head no greater than any entry. */
  lemma SortedCons(key: SortKey, h: Task, ts: seq<Task>)
    requires SortedBy(key, ts)
    requires ts == [] || SortValue(key, h) <= SortValue(key, ts[0])
    ensures SortedBy(key, [h] + ts)
  {
    var r := [h] + ts;
    forall i, j | 0 <= i < j < |r| ensures SortValue(key, r[i]) <= SortValue(key, r[j]) {
      assert r[j] == ts[j - 1];
      if i > 0 {
        assert r[i] == ts[i - 1];
      } else if j > 1 {
        assert SortValue(key, ts[0]) <= SortValue(key, ts[j - 1]);
      }
    }
  }

  /** `[...tasks].sort(compare)`. */
  function SortedCopy(key: SortKey, ts: seq<Task>): (r: seq<Task>)
    ensures multiset(r) == multiset(ts)
    ensures |r| == |ts|
  {
    if ts == [] then []
    else
      assert ts == [ts[0]] + ts[1..];
      Insert(key, ts[0], SortedCopy(key, ts[1..]))
  }

  /** The sorted copy is in non-decreasing sort value for every key but the
      status key, and for that one too when every status has a rank. */
  lemma {:induction false} SortedCopySorted(key: SortKey, ts: seq<Task>)
    requires Consistent(key, ts)
    ensures SortedBy(key, SortedCopy(key, ts))
  {
    if ts != [] {
      var rest := SortedCopy(key, ts[1..]);
      assert ts == [ts[0]] + ts[1..];
      assert Consistent(key, [ts[0]]);
      assert Consistent(key, ts[1..]);
      SortedCopySorted(key, ts[1..]);
      forall i | 0 <= i < |rest| ensures key.ByStatus? ==> IsKnownStatus(rest[i].status) {
        assert rest[i] in multiset(ts[1..]);
      }
      InsertSorted(key, ts[0], rest);
    }
  }

  /** A key that compares every pair as equal leaves the order untouched. */
  lemma {:induction false} UnknownKeyKeepsOrder(text: string, ts: seq<Task>)
    ensures SortedCopy(OtherKey(text), ts) == ts
  {
    if ts != [] {
      var key := OtherKey(text);
      var tail := ts[1..];
      UnknownKeyKeepsOrder(text, tail);
      assert tail == [] || Compare(key, ts[0], tail[0]) == 0;
      calc {
        SortedCopy(key, ts);
        Insert(key, ts[0], SortedCopy(key, tail));
        Insert(key, ts[0], tail);
        [ts[0]] + tail;
        ts;
      }
    }
  }

  /** What each option promises of the sorted copy: earliest or latest due
      date first, highest or lowest priority first, newest first. */
  lemma SortOptionsOrder(key: SortKey, ts: seq<Task>, i: int, j: int)
    requires 0 <= i < j < |ts|
    ensures var r := SortedCopy(key, ts);
      && (key == DueDateAsc ==> r[i].dueDate <= r[j].dueDate)
      && (key == DueDateDesc ==> r[i].dueDate >= r[j].dueDate)
      && (key == PriorityDesc ==> PriorityRank(r[i].priority) >= PriorityRank(r[j].priority))
      && (key == PriorityAsc ==> PriorityRank(r[i].priority) <= PriorityRank(r[j].priority))
      && (key == CreatedDesc ==> r[i].createdAt >= r[j].createdAt)
  {
    if !key.ByStatus? {
      SortedAt(key, ts, i, j);
    }
  }

  lemma SortedAt(key: SortKey, ts: seq<Task>, i: int, j: int)
    requires Consistent(key, ts) && 0 <= i < j < |ts|
    ensures SortValue(key, SortedCopy(key, ts)[i]) <= SortValue(key, SortedCopy(key, ts)[j])
  {
    SortedCopySorted(key, ts);
  }

  /** Grouping by status puts every completed task before every in-progress
      one and every in-progress one before every pending one. */
  lemma StatusSortGroups(ts: seq<Task>, i: int, j: int)
    requires forall k :: 0 <= k < |ts| ==> IsKnownStatus(ts[k].status)
    requires 0 <= i < j < |ts|
    ensures SortedCopy(ByStatus, ts)[j].status == Completed ==> SortedCopy(ByStatus, ts)[i].status == Completed
    ensures SortedCopy(ByStatus, ts)[j].status == InProgress ==> SortedCopy(ByStatus, ts)[i].status != Pending
  {
    var r := SortedCopy(ByStatus, ts);
    SortedAt(ByStatus, ts, i, j);
    assert r[i] in multiset(ts) && r[j] in multiset(ts);
    StatusRankOrder(r[i], r[j]);
  }

  /** Two ranked tasks in status-key order are in group order. */
  lemma StatusRankOrder(a: Task, b: Task)
    requires IsKnownStatus(a.status) && IsKnownStatus(b.status)
    requires SortValue(ByStatus, a) <= SortValue(ByStatus, b)
    ensures b.status == Completed ==> a.status == Completed
    ensures b.status == InProgress ==> a.status != Pending
  {
  }

  /** `sortTasks(tasks, sortBy)`: an empty or absent `sortBy` returns the
      input itself; otherwise the sorted copy. */
  function SortTasks(ts: seq<Task>, sortBy: Option<string>): (r: seq<Task>)
    ensures multiset(r) == multiset(ts)
    ensures sortBy.None? || sortBy.value == "" ==> r == ts
    ensures sortBy.Some? && sortBy.value != "" && Consistent(ParseSortKey(sortBy.value), ts)
            ==> SortedBy(ParseSortKey(sortBy.value), r)
  {
    if sortBy.None? || sortBy.value == "" then ts
    else
      var key := ParseSortKey(sortBy.value);
      assert Consistent(key, ts) ==> SortedBy(key, SortedCopy(key, ts)) by {
        if Consistent(key, ts) {
          SortedCopySorted(key, ts);
        }
      }
      SortedCopy(key, ts)
  }

  /** The `sortBy` entry of the `filters` state that TaskFilter writes. */
  class SortSelection {
    var sortBy: string

    constructor()
      ensures sortBy == ""
    {
      sortBy := "";
    }

    /** `handleSort(value)`: records the option and returns the sorted copy. */
    method HandleSort(value: string, tasks: seq<Task>) returns (sorted: seq<Task>)
      modifies this
      ensures sortBy == value
      ensures sorted == SortedCopy(ParseSortKey(value), tasks)
    {
      sortBy := value;
      sorted := SortedCopy(ParseSortKey(value), tasks);
    }

    /** "Clear sort". */
    method ClearSort()
      modifies this
      ensures sortBy == ""
    {
      sortBy := "";
    }
  }
}

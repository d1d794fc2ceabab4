/**
 * The counts and the completion percentage shown by
 * client/src/components/TaskStats.jsx (`stats`) and
 * client/src/components/TaskProgress.jsx (`calculateProgress` and its two
 * counts). Both compute the percentage as `Math.round(completed / total * 100)`
 * with 0 for an empty list; it is modelled once, with exact round-half-up.
 */
module TaskStats {
  import opened TaskModel

  /** `tasks.filter(t => t.status === s).length`. */
  function CountStatus(ts: seq<Task>, s: Status): (n: nat)
    ensures n <= |ts|
    ensures n == |ts| <==> forall i :: 0 <= i < |ts| ==> ts[i].status == s
    ensures n == 0 <==> forall i :: 0 <= i < |ts| ==> ts[i].status != s
  {
    if ts == [] then 0 else (if ts[0].status == s then 1 else 0) + CountStatus(ts[1..], s)
  }

  datatype Stats = Stats(total: nat, completed: nat, inProgress: nat, pending: nat)

  /** The `stats` object. */
  function StatsOf(ts: seq<Task>): (r: Stats)
    ensures r.total == |ts|
    ensures r.completed == CountStatus(ts, Completed)
    ensures r.inProgress == CountStatus(ts, InProgress)
    ensures r.pending == CountStatus(ts, Pending)
    ensures r.completed + r.inProgress + r.pending <= r.total
  {
    BucketsPartition(ts);
    Stats(|ts|, CountStatus(ts, Completed), CountStatus(ts, InProgress), CountStatus(ts, Pending))
  }

  /** The three buckets never overlap: together they hold at most every
      task, and exactly every task when each status is one of the three. */
  lemma {:induction false} BucketsPartition(ts: seq<Task>)
    ensures CountStatus(ts, Completed) + CountStatus(ts, InProgress) + CountStatus(ts, Pending) <= |ts|
    ensures (forall i :: 0 <= i < |ts| ==> IsKnownStatus(ts[i].status)) ==>
      CountStatus(ts, Completed) + CountStatus(ts, InProgress) + CountStatus(ts, Pending) == |ts|
  {
    if ts != [] {
      BucketsPartition(ts[1..]);
    }
  }

  /** TaskProgress's in-progress and completed counts never exceed the total. */
  lemma InProgressPlusCompletedBounded(ts: seq<Task>)
    ensures CountStatus(ts, InProgress) + CountStatus(ts, Completed) <= |ts|
  {
    BucketsPartition(ts);
  }

  /** `Math.round(completed / total * 100)`, or 0 when there are no tasks.
      `Math.round(x)` is `floor(x + 1/2)`, computed here without floats. */
  function CompletionPercent(completed: nat, total: nat): (p: nat)
    requires completed <= total
    ensures p <= 100
    ensures total > 0 ==> 2 * total * p <= 200 * completed + total < 2 * total * (p + 1)
  {
    if total == 0 then 0
    else
      var p := (200 * completed + total) / (2 * total);
      assert 200 * completed + total < 2 * total * 101 by {
        assert 200 * completed <= 200 * total;
      }
      p
  }

  lemma MulMonotone(a: nat, b: int, c: int)
    requires b <= c
    ensures a * b <= a * c
  {
  }

  /** The percentage is 0 with no tasks or none completed and 100 when every
      task is completed; it also reads 100 for 199 completed out of 200,
      since 99.5 rounds up. */
  lemma PercentBounds(completed: nat, total: nat)
    requires completed <= total
    ensures completed == 0 ==> CompletionPercent(completed, total) == 0
    ensures total > 0 && completed == total ==> CompletionPercent(completed, total) == 100
    ensures CompletionPercent(199, 200) == 100
  {
    var p := CompletionPercent(completed, total);
    if total > 0 && completed == 0 && p > 0 {
      MulMonotone(2 * total, 1, p);
    }
    if total > 0 && completed == total {
      if p < 100 {
        MulMonotone(2 * total, p + 1, 100);
      }
    }
  }

  /** For a fixed total, more completed tasks never lower the percentage. */
  lemma PercentMonotone(c1: nat, c2: nat, total: nat)
    requires c1 <= c2 <= total
    ensures CompletionPercent(c1, total) <= CompletionPercent(c2, total)
  {
    if total > 0 {
      var p1 := CompletionPercent(c1, total);
      var p2 := CompletionPercent(c2, total);
      if p1 > p2 {
        MulMonotone(2 * total, p2 + 1, p1);
      }
    }
  }

  /** `calculateProgress` and TaskStats's "Completed" card: a percentage,
      and 0 for an empty list. */
  function Progress(ts: seq<Task>): (p: nat)
    ensures p <= 100
    ensures ts == [] ==> p == 0
  {
    PercentBounds(CountStatus(ts, Completed), |ts|);
    CompletionPercent(CountStatus(ts, Completed), |ts|)
  }

  lemma ProgressExtremes(ts: seq<Task>)
    ensures Progress(ts) <= 100
    ensures ts == [] ==> Progress(ts) == 0
    ensures (forall i :: 0 <= i < |ts| ==> ts[i].status != Completed) ==> Progress(ts) == 0
    ensures ts != [] && (forall i :: 0 <= i < |ts| ==> ts[i].status == Completed) ==> Progress(ts) == 100
  {
    PercentBounds(CountStatus(ts, Completed), |ts|);
  }
}

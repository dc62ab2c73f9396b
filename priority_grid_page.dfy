/**
 * The priority page of src/components/pages/PriorityGridPage.tsx: the fetched
 * tasks split into one bucket per priority, each bucket sorted for display
 * and handed to its own grid.
 *
 * The sort comparator puts tasks that have a display_order first, in
 * ascending order, then the ones without, by id. `localeCompare` is modelled
 * as the lexicographic order of the ids' characters.
 */
module PriorityGridPage {
  import opened Items
  import Sorting

  /** `x.localeCompare(y)` read as the lexicographic order of character codes: -1, 0 or 1. */
  function StrCompare(x: string, y: string): (c: int)
    ensures -1 <= c <= 1
    ensures c == 0 <==> x == y
  {
    if x == [] && y == [] then 0
    else if x == [] then -1
    else if y == [] then 1
    else if x[0] < y[0] then -1
    else if y[0] < x[0] then 1
    else
      assert x == [x[0]] + x[1..] && y == [y[0]] + y[1..];
      StrCompare(x[1..], y[1..])
  }

  lemma {:induction false} StrCompareFlip(x: string, y: string)
    ensures StrCompare(y, x) == -StrCompare(x, y)
  {
    if x != [] && y != [] && x[0] == y[0] {
      StrCompareFlip(x[1..], y[1..]);
    }
  }

  lemma {:induction false} StrCompareTransitive(x: string, y: string, z: string)
    requires StrCompare(x, y) <= 0 && StrCompare(y, z) <= 0
    ensures StrCompare(x, z) <= 0
  {
    if x != [] && y != [] && z != [] && x[0] == y[0] && y[0] == z[0] {
      StrCompareTransitive(x[1..], y[1..], z[1..]);
    }
  }

  /** The comparator of lines 47-54. */
  function CompareTasks(a: Task, b: Task): int {
    if a.displayOrder.Some? && b.displayOrder.Some? then a.displayOrder.value - b.displayOrder.value
    else if a.displayOrder.Some? then -1
    else if b.displayOrder.Some? then 1
    else StrCompare(a.id, b.id)
  }

  /** "a may stay before b": the comparator does not ask for a swap. */
  function GridLe(a: Task, b: Task): bool {
    CompareTasks(a, b) <= 0
  }

  lemma GridLeIsTotalPreorder()
    ensures Sorting.TotalPreorder(GridLe)
  {
    forall a: Task, b: Task ensures GridLe(a, b) || GridLe(b, a) {
      StrCompareFlip(a.id, b.id);
    }
    forall a: Task, b: Task, c: Task | GridLe(a, b) && GridLe(b, c) ensures GridLe(a, c) {
      if a.displayOrder.None? && b.displayOrder.None? && c.displayOrder.None? {
        StrCompareTransitive(a.id, b.id, c.id);
      }
    }
  }

  /** sortTasks: a sorted copy of one bucket's tasks. */
  function SortTasks(priorityTasks: seq<Task>): (r: seq<Task>)
    ensures multiset(r) == multiset(priorityTasks)
    ensures Sorting.SortedBy(r, GridLe)
  {
    GridLeIsTotalPreorder();
    Sorting.SortSorted(priorityTasks, GridLe);
    Sorting.Sort(priorityTasks, GridLe)
  }

  function PriorityIs(priority: Priority): Task -> bool {
    (t: Task) => t.fields.priority == priority
  }

  /** The four buckets of lines 57-62. */
  datatype Buckets = Buckets(low: seq<Task>, medium: seq<Task>, high: seq<Task>, urgent: seq<Task>)
  {
    function Bucket(priority: Priority): seq<Task> {
      match priority
      case Low => low
      case Medium => medium
      case High => high
      case Urgent => urgent
    }
  }

  /** sortedTasksByPriority: each priority's tasks, filtered and sorted. */
  function SortedTasksByPriority(tasks: seq<Task>): (b: Buckets)
    ensures multiset(b.low) == multiset(Filter(tasks, PriorityIs(Low))) && Sorting.SortedBy(b.low, GridLe)
    ensures multiset(b.medium) == multiset(Filter(tasks, PriorityIs(Medium))) && Sorting.SortedBy(b.medium, GridLe)
    ensures multiset(b.high) == multiset(Filter(tasks, PriorityIs(High))) && Sorting.SortedBy(b.high, GridLe)
    ensures multiset(b.urgent) == multiset(Filter(tasks, PriorityIs(Urgent))) && Sorting.SortedBy(b.urgent, GridLe)
  {
    Buckets(
      SortTasks(Filter(tasks, PriorityIs(Low))),
      SortTasks(Filter(tasks, PriorityIs(Medium))),
      SortTasks(Filter(tasks, PriorityIs(High))),
      SortTasks(Filter(tasks, PriorityIs(Urgent))))
  }

  // ---------------------------------------------------------------------------
  // Properties of the buckets

  /** The bucket of one priority: its tasks of the fetched list, sorted. */
  lemma BucketOfPriority(tasks: seq<Task>, p: Priority)
    ensures var bucket := SortedTasksByPriority(tasks).Bucket(p);
            multiset(bucket) == multiset(Filter(tasks, PriorityIs(p))) && Sorting.SortedBy(bucket, GridLe)
  {
    var b := SortedTasksByPriority(tasks);
    match p {
      case Low => assert b.Bucket(p) == b.low;
      case Medium => assert b.Bucket(p) == b.medium;
      case High => assert b.Bucket(p) == b.high;
      case Urgent => assert b.Bucket(p) == b.urgent;
    }
  }

  lemma FilterByPriorityPartition(tasks: seq<Task>)
    ensures multiset(Filter(tasks, PriorityIs(Low))) + multiset(Filter(tasks, PriorityIs(Medium))) +
            multiset(Filter(tasks, PriorityIs(High))) + multiset(Filter(tasks, PriorityIs(Urgent))) == multiset(tasks)
  {
    var low, medium, high, urgent :=
      multiset(Filter(tasks, PriorityIs(Low))), multiset(Filter(tasks, PriorityIs(Medium))),
      multiset(Filter(tasks, PriorityIs(High))), multiset(Filter(tasks, PriorityIs(Urgent)));
    forall t ensures (low + medium + high + urgent)[t] == multiset(tasks)[t] {
      FilterCount(tasks, PriorityIs(Low), t);
      FilterCount(tasks, PriorityIs(Medium), t);
      FilterCount(tasks, PriorityIs(High), t);
      FilterCount(tasks, PriorityIs(Urgent), t);
    }
    assert low + medium + high + urgent == multiset(tasks);
  }

  /**
   * Each bucket holds exactly the tasks of its priority (with their
   * multiplicity), and the four buckets together hold every task once.
   */
  lemma {:induction false} BucketsPartitionTasks(tasks: seq<Task>)
    ensures var b := SortedTasksByPriority(tasks);
            && (forall p, i :: 0 <= i < |b.Bucket(p)| ==> b.Bucket(p)[i].fields.priority == p)
            && (forall p, t :: t in tasks && t.fields.priority == p ==> multiset(b.Bucket(p))[t] == multiset(tasks)[t])
            && multiset(b.low) + multiset(b.medium) + multiset(b.high) + multiset(b.urgent) == multiset(tasks)
  {
    var b := SortedTasksByPriority(tasks);
    forall p, i | 0 <= i < |b.Bucket(p)| ensures b.Bucket(p)[i].fields.priority == p {
      BucketHoldsItsPriority(tasks, p, i);
    }
    forall p, t | t in tasks && t.fields.priority == p
      ensures multiset(b.Bucket(p))[t] == multiset(tasks)[t]
    {
      BucketHoldsEveryCopy(tasks, p, t);
    }
    FilterByPriorityPartition(tasks);
  }

  lemma BucketHoldsItsPriority(tasks: seq<Task>, p: Priority, i: nat)
    requires i < |SortedTasksByPriority(tasks).Bucket(p)|
    ensures SortedTasksByPriority(tasks).Bucket(p)[i].fields.priority == p
  {
    var bucket := SortedTasksByPriority(tasks).Bucket(p);
    BucketOfPriority(tasks, p);
    assert bucket[i] in multiset(bucket);
    InFilterSatisfies(tasks, PriorityIs(p), bucket[i]);
  }

  lemma BucketHoldsEveryCopy(tasks: seq<Task>, p: Priority, t: Task)
    requires t.fields.priority == p
    ensures multiset(SortedTasksByPriority(tasks).Bucket(p))[t] == multiset(tasks)[t]
  {
    BucketOfPriority(tasks, p);
    FilterCount(tasks, PriorityIs(p), t);
  }

  /**
   * Within a bucket: tasks with a display_order come first, in ascending
   * display_order; tasks without one come last, ordered by id.
   */
  lemma BucketOrder(tasks: seq<Task>, p: Priority, i: nat, j: nat)
    requires i < j < |SortedTasksByPriority(tasks).Bucket(p)|
    ensures var s := SortedTasksByPriority(tasks).Bucket(p);
            && (s[i].displayOrder.Some? && s[j].displayOrder.Some? ==> s[i].displayOrder.value <= s[j].displayOrder.value)
            && (s[j].displayOrder.Some? ==> s[i].displayOrder.Some?)
            && (s[i].displayOrder.None? && s[j].displayOrder.None? ==> StrCompare(s[i].id, s[j].id) <= 0)
  {
    var s := SortedTasksByPriority(tasks).Bucket(p);
    BucketOfPriority(tasks, p);
    assert GridLe(s[i], s[j]);
  }
}

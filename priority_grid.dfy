/**
 * One priority bucket on the priority page (src/components/priority/PriorityGrid.tsx):
 * a grid of task cards that can be swapped pairwise by drag and drop. The
 * order lives only in the component: nothing is sent to the server, and a new
 * task list from the page replaces it.
 *
 * Each grid gets a fresh `Symbol` as instance id so that its monitor ignores
 * drags of the other grids on the page; here the instance id is a number the
 * caller chooses.
 */
module PriorityGrid {
  import opened Items
  import opened DragAndDrop
  import opened DragData

  /** The list with positions `i` and `j` exchanged. */
  function Swap<T>(s: seq<T>, i: nat, j: nat): (r: seq<T>)
    requires i < |s| && j < |s|
    ensures |r| == |s| && r[i] == s[j] && r[j] == s[i]
    ensures forall k :: 0 <= k < |s| && k != i && k != j ==> r[k] == s[k]
  {
    s[i := s[j]][j := s[i]]
  }

  /** The grid's drop handler (lines 42-61) as a function of its list, its instance id and the drop event. */
  function GridDrop(tasks: seq<Task>, instanceId: nat, source: DragData, dropTargets: seq<DragData>): seq<Task> {
    if |dropTargets| == 0 then tasks
    else
      var destination := dropTargets[0];
      if !source.GridTaskData? || source.instanceId != instanceId then tasks
      else if !destination.GridTaskData? || destination.instanceId != instanceId then tasks
      else if source.taskId == destination.taskId then tasks
      else
        var sourceIndex := GetItemIndex(tasks, source.taskId);
        var destIndex := GetItemIndex(tasks, destination.taskId);
        if sourceIndex == -1 || destIndex == -1 then tasks
        else Swap(tasks, sourceIndex, destIndex)
  }

  /** The draggable wrapper's getInitialData and getData (lines 157-161, 177-181): the same descriptor. */
  function CardData(task: Task, instanceId: nat): (d: DragData)
    ensures d.GridTaskData? && d.taskId == task.id && d.instanceId == instanceId
  {
    GridTaskData(task.id, instanceId)
  }

  /** The wrapper's canDrop (lines 182-189): another task of the same grid. */
  function CanDrop(source: DragData, task: Task, instanceId: nat): (ok: bool)
    ensures ok <==> source.GridTaskData? && source.instanceId == instanceId && source.taskId != task.id
  {
    match source
    case GridTaskData(taskId, sourceInstance) => sourceInstance == instanceId && taskId != task.id
    case _ => false
  }

  /** The component's local order. */
  class PriorityGrid {
    var tasks: seq<Task>
    const instanceId: nat

    constructor (initialTasks: seq<Task>, instanceId: nat)
      ensures tasks == initialTasks && this.instanceId == instanceId
    {
      tasks := initialTasks;
      this.instanceId := instanceId;
    }

    /** The effect of lines 36-38: a new task list from the page discards the local order. */
    method SetInitialTasks(initialTasks: seq<Task>)
      modifies this
      ensures tasks == initialTasks
    {
      tasks := initialTasks;
    }

    /** onDrop: swaps the two cards in a copy of the list and installs the copy. */
    method OnDrop(source: DragData, dropTargets: seq<DragData>)
      modifies this
      ensures tasks == GridDrop(old(tasks), instanceId, source, dropTargets)
    {
      if |dropTargets| == 0 {
        return;
      }
      var destination := dropTargets[0];
      if !source.GridTaskData? || source.instanceId != instanceId {
        return;
      }
      if !destination.GridTaskData? || destination.instanceId != instanceId {
        return;
      }
      if source.taskId == destination.taskId {
        return;
      }
      var sourceIndex := GetItemIndex(tasks, source.taskId);
      var destIndex := GetItemIndex(tasks, destination.taskId);
      if sourceIndex == -1 || destIndex == -1 {
        return;
      }
      var current := tasks;
      var newTasks := new Task[|current|](i requires 0 <= i < |current| => current[i]);
      assert newTasks[..] == current;
      newTasks[sourceIndex], newTasks[destIndex] := newTasks[destIndex], newTasks[sourceIndex];
      tasks := newTasks[..];
    }
  }

  // ---------------------------------------------------------------------------
  // What a drop does to the grid

  /** In a list with unique ids, findIndex finds the one position holding the id. */
  lemma IndexOfUniqueId(s: seq<Task>, k: nat)
    requires UniqueIds(s) && k < |s|
    ensures GetItemIndex(s, s[k].id) == k
  {
  }

  /** Drops that do nothing: no target, a source or target of another grid (or no grid card at all), a card on itself, an unknown id. */
  lemma GridDropNoOps(tasks: seq<Task>, instanceId: nat, source: DragData, dropTargets: seq<DragData>)
    ensures |dropTargets| == 0 ==> GridDrop(tasks, instanceId, source, dropTargets) == tasks
    ensures !(source.GridTaskData? && source.instanceId == instanceId) ==> GridDrop(tasks, instanceId, source, dropTargets) == tasks
    ensures |dropTargets| > 0 && !(dropTargets[0].GridTaskData? && dropTargets[0].instanceId == instanceId) ==>
              GridDrop(tasks, instanceId, source, dropTargets) == tasks
    ensures source.GridTaskData? && (GetItemIndex(tasks, source.taskId) == -1 ||
              (|dropTargets| > 0 && dropTargets[0].GridTaskData? &&
               (dropTargets[0].taskId == source.taskId || GetItemIndex(tasks, dropTargets[0].taskId) == -1))) ==>
              GridDrop(tasks, instanceId, source, dropTargets) == tasks
  {
  }

  /** An accepted drop exchanges exactly the two cards: same length, same cards, every other position kept. */
  lemma GridDropSwaps(tasks: seq<Task>, instanceId: nat, source: DragData, dropTargets: seq<DragData>)
    requires |dropTargets| > 0 && source.GridTaskData? && dropTargets[0].GridTaskData?
    requires source.instanceId == instanceId && dropTargets[0].instanceId == instanceId
    requires source.taskId != dropTargets[0].taskId
    requires GetItemIndex(tasks, source.taskId) != -1 && GetItemIndex(tasks, dropTargets[0].taskId) != -1
    ensures var r := GridDrop(tasks, instanceId, source, dropTargets);
            var i := GetItemIndex(tasks, source.taskId);
            var j := GetItemIndex(tasks, dropTargets[0].taskId);
            && |r| == |tasks| && r[i] == tasks[j] && r[j] == tasks[i]
            && (forall k :: 0 <= k < |tasks| && k != i && k != j ==> r[k] == tasks[k])
            && multiset(r) == multiset(tasks)
  {
    var i := GetItemIndex(tasks, source.taskId);
    var j := GetItemIndex(tasks, dropTargets[0].taskId);
    var r := Swap(tasks, i, j);
    assert r == tasks[i := tasks[j]][j := tasks[i]];
  }

  /** Swapping keeps ids unique, and repeating the same drop puts the two cards back. */
  lemma {:induction false} GridDropTwiceRestores(tasks: seq<Task>, instanceId: nat, source: DragData, dropTargets: seq<DragData>)
    requires UniqueIds(tasks)
    ensures UniqueIds(GridDrop(tasks, instanceId, source, dropTargets))
    ensures GridDrop(GridDrop(tasks, instanceId, source, dropTargets), instanceId, source, dropTargets) == tasks
  {
    var once := GridDrop(tasks, instanceId, source, dropTargets);
    if once != tasks {
      var i := GetItemIndex(tasks, source.taskId);
      var j := GetItemIndex(tasks, dropTargets[0].taskId);
      assert once == Swap(tasks, i, j);
      assert UniqueIds(once) by {
        forall a, b | 0 <= a < b < |once| ensures once[a].id != once[b].id {
          var a' := if a == i then j else if a == j then i else a;
          var b' := if b == i then j else if b == j then i else b;
          assert once[a] == tasks[a'] && once[b] == tasks[b'];
        }
      }
      IndexOfUniqueId(once, j);
      IndexOfUniqueId(once, i);
      assert Swap(once, j, i) == tasks;
    }
  }
}

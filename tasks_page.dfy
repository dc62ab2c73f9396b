/**
 * The Kanban board of src/components/pages/TasksPage.tsx: the columns are
 * the tasks of one status, sorted by display_order, and a drop either
 * reorders one column or moves a task into another column.
 *
 * `BoardDrop` is the whole drop as a function of the task list and the drop
 * event; `KanbanBoard.OnDrop` is the handler, which updates the `tasks` state
 * and returns the body of the bulk reorder call it fires. The page never
 * looks at that call's result, so it has no failure input and never refetches.
 */
module TasksPage {
  import opened Items
  import opened DragAndDrop
  import opened DragData
  import Sorting

  /** One entry of the bulk reorder call: `{ id, display_order, status }`. */
  datatype TaskOrderUpdate = TaskOrderUpdate(id: string, displayOrder: Option<int>, status: TaskStatus)

  /** The task list after a drop, and the bulk reorder call it sends, if any. */
  datatype BoardOutcome = BoardOutcome(tasks: seq<Task>, request: Option<seq<TaskOrderUpdate>>)

  /** The number `a.display_order - b.display_order` reads: a null order counts as 0. */
  function OrderNumber(t: Task): int {
    match t.displayOrder
    case Some(n) => n
    case None => 0
  }

  /** The comparator `(a, b) => a.display_order - b.display_order` read as "a may precede b". */
  function ByDisplayOrder(a: Task, b: Task): bool {
    OrderNumber(a) <= OrderNumber(b)
  }

  function StatusIs(status: TaskStatus): Task -> bool {
    (t: Task) => t.fields.status == status
  }

  predicate AllWithStatus(s: seq<Task>, status: TaskStatus) {
    forall i :: 0 <= i < |s| ==> s[i].fields.status == status
  }

  function ToUpdate(t: Task): TaskOrderUpdate {
    TaskOrderUpdate(t.id, t.displayOrder, t.fields.status)
  }

  lemma ByDisplayOrderIsTotal()
    ensures Sorting.TotalPreorder(ByDisplayOrder)
  {
  }

  /** getTasksByStatus: the column of one status, in display_order, ties in list order. */
  function TasksByStatus(tasks: seq<Task>, status: TaskStatus): (column: seq<Task>)
    ensures multiset(column) == multiset(Filter(tasks, StatusIs(status)))
    ensures AllWithStatus(column, status)
    ensures forall i :: 0 <= i < |column| ==> column[i] in tasks
    ensures Sorting.SortedBy(column, ByDisplayOrder)
  {
    var filtered := Filter(tasks, StatusIs(status));
    var column := Sorting.Sort(filtered, ByDisplayOrder);
    ByDisplayOrderIsTotal();
    Sorting.SortSorted(filtered, ByDisplayOrder);
    RearrangedColumn(tasks, status, column);
    column
  }

  /** Any rearrangement of the filtered column holds tasks of that status, each from the list. */
  lemma RearrangedColumn(tasks: seq<Task>, status: TaskStatus, column: seq<Task>)
    requires multiset(column) == multiset(Filter(tasks, StatusIs(status)))
    ensures AllWithStatus(column, status)
    ensures forall i :: 0 <= i < |column| ==> column[i] in tasks
  {
    forall i | 0 <= i < |column| ensures column[i].fields.status == status && column[i] in tasks {
      assert column[i] in multiset(column);
      InFilterSatisfies(tasks, StatusIs(status), column[i]);
    }
  }

  /** The first column among the drop targets: the one record that has a status but carries no task. */
  function FirstColumn(dropTargets: seq<DragData>): (r: Option<TaskStatus>)
    ensures r.Some? <==> exists i :: 0 <= i < |dropTargets| && dropTargets[i].ColumnData?
    ensures r.Some? ==> exists i :: 0 <= i < |dropTargets| && dropTargets[i] == ColumnData(r.value) &&
                                    forall j :: 0 <= j < i ==> !dropTargets[j].ColumnData?
  {
    if dropTargets == [] then None
    else if dropTargets[0].ColumnData? then Some(dropTargets[0].status)
    else
      var rest := dropTargets[1..];
      assert forall i :: 1 <= i < |dropTargets| ==> dropTargets[i] == rest[i - 1];
      var r := FirstColumn(rest);
      assert r.Some? ==> exists i :: 0 <= i < |dropTargets| && dropTargets[i] == ColumnData(r.value) &&
                                     forall j :: 0 <= j < i ==> !dropTargets[j].ColumnData? by {
        if r.Some? {
          var k :| 0 <= k < |rest| && rest[k] == ColumnData(r.value) && forall j :: 0 <= j < k ==> !rest[j].ColumnData?;
          assert dropTargets[k + 1] == ColumnData(r.value);
        }
      }
      r
  }

  /** The status a drop lands in: the innermost target's own when it is a task, otherwise the enclosing column's. */
  function DestinationStatus(dropTargets: seq<DragData>): Option<TaskStatus>
    requires |dropTargets| > 0
  {
    if dropTargets[0].TaskData? then Some(dropTargets[0].status) else FirstColumn(dropTargets)
  }

  /** `find` the row's id in `updated`, or keep the row. */
  function Replace(t: Task, updated: seq<Task>): Task {
    match FindById(updated, t.id)
    case Some(u) => u
    case None => t
  }

  /** Lines 143-146: every task is replaced by its reordered copy, if it has one. */
  function MergeReordered(tasks: seq<Task>, reordered: seq<Task>): (r: seq<Task>)
    ensures |r| == |tasks|
    ensures forall i :: 0 <= i < |tasks| ==> r[i] == Replace(tasks[i], reordered)
  {
    Map(tasks, (t: Task) => Replace(t, reordered))
  }

  /** Lines 183-193: tasks of the two columns are looked up in their column's new list; the rest are kept. */
  function MergeColumns(tasks: seq<Task>, sourceStatus: TaskStatus, updatedSource: seq<Task>,
                        destinationStatus: TaskStatus, updatedDestination: seq<Task>): (r: seq<Task>)
    ensures |r| == |tasks|
    ensures forall i :: 0 <= i < |tasks| ==>
      r[i] == (if tasks[i].fields.status == sourceStatus then Replace(tasks[i], updatedSource)
               else if tasks[i].fields.status == destinationStatus then Replace(tasks[i], updatedDestination)
               else tasks[i])
  {
    Map(tasks, (t: Task) =>
      if t.fields.status == sourceStatus then Replace(t, updatedSource)
      else if t.fields.status == destinationStatus then Replace(t, updatedDestination)
      else t)
  }

  /** Lines 160-172: append to the destination column unless the drop is on one of its tasks. */
  function CrossColumnIndex(destinationTasks: seq<Task>, sourceIndex: int, destination: DragData): (r: nat)
    ensures r <= |destinationTasks|
    ensures !destination.TaskData? || GetItemIndex(destinationTasks, destination.id) == -1 ==> r == |destinationTasks|
    ensures destination.TaskData? && GetItemIndex(destinationTasks, destination.id) != -1 ==>
              r == GetReorderDestinationIndex(sourceIndex, GetItemIndex(destinationTasks, destination.id), destination.closestEdge)
  {
    if destination.TaskData? && GetItemIndex(destinationTasks, destination.id) != -1 then
      GetReorderDestinationIndex(sourceIndex, GetItemIndex(destinationTasks, destination.id), destination.closestEdge)
    else |destinationTasks|
  }

  /** The task being moved, as the handler builds it: the dragged copy with the destination status. */
  function MovedTask(source: DragData, destinationStatus: TaskStatus): Task
    requires source.TaskData?
  {
    source.task.(fields := source.task.fields.(status := destinationStatus))
  }

  /** Lines 112-158: a drop within one column. */
  function SameColumnDrop(tasks: seq<Task>, column: seq<Task>, sourceIndex: nat, destination: DragData): BoardOutcome
    requires sourceIndex < |column|
  {
    if !destination.TaskData? then BoardOutcome(tasks, None)
    else
      var targetIndex := GetItemIndex(column, destination.id);
      if targetIndex == -1 then BoardOutcome(tasks, None)
      else
        var destinationIndex := GetReorderDestinationIndex(sourceIndex, targetIndex, destination.closestEdge);
        if sourceIndex == destinationIndex then BoardOutcome(tasks, None)
        else
          var reordered := NewOrder(column, sourceIndex, destinationIndex);
          BoardOutcome(MergeReordered(tasks, reordered), Some(Map(reordered, ToUpdate)))
  }

  /** The body of the bulk call after a cross-column move (lines 205-219). */
  function CrossColumnRequest(source: DragData, destinationStatus: TaskStatus,
                              updatedSource: seq<Task>, updatedDestination: seq<Task>): seq<TaskOrderUpdate>
    requires source.TaskData?
  {
    [TaskOrderUpdate(source.id, MovedTask(source, destinationStatus).displayOrder, destinationStatus)]
      + Map(updatedSource, ToUpdate)
      + Map(Filter(updatedDestination, IdIsNot(source.id)), ToUpdate)
  }

  /** Lines 159-221: a drop into another column. */
  function CrossColumnDrop(tasks: seq<Task>, source: DragData, destination: DragData,
                           sourceTasks: seq<Task>, destinationTasks: seq<Task>,
                           sourceIndex: nat, destinationStatus: TaskStatus): BoardOutcome
    requires source.TaskData?
  {
    var destinationIndex := CrossColumnIndex(destinationTasks, sourceIndex, destination);
    var movedTask := MovedTask(source, destinationStatus);
    var updatedSource := SourceAfterMove(sourceTasks, sourceIndex);
    var updatedDestination := DestinationAfterMove(destinationTasks, destinationIndex, movedTask);
    var updatedTasks := MergeColumns(tasks, source.status, updatedSource, destinationStatus, updatedDestination);
    var finalTasks :=
      match FindById(updatedDestination, source.id)
      case Some(moved) => Filter(updatedTasks, IdIsNot(source.id)) + [moved]
      case None => updatedTasks;
    BoardOutcome(finalTasks, Some(CrossColumnRequest(source, destinationStatus, updatedSource, updatedDestination)))
  }

  /** The drop handler of the board (lines 80-222) as a function of the task list and the event. */
  function BoardDrop(tasks: seq<Task>, source: DragData, dropTargets: seq<DragData>): BoardOutcome {
    if |dropTargets| == 0 || !source.TaskData? then BoardOutcome(tasks, None)
    else match DestinationStatus(dropTargets)
      case None => BoardOutcome(tasks, None)
      case Some(destinationStatus) =>
        var sourceTasks := TasksByStatus(tasks, source.status);
        var destinationTasks := TasksByStatus(tasks, destinationStatus);
        var sourceIndex := GetItemIndex(sourceTasks, source.id);
        if sourceIndex == -1 then BoardOutcome(tasks, None)
        else if source.status == destinationStatus then
          SameColumnDrop(tasks, sourceTasks, sourceIndex, dropTargets[0])
        else
          CrossColumnDrop(tasks, source, dropTargets[0], sourceTasks, destinationTasks, sourceIndex, destinationStatus)
  }

  /** The same-column branch of the handler (lines 112-158). */
  method ReorderInColumn(tasks: seq<Task>, column: seq<Task>, sourceIndex: nat, destination: DragData)
    returns (outcome: BoardOutcome)
    requires sourceIndex < |column|
    ensures outcome == SameColumnDrop(tasks, column, sourceIndex, destination)
  {
    outcome := BoardOutcome(tasks, None);
    if !destination.TaskData? {
      return;
    }
    var targetIndex := GetItemIndex(column, destination.id);
    if targetIndex == -1 {
      return;
    }
    var destinationIndex := GetReorderDestinationIndex(sourceIndex, targetIndex, destination.closestEdge);
    if sourceIndex == destinationIndex {
      return;
    }
    var reorderedTasks := CalculateNewOrder(column, sourceIndex, destinationIndex);
    outcome := BoardOutcome(MergeReordered(tasks, reorderedTasks), Some(Map(reorderedTasks, ToUpdate)));
  }

  /** The cross-column branch of the handler (lines 159-221). */
  method MoveAcrossColumns(tasks: seq<Task>, source: DragData, destination: DragData,
                           sourceTasks: seq<Task>, destinationTasks: seq<Task>,
                           sourceIndex: nat, destinationStatus: TaskStatus)
    returns (outcome: BoardOutcome)
    requires source.TaskData?
    requires sourceIndex < |sourceTasks|
    ensures outcome == CrossColumnDrop(tasks, source, destination, sourceTasks, destinationTasks, sourceIndex, destinationStatus)
  {
    var destinationIndex := |destinationTasks|;
    if destination.TaskData? {
      var targetIndex := GetItemIndex(destinationTasks, destination.id);
      if targetIndex != -1 {
        destinationIndex := GetReorderDestinationIndex(sourceIndex, targetIndex, destination.closestEdge);
      }
    }
    assert destinationIndex == CrossColumnIndex(destinationTasks, sourceIndex, destination);
    var movedTask := MovedTask(source, destinationStatus);
    var updatedSource, updatedDestination :=
      ReorderItemsAcrossColumns(sourceTasks, destinationTasks, sourceIndex, destinationIndex, movedTask);
    var updatedTasks := MergeColumns(tasks, source.status, updatedSource, destinationStatus, updatedDestination);
    var finalTasks := updatedTasks;
    var taskMovedToNewStatus := FindById(updatedDestination, source.id);
    if taskMovedToNewStatus.Some? {
      finalTasks := Filter(updatedTasks, IdIsNot(source.id));
      finalTasks := finalTasks + [taskMovedToNewStatus.value];
    }
    assert finalTasks == CrossColumnDrop(tasks, source, destination, sourceTasks, destinationTasks, sourceIndex, destinationStatus).tasks;
    outcome := BoardOutcome(finalTasks, Some(CrossColumnRequest(source, destinationStatus, updatedSource, updatedDestination)));
  }

  /** The page's task state and its drop monitor. */
  class KanbanBoard {
    var tasks: seq<Task>

    constructor (tasks: seq<Task>)
      ensures this.tasks == tasks
    {
      this.tasks := tasks;
    }

    /** onDrop: updates `tasks` and returns the body of the bulk reorder call, when one is sent. */
    method OnDrop(source: DragData, dropTargets: seq<DragData>) returns (request: Option<seq<TaskOrderUpdate>>)
      modifies this
      ensures tasks == BoardDrop(old(tasks), source, dropTargets).tasks
      ensures request == BoardDrop(old(tasks), source, dropTargets).request
    {
      request := None;
      if |dropTargets| == 0 || !source.TaskData? {
        return;
      }
      var destinationStatus := DestinationStatus(dropTargets);
      if destinationStatus.None? {
        return;
      }
      var sourceTasks := TasksByStatus(tasks, source.status);
      var destinationTasks := TasksByStatus(tasks, destinationStatus.value);
      var sourceIndex := GetItemIndex(sourceTasks, source.id);
      if sourceIndex == -1 {
        return;
      }
      var outcome;
      if source.status == destinationStatus.value {
        outcome := ReorderInColumn(tasks, sourceTasks, sourceIndex, dropTargets[0]);
      } else {
        outcome := MoveAcrossColumns(tasks, source, dropTargets[0], sourceTasks, destinationTasks,
                                     sourceIndex, destinationStatus.value);
      }
      tasks := outcome.tasks;
      request := outcome.request;
    }
  }

  // ---------------------------------------------------------------------------
  // What a drop does to the board

  /**
   * Drops the handler ignores, leaving the tasks as they are and sending
   * nothing: no target; a source that is not a task; no status to land in;
   * a dragged id missing from its column; and, within one column, a target
   * that is not a task of that column or an edge that resolves to the
   * dragged task's own slot.
   */
  lemma BoardDropNoOps(tasks: seq<Task>, source: DragData, dropTargets: seq<DragData>)
    ensures |dropTargets| == 0 || !source.TaskData? ==> BoardDrop(tasks, source, dropTargets) == BoardOutcome(tasks, None)
    ensures |dropTargets| > 0 && DestinationStatus(dropTargets).None? ==>
              BoardDrop(tasks, source, dropTargets) == BoardOutcome(tasks, None)
    ensures source.TaskData? && GetItemIndex(TasksByStatus(tasks, source.status), source.id) == -1 ==>
              BoardDrop(tasks, source, dropTargets) == BoardOutcome(tasks, None)
    ensures (source.TaskData? && |dropTargets| > 0 && DestinationStatus(dropTargets) == Some(source.status) &&
             (var column := TasksByStatus(tasks, source.status);
              var sourceIndex := GetItemIndex(column, source.id);
              var target := dropTargets[0];
              !target.TaskData? || GetItemIndex(column, target.id) == -1 ||
              sourceIndex == GetReorderDestinationIndex(sourceIndex, GetItemIndex(column, target.id), target.closestEdge))) ==>
              BoardDrop(tasks, source, dropTargets) == BoardOutcome(tasks, None)
  {
  }

  /** A column of a task list with unique ids has unique ids and holds every task of its status. */
  lemma ColumnOfUniqueTasks(tasks: seq<Task>, status: TaskStatus)
    requires UniqueIds(tasks)
    ensures UniqueIds(TasksByStatus(tasks, status))
    ensures forall i :: 0 <= i < |tasks| && tasks[i].fields.status == status ==> tasks[i] in TasksByStatus(tasks, status)
  {
    var column := TasksByStatus(tasks, status);
    assert UniqueIds(column) by {
      UniqueIdsSub(column, tasks);
    }
    forall i | 0 <= i < |tasks| && tasks[i].fields.status == status
      ensures tasks[i] in column
    {
      assert StatusIs(status)(tasks[i]);
      FilterKeepsPassing(tasks, StatusIs(status), i);
      assert tasks[i] in multiset(Filter(tasks, StatusIs(status)));
      assert tasks[i] in multiset(column);
    }
  }

  /** A task looked up in a reordered copy of a column comes back with only its display_order changed. */
  lemma ReplaceFromReordered(t: Task, tasks: seq<Task>, column: seq<Task>, reordered: seq<Task>)
    requires UniqueIds(tasks) && t in tasks
    requires forall m :: 0 <= m < |column| ==> column[m] in tasks
    requires multiset(Unordered(reordered)) == multiset(Unordered(column))
    ensures WithoutOrder(Replace(t, reordered)) == WithoutOrder(t)
    ensures t in column ==> Replace(t, reordered) in reordered
    ensures t !in column ==> Replace(t, reordered) == t
  {
    var found := FindById(reordered, t.id);
    if found.Some? {
      var k :| 0 <= k < |reordered| && reordered[k] == found.value;
      assert Unordered(reordered)[k] in multiset(Unordered(column));
      var m :| 0 <= m < |column| && Unordered(column)[m] == WithoutOrder(found.value);
      SameIdSameRow(tasks, column[m], t);
    }
    if t in column {
      var m :| 0 <= m < |column| && column[m] == t;
      assert Unordered(column)[m] in multiset(Unordered(reordered));
      var k :| 0 <= k < |reordered| && Unordered(reordered)[k] == WithoutOrder(t);
      assert reordered[k].id == t.id;
    }
  }

  /** The page state after merging a reordered copy of a column: only display_order changes, and only in that column. */
  lemma MergeReorderedKeepsTasks(tasks: seq<Task>, column: seq<Task>, status: TaskStatus, reordered: seq<Task>)
    requires UniqueIds(tasks) && AllWithStatus(column, status)
    requires forall m :: 0 <= m < |column| ==> column[m] in tasks
    requires forall i :: 0 <= i < |tasks| && tasks[i].fields.status == status ==> tasks[i] in column
    requires multiset(Unordered(reordered)) == multiset(Unordered(column))
    ensures forall i :: 0 <= i < |tasks| ==> WithoutOrder(MergeReordered(tasks, reordered)[i]) == WithoutOrder(tasks[i])
    ensures forall i :: 0 <= i < |tasks| && tasks[i].fields.status == status ==>
              ToUpdate(MergeReordered(tasks, reordered)[i]) in Map(reordered, ToUpdate)
    ensures forall i :: 0 <= i < |tasks| && tasks[i].fields.status != status ==> MergeReordered(tasks, reordered)[i] == tasks[i]
  {
    var merged := MergeReordered(tasks, reordered);
    var request := Map(reordered, ToUpdate);
    forall i | 0 <= i < |tasks|
      ensures WithoutOrder(merged[i]) == WithoutOrder(tasks[i])
      ensures tasks[i].fields.status == status ==> ToUpdate(merged[i]) in request
      ensures tasks[i].fields.status != status ==> merged[i] == tasks[i]
    {
      ReplaceFromReordered(tasks[i], tasks, column, reordered);
      if tasks[i] in column {
        var m :| 0 <= m < |column| && column[m] == tasks[i];
      }
      if tasks[i].fields.status == status {
        var k :| 0 <= k < |reordered| && reordered[k] == merged[i];
        assert request[k] == ToUpdate(merged[i]);
      }
    }
  }

  /** The bulk call of a same-column drop numbers the reordered column densely, all with the column's status. */
  lemma ReorderedColumnRequest(column: seq<Task>, status: TaskStatus, reordered: seq<Task>)
    requires AllWithStatus(column, status)
    requires Dense(reordered) && multiset(Unordered(reordered)) == multiset(Unordered(column))
    ensures var request := Map(reordered, ToUpdate);
            |request| == |column| &&
            forall k :: 0 <= k < |request| ==> request[k].displayOrder == Some(k) && request[k].status == status
  {
    var request := Map(reordered, ToUpdate);
    assert |Unordered(reordered)| == |Unordered(column)| by {
      assert |multiset(Unordered(reordered))| == |multiset(Unordered(column))|;
    }
    forall k | 0 <= k < |request|
      ensures request[k].status == status
    {
      assert Unordered(reordered)[k] in multiset(Unordered(column));
      var m :| 0 <= m < |column| && Unordered(column)[m] == WithoutOrder(reordered[k]);
    }
  }

  /**
   * A drop within one column changes display_order only: every task keeps its
   * place in the list and all its other fields. When the bulk call is sent it
   * numbers the whole column 0, 1, 2, ... with the column's status, and it
   * carries the page's new state of every task of that column.
   */
  lemma {:induction false} SameColumnDropKeepsTasks(tasks: seq<Task>, source: DragData, dropTargets: seq<DragData>)
    requires UniqueIds(tasks)
    requires |dropTargets| > 0 && source.TaskData? && DestinationStatus(dropTargets) == Some(source.status)
    ensures var o := BoardDrop(tasks, source, dropTargets);
            |o.tasks| == |tasks| &&
            (forall i :: 0 <= i < |tasks| ==> WithoutOrder(o.tasks[i]) == WithoutOrder(tasks[i])) &&
            (forall i :: 0 <= i < |tasks| && tasks[i].fields.status != source.status ==> o.tasks[i] == tasks[i])
    ensures var o := BoardDrop(tasks, source, dropTargets);
            var column := TasksByStatus(tasks, source.status);
            o.request.Some? ==>
              && |o.request.value| == |column|
              && (forall k :: 0 <= k < |column| ==>
                    o.request.value[k].displayOrder == Some(k) && o.request.value[k].status == source.status)
              && (forall i :: 0 <= i < |tasks| && tasks[i].fields.status == source.status ==>
                    ToUpdate(o.tasks[i]) in o.request.value)
  {
    var column := TasksByStatus(tasks, source.status);
    var sourceIndex := GetItemIndex(column, source.id);
    if sourceIndex != -1 {
      assert BoardDrop(tasks, source, dropTargets) == SameColumnDrop(tasks, column, sourceIndex, dropTargets[0]);
      SameColumnReorder(tasks, source.status, sourceIndex, dropTargets[0]);
    }
  }

  /** The same-column branch on the column of one status: only display_order changes, the call numbers the column. */
  lemma SameColumnReorder(tasks: seq<Task>, status: TaskStatus, sourceIndex: nat, destination: DragData)
    requires UniqueIds(tasks) && sourceIndex < |TasksByStatus(tasks, status)|
    ensures var column := TasksByStatus(tasks, status);
            var o := SameColumnDrop(tasks, column, sourceIndex, destination);
            && |o.tasks| == |tasks|
            && (forall i :: 0 <= i < |tasks| ==> WithoutOrder(o.tasks[i]) == WithoutOrder(tasks[i]))
            && (forall i :: 0 <= i < |tasks| && tasks[i].fields.status != status ==> o.tasks[i] == tasks[i])
            && (o.request.Some? ==>
                  && |o.request.value| == |column|
                  && (forall k :: 0 <= k < |column| ==>
                        o.request.value[k].displayOrder == Some(k) && o.request.value[k].status == status)
                  && (forall i :: 0 <= i < |tasks| && tasks[i].fields.status == status ==>
                        ToUpdate(o.tasks[i]) in o.request.value))
  {
    var column := TasksByStatus(tasks, status);
    if destination.TaskData? && GetItemIndex(column, destination.id) != -1 {
      var destinationIndex := GetReorderDestinationIndex(sourceIndex, GetItemIndex(column, destination.id), destination.closestEdge);
      if sourceIndex != destinationIndex {
        var reordered := NewOrder(column, sourceIndex, destinationIndex);
        NewOrderPermutation(column, sourceIndex, destinationIndex);
        ColumnOfUniqueTasks(tasks, status);
        MergeReorderedKeepsTasks(tasks, column, status, reordered);
        ReorderedColumnRequest(column, status, reordered);
      }
    }
  }

  /** The source column after a cross-column move keeps its status and no longer holds the moved id. */
  lemma SourceAfterMoveDropsId(sourceTasks: seq<Task>, sourceIndex: nat, status: TaskStatus)
    requires AllWithStatus(sourceTasks, status) && UniqueIds(sourceTasks) && sourceIndex < |sourceTasks|
    ensures var updated := SourceAfterMove(sourceTasks, sourceIndex);
            AllWithStatus(updated, status) &&
            forall j :: 0 <= j < |updated| ==> updated[j].id != sourceTasks[sourceIndex].id
  {
    var updated := SourceAfterMove(sourceTasks, sourceIndex);
    forall j | 0 <= j < |updated|
      ensures updated[j].fields.status == status && updated[j].id != sourceTasks[sourceIndex].id
    {
      assert Unordered(updated)[j] == RemoveAt(Unordered(sourceTasks), sourceIndex)[j];
      if j < sourceIndex {
        assert WithoutOrder(updated[j]) == WithoutOrder(sourceTasks[j]);
      } else {
        assert WithoutOrder(updated[j]) == WithoutOrder(sourceTasks[j + 1]);
      }
    }
  }

  /** The destination column after a cross-column move has one status and holds the moved id once, at the drop slot. */
  lemma DestinationAfterMoveHoldsId(destinationTasks: seq<Task>, destinationIndex: nat, movedTask: Task, status: TaskStatus)
    requires AllWithStatus(destinationTasks, status) && movedTask.fields.status == status
    requires forall j :: 0 <= j < |destinationTasks| ==> destinationTasks[j].id != movedTask.id
    requires destinationIndex <= |destinationTasks|
    ensures var updated := DestinationAfterMove(destinationTasks, destinationIndex, movedTask);
            && AllWithStatus(updated, status)
            && FindById(updated, movedTask.id) == Some(updated[destinationIndex])
            && CountId(updated, movedTask.id) == 1
  {
    var updated := DestinationAfterMove(destinationTasks, destinationIndex, movedTask);
    forall j | 0 <= j < |updated| && j != destinationIndex
      ensures updated[j].fields.status == status && updated[j].id != movedTask.id
    {
      if j < destinationIndex {
        assert RemoveAt(Unordered(updated), destinationIndex)[j] == Unordered(destinationTasks)[j];
      } else {
        assert RemoveAt(Unordered(updated), destinationIndex)[j - 1] == Unordered(destinationTasks)[j - 1];
      }
    }
    assert WithoutOrder(updated[destinationIndex]) == WithoutOrder(movedTask);
    OnlyAt(updated, destinationIndex, movedTask.id);
  }

  /** Merging the two new columns keeps every task's id and status, and leaves the other columns' tasks as they were. */
  lemma MergeColumnsKeepsIds(tasks: seq<Task>, sourceStatus: TaskStatus, updatedSource: seq<Task>,
                             destinationStatus: TaskStatus, updatedDestination: seq<Task>)
    requires AllWithStatus(updatedSource, sourceStatus) && AllWithStatus(updatedDestination, destinationStatus)
    ensures var merged := MergeColumns(tasks, sourceStatus, updatedSource, destinationStatus, updatedDestination);
            forall i :: 0 <= i < |tasks| ==>
              && merged[i].id == tasks[i].id
              && merged[i].fields.status == tasks[i].fields.status
              && (tasks[i].fields.status != sourceStatus && tasks[i].fields.status != destinationStatus ==> merged[i] == tasks[i])
  {
    var merged := MergeColumns(tasks, sourceStatus, updatedSource, destinationStatus, updatedDestination);
    forall i | 0 <= i < |tasks|
      ensures merged[i].id == tasks[i].id && merged[i].fields.status == tasks[i].fields.status
    {
      var t := tasks[i];
      if t.fields.status == sourceStatus && FindById(updatedSource, t.id).Some? {
        var k :| 0 <= k < |updatedSource| && updatedSource[k] == FindById(updatedSource, t.id).value;
      } else if t.fields.status != sourceStatus && t.fields.status == destinationStatus && FindById(updatedDestination, t.id).Some? {
        var k :| 0 <= k < |updatedDestination| && updatedDestination[k] == FindById(updatedDestination, t.id).value;
      }
    }
  }

  /** Dropping the moved id from the merged list and appending its new row keeps the length and counts the id once. */
  lemma MovedRowAppended(tasks: seq<Task>, merged: seq<Task>, id: string, k: nat, moved: Task)
    requires UniqueIds(tasks) && k < |tasks| && tasks[k].id == id && moved.id == id
    requires |merged| == |tasks| && forall i :: 0 <= i < |tasks| ==> merged[i].id == tasks[i].id
    ensures var final := Filter(merged, IdIsNot(id)) + [moved];
            |final| == |tasks| && CountId(final, id) == 1
  {
    CountIdUnique(tasks, k);
    CountIdSameIds(merged, tasks, id);
    CountIdFilter(merged, id);
    CountIdConcat(Filter(merged, IdIsNot(id)), [moved], id);
  }

  /** Columns other than the two involved come out of the cross-column merge exactly as they went in. */
  lemma OtherColumnsUntouched(tasks: seq<Task>, merged: seq<Task>, id: string, status: TaskStatus, moved: Task)
    requires |merged| == |tasks|
    requires forall i :: 0 <= i < |tasks| ==> merged[i].fields.status == tasks[i].fields.status
    requires forall i :: 0 <= i < |tasks| && tasks[i].fields.status == status ==> merged[i] == tasks[i] && tasks[i].id != id
    requires moved.fields.status != status
    ensures Filter(Filter(merged, IdIsNot(id)) + [moved], StatusIs(status)) == Filter(tasks, StatusIs(status))
  {
    var p := StatusIs(status);
    FilterAgree(merged, tasks, p);
    FilterAfterRemoval(merged, IdIsNot(id), p, moved);
  }

  /**
   * The bulk call after a cross-column move lists the moved task, then every
   * row of the new source column, then every row of the new destination
   * column other than the moved one.
   */
  lemma {:induction false} CrossColumnRequestLength(source: DragData, destinationStatus: TaskStatus,
                                                    updatedSource: seq<Task>, updatedDestination: seq<Task>)
    requires source.TaskData? && CountId(updatedDestination, source.id) == 1
    ensures var request := CrossColumnRequest(source, destinationStatus, updatedSource, updatedDestination);
            var others := Filter(updatedDestination, IdIsNot(source.id));
            && |request| == |updatedSource| + |updatedDestination|
            && request[0] == TaskOrderUpdate(source.id, source.task.displayOrder, destinationStatus)
            && (forall k :: 0 <= k < |updatedSource| ==> request[1 + k] == ToUpdate(updatedSource[k]))
            && (forall j :: 0 <= j < |others| ==> request[1 + |updatedSource| + j] == ToUpdate(others[j]))
  {
    CountIdFilter(updatedDestination, source.id);
    MapAfterHead(TaskOrderUpdate(source.id, source.task.displayOrder, destinationStatus),
                 updatedSource, Filter(updatedDestination, IdIsNot(source.id)), ToUpdate);
  }

  /** The new source column, entry by entry: the old column without the moved row, in order, numbered from 0, with its status. */
  lemma {:induction false} SourceEntries(sourceTasks: seq<Task>, sourceIndex: nat, status: TaskStatus)
    requires AllWithStatus(sourceTasks, status) && sourceIndex < |sourceTasks|
    ensures var updated := SourceAfterMove(sourceTasks, sourceIndex);
            var rest := RemoveAt(sourceTasks, sourceIndex);
            |updated| == |rest| &&
            forall k :: 0 <= k < |updated| ==> ToUpdate(updated[k]) == TaskOrderUpdate(rest[k].id, Some(k), status)
  {
    var updated := SourceAfterMove(sourceTasks, sourceIndex);
    var rest := RemoveAt(sourceTasks, sourceIndex);
    forall k | 0 <= k < |updated|
      ensures ToUpdate(updated[k]) == TaskOrderUpdate(rest[k].id, Some(k), status)
    {
      assert Unordered(updated)[k] == RemoveAt(Unordered(sourceTasks), sourceIndex)[k];
      if k < sourceIndex {
        assert WithoutOrder(updated[k]) == WithoutOrder(sourceTasks[k]);
      } else {
        assert WithoutOrder(updated[k]) == WithoutOrder(sourceTasks[k + 1]);
      }
    }
  }

  /**
   * The new destination column without the moved row, entry by entry: the old
   * column in its old order, each numbered by its slot after the insertion,
   * with its status. The new column's ids are unique when the
   * old column's are.
   */
  lemma {:induction false} DestinationEntries(destinationTasks: seq<Task>, at: nat, movedTask: Task, status: TaskStatus)
    requires AllWithStatus(destinationTasks, status) && movedTask.fields.status == status
    requires forall j :: 0 <= j < |destinationTasks| ==> destinationTasks[j].id != movedTask.id
    requires at <= |destinationTasks|
    ensures var updated := DestinationAfterMove(destinationTasks, at, movedTask);
            var others := Filter(updated, IdIsNot(movedTask.id));
            && others == RemoveAt(updated, at)
            && |others| == |destinationTasks|
            && (forall j :: 0 <= j < |others| ==>
                  ToUpdate(others[j]) == TaskOrderUpdate(destinationTasks[j].id, Some(if j < at then j else j + 1), status))
            && (UniqueIds(destinationTasks) ==> UniqueIds(updated))
  {
    DestinationKeepsOthers(destinationTasks, at, movedTask);
  }

  /** A row of the new source column reaches the merged list in the place of the task with its id. */
  lemma {:induction false} SourceRowMerged(tasks: seq<Task>, sourceStatus: TaskStatus, updatedSource: seq<Task>,
                                           destinationStatus: TaskStatus, updatedDestination: seq<Task>, i: nat, k: nat)
    requires i < |tasks| && tasks[i].fields.status == sourceStatus
    requires UniqueIds(updatedSource) && k < |updatedSource| && updatedSource[k].id == tasks[i].id
    ensures MergeColumns(tasks, sourceStatus, updatedSource, destinationStatus, updatedDestination)[i] == updatedSource[k]
  {
    OnlyAt(updatedSource, k, tasks[i].id);
  }

  /** A row of the new destination column reaches the merged list in the place of the task with its id. */
  lemma {:induction false} DestinationRowMerged(tasks: seq<Task>, sourceStatus: TaskStatus, updatedSource: seq<Task>,
                                                destinationStatus: TaskStatus, updatedDestination: seq<Task>, i: nat, k: nat)
    requires i < |tasks| && tasks[i].fields.status == destinationStatus && destinationStatus != sourceStatus
    requires UniqueIds(updatedDestination) && k < |updatedDestination| && updatedDestination[k].id == tasks[i].id
    ensures MergeColumns(tasks, sourceStatus, updatedSource, destinationStatus, updatedDestination)[i] == updatedDestination[k]
  {
    OnlyAt(updatedDestination, k, tasks[i].id);
  }

  /** What the handler's lookups establish about the two columns of a cross-column move. */
  predicate CrossColumnSetting(tasks: seq<Task>, source: DragData, sourceTasks: seq<Task>, destinationTasks: seq<Task>,
                               sourceIndex: nat, destinationStatus: TaskStatus)
  {
    && UniqueIds(tasks) && ConsistentTaskSource(source) && destinationStatus != source.status
    && UniqueIds(sourceTasks) && AllWithStatus(sourceTasks, source.status) && AllWithStatus(destinationTasks, destinationStatus)
    && sourceIndex < |sourceTasks| && sourceTasks[sourceIndex].id == source.id
    && (exists k :: 0 <= k < |tasks| && tasks[k].id == source.id)
    && (forall i :: 0 <= i < |tasks| && tasks[i].id == source.id ==> tasks[i].fields.status == source.status)
    && (forall j :: 0 <= j < |destinationTasks| ==> destinationTasks[j].id != source.id)
    && UniqueIds(destinationTasks)
    && (forall m :: 0 <= m < |sourceTasks| ==> sourceTasks[m] in tasks)
    && (forall m :: 0 <= m < |destinationTasks| ==> destinationTasks[m] in tasks)
  }

  /** A row of the new source column is, in the merged list, the row of a task other than the moved one. */
  lemma {:induction false} SourceEntryInState(tasks: seq<Task>, sourceStatus: TaskStatus, sourceTasks: seq<Task>,
                                              sourceIndex: nat, destinationStatus: TaskStatus,
                                              updatedDestination: seq<Task>, k: nat)
    requires UniqueIds(sourceTasks) && AllWithStatus(sourceTasks, sourceStatus)
    requires forall m :: 0 <= m < |sourceTasks| ==> sourceTasks[m] in tasks
    requires sourceIndex < |sourceTasks| && k < |sourceTasks| - 1
    ensures var updatedSource := SourceAfterMove(sourceTasks, sourceIndex);
            var merged := MergeColumns(tasks, sourceStatus, updatedSource, destinationStatus, updatedDestination);
            ToUpdate(updatedSource[k]) in Map(Filter(merged, IdIsNot(sourceTasks[sourceIndex].id)), ToUpdate)
  {
    var updatedSource := SourceAfterMove(sourceTasks, sourceIndex);
    var merged := MergeColumns(tasks, sourceStatus, updatedSource, destinationStatus, updatedDestination);
    var keep := IdIsNot(sourceTasks[sourceIndex].id);
    var row := sourceTasks[if k < sourceIndex then k else k + 1];
    SourceRowOrigin(sourceTasks, sourceIndex, k);
    assert UniqueIds(updatedSource) by {
      SourceKeepsOthers(sourceTasks, sourceIndex);
    }
    assert row in tasks;
    var i :| 0 <= i < |tasks| && tasks[i] == row;
    SourceRowMerged(tasks, sourceStatus, updatedSource, destinationStatus, updatedDestination, i, k);
    MapFilterMember(merged, keep, ToUpdate, i);
  }

  /** A row of the new destination column other than the moved one is, in the merged list, the row of a task other than the moved one. */
  lemma {:induction false} DestinationEntryInState(tasks: seq<Task>, sourceStatus: TaskStatus, updatedSource: seq<Task>,
                                                   destinationTasks: seq<Task>, destinationStatus: TaskStatus,
                                                   at: nat, movedTask: Task, j: nat)
    requires AllWithStatus(destinationTasks, destinationStatus) && destinationStatus != sourceStatus
    requires forall m :: 0 <= m < |destinationTasks| ==> destinationTasks[m] in tasks
    requires forall m :: 0 <= m < |destinationTasks| ==> destinationTasks[m].id != movedTask.id
    requires UniqueIds(destinationTasks)
    requires at <= |destinationTasks| && j < |destinationTasks|
    ensures var updatedDestination := DestinationAfterMove(destinationTasks, at, movedTask);
            var merged := MergeColumns(tasks, sourceStatus, updatedSource, destinationStatus, updatedDestination);
            var others := Filter(updatedDestination, IdIsNot(movedTask.id));
            j < |others| && ToUpdate(others[j]) in Map(Filter(merged, IdIsNot(movedTask.id)), ToUpdate)
  {
    var updatedDestination := DestinationAfterMove(destinationTasks, at, movedTask);
    var merged := MergeColumns(tasks, sourceStatus, updatedSource, destinationStatus, updatedDestination);
    var keep := IdIsNot(movedTask.id);
    var others := Filter(updatedDestination, keep);
    DestinationKeepsOthers(destinationTasks, at, movedTask);
    assert destinationTasks[j] in tasks;
    var i :| 0 <= i < |tasks| && tasks[i] == destinationTasks[j];
    assert merged[i] == others[j] && keep(merged[i]) by {
      var p := if j < at then j else j + 1;
      assert others[j] == updatedDestination[p];
      assert WithoutOrder(others[j]) == WithoutOrder(tasks[i]);
      DestinationRowMerged(tasks, sourceStatus, updatedSource, destinationStatus, updatedDestination, i, p);
    }
    MapFilterMember(merged, keep, ToUpdate, i);
  }

  /**
   * The entries of the cross-column bulk call after the first: the source
   * column without the moved task, in order, numbered from 0, with the source
   * status; then the destination column in its old order, numbered by slot
   * around the insertion point, with the destination status.
   */
  lemma {:induction false} CrossColumnRequestEntries(source: DragData, sourceTasks: seq<Task>, destinationTasks: seq<Task>,
                                                     sourceIndex: nat, destinationStatus: TaskStatus, destinationIndex: nat)
    requires source.TaskData? && ConsistentTaskSource(source)
    requires AllWithStatus(sourceTasks, source.status) && sourceIndex < |sourceTasks|
    requires AllWithStatus(destinationTasks, destinationStatus) && destinationIndex <= |destinationTasks|
    requires forall j :: 0 <= j < |destinationTasks| ==> destinationTasks[j].id != source.id
    ensures var updatedSource := SourceAfterMove(sourceTasks, sourceIndex);
            var updatedDestination := DestinationAfterMove(destinationTasks, destinationIndex, MovedTask(source, destinationStatus));
            var request := CrossColumnRequest(source, destinationStatus, updatedSource, updatedDestination);
            var rest := RemoveAt(sourceTasks, sourceIndex);
            && |request| == |sourceTasks| + |destinationTasks|
            && (forall k :: 0 <= k < |sourceTasks| - 1 ==>
                  request[1 + k] == TaskOrderUpdate(rest[k].id, Some(k), source.status))
            && (forall j :: 0 <= j < |destinationTasks| ==>
                  request[|sourceTasks| + j] ==
                    TaskOrderUpdate(destinationTasks[j].id, Some(if j < destinationIndex then j else j + 1), destinationStatus))
  {
    var updatedSource := SourceAfterMove(sourceTasks, sourceIndex);
    var updatedDestination := DestinationAfterMove(destinationTasks, destinationIndex, MovedTask(source, destinationStatus));
    var request := CrossColumnRequest(source, destinationStatus, updatedSource, updatedDestination);
    CrossColumnSourceEntries(source, sourceTasks, destinationTasks, sourceIndex, destinationStatus, destinationIndex);
    assert 1 + |updatedSource| == |sourceTasks|;
    assert forall j :: 0 <= j < |destinationTasks| ==>
             request[1 + |updatedSource| + j] ==
               TaskOrderUpdate(destinationTasks[j].id, Some(if j < destinationIndex then j else j + 1), destinationStatus)
    by {
      CrossColumnDestinationEntries(source, updatedSource, destinationTasks, destinationStatus, destinationIndex);
    }
    forall j | 0 <= j < |destinationTasks|
      ensures request[|sourceTasks| + j] ==
                TaskOrderUpdate(destinationTasks[j].id, Some(if j < destinationIndex then j else j + 1), destinationStatus)
    {
      assert request[1 + |updatedSource| + j] ==
               TaskOrderUpdate(destinationTasks[j].id, Some(if j < destinationIndex then j else j + 1), destinationStatus);
    }
  }

  /** The length of the cross-column bulk call and its entries for the source column. */
  lemma {:induction false} CrossColumnSourceEntries(source: DragData, sourceTasks: seq<Task>, destinationTasks: seq<Task>,
                                                    sourceIndex: nat, destinationStatus: TaskStatus, destinationIndex: nat)
    requires source.TaskData? && ConsistentTaskSource(source)
    requires AllWithStatus(sourceTasks, source.status) && sourceIndex < |sourceTasks|
    requires AllWithStatus(destinationTasks, destinationStatus) && destinationIndex <= |destinationTasks|
    requires forall j :: 0 <= j < |destinationTasks| ==> destinationTasks[j].id != source.id
    ensures var updatedSource := SourceAfterMove(sourceTasks, sourceIndex);
            var updatedDestination := DestinationAfterMove(destinationTasks, destinationIndex, MovedTask(source, destinationStatus));
            var request := CrossColumnRequest(source, destinationStatus, updatedSource, updatedDestination);
            var rest := RemoveAt(sourceTasks, sourceIndex);
            && |request| == |sourceTasks| + |destinationTasks|
            && (forall k :: 0 <= k < |sourceTasks| - 1 ==>
                  request[1 + k] == TaskOrderUpdate(rest[k].id, Some(k), source.status))
  {
    var movedTask := MovedTask(source, destinationStatus);
    var updatedSource := SourceAfterMove(sourceTasks, sourceIndex);
    var updatedDestination := DestinationAfterMove(destinationTasks, destinationIndex, movedTask);
    DestinationAfterMoveHoldsId(destinationTasks, destinationIndex, movedTask, destinationStatus);
    CrossColumnRequestLength(source, destinationStatus, updatedSource, updatedDestination);
    SourceEntries(sourceTasks, sourceIndex, source.status);
  }

  /** The entries of the cross-column bulk call for the destination column, after the head and the source column's entries. */
  lemma {:induction false} CrossColumnDestinationEntries(source: DragData, updatedSource: seq<Task>, destinationTasks: seq<Task>,
                                                         destinationStatus: TaskStatus, destinationIndex: nat)
    requires source.TaskData? && ConsistentTaskSource(source)
    requires AllWithStatus(destinationTasks, destinationStatus) && destinationIndex <= |destinationTasks|
    requires forall j :: 0 <= j < |destinationTasks| ==> destinationTasks[j].id != source.id
    ensures var updatedDestination := DestinationAfterMove(destinationTasks, destinationIndex, MovedTask(source, destinationStatus));
            var request := CrossColumnRequest(source, destinationStatus, updatedSource, updatedDestination);
            |request| == 1 + |updatedSource| + |destinationTasks| &&
            forall j :: 0 <= j < |destinationTasks| ==>
              request[1 + |updatedSource| + j] ==
                TaskOrderUpdate(destinationTasks[j].id, Some(if j < destinationIndex then j else j + 1), destinationStatus)
  {
    var movedTask := MovedTask(source, destinationStatus);
    var updatedDestination := DestinationAfterMove(destinationTasks, destinationIndex, movedTask);
    var request := CrossColumnRequest(source, destinationStatus, updatedSource, updatedDestination);
    var others := Filter(updatedDestination, IdIsNot(source.id));
    assert CountId(updatedDestination, source.id) == 1 by {
      DestinationAfterMoveHoldsId(destinationTasks, destinationIndex, movedTask, destinationStatus);
    }
    CrossColumnRequestLength(source, destinationStatus, updatedSource, updatedDestination);
    DestinationEntries(destinationTasks, destinationIndex, movedTask, destinationStatus);
  }

  /** Every entry of the cross-column bulk call after the first describes a row of the merged task list other than the moved task. */
  lemma {:induction false} CrossColumnRequestFromState(tasks: seq<Task>, source: DragData, sourceTasks: seq<Task>,
                                                       destinationTasks: seq<Task>, sourceIndex: nat,
                                                       destinationStatus: TaskStatus, destinationIndex: nat)
    requires source.TaskData?
    requires CrossColumnSetting(tasks, source, sourceTasks, destinationTasks, sourceIndex, destinationStatus)
    requires destinationIndex <= |destinationTasks|
    ensures var updatedSource := SourceAfterMove(sourceTasks, sourceIndex);
            var updatedDestination := DestinationAfterMove(destinationTasks, destinationIndex, MovedTask(source, destinationStatus));
            var merged := MergeColumns(tasks, source.status, updatedSource, destinationStatus, updatedDestination);
            var request := CrossColumnRequest(source, destinationStatus, updatedSource, updatedDestination);
            forall k :: 1 <= k < |request| ==> request[k] in Map(Filter(merged, IdIsNot(source.id)), ToUpdate)
  {
    var movedTask := MovedTask(source, destinationStatus);
    var updatedSource := SourceAfterMove(sourceTasks, sourceIndex);
    var updatedDestination := DestinationAfterMove(destinationTasks, destinationIndex, movedTask);
    var merged := MergeColumns(tasks, source.status, updatedSource, destinationStatus, updatedDestination);
    var inState := Map(Filter(merged, IdIsNot(source.id)), ToUpdate);
    var others := Filter(updatedDestination, IdIsNot(source.id));
    assert movedTask.id == source.id;
    forall k | 0 <= k < |updatedSource| ensures ToUpdate(updatedSource[k]) in inState {
      SourceEntryInState(tasks, source.status, sourceTasks, sourceIndex, destinationStatus, updatedDestination, k);
    }
    forall j | 0 <= j < |others| ensures ToUpdate(others[j]) in inState {
      assert j < |destinationTasks| by {
        DestinationKeepsOthers(destinationTasks, destinationIndex, movedTask);
      }
      DestinationEntryInState(tasks, source.status, updatedSource, destinationTasks, destinationStatus,
                              destinationIndex, movedTask, j);
    }
    MapAfterHeadWithin(TaskOrderUpdate(source.id, movedTask.displayOrder, destinationStatus),
                       updatedSource, others, ToUpdate, inState);
  }

  /**
   * What the cross-column bulk call says, entry by entry, about the task list
   * `tasksAfter` it leaves behind (the moved task last): it has one entry per
   * task of the two columns; the first is the moved task with the destination
   * status and the display_order it had before the move; then come the other
   * tasks of the source column, in order, numbered from 0, with the source
   * status; then the tasks of the destination column in their old order,
   * numbered by slot around the insertion point, with the destination status;
   * and every entry after the first describes a row of `tasksAfter` other
   * than the moved one.
   */
  predicate CrossColumnRequestDescribes(request: seq<TaskOrderUpdate>, tasksAfter: seq<Task>, source: DragData,
                                        sourceTasks: seq<Task>, sourceIndex: nat, destinationTasks: seq<Task>,
                                        destinationIndex: nat, destinationStatus: TaskStatus)
    requires source.TaskData? && sourceIndex < |sourceTasks| && |tasksAfter| > 0
  {
    && |request| == |sourceTasks| + |destinationTasks|
    && request[0] == TaskOrderUpdate(source.id, source.task.displayOrder, destinationStatus)
    && (forall k :: 0 <= k < |sourceTasks| - 1 ==>
          request[1 + k] == TaskOrderUpdate(RemoveAt(sourceTasks, sourceIndex)[k].id, Some(k), source.status))
    && (forall j :: 0 <= j < |destinationTasks| ==>
          request[|sourceTasks| + j] ==
            TaskOrderUpdate(destinationTasks[j].id, Some(if j < destinationIndex then j else j + 1), destinationStatus))
    && (forall k :: 1 <= k < |request| ==> request[k] in Map(tasksAfter[..|tasksAfter| - 1], ToUpdate))
  }

  /** The cross-column branch on columns that satisfy what the handler's lookups establish. */
  lemma CrossColumnOutcome(tasks: seq<Task>, source: DragData, destination: DragData,
                           sourceTasks: seq<Task>, destinationTasks: seq<Task>,
                           sourceIndex: nat, destinationStatus: TaskStatus)
    requires source.TaskData?
    requires CrossColumnSetting(tasks, source, sourceTasks, destinationTasks, sourceIndex, destinationStatus)
    ensures var o := CrossColumnDrop(tasks, source, destination, sourceTasks, destinationTasks, sourceIndex, destinationStatus);
            && |o.tasks| == |tasks|
            && CountId(o.tasks, source.id) == 1
            && WithoutOrder(o.tasks[|tasks| - 1]) == WithoutOrder(MovedTask(source, destinationStatus))
            && o.tasks[|tasks| - 1].displayOrder == Some(CrossColumnIndex(destinationTasks, sourceIndex, destination))
            && (forall status :: status != source.status && status != destinationStatus ==>
                  Filter(o.tasks, StatusIs(status)) == Filter(tasks, StatusIs(status)))
            && o.request.Some?
            && CrossColumnRequestDescribes(o.request.value, o.tasks, source, sourceTasks, sourceIndex, destinationTasks,
                                           CrossColumnIndex(destinationTasks, sourceIndex, destination), destinationStatus)
  {
    var destinationIndex := CrossColumnIndex(destinationTasks, sourceIndex, destination);
    var movedTask := MovedTask(source, destinationStatus);
    var updatedSource := SourceAfterMove(sourceTasks, sourceIndex);
    var updatedDestination := DestinationAfterMove(destinationTasks, destinationIndex, movedTask);
    DestinationAfterMoveHoldsId(destinationTasks, destinationIndex, movedTask, destinationStatus);
    var moved := updatedDestination[destinationIndex];
    var merged := MergeColumns(tasks, source.status, updatedSource, destinationStatus, updatedDestination);
    var final := Filter(merged, IdIsNot(source.id)) + [moved];
    assert CrossColumnDrop(tasks, source, destination, sourceTasks, destinationTasks, sourceIndex, destinationStatus) ==
           BoardOutcome(final, Some(CrossColumnRequest(source, destinationStatus, updatedSource, updatedDestination)));
    CrossColumnTasks(tasks, source, sourceTasks, destinationTasks, sourceIndex, destinationStatus, destinationIndex);
    CrossColumnRequestDescribed(tasks, source, sourceTasks, destinationTasks, sourceIndex, destinationStatus, destinationIndex);
  }

  /** The cross-column bulk call describes the task list the move leaves behind. */
  lemma {:induction false} CrossColumnRequestDescribed(tasks: seq<Task>, source: DragData, sourceTasks: seq<Task>,
                                                       destinationTasks: seq<Task>, sourceIndex: nat,
                                                       destinationStatus: TaskStatus, destinationIndex: nat)
    requires source.TaskData?
    requires CrossColumnSetting(tasks, source, sourceTasks, destinationTasks, sourceIndex, destinationStatus)
    requires destinationIndex <= |destinationTasks|
    ensures var updatedSource := SourceAfterMove(sourceTasks, sourceIndex);
            var updatedDestination := DestinationAfterMove(destinationTasks, destinationIndex, MovedTask(source, destinationStatus));
            var merged := MergeColumns(tasks, source.status, updatedSource, destinationStatus, updatedDestination);
            var final := Filter(merged, IdIsNot(source.id)) + [updatedDestination[destinationIndex]];
            CrossColumnRequestDescribes(CrossColumnRequest(source, destinationStatus, updatedSource, updatedDestination),
                                        final, source, sourceTasks, sourceIndex, destinationTasks, destinationIndex,
                                        destinationStatus)
  {
    var movedTask := MovedTask(source, destinationStatus);
    var updatedSource := SourceAfterMove(sourceTasks, sourceIndex);
    var updatedDestination := DestinationAfterMove(destinationTasks, destinationIndex, movedTask);
    var merged := MergeColumns(tasks, source.status, updatedSource, destinationStatus, updatedDestination);
    var final := Filter(merged, IdIsNot(source.id)) + [updatedDestination[destinationIndex]];
    assert CountId(updatedDestination, source.id) == 1 by {
      DestinationAfterMoveHoldsId(destinationTasks, destinationIndex, movedTask, destinationStatus);
    }
    CrossColumnRequestLength(source, destinationStatus, updatedSource, updatedDestination);
    CrossColumnRequestEntries(source, sourceTasks, destinationTasks, sourceIndex, destinationStatus, destinationIndex);
    CrossColumnRequestFromState(tasks, source, sourceTasks, destinationTasks, sourceIndex, destinationStatus, destinationIndex);
    DescribedByParts(CrossColumnRequest(source, destinationStatus, updatedSource, updatedDestination),
                     Filter(merged, IdIsNot(source.id)), updatedDestination[destinationIndex],
                     source, sourceTasks, sourceIndex, destinationTasks, destinationIndex, destinationStatus);
  }

  /** The description of the bulk call, assembled from its parts, with the moved row appended to the rest. */
  lemma {:induction false} DescribedByParts(request: seq<TaskOrderUpdate>, rest: seq<Task>, moved: Task, source: DragData,
                                            sourceTasks: seq<Task>, sourceIndex: nat, destinationTasks: seq<Task>,
                                            destinationIndex: nat, destinationStatus: TaskStatus)
    requires source.TaskData? && sourceIndex < |sourceTasks|
    requires |request| == |sourceTasks| + |destinationTasks|
    requires request[0] == TaskOrderUpdate(source.id, source.task.displayOrder, destinationStatus)
    requires forall k :: 0 <= k < |sourceTasks| - 1 ==>
               request[1 + k] == TaskOrderUpdate(RemoveAt(sourceTasks, sourceIndex)[k].id, Some(k), source.status)
    requires forall j :: 0 <= j < |destinationTasks| ==>
               request[|sourceTasks| + j] ==
                 TaskOrderUpdate(destinationTasks[j].id, Some(if j < destinationIndex then j else j + 1), destinationStatus)
    requires forall k :: 1 <= k < |request| ==> request[k] in Map(rest, ToUpdate)
    ensures CrossColumnRequestDescribes(request, rest + [moved], source, sourceTasks, sourceIndex, destinationTasks,
                                        destinationIndex, destinationStatus)
  {
    assert (rest + [moved])[..|rest|] == rest;
  }

  /** The task list after a cross-column move: the merged columns without the moved id, then its new row. */
  lemma CrossColumnTasks(tasks: seq<Task>, source: DragData, sourceTasks: seq<Task>, destinationTasks: seq<Task>,
                         sourceIndex: nat, destinationStatus: TaskStatus, destinationIndex: nat)
    requires source.TaskData?
    requires CrossColumnSetting(tasks, source, sourceTasks, destinationTasks, sourceIndex, destinationStatus)
    requires destinationIndex <= |destinationTasks|
    ensures var updatedSource := SourceAfterMove(sourceTasks, sourceIndex);
            var updatedDestination := DestinationAfterMove(destinationTasks, destinationIndex, MovedTask(source, destinationStatus));
            var merged := MergeColumns(tasks, source.status, updatedSource, destinationStatus, updatedDestination);
            var moved := updatedDestination[destinationIndex];
            var final := Filter(merged, IdIsNot(source.id)) + [moved];
            && |final| == |tasks|
            && CountId(final, source.id) == 1
            && WithoutOrder(moved) == WithoutOrder(MovedTask(source, destinationStatus))
            && moved.displayOrder == Some(destinationIndex)
            && (forall status :: status != source.status && status != destinationStatus ==>
                  Filter(final, StatusIs(status)) == Filter(tasks, StatusIs(status)))
  {
    var id := source.id;
    var movedTask := MovedTask(source, destinationStatus);
    var updatedSource := SourceAfterMove(sourceTasks, sourceIndex);
    var updatedDestination := DestinationAfterMove(destinationTasks, destinationIndex, movedTask);
    SourceAfterMoveDropsId(sourceTasks, sourceIndex, source.status);
    DestinationAfterMoveHoldsId(destinationTasks, destinationIndex, movedTask, destinationStatus);
    var merged := MergeColumns(tasks, source.status, updatedSource, destinationStatus, updatedDestination);
    MergeColumnsKeepsIds(tasks, source.status, updatedSource, destinationStatus, updatedDestination);
    var moved := updatedDestination[destinationIndex];
    var k :| 0 <= k < |tasks| && tasks[k].id == id;
    MovedRowAppended(tasks, merged, id, k, moved);
    forall status | status != source.status && status != destinationStatus
      ensures Filter(Filter(merged, IdIsNot(id)) + [moved], StatusIs(status)) == Filter(tasks, StatusIs(status))
    {
      OtherColumnsUntouched(tasks, merged, id, status, moved);
    }
  }

  /**
   * A drop into another column moves the task, it does not copy it: the list
   * keeps its length, the moved id appears exactly once, at the end, with the
   * destination status and otherwise the dragged copy's fields and its new
   * slot as display_order, and the columns of every other status are
   * untouched. The bulk call lists both columns, the moved task first, and
   * that first entry carries the display_order the task had before the move.
   * The source entries that follow are the rest of the source column, in
   * order, numbered from 0; the destination entries are the destination
   * column in its old order, numbered by slot around the insertion point; and
   * each of them describes a row of the new task list other than the moved
   * one.
   */
  lemma {:induction false} CrossColumnDropMovesTask(tasks: seq<Task>, source: DragData, dropTargets: seq<DragData>,
                                                    destinationStatus: TaskStatus)
    requires UniqueIds(tasks) && ConsistentTaskSource(source)
    requires |dropTargets| > 0 && DestinationStatus(dropTargets) == Some(destinationStatus)
    requires destinationStatus != source.status
    requires GetItemIndex(TasksByStatus(tasks, source.status), source.id) != -1
    ensures var o := BoardDrop(tasks, source, dropTargets);
            var sourceTasks := TasksByStatus(tasks, source.status);
            var destinationTasks := TasksByStatus(tasks, destinationStatus);
            var sourceIndex := GetItemIndex(sourceTasks, source.id);
            && |o.tasks| == |tasks|
            && CountId(o.tasks, source.id) == 1
            && WithoutOrder(o.tasks[|tasks| - 1]) == WithoutOrder(MovedTask(source, destinationStatus))
            && o.tasks[|tasks| - 1].displayOrder == Some(CrossColumnIndex(destinationTasks, sourceIndex, dropTargets[0]))
            && (forall status :: status != source.status && status != destinationStatus ==>
                  Filter(o.tasks, StatusIs(status)) == Filter(tasks, StatusIs(status)))
            && o.request.Some?
            && CrossColumnRequestDescribes(o.request.value, o.tasks, source, sourceTasks, sourceIndex, destinationTasks,
                                           CrossColumnIndex(destinationTasks, sourceIndex, dropTargets[0]), destinationStatus)
  {
    var sourceTasks := TasksByStatus(tasks, source.status);
    var destinationTasks := TasksByStatus(tasks, destinationStatus);
    var sourceIndex := GetItemIndex(sourceTasks, source.id);
    BoardColumnsSetting(tasks, source, destinationStatus);
    assert BoardDrop(tasks, source, dropTargets) ==
      CrossColumnDrop(tasks, source, dropTargets[0], sourceTasks, destinationTasks, sourceIndex, destinationStatus);
    CrossColumnOutcome(tasks, source, dropTargets[0], sourceTasks, destinationTasks, sourceIndex, destinationStatus);
  }

  /** The board's two columns, with the dragged task found in its own, are a cross-column setting. */
  lemma BoardColumnsSetting(tasks: seq<Task>, source: DragData, destinationStatus: TaskStatus)
    requires UniqueIds(tasks) && ConsistentTaskSource(source) && destinationStatus != source.status
    requires GetItemIndex(TasksByStatus(tasks, source.status), source.id) != -1
    ensures var sourceTasks := TasksByStatus(tasks, source.status);
            CrossColumnSetting(tasks, source, sourceTasks, TasksByStatus(tasks, destinationStatus),
                               GetItemIndex(sourceTasks, source.id), destinationStatus)
  {
    var id := source.id;
    var sourceTasks := TasksByStatus(tasks, source.status);
    var destinationTasks := TasksByStatus(tasks, destinationStatus);
    var sourceIndex := GetItemIndex(sourceTasks, id);
    ColumnOfUniqueTasks(tasks, source.status);
    ColumnOfUniqueTasks(tasks, destinationStatus);
    var row := sourceTasks[sourceIndex];
    assert row in tasks;
    forall i | 0 <= i < |tasks| && tasks[i].id == id
      ensures tasks[i].fields.status == source.status
    {
      SameIdSameRow(tasks, tasks[i], row);
    }
    forall j | 0 <= j < |destinationTasks|
      ensures destinationTasks[j].id != id
    {
      assert destinationTasks[j] in tasks;
    }
  }
}

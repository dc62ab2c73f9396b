/**
 * How the drop targets under the cursor become the `location.current.dropTargets`
 * list a page's drop handler reads: every element under the cursor, innermost
 * first, is asked `canDrop` for the dragged record; those that accept
 * contribute their `getData` record. The hit-testing of the drag library
 * (which elements lie under the cursor, which edge is closest) is the input
 * `hits`.
 *
 * The elements are the ones the front end registers: task cards
 * (src/components/tasks/TaskCard.tsx), Kanban columns
 * (src/components/tasks/KanbanColumn.tsx), project cards
 * (src/components/projects/ProjectCard.tsx), calendar day cells
 * (src/components/calendar/CalendarDayCell.tsx) and priority-grid cards
 * (src/components/priority/PriorityGrid.tsx).
 */
module DropTargets {
  import opened Items
  import opened DragData
  import TaskCard
  import ProjectCard
  import PriorityGrid

  /** A drop-target element as the hit-test reports it. */
  datatype Element =
    | TaskCardEl(task: Task, index: int, nearerBottom: bool)
    | ColumnEl(status: TaskStatus)
    | ProjectCardEl(project: Project, index: int)
    | DayCellEl(date: string)
    | GridCardEl(task: Task, instanceId: nat)

  /** The element's canDrop for the dragged record. A column and a day cell accept any task. */
  function Accepts(source: DragData, element: Element): bool {
    match element
    case TaskCardEl(task, _, _) => TaskCard.CanDrop(source, task)
    case ColumnEl(_) => source.TaskData?
    case ProjectCardEl(project, _) => ProjectCard.CanDrop(source, project)
    case DayCellEl(_) => source.TaskData?
    case GridCardEl(task, instanceId) => PriorityGrid.CanDrop(source, task, instanceId)
  }

  /** The element's getData. */
  function TargetData(source: DragData, element: Element): DragData {
    match element
    case TaskCardEl(task, index, nearerBottom) => TaskCard.DropData(task, index, nearerBottom)
    case ColumnEl(status) => ColumnData(status)
    case ProjectCardEl(project, index) => ProjectCard.DropData(source, project, index)
    case DayCellEl(date) => DayData(date)
    case GridCardEl(task, instanceId) => PriorityGrid.CardData(task, instanceId)
  }

  /** The records the handler receives: those of the accepting elements, in hit order. */
  function DropTargets(source: DragData, hits: seq<Element>): (r: seq<DragData>)
    ensures |r| <= |hits|
    ensures (forall k :: 0 <= k < |hits| ==> Accepts(source, hits[k])) ==> |r| == |hits|
    ensures (forall k :: 0 <= k < |hits| ==> !Accepts(source, hits[k])) ==> r == []
  {
    if hits == [] then []
    else
      var rest := DropTargets(source, hits[1..]);
      if Accepts(source, hits[0]) then [TargetData(source, hits[0])] + rest else rest
  }

  /** Where the record at position `i` comes from: an element under the cursor that accepted the dragged record. */
  lemma {:induction false} TargetOrigin(source: DragData, hits: seq<Element>, i: nat) returns (k: nat)
    requires i < |DropTargets(source, hits)|
    ensures k < |hits| && Accepts(source, hits[k]) && DropTargets(source, hits)[i] == TargetData(source, hits[k])
  {
    var rest := DropTargets(source, hits[1..]);
    if Accepts(source, hits[0]) && i == 0 {
      k := 0;
    } else {
      var j := if Accepts(source, hits[0]) then i - 1 else i;
      assert DropTargets(source, hits)[i] == rest[j];
      var origin := TargetOrigin(source, hits[1..], j);
      assert hits[1..][origin] == hits[origin + 1];
      k := origin + 1;
    }
  }

  /**
   * The record every handler reads as its `destination`: `dropTargets[0]` is
   * the getData of the first element under the cursor (innermost first) that
   * accepts the dragged record.
   */
  lemma {:induction false} FirstTargetIsFirstAccepting(source: DragData, hits: seq<Element>, k: nat)
    requires k < |hits| && Accepts(source, hits[k])
    requires forall j :: 0 <= j < k ==> !Accepts(source, hits[j])
    ensures |DropTargets(source, hits)| > 0 && DropTargets(source, hits)[0] == TargetData(source, hits[k])
  {
    if k > 0 {
      assert !Accepts(source, hits[0]);
      forall j | 0 <= j < k - 1 ensures !Accepts(source, hits[1..][j]) {
        assert hits[1..][j] == hits[j + 1];
      }
      assert hits[1..][k - 1] == hits[k];
      FirstTargetIsFirstAccepting(source, hits[1..], k - 1);
    }
  }

  // ---------------------------------------------------------------------------
  // What the handlers can receive

  /** The record a single accepted element contributes, by kind of dragged record. */
  lemma {:induction false} AcceptedTarget(source: DragData, element: Element)
    requires Accepts(source, element)
    ensures var d := TargetData(source, element);
            && (d.TaskData? ==> source.TaskData? && d.id != source.id)
            && (d.ProjectData? ==> source.ProjectData? && d.id != source.id)
            && (d.ProjectTaskZone? ==>
                  (source.TaskData? && element.ProjectCardEl? &&
                   element.project.id == d.projectId && element.project.fields.status != Archived))
            && ((d.ColumnData? || d.DayData?) ==> source.TaskData?)
            && (d.GridTaskData? ==> source.GridTaskData? && d.instanceId == source.instanceId && d.taskId != source.taskId)
  {
    match element {
      case TaskCardEl(task, index, nearerBottom) =>
        assert TargetData(source, element).id == task.id;
      case ColumnEl(_) =>
      case ProjectCardEl(project, index) =>
      case DayCellEl(_) =>
      case GridCardEl(task, instanceId) =>
    }
  }

  /**
   * No dragged record ever reaches a handler as its own target: a task never
   * lists its own card, a project never its own card, a grid card never itself
   * nor a card of another grid; and a task only reaches a project zone of an
   * element under the cursor whose project is not archived.
   */
  lemma {:induction false} NoSelfDrops(source: DragData, hits: seq<Element>)
    ensures var r := DropTargets(source, hits);
            && (forall i :: 0 <= i < |r| && r[i].TaskData? ==> source.TaskData? && r[i].id != source.id)
            && (forall i :: 0 <= i < |r| && r[i].ProjectData? ==> source.ProjectData? && r[i].id != source.id)
            && (forall i :: 0 <= i < |r| && r[i].GridTaskData? ==>
                  source.GridTaskData? && r[i].instanceId == source.instanceId && r[i].taskId != source.taskId)
            && (forall i :: 0 <= i < |r| && (r[i].ColumnData? || r[i].DayData?) ==> source.TaskData?)
  {
    var r := DropTargets(source, hits);
    forall i | 0 <= i < |r|
      ensures && (r[i].TaskData? ==> source.TaskData? && r[i].id != source.id)
              && (r[i].ProjectData? ==> source.ProjectData? && r[i].id != source.id)
              && (r[i].GridTaskData? ==> source.GridTaskData? && r[i].instanceId == source.instanceId && r[i].taskId != source.taskId)
              && ((r[i].ColumnData? || r[i].DayData?) ==> source.TaskData?)
    {
      NoSelfDropAt(source, hits, i);
    }
  }

  lemma {:induction false} NoSelfDropAt(source: DragData, hits: seq<Element>, i: nat)
    requires i < |DropTargets(source, hits)|
    ensures var d := DropTargets(source, hits)[i];
            && (d.TaskData? ==> source.TaskData? && d.id != source.id)
            && (d.ProjectData? ==> source.ProjectData? && d.id != source.id)
            && (d.GridTaskData? ==> source.GridTaskData? && d.instanceId == source.instanceId && d.taskId != source.taskId)
            && ((d.ColumnData? || d.DayData?) ==> source.TaskData?)
  {
    var r := DropTargets(source, hits);
    var k := TargetOrigin(source, hits, i);
    AcceptedTarget(source, hits[k]);
  }

  /** A task reaches a project zone only through the card of a project under the cursor that is not archived. */
  lemma {:induction false} NoTaskIntoArchivedProject(source: DragData, hits: seq<Element>, i: nat)
    requires i < |DropTargets(source, hits)| && DropTargets(source, hits)[i].ProjectTaskZone?
    ensures source.TaskData?
    ensures exists k :: 0 <= k < |hits| && hits[k].ProjectCardEl? &&
              hits[k].project.id == DropTargets(source, hits)[i].projectId && hits[k].project.fields.status != Archived
  {
    var r := DropTargets(source, hits);
    var k := TargetOrigin(source, hits, i);
    AcceptedTarget(source, hits[k]);
  }
}

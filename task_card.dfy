/**
 * The drag source and drop target a Kanban task card registers
 * (src/components/tasks/TaskCard.tsx). The hit-box library's choice of the
 * closest edge is an input: whether the cursor is nearer the card's bottom.
 */
module TaskCard {
  import opened Items
  import opened DragAndDrop
  import opened DragData

  /** getInitialData: the dragged card describes its task, its index in the column, its status and project. */
  function InitialData(task: Task, index: int): (d: DragData)
    ensures ConsistentTaskSource(d)
    ensures d.task == task && d.index == index && d.projectId == task.fields.projectId
    ensures d.closestEdge == None
  {
    TaskData(task.id, index, task, task.fields.status, task.fields.projectId, None)
  }

  /** getData: the same descriptor with the closest of the two allowed edges attached. */
  function DropData(task: Task, index: int, nearerBottom: bool): (d: DragData)
    ensures d.TaskData? && d.(closestEdge := None) == InitialData(task, index)
    ensures d.closestEdge == Some(Top) || d.closestEdge == Some(Bottom)
    ensures d.closestEdge == Some(Bottom) <==> nearerBottom
  {
    TaskData(task.id, index, task, task.fields.status, task.fields.projectId,
             Some(if nearerBottom then Bottom else Top))
  }

  /** canDrop: only another task may be dropped on the card. */
  function CanDrop(source: DragData, task: Task): (ok: bool)
    ensures ok ==> source.TaskData? && source.id != task.id
    ensures source.TaskData? && source.id != task.id ==> ok
  {
    source.TaskData? && source.id != task.id
  }

  /** The drop indicator of the card: the edge it shows while a task hovers over it. */
  class EdgeIndicator {
    var closestEdge: Option<Edge>

    constructor ()
      ensures closestEdge == None
    {
      closestEdge := None;
    }

    /** onDragEnter and onDrag: show the edge read back from the card's own drop data. */
    method OnDragOver(self: DragData)
      modifies this
      ensures closestEdge == (if self.TaskData? then self.closestEdge else None)
    {
      closestEdge := if self.TaskData? then self.closestEdge else None;
    }

    /** onDragLeave and onDrop: hide the indicator. */
    method OnDragEnd()
      modifies this
      ensures closestEdge == None
    {
      closestEdge := None;
    }
  }
}

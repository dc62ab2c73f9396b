/**
 * The data records a drag carries: `source.data` of the dragged element and
 * `data` of each drop target under the cursor. In the program these are
 * untyped objects read by field name; here they are one union, one
 * constructor per kind of record an element of the front end produces.
 */
module DragData {
  import opened Items
  import opened DragAndDrop

  datatype DragData =
      /** TaskDragData: `{type: 'task', id, index, task, status, projectId}`, plus the closest edge on a drop target. */
    | TaskData(id: string, index: int, task: Task, status: TaskStatus, projectId: string, closestEdge: Option<Edge>)
      /** ProjectDragData: `{type: 'project', id, index, project}`. */
    | ProjectData(id: string, index: int, project: Project)
      /** A project card under a dragged task: `{type: 'project-task-zone', projectId}`. */
    | ProjectTaskZone(projectId: string)
      /** A Kanban column: `{status}`. */
    | ColumnData(status: TaskStatus)
      /** A calendar day cell: `{date}`. */
    | DayData(date: string)
      /** A priority-grid card: `{type: 'priority-grid-task', taskId, instanceId}`. */
    | GridTaskData(taskId: string, instanceId: nat)

  /** A task source as every task card builds it: the descriptor's id and status are the carried task's own. */
  predicate ConsistentTaskSource(source: DragData) {
    source.TaskData? && source.id == source.task.id && source.status == source.task.fields.status
  }
}

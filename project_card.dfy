/**
 * The drag source and drop target a project card registers
 * (src/components/projects/ProjectCard.tsx). The card is both a handle for
 * reordering projects and a zone that accepts tasks from other projects.
 */
module ProjectCard {
  import opened Items
  import opened DragData

  /** getInitialData: the dragged card describes its project and its index in the list. */
  function InitialData(project: Project, index: int): (d: DragData)
    ensures d.ProjectData? && d.id == project.id && d.project == project && d.index == index
  {
    ProjectData(project.id, index, project)
  }

  /** getData: a task hovering the card sees a task zone for this project; anything else sees the project itself. */
  function DropData(source: DragData, project: Project, index: int): (d: DragData)
    ensures source.TaskData? ==> d == ProjectTaskZone(project.id)
    ensures !source.TaskData? ==> d == InitialData(project, index)
  {
    if source.TaskData? then ProjectTaskZone(project.id) else ProjectData(project.id, index, project)
  }

  /** canDrop: another project, or a task while the project is not archived. */
  function CanDrop(source: DragData, project: Project): (ok: bool)
    ensures source.ProjectData? ==> (ok <==> source.id != project.id)
    ensures source.TaskData? ==> (ok <==> project.fields.status != Archived)
    ensures !source.ProjectData? && !source.TaskData? ==> !ok
  {
    match source
    case ProjectData(id, _, _) => id != project.id
    case TaskData(_, _, _, _, _, _) => project.fields.status != Archived
    case _ => false
  }
}

/**
 * The projects page of src/components/projects/ProjectsList.tsx: the list of
 * projects after the status and search filters, the tasks of each listed
 * project, and the drop handler that reorders projects or moves a task to
 * another project.
 *
 * Network calls are split in two: what the page sends is an output of the
 * handler, and what the server answers is an input (`moveSucceeded`, or a
 * `Response` for the two fetches). A thrown exception and an error response
 * take the same path in the code and are the same input here.
 */
module ProjectsList {
  import opened Items
  import opened DragAndDrop
  import opened DragData

  /** One entry of the bulk project reorder call: `{ id, display_order }`. */
  datatype ProjectOrderUpdate = ProjectOrderUpdate(id: string, displayOrder: Option<int>)

  /** The task update sent when a task is dropped on another project: `{ project_id, display_order }` for one id. */
  datatype TaskMoveRequest = TaskMoveRequest(taskId: string, projectId: string, displayOrder: int)

  /** Everything a drop on the projects page does. */
  datatype ListOutcome = ListOutcome(
    projects: seq<Project>,
    tasksByProject: map<string, seq<Task>>,
    projectRequest: Option<seq<ProjectOrderUpdate>>,
    taskRequest: Option<TaskMoveRequest>,
    refetch: bool)

  function ToOrderUpdate(p: Project): ProjectOrderUpdate {
    ProjectOrderUpdate(p.id, p.displayOrder)
  }

  /** `tasksByProject[targetProjectId]?.length || 0`: the slot at the end of the target's list. */
  function AppendSlot(tasksByProject: map<string, seq<Task>>, projectId: string): (n: nat)
    ensures projectId in tasksByProject ==> n == |tasksByProject[projectId]|
    ensures projectId !in tasksByProject ==> n == 0
  {
    if projectId in tasksByProject then |tasksByProject[projectId]| else 0
  }

  /** The dragged task as the page stores it after a move: the carried copy with the new project. */
  function Rehomed(source: DragData, targetProjectId: string): Task
    requires source.TaskData?
  {
    source.task.(fields := source.task.fields.(projectId := targetProjectId))
  }

  /** Lines 131-140: the task leaves the source project's list and is appended to the target's. */
  function MoveTaskBetweenProjects(tasksByProject: map<string, seq<Task>>, source: DragData, targetProjectId: string)
    : map<string, seq<Task>>
    requires source.TaskData? && source.projectId in tasksByProject
  {
    var withoutTask := tasksByProject[source.projectId := Filter(tasksByProject[source.projectId], IdIsNot(source.id))];
    var targetTasks := if targetProjectId in withoutTask then withoutTask[targetProjectId] else [];
    withoutTask[targetProjectId := targetTasks + [Rehomed(source, targetProjectId)]]
  }

  /** The drop handler (lines 91-150) as a function of the page state, the drop event and the server's answer. */
  function ListDrop(projects: seq<Project>, tasksByProject: map<string, seq<Task>>,
                    source: DragData, dropTargets: seq<DragData>, moveSucceeded: bool): ListOutcome
  {
    var noChange := ListOutcome(projects, tasksByProject, None, None, false);
    if |dropTargets| == 0 then noChange
    else
      var destination := dropTargets[0];
      match source
      case ProjectData(_, _, _) =>
        if !destination.ProjectData? then noChange
        else
          var sourceIndex := GetItemIndex(projects, source.id);
          var destinationIndex := GetItemIndex(projects, destination.id);
          if sourceIndex == -1 || destinationIndex == -1 then noChange
          else
            var reordered := NewOrder(projects, sourceIndex, destinationIndex);
            ListOutcome(reordered, tasksByProject, Some(Map(reordered, ToOrderUpdate)), None, false)
      case TaskData(_, _, _, _, _, _) =>
        if !destination.ProjectTaskZone? || source.projectId == destination.projectId then noChange
        else
          var target := destination.projectId;
          var request := Some(TaskMoveRequest(source.id, target, AppendSlot(tasksByProject, target)));
          if !moveSucceeded || source.projectId !in tasksByProject then
            // The error is caught: the page alerts and refetches, its lists untouched.
            ListOutcome(projects, tasksByProject, None, request, true)
          else
            ListOutcome(projects, MoveTaskBetweenProjects(tasksByProject, source, target), None, request, false)
      case _ => noChange
  }

  // ---------------------------------------------------------------------------
  // Fetching: filters and grouping (lines 36-78)

  /** `toLowerCase` on the ASCII letters. */
  function Lower(s: string): (r: string)
    ensures |r| == |s|
    ensures forall i :: 0 <= i < |s| ==> r[i] == if 'A' <= s[i] <= 'Z' then (s[i] as int + 32) as char else s[i]
  {
    seq(|s|, i requires 0 <= i < |s| => if 'A' <= s[i] <= 'Z' then (s[i] as int + 32) as char else s[i])
  }

  /** `includes`: `query` occurs in `s` as a contiguous piece. */
  predicate Contains(s: string, query: string)
    decreases |s|
  {
    query <= s || (s != [] && Contains(s[1..], query))
  }

  /** The search filter of lines 44-49; an empty query keeps every project. */
  predicate MatchesSearch(p: Project, searchQuery: string) {
    searchQuery == [] ||
    Contains(Lower(p.fields.name), Lower(searchQuery)) ||
    (p.fields.description.Some? && p.fields.description.value != [] &&
     Contains(Lower(p.fields.description.value), Lower(searchQuery)))
  }

  /** The status filter of lines 39-41: `None` stands for the `'all'` choice. */
  predicate MatchesStatus(p: Project, statusFilter: Option<ProjectStatus>) {
    statusFilter.None? || p.fields.status == statusFilter.value
  }

  function StatusPasses(statusFilter: Option<ProjectStatus>): Project -> bool {
    (p: Project) => MatchesStatus(p, statusFilter)
  }

  function SearchPasses(searchQuery: string): Project -> bool {
    (p: Project) => MatchesSearch(p, searchQuery)
  }

  /** Both filters at once. */
  function PassesFilters(statusFilter: Option<ProjectStatus>, searchQuery: string): Project -> bool {
    (p: Project) => MatchesStatus(p, statusFilter) && MatchesSearch(p, searchQuery)
  }

  /**
   * The projects shown: the fetched rows that pass both filters, in server
   * order, i.e. one filter over the fetched list with both conditions; the
   * project reorder's indices are positions in this list.
   */
  function VisibleProjects(fetched: seq<Project>, statusFilter: Option<ProjectStatus>, searchQuery: string): (r: seq<Project>)
    ensures r == Filter(fetched, PassesFilters(statusFilter, searchQuery))
  {
    var byStatus := if statusFilter.Some? then Filter(fetched, StatusPasses(statusFilter)) else fetched;
    var shown := if searchQuery != [] then Filter(byStatus, SearchPasses(searchQuery)) else byStatus;
    assert byStatus == Filter(fetched, StatusPasses(statusFilter)) by {
      if statusFilter.None? {
        FilterKeepsAll(fetched, StatusPasses(statusFilter));
      }
    }
    assert shown == Filter(byStatus, SearchPasses(searchQuery)) by {
      if searchQuery == [] {
        FilterKeepsAll(byStatus, SearchPasses(searchQuery));
      }
    }
    FilterBoth(fetched, StatusPasses(statusFilter), SearchPasses(searchQuery), PassesFilters(statusFilter, searchQuery));
    shown
  }

  /** The shown projects are exactly the fetched ones that pass the status filter and the search. */
  lemma VisibleExactlyWhenMatching(fetched: seq<Project>, statusFilter: Option<ProjectStatus>, searchQuery: string)
    ensures var r := VisibleProjects(fetched, statusFilter, searchQuery);
            && (forall i :: 0 <= i < |r| ==> r[i] in fetched && MatchesStatus(r[i], statusFilter) && MatchesSearch(r[i], searchQuery))
            && (forall i :: 0 <= i < |fetched| && MatchesStatus(fetched[i], statusFilter) && MatchesSearch(fetched[i], searchQuery) ==>
                  fetched[i] in r)
  {
    var pass := PassesFilters(statusFilter, searchQuery);
    var r := VisibleProjects(fetched, statusFilter, searchQuery);
    assert r == Filter(fetched, pass);
    forall i | 0 <= i < |r| ensures MatchesStatus(r[i], statusFilter) && MatchesSearch(r[i], searchQuery) {
      assert pass(r[i]);
    }
    forall i | 0 <= i < |fetched| && MatchesStatus(fetched[i], statusFilter) && MatchesSearch(fetched[i], searchQuery)
      ensures fetched[i] in r
    {
      assert pass(fetched[i]);
      FilterKeepsPassing(fetched, pass, i);
    }
  }

  function ProjectIds(projects: seq<Project>): set<string> {
    set i | 0 <= i < |projects| :: projects[i].id
  }

  function InProject(projectId: string): Task -> bool {
    (t: Task) => t.fields.projectId == projectId
  }

  /**
   * Lines 62-72: an entry for every listed project, holding the fetched tasks
   * of that project in fetch order; a task whose project is not listed is dropped.
   */
  function GroupTasks(projects: seq<Project>, tasks: seq<Task>): (taskMap: map<string, seq<Task>>)
    ensures taskMap.Keys == ProjectIds(projects)
    ensures forall id :: id in taskMap ==> forall k :: 0 <= k < |taskMap[id]| ==>
              taskMap[id][k].fields.projectId == id && taskMap[id][k] in tasks
    ensures forall i :: 0 <= i < |tasks| && tasks[i].fields.projectId in ProjectIds(projects) ==>
              tasks[i] in taskMap[tasks[i].fields.projectId]
  {
    var taskMap := map id | id in ProjectIds(projects) :: Filter(tasks, InProject(id));
    forall i | 0 <= i < |tasks| && tasks[i].fields.projectId in ProjectIds(projects)
      ensures tasks[i] in taskMap[tasks[i].fields.projectId]
    {
      FilterKeepsPassing(tasks, InProject(tasks[i].fields.projectId), i);
    }
    taskMap
  }

  /** The first `forEach` (lines 64-66): an empty entry per listed project. */
  method EmptyEntries(projects: seq<Project>) returns (taskMap: map<string, seq<Task>>)
    ensures taskMap.Keys == ProjectIds(projects)
    ensures forall id :: id in taskMap ==> taskMap[id] == []
  {
    taskMap := map[];
    for i := 0 to |projects|
      invariant taskMap.Keys == ProjectIds(projects[..i])
      invariant forall id :: id in taskMap ==> taskMap[id] == []
    {
      assert ProjectIds(projects[..i + 1]) == ProjectIds(projects[..i]) + {projects[i].id} by {
        assert forall k :: 0 <= k < i ==> projects[..i + 1][k] == projects[..i][k];
      }
      taskMap := taskMap[projects[i].id := []];
    }
    assert projects[..|projects|] == projects;
  }

  /** Both `forEach` loops of lines 62-72, building the map entry by entry. */
  method GroupByProject(projects: seq<Project>, tasks: seq<Task>) returns (taskMap: map<string, seq<Task>>)
    ensures taskMap == GroupTasks(projects, tasks)
  {
    taskMap := EmptyEntries(projects);
    for j := 0 to |tasks|
      invariant taskMap.Keys == ProjectIds(projects)
      invariant forall id :: id in taskMap ==> taskMap[id] == Filter(tasks[..j], InProject(id))
    {
      assert tasks[..j + 1] == tasks[..j] + [tasks[j]];
      forall id | id in taskMap
        ensures Filter(tasks[..j + 1], InProject(id)) ==
                Filter(tasks[..j], InProject(id)) + if tasks[j].fields.projectId == id then [tasks[j]] else []
      {
        FilterSnoc(tasks[..j], tasks[j], InProject(id));
      }
      var projectId := tasks[j].fields.projectId;
      if projectId in taskMap {
        taskMap := taskMap[projectId := taskMap[projectId] + [tasks[j]]];
      }
    }
    assert tasks[..|tasks|] == tasks;
    GroupedByEntries(projects, tasks, taskMap);
  }

  /** A map with an entry per listed project, each holding that project's tasks in order, is the grouping. */
  lemma GroupedByEntries(projects: seq<Project>, tasks: seq<Task>, taskMap: map<string, seq<Task>>)
    requires taskMap.Keys == ProjectIds(projects)
    requires forall id :: id in taskMap ==> taskMap[id] == Filter(tasks, InProject(id))
    ensures taskMap == GroupTasks(projects, tasks)
  {
    var grouped := GroupTasks(projects, tasks);
    assert grouped.Keys == taskMap.Keys;
    forall id | id in grouped ensures grouped[id] == taskMap[id] {
      assert grouped[id] == Filter(tasks, InProject(id));
    }
  }

  /** The page state and its drop monitor. */
  class ProjectsList {
    var projects: seq<Project>
    var tasksByProject: map<string, seq<Task>>

    constructor ()
      ensures projects == [] && tasksByProject == map[]
    {
      projects := [];
      tasksByProject := map[];
    }

    /**
     * fetchProjects, from the projects response on. The tasks fetch is only made
     * when some project is listed; `tasksFetched` says whether it was.
     */
    method FetchProjects(projectsResponse: Response<seq<Project>>, tasksResponse: Response<seq<Task>>,
                         statusFilter: Option<ProjectStatus>, searchQuery: string)
      returns (tasksFetched: bool)
      modifies this
      ensures projectsResponse.Failure? ==>
                projects == old(projects) && tasksByProject == old(tasksByProject) && !tasksFetched
      ensures projectsResponse.Success? ==>
                && projects == VisibleProjects(projectsResponse.data, statusFilter, searchQuery)
                && tasksFetched == (|projects| > 0)
                && tasksByProject ==
                     if !tasksFetched then map[]
                     else if tasksResponse.Failure? then old(tasksByProject)
                     else GroupTasks(projects, tasksResponse.data)
    {
      tasksFetched := false;
      if projectsResponse.Failure? {
        return;
      }
      var allProjects := VisibleProjects(projectsResponse.data, statusFilter, searchQuery);
      projects := allProjects;
      if |allProjects| > 0 {
        tasksFetched := true;
        if tasksResponse.Success? {
          tasksByProject := GroupByProject(allProjects, tasksResponse.data);
        }
      } else {
        tasksByProject := map[];
      }
    }

    /** onDrop: returns the calls the page makes and whether it refetches. */
    method OnDrop(source: DragData, dropTargets: seq<DragData>, moveSucceeded: bool)
      returns (projectRequest: Option<seq<ProjectOrderUpdate>>, taskRequest: Option<TaskMoveRequest>, refetch: bool)
      modifies this
      ensures var o := ListDrop(old(projects), old(tasksByProject), source, dropTargets, moveSucceeded);
              projects == o.projects && tasksByProject == o.tasksByProject &&
              projectRequest == o.projectRequest && taskRequest == o.taskRequest && refetch == o.refetch
    {
      projectRequest, taskRequest, refetch := None, None, false;
      if |dropTargets| == 0 {
        return;
      }
      var destination := dropTargets[0];
      if source.ProjectData? {
        if !destination.ProjectData? {
          return;
        }
        var sourceIndex := GetItemIndex(projects, source.id);
        var destinationIndex := GetItemIndex(projects, destination.id);
        if sourceIndex == -1 || destinationIndex == -1 {
          return;
        }
        var reorderedProjects := CalculateNewOrder(projects, sourceIndex, destinationIndex);
        assert ListDrop(projects, tasksByProject, source, dropTargets, moveSucceeded) ==
               ListOutcome(reorderedProjects, tasksByProject, Some(Map(reorderedProjects, ToOrderUpdate)), None, false);
        projects := reorderedProjects;
        projectRequest := Some(Map(reorderedProjects, ToOrderUpdate));
      } else if source.TaskData? {
        if !destination.ProjectTaskZone? {
          return;
        }
        var targetProjectId := destination.projectId;
        var sourceProjectId := source.projectId;
        if sourceProjectId == targetProjectId {
          return;
        }
        taskRequest := Some(TaskMoveRequest(source.id, targetProjectId, AppendSlot(tasksByProject, targetProjectId)));
        if !moveSucceeded || sourceProjectId !in tasksByProject {
          refetch := true;
          return;
        }
        var updatedTasksByProject := tasksByProject;
        updatedTasksByProject := updatedTasksByProject[sourceProjectId := Filter(updatedTasksByProject[sourceProjectId], IdIsNot(source.id))];
        var updatedTask := Rehomed(source, targetProjectId);
        var targetTasks := if targetProjectId in updatedTasksByProject then updatedTasksByProject[targetProjectId] else [];
        updatedTasksByProject := updatedTasksByProject[targetProjectId := targetTasks + [updatedTask]];
        assert updatedTasksByProject == MoveTaskBetweenProjects(tasksByProject, source, targetProjectId);
        assert ListDrop(projects, tasksByProject, source, dropTargets, moveSucceeded) ==
               ListOutcome(projects, updatedTasksByProject, None, taskRequest, false);
        tasksByProject := updatedTasksByProject;
      }
    }
  }

  // ---------------------------------------------------------------------------
  // What a drop does to the projects page

  /** Drops that do nothing: no target, a project over something other than a project, an id not in the list, a task over its own project. */
  lemma ListDropNoOps(projects: seq<Project>, tasksByProject: map<string, seq<Task>>,
                      source: DragData, dropTargets: seq<DragData>, moveSucceeded: bool)
    ensures var o := ListDrop(projects, tasksByProject, source, dropTargets, moveSucceeded);
            var noChange := ListOutcome(projects, tasksByProject, None, None, false);
            && (|dropTargets| == 0 ==> o == noChange)
            && (|dropTargets| > 0 && source.ProjectData? && !dropTargets[0].ProjectData? ==> o == noChange)
            && ((|dropTargets| > 0 && source.ProjectData? && dropTargets[0].ProjectData? &&
                 (GetItemIndex(projects, source.id) == -1 || GetItemIndex(projects, dropTargets[0].id) == -1))
                ==> o == noChange)
            && (|dropTargets| > 0 && source.TaskData? && dropTargets[0] == ProjectTaskZone(source.projectId) ==> o == noChange)
            && (!source.ProjectData? && !source.TaskData? ==> o == noChange)
  {
  }

  /**
   * A project reorder renumbers the list 0, 1, 2, ... and only moves the
   * dragged project: it lands at the target's index, or one slot before it
   * when it moves down, and the other projects keep their relative order.
   * The bulk call lists every project with its new order, in list order.
   */
  lemma {:induction false} ProjectReorder(projects: seq<Project>, tasksByProject: map<string, seq<Task>>,
                                          source: DragData, dropTargets: seq<DragData>, moveSucceeded: bool)
    requires |dropTargets| > 0 && source.ProjectData? && dropTargets[0].ProjectData?
    requires GetItemIndex(projects, source.id) != -1 && GetItemIndex(projects, dropTargets[0].id) != -1
    ensures var o := ListDrop(projects, tasksByProject, source, dropTargets, moveSucceeded);
            var sourceIndex := GetItemIndex(projects, source.id);
            var at := AdjustedIndex(sourceIndex, GetItemIndex(projects, dropTargets[0].id));
            && |o.projects| == |projects| && Dense(o.projects)
            && multiset(Unordered(o.projects)) == multiset(Unordered(projects))
            && at < |projects|
            && WithoutOrder(o.projects[at]) == WithoutOrder(projects[sourceIndex])
            && RemoveAt(Unordered(o.projects), at) == RemoveAt(Unordered(projects), sourceIndex)
            && o.projectRequest.Some? && |o.projectRequest.value| == |projects|
            && (forall i :: 0 <= i < |projects| ==> o.projectRequest.value[i] == ProjectOrderUpdate(o.projects[i].id, Some(i)))
            && o.tasksByProject == tasksByProject && o.taskRequest.None? && !o.refetch
  {
    var sourceIndex := GetItemIndex(projects, source.id);
    var destinationIndex := GetItemIndex(projects, dropTargets[0].id);
    var reordered := NewOrder(projects, sourceIndex, destinationIndex);
    assert ListDrop(projects, tasksByProject, source, dropTargets, moveSucceeded) ==
           ListOutcome(reordered, tasksByProject, Some(Map(reordered, ToOrderUpdate)), None, false);
    ReorderedProjects(projects, sourceIndex, destinationIndex);
  }

  /** The reordered list and the order updates sent for it. */
  lemma ReorderedProjects(projects: seq<Project>, sourceIndex: nat, destinationIndex: nat)
    requires sourceIndex < |projects| && destinationIndex < |projects|
    ensures var reordered := NewOrder(projects, sourceIndex, destinationIndex);
            var request := Map(reordered, ToOrderUpdate);
            var at := AdjustedIndex(sourceIndex, destinationIndex);
            && |reordered| == |projects| && Dense(reordered)
            && multiset(Unordered(reordered)) == multiset(Unordered(projects))
            && at < |projects|
            && WithoutOrder(reordered[at]) == WithoutOrder(projects[sourceIndex])
            && RemoveAt(Unordered(reordered), at) == RemoveAt(Unordered(projects), sourceIndex)
            && |request| == |projects|
            && (forall i :: 0 <= i < |projects| ==> request[i] == ProjectOrderUpdate(reordered[i].id, Some(i)))
  {
    NewOrderPermutation(projects, sourceIndex, destinationIndex);
    NewOrderPlacement(projects, sourceIndex, destinationIndex);
  }

  /**
   * Dropping a project on the one right after it changes nothing: the target's
   * raw index is used, so the moved project is re-inserted where it was. On a
   * list already numbered 0, 1, 2, ... even the orders stay the same.
   */
  lemma {:induction false} DropOnSuccessorKeepsOrder(projects: seq<Project>, tasksByProject: map<string, seq<Task>>,
                                                     source: DragData, dropTargets: seq<DragData>, moveSucceeded: bool)
    requires |dropTargets| > 0 && source.ProjectData? && dropTargets[0].ProjectData?
    requires GetItemIndex(projects, source.id) != -1
    requires GetItemIndex(projects, dropTargets[0].id) == GetItemIndex(projects, source.id) + 1
    ensures var o := ListDrop(projects, tasksByProject, source, dropTargets, moveSucceeded);
            Unordered(o.projects) == Unordered(projects) && (Dense(projects) ==> o.projects == projects)
  {
    var sourceIndex := GetItemIndex(projects, source.id);
    NewOrderStationary(projects, sourceIndex, sourceIndex + 1);
    if Dense(projects) {
      NewOrderStationaryDense(projects, sourceIndex, sourceIndex + 1);
    }
  }

  /**
   * A task dropped on another project: the server is asked to put it in the
   * target project at the end of the target's list. When it agrees, the task
   * leaves the source project's list and sits in the target's list exactly at
   * the slot sent; no other project's list changes.
   */
  lemma {:induction false} TaskMovedToProject(projects: seq<Project>, tasksByProject: map<string, seq<Task>>,
                                              source: DragData, dropTargets: seq<DragData>)
    requires |dropTargets| > 0 && source.TaskData? && dropTargets[0].ProjectTaskZone?
    requires source.projectId != dropTargets[0].projectId && source.projectId in tasksByProject
    ensures var target := dropTargets[0].projectId;
            var o := ListDrop(projects, tasksByProject, source, dropTargets, true);
            && o.taskRequest == Some(TaskMoveRequest(source.id, target, AppendSlot(tasksByProject, target)))
            && o.projects == projects && o.projectRequest.None? && !o.refetch
            && o.tasksByProject.Keys == tasksByProject.Keys + {target}
            && o.tasksByProject[source.projectId] == Filter(tasksByProject[source.projectId], IdIsNot(source.id))
            && CountId(o.tasksByProject[source.projectId], source.id) == 0
            && |o.tasksByProject[target]| == AppendSlot(tasksByProject, target) + 1
            && o.tasksByProject[target][o.taskRequest.value.displayOrder] == Rehomed(source, target)
            && o.tasksByProject[target][..AppendSlot(tasksByProject, target)] ==
                 (if target in tasksByProject then tasksByProject[target] else [])
            && (forall id :: id in tasksByProject && id != source.projectId && id != target ==>
                  o.tasksByProject[id] == tasksByProject[id])
  {
    var target := dropTargets[0].projectId;
    var request := Some(TaskMoveRequest(source.id, target, AppendSlot(tasksByProject, target)));
    assert ListDrop(projects, tasksByProject, source, dropTargets, true) ==
           ListOutcome(projects, MoveTaskBetweenProjects(tasksByProject, source, target), None, request, false);
    MovedBetweenProjects(tasksByProject, source, target);
  }

  /** The map after a move: the source list filtered, the rehomed task appended to the target's, the rest as it was. */
  lemma MovedBetweenProjects(tasksByProject: map<string, seq<Task>>, source: DragData, target: string)
    requires source.TaskData? && source.projectId in tasksByProject && source.projectId != target
    ensures var m := MoveTaskBetweenProjects(tasksByProject, source, target);
            var slot := AppendSlot(tasksByProject, target);
            && m.Keys == tasksByProject.Keys + {target}
            && m[source.projectId] == Filter(tasksByProject[source.projectId], IdIsNot(source.id))
            && CountId(m[source.projectId], source.id) == 0
            && |m[target]| == slot + 1
            && m[target][slot] == Rehomed(source, target)
            && m[target][..slot] == (if target in tasksByProject then tasksByProject[target] else [])
            && (forall id :: id in tasksByProject && id != source.projectId && id != target ==>
                  m[id] == tasksByProject[id])
  {
    var slot := AppendSlot(tasksByProject, target);
    var targetTasks := if target in tasksByProject then tasksByProject[target] else [];
    assert (targetTasks + [Rehomed(source, target)])[..slot] == targetTasks;
    CountIdFilter(tasksByProject[source.projectId], source.id);
  }

  /** A move the server accepts conserves tasks: the two lists together lose the one copy of the task and gain its rehomed row. */
  lemma {:induction false} TaskMoveConservesTasks(projects: seq<Project>, tasksByProject: map<string, seq<Task>>,
                                                  source: DragData, dropTargets: seq<DragData>)
    requires |dropTargets| > 0 && source.TaskData? && dropTargets[0].ProjectTaskZone?
    requires source.projectId != dropTargets[0].projectId && source.projectId in tasksByProject
    requires CountId(tasksByProject[source.projectId], source.id) == 1
    ensures var target := dropTargets[0].projectId;
            var o := ListDrop(projects, tasksByProject, source, dropTargets, true);
            |o.tasksByProject[source.projectId]| + |o.tasksByProject[target]| ==
              |tasksByProject[source.projectId]| + AppendSlot(tasksByProject, target)
  {
    CountIdFilter(tasksByProject[source.projectId], source.id);
  }

  /**
   * A task move that fails leaves both lists as they were and triggers a
   * refetch, after the move call was sent. It fails when the server refuses it
   * (or the call throws), and also when the server accepts it but the page has
   * no entry for the source project, so that the `filter` on it throws.
   */
  lemma TaskMoveFailureRefetches(projects: seq<Project>, tasksByProject: map<string, seq<Task>>,
                                 source: DragData, dropTargets: seq<DragData>, moveSucceeded: bool)
    requires |dropTargets| > 0 && source.TaskData? && dropTargets[0].ProjectTaskZone?
    requires source.projectId != dropTargets[0].projectId
    requires !moveSucceeded || source.projectId !in tasksByProject
    ensures var o := ListDrop(projects, tasksByProject, source, dropTargets, moveSucceeded);
            var target := dropTargets[0].projectId;
            && o.projects == projects && o.tasksByProject == tasksByProject && o.refetch
            && o.projectRequest.None?
            && o.taskRequest == Some(TaskMoveRequest(source.id, target, AppendSlot(tasksByProject, target)))
  {
  }

  /** After a fetch with tasks, every listed project has an entry, and a task is grouped exactly when its project is listed. */
  lemma {:induction false} GroupedExactlyWhenListed(projects: seq<Project>, tasks: seq<Task>, t: Task)
    requires t in tasks
    ensures var taskMap := GroupTasks(projects, tasks);
            (forall i :: 0 <= i < |projects| ==> projects[i].id in taskMap) &&
            ((exists id :: id in taskMap && t in taskMap[id]) <==> t.fields.projectId in ProjectIds(projects))
  {
    var taskMap := GroupTasks(projects, tasks);
    forall i | 0 <= i < |projects| ensures projects[i].id in taskMap {
      assert projects[i].id in ProjectIds(projects);
    }
    if t.fields.projectId in ProjectIds(projects) {
      var i :| 0 <= i < |tasks| && tasks[i] == t;
      assert t in taskMap[t.fields.projectId];
    }
    if exists id :: id in taskMap && t in taskMap[id] {
      var id :| id in taskMap && t in taskMap[id];
      assert taskMap[id] == Filter(tasks, InProject(id));
      assert InProject(id)(t);
    }
  }
}

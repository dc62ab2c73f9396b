/**
 * The calendar of src/components/pages/CalendarPage.tsx: the tasks whose due
 * date falls in the displayed window, and the drop handler that moves a task
 * to another day.
 *
 * A day cell's date is already an ISO timestamp (`toISOString` of the cell's
 * day), so re-formatting it with `new Date(date).toISOString()` gives it back
 * unchanged; the model uses the cell's string as the new due date. Which
 * dates fall in the window (the month plus a week on either side) is an
 * input predicate.
 */
module CalendarPage {
  import opened Items
  import opened DragData

  /** The due-date update the page sends: `tasksApi.update(id, { due_date })`. */
  datatype DueDateUpdate = DueDateUpdate(taskId: string, dueDate: string)

  datatype CalendarOutcome = CalendarOutcome(tasks: seq<Task>, request: Option<DueDateUpdate>)

  function WithDueDate(t: Task, dueDate: string): Task {
    t.(fields := t.fields.(dueDate := Some(dueDate)))
  }

  /** The row with its due date forgotten: what a due-date change must leave alone. */
  function WithoutDueDate(t: Task): Task {
    t.(fields := t.fields.(dueDate := None))
  }

  /** The drop handler (lines 89-117) as a function of the task list and the drop event. */
  function CalendarDrop(tasks: seq<Task>, source: DragData, dropTargets: seq<DragData>): CalendarOutcome {
    if |dropTargets| == 0 || !source.TaskData? then CalendarOutcome(tasks, None)
    else if !dropTargets[0].DayData? || dropTargets[0].date == [] then CalendarOutcome(tasks, None)
    else
      var newDueDate := dropTargets[0].date;
      CalendarOutcome(
        Map(tasks, (t: Task) => if t.id == source.id then WithDueDate(t, newDueDate) else t),
        Some(DueDateUpdate(source.id, newDueDate)))
  }

  /** fetchTasks' filter (lines 65-69): a task is shown only with a non-empty due date inside the window. */
  predicate Shown(t: Task, inWindow: string -> bool) {
    t.fields.dueDate.Some? && t.fields.dueDate.value != [] && inWindow(t.fields.dueDate.value)
  }

  function ShownIn(inWindow: string -> bool): Task -> bool {
    (t: Task) => Shown(t, inWindow)
  }

  /** The page's task list. */
  class CalendarPage {
    var tasks: seq<Task>

    constructor ()
      ensures tasks == []
    {
      tasks := [];
    }

    /** fetchTasks, from the response on: an error empties the calendar, data is filtered to the window. */
    method FetchTasks(response: Response<seq<Task>>, inWindow: string -> bool)
      modifies this
      ensures response.Failure? ==> tasks == []
      ensures response.Success? ==> tasks == Filter(response.data, ShownIn(inWindow))
      ensures forall i :: 0 <= i < |tasks| ==> Shown(tasks[i], inWindow)
    {
      if response.Failure? {
        tasks := [];
        return;
      }
      tasks := Filter(response.data, ShownIn(inWindow));
    }

    /**
     * onDrop: updates the list at once, then sends the update; when the server
     * answers with an error (or the call throws) the page refetches.
     */
    method OnDrop(source: DragData, dropTargets: seq<DragData>, updateSucceeded: bool)
      returns (request: Option<DueDateUpdate>, refetch: bool)
      modifies this
      ensures tasks == CalendarDrop(old(tasks), source, dropTargets).tasks
      ensures request == CalendarDrop(old(tasks), source, dropTargets).request
      ensures refetch <==> request.Some? && !updateSucceeded
    {
      request, refetch := None, false;
      if |dropTargets| == 0 {
        return;
      }
      var destination := dropTargets[0];
      if !source.TaskData? {
        return;
      }
      if !destination.DayData? || destination.date == [] {
        return;
      }
      var newDueDate := destination.date;
      tasks := Map(tasks, (t: Task) => if t.id == source.id then WithDueDate(t, newDueDate) else t);
      request := Some(DueDateUpdate(source.id, newDueDate));
      refetch := !updateSucceeded;
    }
  }

  // ---------------------------------------------------------------------------
  // What a drop does to the calendar

  /** Drops that do nothing and send nothing: no target, a source that is not a task, a target without a date. */
  lemma CalendarDropNoOps(tasks: seq<Task>, source: DragData, dropTargets: seq<DragData>)
    ensures |dropTargets| == 0 || !source.TaskData? || !dropTargets[0].DayData? || dropTargets[0].date == [] ==>
              CalendarDrop(tasks, source, dropTargets) == CalendarOutcome(tasks, None)
  {
  }

  /**
   * A drop on a day changes only the due date, and only of the dragged task:
   * the list keeps its length and order, every row keeps its id and all its
   * other fields, and the rows carrying the dragged id now show exactly the
   * date the update sends.
   */
  lemma DropRewritesOneDueDate(tasks: seq<Task>, source: DragData, dropTargets: seq<DragData>)
    requires CalendarDrop(tasks, source, dropTargets).request.Some?
    ensures var o := CalendarDrop(tasks, source, dropTargets);
            var update := o.request.value;
            && update.taskId == source.id
            && |o.tasks| == |tasks|
            && (forall i :: 0 <= i < |tasks| ==> WithoutDueDate(o.tasks[i]) == WithoutDueDate(tasks[i]))
            && (forall i :: 0 <= i < |tasks| && tasks[i].id == update.taskId ==> o.tasks[i].fields.dueDate == Some(update.dueDate))
            && (forall i :: 0 <= i < |tasks| && tasks[i].id != update.taskId ==> o.tasks[i] == tasks[i])
  {
  }

  /** Repeating a drop changes nothing more: the second one leaves the list as the first left it. */
  lemma {:induction false} DropIsIdempotent(tasks: seq<Task>, source: DragData, dropTargets: seq<DragData>)
    ensures var once := CalendarDrop(tasks, source, dropTargets);
            CalendarDrop(once.tasks, source, dropTargets) == once
  {
    var once := CalendarDrop(tasks, source, dropTargets);
    if once.request.Some? {
      var twice := CalendarDrop(once.tasks, source, dropTargets);
      forall i | 0 <= i < |tasks| ensures twice.tasks[i] == once.tasks[i] {
      }
    }
  }

  /** A fetched calendar shows only tasks with a due date, each from the response, and every such task in the window. */
  lemma FetchedTasksHaveDueDates(data: seq<Task>, inWindow: string -> bool)
    ensures var shown := Filter(data, ShownIn(inWindow));
            && (forall i :: 0 <= i < |shown| ==> shown[i].fields.dueDate.Some? && shown[i] in data)
            && (forall i :: 0 <= i < |data| && Shown(data[i], inWindow) ==> data[i] in shown)
  {
    var shown := Filter(data, ShownIn(inWindow));
    assert forall i :: 0 <= i < |data| && Shown(data[i], inWindow) ==> ShownIn(inWindow)(data[i]);
  }
}

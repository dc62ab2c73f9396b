# Drag-and-drop ordering of a project tracker, in Dafny

This project models the drag-and-drop core of a small project tracker's web
front end. Tasks and projects carry a `display_order`. Users drag cards:

- within and between the status columns of a Kanban board;
- between projects;
- between the cards of a priority grid;
- onto the days of a calendar.

Each drop is interpreted by a page's `onDrop` handler. The handler updates the
page's list at once and then sends a persistence call.

The model covers the following.

- **Order primitives** (`DragAndDrop`).
  - `calculateNewOrder` and the destination half of `reorderItemsAcrossColumns`
    are methods over a copied `array`. Each is proved equal to a specification
    function (`NewOrder`, `DestinationAfterMove`).
  - Those functions are proved to renumber densely and to permute the items.
  - `getItemIndex`, `getReorderDestinationIndex` and `shouldReorder` are
    functions.
- **Drop descriptors.** `DragData` is one union of every record a dragged
  element or a drop target produces.
- **Acceptance predicates** of task cards, project cards and grid cards
  (`TaskCard`, `ProjectCard`, `PriorityGrid.CanDrop`).
- **Target collection** (`DropTargets`). This turns the elements under the cursor
  into the target list a handler reads. It is proved that no dragged
  record ever arrives as its own target. It is also proved that a task only
  reaches the drop zone of a project that is not archived.
- **Four drop interpreters**, each a class holding the page's state, with an
  `OnDrop` method proved equal to a specification function of the old state
  and the event:
  - `TasksPage.KanbanBoard`;
  - `ProjectsList.ProjectsList`, which also covers the filtering and task
    grouping of its fetch;
  - `PriorityGrid.PriorityGrid`;
  - `CalendarPage.CalendarPage`.

  Lemmas about each specification function state what a drop does: which
  drops are no-ops, what changes and what is untouched, and what the request
  carries.
- **Priority buckets** (`PriorityGridPage`). Tasks are partitioned by priority,
  and each bucket is sorted by the page's comparator. `Sorting` models
  JavaScript's comparator sort as an insertion sort over `compare(a, b) <= 0`.

Network calls are split in two. What a page sends is an output of its handler
(`request`, `projectRequest`, `taskRequest`). What the server answers is an
input: a `moveSucceeded`/`updateSucceeded` flag, or a `Response` value for a
fetch. A thrown exception and an error response take the same path in the code
and are the same input here.

## Behaviour worth knowing

- **Downward moves land one slot early.** `calculateNewOrder` lowers the
  destination by one before it re-inserts an item that moves down. Moving item
  0 of `[A,B,C,D]` to destination index 3 therefore gives `[B,C,A,D]`, not the
  `[B,C,D,A]` that a plain remove-then-insert gives. See
  `DragAndDrop.DownwardMoveOfFirstOfFour`.
- **Project reorder uses the target's raw index.** Dropping a project on its
  immediate successor keeps the order of the list. The list is still
  renumbered 0, 1, 2, … and the bulk reorder call is still sent, so nothing
  changes only on a list already numbered densely. See
  `ProjectsList.DropOnSuccessorKeepsOrder`.
- **The Kanban board never refetches.** The board ignores its reorder call's
  result and never refetches. Only the projects list (task move) and the
  calendar refetch after a failed call.
- **The cross-column request carries the old order.** Its first entry holds the
  moved task's display_order from before the move. The page's own copy of the
  task holds its new slot.
- **A missing entry for the source project means a refetch.** If
  `tasksByProject` has no entry for the source project of a moved task, the
  handler's `filter` throws after the server call. The error is caught and a
  refetch follows, so the model treats it like a failed move.

## Model

| member | source | states |
|---|---|---|
| DragAndDrop.RemoveAt | src/utils/dragAndDrop.ts:51-52 | the list without position i: one shorter, later items shifted down; an index outside the list removes nothing |
| DragAndDrop.InsertAt | src/utils/dragAndDrop.ts:58-59 | splice of one item: one longer, the item at the index clamped to the end, and removing it gives the original list back |
| DragAndDrop.AdjustedIndex | src/utils/dragAndDrop.ts:32-34 | the re-insertion slot is one less than the destination exactly when the item moves down |
| DragAndDrop.NewOrder | src/utils/dragAndDrop.ts:29-41 | the reordered list has the input's length and element i has display_order i |
| DragAndDrop.MovedAt | src/utils/dragAndDrop.ts:29-36 | each position of the moved list: the moved item at the adjusted slot, the slots between source and slot shifted by one, the rest unchanged |
| DragAndDrop.CalculateNewOrder | src/utils/dragAndDrop.ts:24-42 | the array copy, two splices and renumbering compute exactly NewOrder |
| DragAndDrop.ShiftDown | src/utils/dragAndDrop.ts:30-36 | what the two splices do to the items between a source and a later slot: each slot from the source up to the slot takes its successor's item, the rest are kept |
| DragAndDrop.ShiftUp | src/utils/dragAndDrop.ts:30-36 | the same for an earlier slot: each slot after the slot up to the source takes its predecessor's item, the rest are kept |
| DragAndDrop.MoveInPlace | src/utils/dragAndDrop.ts:29-36 | the two splices on the copied array leave it holding the moved list |
| DragAndDrop.RenumberInPlace | src/utils/dragAndDrop.ts:38-41 | after the map every element's display_order is its position and nothing else changed |
| DragAndDrop.SourceAfterMove | src/utils/dragAndDrop.ts:51-56 | the source list without the moved index, one shorter when the index is valid, numbered 0..n-2 |
| DragAndDrop.DestinationAfterMove | src/utils/dragAndDrop.ts:58-66 | the destination list one longer and numbered 0..m, the moved item at the (clamped) index, the old items in their old order around it |
| DragAndDrop.SpliceInto | src/utils/dragAndDrop.ts:58-59 | the fresh array one slot longer holds the list with the item spliced in |
| DragAndDrop.ReorderItemsAcrossColumns | src/utils/dragAndDrop.ts:44-68 | returns exactly SourceAfterMove and DestinationAfterMove |
| DragAndDrop.SourceKeepsOthers | src/utils/dragAndDrop.ts:51-56 | the new source column is the old one without the moved row, in order, row k numbered k; with unique ids it keeps them unique and no longer holds the moved id |
| DragAndDrop.DestinationKeepsOthers | src/utils/dragAndDrop.ts:58-66 | filtering the moved id out of the new destination column removes exactly the inserted slot and leaves the old column in order, row j numbered j before the slot and j + 1 after it; unique ids stay unique |
| DragAndDrop.GetItemIndex | src/utils/dragAndDrop.ts:70-75 | the first index holding the id, or -1 exactly when no item holds it |
| DragAndDrop.GetReorderDestinationIndex | src/utils/dragAndDrop.ts:77-87 | target + 1 exactly for a bottom edge, the target otherwise; the start index plays no part |
| DragAndDrop.ShouldReorder | src/utils/dragAndDrop.ts:89-94 | true exactly when the two indices differ |
| DragAndDrop.NewOrderPlacement | src/utils/dragAndDrop.ts:30-36 | the moved item lands at the adjusted destination and the other items keep their relative order |
| DragAndDrop.NewOrderPermutation | src/utils/dragAndDrop.ts:29-41 | the result is a permutation of the input up to display_order |
| DragAndDrop.NewOrderStationary | src/utils/dragAndDrop.ts:32-36 | moving to the own index or the next one keeps every item in place |
| DragAndDrop.NewOrderStationaryDense | src/utils/dragAndDrop.ts:32-41 | on a list already numbered 0, 1, 2, ... such a move returns the list itself |
| DragAndDrop.DownwardMoveOfFirstOfFour | src/utils/dragAndDrop.ts:30-36 | moving the first of four items to index 3 yields B, C, A, D |
| DragAndDrop.ShouldReorderOnlyWhenMoving | src/utils/dragAndDrop.ts:89-94 | when shouldReorder is false, calculateNewOrder keeps every item in place |
| DragAndDrop.FindByIdIsIndexed | src/utils/dragAndDrop.ts:70-75 | `find` by id and getItemIndex pick the same row |
| Sorting.Sort | src/components/pages/TasksPage.tsx:228-230 | the sorted copy has the input's length and elements |
| Sorting.SortSorted | src/components/pages/TasksPage.tsx:228-230 | for a total-preorder comparator the copy is sorted |
| TaskCard.InitialData | src/components/tasks/TaskCard.tsx:30-37 | the drag record carries the card's task, index, status and project, with no edge |
| TaskCard.DropData | src/components/tasks/TaskCard.tsx:44-58 | the target record is the drag record plus a closest edge that is top or bottom, bottom exactly when the cursor is nearer the bottom |
| TaskCard.CanDrop | src/components/tasks/TaskCard.tsx:59-62 | accepts exactly a task with a different id |
| TaskCard.EdgeIndicator.OnDragOver | src/components/tasks/TaskCard.tsx:63-70 | the indicator shows the edge read back from the card's own record |
| TaskCard.EdgeIndicator.OnDragEnd | src/components/tasks/TaskCard.tsx:71-72 | leaving or dropping clears the indicator |
| ProjectCard.InitialData | src/components/projects/ProjectCard.tsx:43-48 | the drag record is the card's own project with its id and index |
| ProjectCard.DropData | src/components/projects/ProjectCard.tsx:55-71 | a task sees the project's task zone, any other source sees the project record |
| ProjectCard.CanDrop | src/components/projects/ProjectCard.tsx:72-84 | another project is accepted, a task only while the project is not archived, anything else never |
| DropTargets.DropTargets | src/components/tasks/KanbanColumn.tsx:26-33 | the target list is never longer than the elements under the cursor, has one record per element when all accept, and is empty when none accepts |
| DropTargets.TargetOrigin | src/components/tasks/KanbanColumn.tsx:26-33 | every target record is the getData of an element under the cursor that accepted the dragged record |
| DropTargets.FirstTargetIsFirstAccepting | src/components/pages/TasksPage.tsx:83 | the `destination` every handler reads, `dropTargets[0]`, is the record of the first element under the cursor that accepts the dragged record |
| DropTargets.AcceptedTarget | src/components/calendar/CalendarDayCell.tsx:40-44 | what one accepting element contributes, by kind: columns and day cells only for tasks, task zones only of non-archived projects |
| DropTargets.NoSelfDropAt | src/components/priority/PriorityGrid.tsx:182-189 | no target record at any position is the dragged task, project or grid card itself, and grid targets share the source's instance |
| DropTargets.NoSelfDrops | src/components/tasks/TaskCard.tsx:59-62 | the same over the whole target list: self-drops never reach a handler |
| DropTargets.NoTaskIntoArchivedProject | src/components/projects/ProjectCard.tsx:79-81 | a task-zone target always comes from the card of a project under the cursor that is not archived |
| TasksPage.ByDisplayOrderIsTotal | src/components/pages/TasksPage.tsx:230 | the column comparator (null read as 0) is a total preorder |
| TasksPage.TasksByStatus | src/components/pages/TasksPage.tsx:227-231 | a column holds exactly the tasks of its status, each from the list, sorted by display_order |
| TasksPage.RearrangedColumn | src/components/pages/TasksPage.tsx:227-231 | any rearrangement of a status filter holds only tasks of that status, each from the list |
| TasksPage.FirstColumn | src/components/pages/TasksPage.tsx:90-92 | finds a column record exactly when one is among the targets, and returns the status of the first such record in target order |
| TasksPage.MergeReordered | src/components/pages/TasksPage.tsx:143-146 | every task is replaced by its reordered copy when it has one; the length is kept |
| TasksPage.MergeColumns | src/components/pages/TasksPage.tsx:183-193 | tasks of the two columns are looked up in their column's new list, all others kept |
| TasksPage.CrossColumnIndex | src/components/pages/TasksPage.tsx:160-172 | the insertion slot is the column's end unless the target is a task of that column, then the edge-resolved index |
| TasksPage.ReorderInColumn | src/components/pages/TasksPage.tsx:112-158 | computes exactly the same-column outcome |
| TasksPage.MoveAcrossColumns | src/components/pages/TasksPage.tsx:159-221 | computes exactly the cross-column outcome |
| TasksPage.KanbanBoard.OnDrop | src/components/pages/TasksPage.tsx:80-222 | the new task state and the bulk call are those of BoardDrop on the old state |
| TasksPage.BoardDropNoOps | src/components/pages/TasksPage.tsx:83-138 | no target, a non-task source, no resolvable status, a dragged id missing from its column, a same-column target that is not a task of it, or a slot equal to the source leaves the tasks unchanged and sends nothing |
| TasksPage.ColumnOfUniqueTasks | src/components/pages/TasksPage.tsx:101-107 | a column of uniquely identified tasks has unique ids and holds every task of its status |
| TasksPage.ReplaceFromReordered | src/components/pages/TasksPage.tsx:143-146 | a task looked up in a reordered column differs only in display_order |
| TasksPage.MergeReorderedKeepsTasks | src/components/pages/TasksPage.tsx:143-148 | after a same-column reorder every task keeps all fields but display_order, each column task's new state is in the call, and tasks of other statuses are unchanged |
| TasksPage.ReorderedColumnRequest | src/components/pages/TasksPage.tsx:150-157 | the same-column call numbers the whole column 0, 1, 2, ... with the column's status |
| TasksPage.SameColumnDropKeepsTasks | src/components/pages/TasksPage.tsx:112-158 | a drop within one column keeps the length and every field but display_order, leaves tasks of other statuses unchanged, and its call numbers the column densely with its status and carries each column task's new state |
| TasksPage.SameColumnReorder | src/components/pages/TasksPage.tsx:112-158 | the same-column branch keeps every field but display_order, leaves tasks of other statuses unchanged, and its call numbers the column densely with its status and carries each column task's new state |
| TasksPage.SourceAfterMoveDropsId | src/components/pages/TasksPage.tsx:175-181 | the new source column keeps its status and no longer holds the moved id |
| TasksPage.DestinationAfterMoveHoldsId | src/components/pages/TasksPage.tsx:174-181 | the new destination column has one status and holds the moved id once, at the drop slot |
| TasksPage.MergeColumnsKeepsIds | src/components/pages/TasksPage.tsx:183-193 | the merge keeps every task's id and status and leaves other columns' tasks as they were |
| TasksPage.MovedRowAppended | src/components/pages/TasksPage.tsx:195-199 | removing the moved id and appending its new row keeps the length and counts the id once |
| TasksPage.OtherColumnsUntouched | src/components/pages/TasksPage.tsx:183-199 | columns of every other status come out exactly as they went in |
| TasksPage.CrossColumnRequestLength | src/components/pages/TasksPage.tsx:204-219 | the cross-column call has one entry per task of the two columns: the moved task with its pre-move display_order first, then each new source row, then each new destination row other than the moved one |
| TasksPage.CrossColumnRequestEntries | src/components/pages/TasksPage.tsx:204-219 | the entries after the first are the source column without the moved task, in order, numbered from 0 with the source status, then the destination column in its old order, numbered by slot around the insertion point with the destination status |
| TasksPage.CrossColumnRequestFromState | src/components/pages/TasksPage.tsx:183-219 | every entry after the first is the id, display_order and status of a row of the merged list other than the moved task |
| TasksPage.CrossColumnRequestDescribed | src/components/pages/TasksPage.tsx:183-219 | the call satisfies the whole entry-by-entry description against the list the branch sets: the merged list without the moved id, with its new row appended |
| TasksPage.CrossColumnTasks | src/components/pages/TasksPage.tsx:174-199 | the list after a cross-column move keeps its length, holds the moved id once, at the end with the destination status and its slot as display_order, and leaves other statuses untouched |
| TasksPage.CrossColumnOutcome | src/components/pages/TasksPage.tsx:159-221 | the cross-column branch keeps the length, holds the moved id once, at the end, with the destination status and its slot, leaves other statuses untouched, and sends a call whose entries are the moved task with its old order, the rest of the source column numbered from 0, and the destination column numbered around the slot, each entry after the first describing a row of the new list |
| TasksPage.CrossColumnDropMovesTask | src/components/pages/TasksPage.tsx:159-221 | a cross-column drop keeps the count, holds the moved id once, at the end, with the new status and its new slot, leaves other statuses' columns untouched, and sends, after the pre-move first entry, the rest of the source column numbered from 0 with the source status and the destination column numbered around the slot with the destination status, each entry matching a row of the new list |
| ProjectsList.AppendSlot | src/components/projects/ProjectsList.tsx:126 | the requested slot is the target list's length, or 0 when the target has no entry |
| ProjectsList.Lower | src/components/projects/ProjectsList.tsx:45-47 | lower-casing keeps the length and maps A-Z to a-z |
| ProjectsList.VisibleProjects | src/components/projects/ProjectsList.tsx:36-50 | the two filters in sequence equal one order-preserving filter by the status test and the case-insensitive search together |
| ProjectsList.VisibleExactlyWhenMatching | src/components/projects/ProjectsList.tsx:36-50 | every shown project is fetched and passes both tests, and every fetched project passing both is shown |
| ProjectsList.GroupTasks | src/components/projects/ProjectsList.tsx:62-72 | one entry per listed project, holding only its own fetched tasks and every one of them |
| ProjectsList.EmptyEntries | src/components/projects/ProjectsList.tsx:64-66 | the first loop gives an empty entry for exactly the listed projects |
| ProjectsList.GroupByProject | src/components/projects/ProjectsList.tsx:62-72 | the two loops build exactly GroupTasks |
| ProjectsList.ProjectsList.FetchProjects | src/components/projects/ProjectsList.tsx:30-78 | a failed fetch changes nothing; otherwise the filtered projects are shown and the tasks are grouped, emptied or kept as the code does |
| ProjectsList.ProjectsList.OnDrop | src/components/projects/ProjectsList.tsx:91-150 | the new state, both calls and the refetch flag are those of ListDrop |
| ProjectsList.ListDropNoOps | src/components/projects/ProjectsList.tsx:92-121 | no target, a project over a non-project, an unknown id, a task over its own project, or another source does nothing |
| ProjectsList.ProjectReorder | src/components/projects/ProjectsList.tsx:101-112 | a project reorder renumbers densely, permutes, places the project at the adjusted target index, and sends every project with its new order |
| ProjectsList.ReorderedProjects | src/components/projects/ProjectsList.tsx:101-112 | the reordered projects are numbered densely, permuted, with the dragged project at the adjusted index, and the request lists each with its new order |
| ProjectsList.DropOnSuccessorKeepsOrder | src/components/projects/ProjectsList.tsx:101-107 | dropping a project on its immediate successor keeps the order |
| ProjectsList.TaskMovedToProject | src/components/projects/ProjectsList.tsx:116-142 | the request asks for the target project at its end slot; on success the task leaves the source list and sits at that slot in the target's, other lists untouched |
| ProjectsList.MovedBetweenProjects | src/components/projects/ProjectsList.tsx:131-140 | after a move the source list no longer holds the task, the target list gains it at its end slot with the new project, and every other list is kept |
| ProjectsList.TaskMoveConservesTasks | src/components/projects/ProjectsList.tsx:131-140 | a successful move keeps the two lists' total length |
| ProjectsList.TaskMoveFailureRefetches | src/components/projects/ProjectsList.tsx:123-147 | a move the server refuses, or one it accepts while the page has no entry for the source project (the `filter` throws), leaves both lists unchanged, sends only the end-slot move call and refetches |
| ProjectsList.GroupedExactlyWhenListed | src/components/projects/ProjectsList.tsx:62-72 | every listed project has an entry, and a task is grouped exactly when its project is listed |
| PriorityGrid.Swap | src/components/priority/PriorityGrid.tsx:58-59 | the two positions exchanged, every other kept |
| PriorityGrid.CardData | src/components/priority/PriorityGrid.tsx:157-161 | the card's record carries its task id and the grid's instance |
| PriorityGrid.CanDrop | src/components/priority/PriorityGrid.tsx:182-189 | accepts exactly another card of the same grid |
| PriorityGrid.PriorityGrid.SetInitialTasks | src/components/priority/PriorityGrid.tsx:36-38 | a new task list from the page replaces the local order |
| PriorityGrid.PriorityGrid.OnDrop | src/components/priority/PriorityGrid.tsx:42-61 | the swap on a copied array installs exactly GridDrop of the old list |
| PriorityGrid.IndexOfUniqueId | src/components/priority/PriorityGrid.tsx:53-54 | with unique ids, findIndex finds the one position of the id |
| PriorityGrid.GridDropNoOps | src/components/priority/PriorityGrid.tsx:43-56 | no target, another grid's or a foreign record, a self-drop or an unknown id leaves the list unchanged |
| PriorityGrid.GridDropSwaps | src/components/priority/PriorityGrid.tsx:58-60 | an accepted drop swaps exactly the two positions and permutes the list |
| PriorityGrid.GridDropTwiceRestores | src/components/priority/PriorityGrid.tsx:58-60 | a drop keeps ids unique, and the same drop twice restores the list |
| PriorityGridPage.StrCompare | src/components/pages/PriorityGridPage.tsx:53 | the id comparison gives -1, 0 or 1, and 0 exactly for equal ids |
| PriorityGridPage.StrCompareFlip | src/components/pages/PriorityGridPage.tsx:53 | swapping the arguments negates the comparison |
| PriorityGridPage.StrCompareTransitive | src/components/pages/PriorityGridPage.tsx:53 | the comparison is transitive |
| PriorityGridPage.GridLeIsTotalPreorder | src/components/pages/PriorityGridPage.tsx:47-54 | the bucket comparator is a total preorder |
| PriorityGridPage.SortTasks | src/components/pages/PriorityGridPage.tsx:46-55 | the sorted copy is a permutation of the bucket and sorted by the comparator |
| PriorityGridPage.SortedTasksByPriority | src/components/pages/PriorityGridPage.tsx:57-62 | each bucket is a sorted permutation of the tasks of its priority |
| PriorityGridPage.BucketOfPriority | src/components/pages/PriorityGridPage.tsx:57-62 | the same, for the bucket of any priority |
| PriorityGridPage.BucketHoldsItsPriority | src/components/pages/PriorityGridPage.tsx:57-62 | every task of a bucket has the bucket's priority |
| PriorityGridPage.BucketHoldsEveryCopy | src/components/pages/PriorityGridPage.tsx:57-62 | a task of a priority sits in that bucket as often as in the fetched list |
| PriorityGridPage.FilterByPriorityPartition | src/components/pages/PriorityGridPage.tsx:58-61 | the four filters together hold every task exactly once |
| PriorityGridPage.BucketsPartitionTasks | src/components/pages/PriorityGridPage.tsx:57-62 | every bucket task has the bucket's priority, each task is in its bucket with its multiplicity, and the buckets partition the tasks |
| PriorityGridPage.BucketOrder | src/components/pages/PriorityGridPage.tsx:48-53 | in a bucket, ordered tasks ascend and precede unordered ones, which go by id |
| CalendarPage.CalendarPage.FetchTasks | src/components/pages/CalendarPage.tsx:57-75 | an error empties the calendar; otherwise exactly the tasks with a due date in the window are shown |
| CalendarPage.CalendarPage.OnDrop | src/components/pages/CalendarPage.tsx:89-117 | the new list and the update are those of CalendarDrop, and a refetch follows exactly a failed update |
| CalendarPage.CalendarDropNoOps | src/components/pages/CalendarPage.tsx:90-97 | no target, a non-task source, or a target without a date does nothing |
| CalendarPage.DropRewritesOneDueDate | src/components/pages/CalendarPage.tsx:99-105 | only the dragged task's due date changes, to the date sent; all else is kept |
| CalendarPage.DropIsIdempotent | src/components/pages/CalendarPage.tsx:101-105 | repeating a drop changes nothing more |
| CalendarPage.FetchedTasksHaveDueDates | src/components/pages/CalendarPage.tsx:65-69 | shown tasks have a due date and come from the response, and every task in the window is shown |

## Left out

- Server routes, the database schema and authentication are not part of this model. The server's `max + 1` append rule and id allocation are not relied on.
- The network layer (`src/lib/api.ts`) is not part of this model. Each call is an output of a handler, and each answer is an input: a success flag or a `Response`.
- The hit-testing of the drag library is an input: which elements are under the cursor, and which edge is closest (`nearerBottom`).
- Asynchrony is not modelled. The calls are fire-and-forget or awaited after the optimistic update, and an effect re-registers with a stale closure. The handlers are modelled as one atomic step with the server's answer given up front.
- The Kanban board's reorder call has no failure input, because the page never reads its result.
- Date handling is not modelled. The calendar window (the month plus a week each side) is a predicate parameter. The day cell's ISO string is taken as the new due date, since re-formatting an ISO timestamp with `toISOString` returns it unchanged.
- The `if (!user) return` guards, the loading flags, logging, `alert`, and the hover/dragging display flags are left out. None of them changes the lists.
- `tasksByProject` is a map. A JavaScript object key inherited from the prototype (such as `constructor`) is not modelled.
- The fetches of the priority page and of the calendar's project list only feed the display, and are left out.
- Rendering, styling, modals and forms are left out.
- PriorityGridPage.StrCompare: `localeCompare` is modelled as the lexicographic order of character codes, not a locale collation.
- ProjectsList.Lower: `toLowerCase` is modelled on ASCII letters only. Other characters are kept as they are.
- Sorting.Sort: stability, i.e. ties keeping their input order, is not stated. Only the sortedness and the permutation are proved.
- TaskCard.EdgeIndicator.OnDragOver: the edge comes from the card's own record, as the code reads it. The library's edge geometry is not modelled.

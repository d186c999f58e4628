# Eisenhower-matrix todo board: task ordering and reclassification

This project models the state transitions of a todo board that files tasks
into an inbox and four quadrants: important and urgent (`IU`), important and
not urgent (`IN`), urgent and not important (`NU`), and neither (`NN`). A
task's bucket is its `list` field. Dragging a task into a quadrant rewrites
its importance and urgency flags to match the quadrant.

Two iterations of the board are modelled, each in its own module:

- `OldApp` (`src/components/oldApp.jsx`, the newest iteration). Each task
  carries an `orderIndex`, its place within its bucket. The inbox is
  displayed in `orderIndex` order.
  - A drag splices the task into the destination bucket and renumbers that
    bucket.
  - Choosing a sort option for a quadrant sorts it and commits the new order
    to `orderIndex`.
  - The state also holds the sort option last chosen per quadrant.
- `App` (`src/App.jsx`, the earlier iteration). Tasks carry no position.
  Buckets are displayed in list order, so a drag and the sort button reorder
  the list itself.
  - A drag always rewrites the flags and stamps the time the task entered a
    quadrant.
  - The sort button orders a quadrant by that time and toggles a per-bucket
    flag.

Each handler computes a new state from the old one. In each module:

- a function per handler computes that new state (`WithNewTask`, `Updated`,
  `Deleted`, `DragEnd`, `WithSortOption`, `SortByQuadrantTime`);
- lemmas state what the new state means;
- a class `Board` holds the state fields and has one method per handler.
  Each method's `ensures` ties the new fields to the function and keeps the
  class invariant. `OldApp.Board.OnDragEnd` and `App.Board.OnDragEnd` follow
  the handler guard by guard.

Shared modules:

- `Common` holds the bucket names, `Option`, the editor's field patch and the
  drag library's `DropResult`.
- `Seqs` holds the array operations the handlers are built from: `filter` on
  one field, `map`, `find` and `splice` with its clamping of an index past the
  end.
- `Sorting` models `Array.prototype.sort` with a comparator as a stable
  insertion sort. A comparator result of `NaN` reads as `0`, as the engine
  reads it.
- `Quadrant` (`src/components/Quadrant.jsx`) models which tasks a quadrant
  shows, in which order, and the index each is rendered at. That index is
  what the drag library reports as the drop index.

Timestamps are integers (milliseconds since the epoch, as `new Date(...)`
reads the stored ISO strings). The uuid of a new task, its placeholder title
and the clock are parameters.

Four behaviours of the code that the model keeps:

- A drag across buckets does not renumber the source bucket. Its remaining
  tasks keep their old `orderIndex`, gap included. See
  `OldApp.DragEndBuckets`.
- `deleteTask` does not renumber the bucket it deletes from. See
  `OldApp.DeleteTaskBuckets` and `OldApp.DeleteLeavesGap`.
- The due-date options are named `dueSoon` and `dueLater`.
- Under `dueSoon`, a task without a due date is not sorted last. Its
  comparison is `NaN`, so it ties with every task. See
  `OldApp.SortOptionDueSoonDated` and `OldApp.SortOptionDueSoonUndated`.

Nothing here is executed. Every claim is a Dafny contract that the verifier
proves.

## Model

| member | source | states |
|---|---|---|
| Seqs.Filter | src/components/oldApp.jsx:113-115 | `filter` on one field: each element occurs in the result as often as in the input when it passes the test, and not at all otherwise; the result is no longer than the input |
| Seqs.FilterMembership | src/components/oldApp.jsx:113-115 | an element is in the filtered list exactly when it is in the input and passes the test |
| Seqs.FilterPartition | src/components/oldApp.jsx:114-115 | the tasks of a bucket and the tasks outside it split the list between them, as multisets and in number |
| Seqs.FilterCommute | src/components/oldApp.jsx:113-115 | filtering out an id and filtering by bucket commute, so it does not matter which of the two filters runs first |
| Seqs.FilterOutUnique | src/components/oldApp.jsx:113 | when ids are unique, filtering out the id of the task at position i removes exactly that task and keeps the rest in order |
| Seqs.FilterOutKeys | src/components/oldApp.jsx:113 | when ids are unique, filtering out one task's id removes exactly one occurrence of that id from the multiset of ids |
| Seqs.MapPermutation | src/components/oldApp.jsx:135-138 | mapping two permutations of one list gives permutations of one another |
| Seqs.Find | src/components/oldApp.jsx:110 | `find` by id: absent exactly when no task has the id; otherwise the first task of the list with that id |
| Seqs.SplicePosition | src/components/oldApp.jsx:132 | `splice(index, 0, x)` inserts at `index`, or at the end when `index` is past the end |
| Seqs.Splice | src/components/oldApp.jsx:132 | the spliced list is one longer, holds `x` at the clamped index, and agrees with the old list before it and, shifted by one, after it |
| Seqs.SpliceAround | src/components/oldApp.jsx:132 | each element other than the inserted one is the old element at the same place before the insertion point and one place earlier after it |
| Seqs.SpliceMultiset | src/components/oldApp.jsx:132 | splicing adds exactly the inserted element to the multiset of elements |
| Seqs.UniqueKeysOnce | src/components/oldApp.jsx:69 | when no two tasks share an id, each id occurs at most once among the ids |
| Seqs.UniqueByPermutation | src/components/oldApp.jsx:113-140 | a list whose ids are a permutation of unique ids has unique ids |
| Seqs.FilterUniqueBy | src/components/oldApp.jsx:92 | filtering a list with unique ids, on any field, gives a list with unique ids |
| Seqs.UniqueByAppend | src/components/oldApp.jsx:80 | appending a task whose id is not yet present keeps ids unique |
| Sorting.SortBy | src/components/oldApp.jsx:174-200 | `[...s].sort(cmp)` keeps the length and the multiset of elements |
| Sorting.SortBySorted | src/components/oldApp.jsx:174-200 | with a comparator that is the difference of two keys, the sorted list is in non-decreasing key order |
| Sorting.SortByOrdered | src/components/oldApp.jsx:185-191 | a list whose neighbours the comparator never puts out of order, for example one where every comparison is `NaN` or `0`, is returned unchanged |
| Sorting.SortByStable | src/components/oldApp.jsx:240 | the sort is stable: with a comparator that is the difference of two keys, the elements with each key come out in their input order |
| Sorting.SortedStableUnique | src/components/oldApp.jsx:240 | two lists in key order whose elements with each key agree, in order, are the same list |
| Sorting.SortByCharacterised | src/components/oldApp.jsx:240 | with a comparator that is the difference of two keys, the sort's result is the one list in key order that keeps the input order among equal keys |
| OldApp.FlagsFor | src/components/oldApp.jsx:122-128 | the flags of a task dropped into a bucket: none in the inbox, important exactly in IU and IN, urgent exactly in IU and NU |
| OldApp.WithNewTask | src/components/oldApp.jsx:67-81 | `addTask` appends one inbox task with the given id, title and creation time, no flags, no due date, not completed, numbered by the inbox's size; every earlier task is unchanged |
| OldApp.AddTaskBuckets | src/components/oldApp.jsx:67-81 | `addTask` extends the inbox by the new task and leaves every other bucket alone; a densely numbered inbox stays dense; flags stay in step with buckets |
| OldApp.AddTaskKeepsIdsUnique | src/components/oldApp.jsx:67-81 | `addTask` with an id that no task has keeps ids unique |
| OldApp.Updated | src/components/oldApp.jsx:84-88 | `updateTask` keeps the length, patches every task with the id and leaves every other task as it was, in place |
| OldApp.UpdateTaskKeepsIdsUnique | src/components/oldApp.jsx:84-88 | `updateTask` leaves the sequence of ids as it was, so unique ids stay unique |
| OldApp.Patched | src/components/oldApp.jsx:86 | `{ ...task, ...updatedFields }`: each field of the patch that is present replaces the task's field; id, bucket, position, flags and creation time are kept |
| OldApp.UpdateTaskBuckets | src/components/oldApp.jsx:83-89 | `updateTask` works bucket by bucket: each bucket keeps its tasks, in order and with their positions, and only the tasks with the id are patched |
| OldApp.UpdateTaskIndexed | src/components/oldApp.jsx:83-89 | `updateTask` keeps a densely numbered bucket dense |
| OldApp.UpdateTaskClassified | src/components/oldApp.jsx:83-89 | `updateTask` keeps every task's flags in step with its bucket |
| OldApp.Deleted | src/components/oldApp.jsx:91-93 | `deleteTask` keeps exactly the tasks whose id differs from the deleted one |
| OldApp.DeleteTaskBuckets | src/components/oldApp.jsx:91-93 | `deleteTask` does not renumber: each bucket loses the deleted task and keeps the others, with their positions, in order; flags stay in step with buckets |
| OldApp.DeleteTaskRemovesOne | src/components/oldApp.jsx:91-93 | when ids are unique, `deleteTask` removes exactly the one matching task and keeps the rest in order |
| OldApp.DeleteTaskKeepsIdsUnique | src/components/oldApp.jsx:91-93 | `deleteTask` keeps ids unique |
| OldApp.DeleteLeavesGap | src/components/oldApp.jsx:91-93 | deleting the first of two densely numbered inbox tasks leaves the survivor numbered 1, so the inbox is no longer densely numbered |
| OldApp.UpdateOrderIndices | src/components/oldApp.jsx:95-100 | each task keeps its place and every field; a task of the given bucket gets its position in the list as `orderIndex`, any other task keeps its `orderIndex` |
| OldApp.UpdateOrderIndicesIdempotent | src/components/oldApp.jsx:95-100 | renumbering a second time changes nothing |
| OldApp.UpdateOrderIndicesOnlyIndex | src/components/oldApp.jsx:95-100 | renumbering changes only `orderIndex`: no task moves and no other field changes |
| OldApp.UpdateOrderIndicesIndexes | src/components/oldApp.jsx:95-100 | on one bucket's tasks, renumbering makes the bucket densely numbered in list order |
| OldApp.Applies | src/components/oldApp.jsx:104-111 | a drag passes the handler's guards exactly when it has a destination, both droppable ids are non-empty and some task has the dragged id |
| OldApp.Dropped | src/components/oldApp.jsx:117-129 | the task the handler inserts has the dragged id; after a drag across buckets it has the destination bucket and that bucket's flags, with every other field as before; otherwise it is the found task unchanged |
| OldApp.DragEnd | src/components/oldApp.jsx:103-111 | each of the three guards (no destination, an empty droppable id, no task with the dragged id) leaves the tasks unchanged |
| OldApp.DragSortOptions | src/components/oldApp.jsx:143-149 | a drag that passes the guards and crosses buckets clears the options of the source and destination buckets and keeps the others; any other drag keeps every option |
| OldApp.Reindexed | src/components/oldApp.jsx:135-138 | each task keeps its place and every field but `orderIndex`, which becomes its position |
| OldApp.DragEndPlaces | src/components/oldApp.jsx:113-140 | after a drag: the tasks outside the destination bucket, in their old order, then the n destination tasks numbered 0..n-1, the dropped task at the clamped drop index and the bucket's other tasks in their old order around it |
| OldApp.LandsInDestination | src/components/oldApp.jsx:113-128 | the dropped task is in the destination bucket exactly when the drag passes the guards and either crosses buckets or has the task's own bucket as its destination |
| OldApp.DragEndBuckets | src/components/oldApp.jsx:113-140 | for a drag after which the dropped task's bucket is the destination: the destination bucket is the renumbered splice and is densely numbered; every other bucket, the source included, is the old one minus the dragged task, not compacted |
| OldApp.DragEndIds | src/components/oldApp.jsx:113-140 | after a drag the dragged id occurs exactly once; when ids were unique, the multiset of ids is unchanged |
| OldApp.DragEndIdsShape | src/components/oldApp.jsx:113-140 | the ids after a drag are the ids left after filtering out the dragged id, plus that id once |
| OldApp.DragEndClassified | src/components/oldApp.jsx:117-129 | a drag keeps every task's flags in step with its bucket |
| OldApp.DragEndKeepsIdsUnique | src/components/oldApp.jsx:102-140 | a drag keeps ids unique |
| OldApp.View | src/components/oldApp.jsx:238-240 | the inbox display is a permutation of the inbox's tasks, in non-decreasing `orderIndex`, and tasks with equal `orderIndex` keep their list order |
| OldApp.ViewDetermined | src/components/oldApp.jsx:238-240 | any order of the bucket's tasks by `orderIndex` that keeps list order among equal indices is the display order |
| OldApp.ViewOfOrderedBucket | src/components/oldApp.jsx:238-240 | a bucket whose `orderIndex` never decreases along the list is displayed in list order |
| OldApp.DragEndDisplay | src/components/oldApp.jsx:238-249 | after a drag that lands in its destination, the destination is displayed in list order with the dragged task at the clamped drop index |
| OldApp.ViewOfSwappedPair | src/components/oldApp.jsx:238-240 | two tasks of one bucket listed against their `orderIndex` are displayed the other way round |
| OldApp.NewTaskAfterDeletesDisplayedFirst | src/components/oldApp.jsx:78 | three densely numbered inbox tasks; after the first two are deleted, `addTask` numbers the new task 1 (the inbox's size), so it is displayed before the surviving task numbered 2 |
| OldApp.SecondNewTaskTiesAfterDeletes | src/components/oldApp.jsx:78 | after those deletes, a second `addTask` numbers its task 2, tying with the survivor; the inbox shows the first new task, then the survivor, then the second new task |
| OldApp.ViewOfTie | src/components/oldApp.jsx:238-240 | tasks listed x, y, z with x and z numbered alike and y below them are displayed y, x, z |
| OldApp.ByCreatedNewFirst | src/components/oldApp.jsx:176-178 | the comparator puts a before b exactly when a was created later, and ties tasks created at the same time |
| OldApp.ByOrderIndex | src/components/oldApp.jsx:240 | the comparator puts a before b exactly when a's orderIndex is smaller, and ties equal orderIndex values |
| OldApp.ByCreatedOldFirst | src/components/oldApp.jsx:181-183 | the comparator puts a before b exactly when a was created earlier, and ties tasks created at the same time |
| OldApp.ByDueSoon | src/components/oldApp.jsx:186-190 | when either task has no due date the difference is `NaN` and reads as a tie; when both have one, the earlier due date goes first |
| OldApp.ByDueLater | src/components/oldApp.jsx:193-195 | the later due date goes first, a missing date counting as the epoch |
| OldApp.SortedForOption | src/components/oldApp.jsx:174-200 | each option's `switch` branch permutes the bucket's tasks |
| OldApp.WithSortOption | src/components/oldApp.jsx:201-205 | after a sort option the task list has the same length and the same multiset of ids |
| OldApp.ReorderedBucketIds | src/components/oldApp.jsx:201-205 | putting any permutation of a bucket's tasks, renumbered, after the other buckets' tasks keeps the length and the multiset of ids |
| OldApp.SortOptionBuckets | src/components/oldApp.jsx:201-205 | after a sort option, the bucket is the sorted list renumbered by position; the other buckets are unchanged; the number of tasks is kept |
| OldApp.SortOptionPermutes | src/components/oldApp.jsx:171-207 | a sort option permutes the bucket's tasks apart from `orderIndex`, leaves the bucket densely numbered and displayed in that order, and leaves the other buckets alone |
| OldApp.SortOptionClassified | src/components/oldApp.jsx:171-207 | a sort option keeps every task's flags in step with its bucket |
| OldApp.SortOptionKeepsIdsUnique | src/components/oldApp.jsx:171-207 | a sort option keeps ids unique |
| OldApp.SortOptionOrders | src/components/oldApp.jsx:175-196 | `createdNewFirst` puts the newest first; `createdOldFirst` puts the oldest first; `dueLater` orders by descending due date, a missing date counting as the epoch |
| OldApp.SortOptionDueSoonDated | src/components/oldApp.jsx:185-191 | `dueSoon` orders a bucket whose tasks all have due dates by ascending due date |
| OldApp.SortOptionDueSoonUndated | src/components/oldApp.jsx:185-191 | `dueSoon` keeps the order of a bucket where no task has a due date, since every comparison is `NaN` |
| OldApp.SortOptionUnknown | src/components/oldApp.jsx:197-199 | an option the `switch` does not know keeps the bucket's order and only renumbers it |
| OldApp.WithOption | src/components/oldApp.jsx:206 | choosing an option sets the bucket's entry and keeps every other entry |
| OldApp.RefAfterDrag | src/components/oldApp.jsx:143-149 | only a drag across buckets calls the options setter, and it passes an updater function, which the ref then holds |
| OldApp.SortOptionsAsWritten | src/components/oldApp.jsx:206 | spreading the ref: when it holds the options, this is `WithOption`; when it holds the updater function, the result has the chosen bucket's entry only |
| OldApp.DragThenSortForgetsOptions | src/components/oldApp.jsx:49-52 | after a drag across buckets, choosing an option, as written, drops the option of every third bucket; the intended update keeps it |
| OldApp.Board.constructor | src/components/oldApp.jsx:42-47 | the board starts with no tasks and every quadrant's option unset |
| OldApp.Board.AddTask | src/components/oldApp.jsx:67-81 | for an id no task has, the new task list is `WithNewTask` of the old one; flags stay in step with buckets and ids stay unique; options are unchanged |
| OldApp.Board.UpdateTask | src/components/oldApp.jsx:83-89 | the new task list is `Updated` of the old one; flags stay in step with buckets and ids stay unique; options are unchanged |
| OldApp.Board.DeleteTask | src/components/oldApp.jsx:91-93 | the new task list is `Deleted` of the old one; flags stay in step with buckets and ids stay unique; options are unchanged |
| OldApp.Board.OnDragEnd | src/components/oldApp.jsx:102-150 | the handler, guard by guard, leaves `DragEnd` of the old tasks and `DragSortOptions` of the old options; flags stay in step with buckets and ids stay unique |
| OldApp.Board.SetSortOption | src/components/oldApp.jsx:171-207 | the handler leaves `WithSortOption` of the old tasks and `WithOption` of the old options; flags stay in step with buckets and ids stay unique |
| App.WithNewTask | src/App.jsx:12-26 | `addTask` appends one inbox task titled "New Task" with the given id and creation time, both flags false, no due date, not completed, no quadrant time; earlier tasks are unchanged |
| App.AddTaskWellFormed | src/App.jsx:12-26 | `addTask` keeps flags and quadrant time in step with buckets |
| App.AddTaskKeepsIdsUnique | src/App.jsx:12-26 | `addTask` with an id that no task has keeps ids unique |
| App.Updated | src/App.jsx:29-31 | `updateTask` keeps the length, patches every task with the id and leaves every other task as it was, in place |
| App.Patched | src/App.jsx:30 | each field of the patch that is present replaces the task's field; id, bucket, flags, quadrant time and creation time are kept |
| App.UpdateTaskWellFormed | src/App.jsx:28-32 | `updateTask` keeps every task's place, bucket and id, so unique ids stay unique, and keeps flags and quadrant time in step with buckets |
| App.Deleted | src/App.jsx:34-36 | `deleteTask` keeps exactly the tasks whose id differs from the deleted one |
| App.DeleteTaskRemovesOne | src/App.jsx:34-36 | when ids are unique, `deleteTask` removes exactly the one matching task and keeps the rest in order |
| App.DeleteTaskKeepsIdsUnique | src/App.jsx:34-36 | `deleteTask` keeps ids unique |
| App.Reclassified | src/App.jsx:48-54 | the dropped task takes the destination bucket, the flags of that bucket, and a quadrant time of now outside the inbox and none in it; every other field is kept |
| App.Applies | src/App.jsx:40-46 | a drag passes the handler's guards exactly when it has a destination and some task has the dragged id |
| App.Dropped | src/App.jsx:45-54 | the inserted task is the found task with the dragged id, moved to the destination bucket with that bucket's flags and quadrant time; no other field changes |
| App.DragEnd | src/App.jsx:38-46 | each of the two guards (no destination, no task with the dragged id) leaves the tasks unchanged |
| App.DragEndPlaces | src/App.jsx:56-62 | after a drag: the tasks outside the destination bucket in their old order, then the destination bucket with the re-created task at the clamped drop index and the bucket's other tasks in their old order around it |
| App.DragEndKeepsCount | src/App.jsx:56-62 | when ids are unique, a drag keeps the number of tasks |
| App.DragEndBuckets | src/App.jsx:56-62 | the destination bucket is the splice; every other bucket, the source included, is the old one minus the dragged task, in order |
| App.DragEndIds | src/App.jsx:56-62 | after a drag the dragged id occurs exactly once; when ids were unique, the multiset of ids is unchanged |
| App.DragEndWellFormed | src/App.jsx:48-62 | a drag keeps every task's flags and quadrant time in step with its bucket |
| App.DragEndKeepsIdsUnique | src/App.jsx:38-62 | a drag keeps ids unique |
| App.ByMovedDesc | src/App.jsx:68 | the comparator puts the more recently moved task first, a task never moved counting as the epoch, and ties equal times |
| App.SortByQuadrantTime | src/App.jsx:65-71 | the sort button permutes the task list |
| App.SortByQuadrantTimeOrders | src/App.jsx:65-71 | after the sort button: the other buckets' tasks unchanged and in order, then the bucket's tasks in non-increasing quadrant time, a missing time counting as the epoch |
| App.SortByQuadrantTimeWellFormed | src/App.jsx:65-71 | the sort button keeps every task well formed |
| App.SortByQuadrantTimeKeepsIdsUnique | src/App.jsx:65-71 | the sort button keeps ids unique |
| App.ToggledSortState | src/App.jsx:72 | the sort button negates the bucket's flag, a missing flag reading as false, and keeps the other buckets' flags |
| App.ToggleTwice | src/App.jsx:72 | pressing the sort button twice restores the bucket's flag as it read before |
| App.Board.constructor | src/App.jsx:9-10 | the board starts with no tasks and no sort flags |
| App.Board.AddTask | src/App.jsx:12-26 | for an id no task has, the new task list is `WithNewTask` of the old one; tasks stay well formed and ids stay unique; sort flags are unchanged |
| App.Board.UpdateTask | src/App.jsx:28-32 | the new task list is `Updated` of the old one; tasks stay well formed and ids stay unique; sort flags are unchanged |
| App.Board.DeleteTask | src/App.jsx:34-36 | the new task list is `Deleted` of the old one; tasks stay well formed and ids stay unique; sort flags are unchanged |
| App.Board.OnDragEnd | src/App.jsx:38-63 | the handler, guard by guard, leaves `DragEnd` of the old tasks; tasks stay well formed and ids stay unique; sort flags are unchanged |
| App.Board.HandleSortByQuadrantTime | src/App.jsx:65-73 | the handler leaves `SortByQuadrantTime` of the old tasks and `ToggledSortState` of the old flags; tasks stay well formed and ids stay unique |
| Quadrant.QuadrantTasks | src/components/Quadrant.jsx:7-9 | a quadrant shows a permutation of its bucket's tasks |
| Quadrant.ByManualOrder | src/components/Quadrant.jsx:9 | when either task has no manual index the difference is `NaN`, which the fallback to 0 turns into a tie; when both have one, the lower index goes first |
| Quadrant.QuadrantShowsBucket | src/components/Quadrant.jsx:7-9 | a quadrant shows exactly the tasks of its bucket, each as often as it occurs in the list |
| Quadrant.Rendered | src/components/Quadrant.jsx:29-36 | each shown task is rendered with its position in the display as its drag index |
| Quadrant.QuadrantSorted | src/components/Quadrant.jsx:9 | when every task of the bucket has a manual index, the display is in non-decreasing manual index |
| Quadrant.QuadrantInListOrder | src/components/Quadrant.jsx:9 | when no task of the bucket has a manual index, every comparison is `NaN`, and the display is the bucket in list order |
| Quadrant.WellFormedShownInListOrder | src/components/Quadrant.jsx:7-9 | on a board of the earlier iteration, which never sets a manual index, every quadrant shows its bucket in list order |
| Quadrant.DropShownAsSplice | src/App.jsx:56-62 | on a board of the earlier iteration, after a drag the destination quadrant shows its remaining tasks with the dropped task spliced in |
| Quadrant.DropRenderedAtIndex | src/components/Quadrant.jsx:29-36 | after a drag, the dropped task is rendered at the drop index, clamped to the last place, and the quadrant's other tasks around it in their old order |
| Quadrant.SortButtonShown | src/App.jsx:65-73 | after the sort button, the quadrant shows its own tasks, most recently moved first |
| Quadrant.SortedBucketShown | src/App.jsx:65-71 | after the sort button, the quadrant shows its bucket sorted by the button's comparator |

## Left out

- Network and storage: fetching the user and the tasks, the local-storage language setting and translations. The translated placeholder title of a new task is a parameter of `OldApp.WithNewTask`.
- The uuid of a new task and the clock are parameters. That the uuid is fresh is the precondition `id !in Ids(tasks)` of both `Board.AddTask` methods, and unique ids are part of both boards' invariant.
- The resizable panes, the quadrant grid's expand toggle and the task card's formatting and editing widgets are left out: they draw the state and do not change it. The fields the editor sends are the `Patch` datatype.
- React's batching and re-rendering are left out; each handler is one atomic state change.
- `setSortOption` filters the `tasks` captured by the closure but rebuilds the list from `prev` (src/components/oldApp.jsx:172, 202-205). The model reads both from the current state, so a stale closure is not captured.
- Sorting.SortBy: for an inconsistent comparator, one that calls a equal to b and b equal to c but not a equal to c, as a missing key does, the engine's sort order is implementation-defined. Examples are `dueSoon` with some due dates missing, and `Quadrant.jsx` with some manual indices missing. The model is one stable insertion sort. For comparators that are a difference of keys its result is the engine's: `Sorting.SortBySorted`, `Sorting.SortByStable` and `Sorting.SortByCharacterised` state order, stability and that no other list has both. With missing values they state only the permutation, or the cases where no order or every order is defined.
- OldApp.DragEndBuckets: stated only for a drag that lands in its destination (`OldApp.LandsInDestination`): every drag across buckets, and a drag within the task's own bucket. A report whose source is the destination but not the task's bucket leaves the task in its old bucket, so the destination does not hold it; the drag library does not send such a report for a task rendered in its own bucket.
- OldApp.DragEndDisplay: stated only for a drag that lands in its destination, for the same reason.
- OldApp.SortOptionDueSoonDated: orders only buckets whose tasks all have due dates; with some missing, the order is implementation-defined (above).
- Quadrant display of the newest iteration: its records carry no `manualOrderIndex`, so `Quadrant.jsx` shows each of its buckets in list order. The `Quadrant` module is stated over the earlier iteration's records.
- The `Quadrant.jsx` in the repository takes `onSort`, which only the earlier iteration passes. The newest iteration passes `setSortOption`, whose menu is not part of this model, so it is modelled as the `OldApp.Board.SetSortOption` handler.
- The earlier iteration's inbox is displayed in list order (src/App.jsx:95-105). That order is what `App.DragEndPlaces` states for a drop into the inbox.
- OldApp.Board.SetSortOption: keeps the sort options as a plain map, with the intended update `OldApp.WithOption`. The ref that holds the options is modelled only in the Findings members.

## Findings

| source | as written | input that shows it | evidently intended | confidence | as-written member | corrected member |
|---|---|---|---|---|---|---|
| src/components/oldApp.jsx:49-52, 144, 206 | `onDragEnd` passes an updater function to the `setSortOptions` wrapper, so the ref ends up holding the function; `setSortOption` later spreads the ref, which copies nothing from a function | with `NN` sorted by `dueSoon`, drag a task from `IN` to `IU`, then choose `createdNewFirst` in `IN`: the options become `{ IN: "createdNewFirst" }` and `NN`'s option is gone | the current options with the chosen quadrant's entry replaced, every other entry kept | high; not executed | OldApp.DragThenSortForgetsOptions | OldApp.WithOption |

/** The newest iteration of the board (src/components/oldApp.jsx).

    The state is the list of tasks and, per quadrant, the sort option last
    chosen. A task's bucket is its `list` field: "inbox" or one of the four
    quadrants "IU" (important and urgent), "IN" (important, not urgent),
    "NU" (urgent, not important) and "NN" (neither). Within a bucket a task's
    place is its `orderIndex`; the inbox is displayed in `orderIndex` order.
    Every handler replaces the state with a new value computed from the old
    one; the functions below compute those values and the class `Board`
    holds the state. */
module OldApp {
  import opened Common
  import opened Seqs
  import Sorting

  const CreatedNewFirst := "createdNewFirst"
  const CreatedOldFirst := "createdOldFirst"
  const DueSoon := "dueSoon"
  const DueLater := "dueLater"

  /** A task record. Timestamps are milliseconds since the epoch (the ISO
      strings the source stores, as `new Date(...)` reads them). */
  datatype Task = Task(
    id: string,
    title: string,
    description: string,
    important: Option<bool>,
    urgent: Option<bool>,
    createdAt: int,
    dueDate: Option<int>,
    completed: bool,
    list: string,
    orderIndex: int)

  function IdOf(t: Task): string { t.id }
  function ListOf(t: Task): string { t.list }
  function OrderIndexOf(t: Task): int { t.orderIndex }

  /** The record with its place in the bucket forgotten. */
  function WithoutIndex(t: Task): Task { t.(orderIndex := 0) }

  /** `tasks.filter(t => t.list === list)`. */
  function Members(tasks: seq<Task>, list: string): seq<Task> {
    Filter(tasks, ListOf, list, true)
  }

  /** `tasks.filter(t => t.list !== list)`. */
  function Others(tasks: seq<Task>, list: string): seq<Task> {
    Filter(tasks, ListOf, list, false)
  }

  /** `tasks.filter(t => t.id !== id)`. */
  function Without(tasks: seq<Task>, id: string): seq<Task> {
    Filter(tasks, IdOf, id, false)
  }

  function Ids(tasks: seq<Task>): seq<string> {
    Map(tasks, IdOf)
  }

  /** No two tasks share an id, as fresh uuids guarantee. */
  ghost predicate UniqueIds(tasks: seq<Task>) {
    UniqueBy(tasks, IdOf)
  }

  /** The bucket's tasks, in list order, carry their positions 0..n-1 as
      `orderIndex`: dense, without repeats, and agreeing with list order. */
  ghost predicate Indexed(tasks: seq<Task>, list: string) {
    var m := Members(tasks, list);
    forall i :: 0 <= i < |m| ==> m[i].orderIndex == i
  }

  /** The importance and urgency flags a task gets when it is dropped into
      bucket `list`. */
  function FlagsFor(list: string): (r: (Option<bool>, Option<bool>))
    ensures list == Inbox ==> r == (None, None)
    ensures list == IU ==> r == (Some(true), Some(true))
    ensures list == IN ==> r == (Some(true), Some(false))
    ensures list == NU ==> r == (Some(false), Some(true))
    ensures list == NN ==> r == (Some(false), Some(false))
  {
    if list == Inbox then (None, None)
    else (Some(list == IU || list == IN), Some(list == IU || list == NU))
  }

  /** A task's flags agree with its bucket. */
  ghost predicate Classified(t: Task) {
    (t.important, t.urgent) == FlagsFor(t.list)
  }

  ghost predicate AllClassified(tasks: seq<Task>) {
    forall t :: t in tasks ==> Classified(t)
  }

  // ---------------------------------------------------------------- addTask

  /** The list after `addTask`: a fresh inbox task at the end. */
  function WithNewTask(tasks: seq<Task>, id: string, title: string, now: int): (r: seq<Task>)
    ensures |r| == |tasks| + 1 && r[..|tasks|] == tasks
    ensures var t := r[|tasks|];
      && t.id == id && t.title == title && t.description == ""
      && t.list == Inbox && t.important == None && t.urgent == None
      && t.createdAt == now && t.dueDate == None && !t.completed
      && t.orderIndex == |Members(tasks, Inbox)|
  {
    tasks + [Task(id, title, "", None, None, now, None, false, Inbox, |Members(tasks, Inbox)|)]
  }

  /** `addTask` extends the inbox by the new task, leaves every other bucket
      alone, keeps a densely indexed inbox dense and keeps flags in step with
      buckets. */
  lemma AddTaskBuckets(tasks: seq<Task>, id: string, title: string, now: int, list: string)
    ensures var r := WithNewTask(tasks, id, title, now);
      && (list == Inbox ==> Members(r, list) == Members(tasks, list) + [r[|tasks|]])
      && (list != Inbox ==> Members(r, list) == Members(tasks, list))
      && (Indexed(tasks, Inbox) ==> Indexed(r, Inbox))
      && (AllClassified(tasks) ==> AllClassified(r))
  {
    var r := WithNewTask(tasks, id, title, now);
    assert r == tasks + [r[|tasks|]];
    FilterConcat(tasks, [r[|tasks|]], ListOf, list, true);
    FilterConcat(tasks, [r[|tasks|]], ListOf, Inbox, true);
  }

  /** `addTask` with a fresh uuid keeps ids unique. */
  lemma AddTaskKeepsIdsUnique(tasks: seq<Task>, id: string, title: string, now: int)
    requires UniqueIds(tasks) && id !in Ids(tasks)
    ensures UniqueIds(WithNewTask(tasks, id, title, now))
  {
    var r := WithNewTask(tasks, id, title, now);
    assert r == tasks + [r[|tasks|]];
    UniqueByAppend(tasks, r[|tasks|], IdOf);
  }

  // ------------------------------------------------ updateTask, deleteTask

  /** `{ ...task, ...patch }` for the fields the editor sends. */
  function Patched(t: Task, p: Patch): (r: Task)
    ensures r.id == t.id && r.list == t.list && r.orderIndex == t.orderIndex
    ensures r.important == t.important && r.urgent == t.urgent && r.createdAt == t.createdAt
    ensures p.title.Some? ==> r.title == p.title.value
    ensures p.title.None? ==> r.title == t.title
    ensures p.description.Some? ==> r.description == p.description.value
    ensures p.description.None? ==> r.description == t.description
    ensures p.dueDate.Some? ==> r.dueDate == p.dueDate.value
    ensures p.dueDate.None? ==> r.dueDate == t.dueDate
    ensures p.completed.Some? ==> r.completed == p.completed.value
    ensures p.completed.None? ==> r.completed == t.completed
  {
    t.(title := p.title.GetOr(t.title),
       description := p.description.GetOr(t.description),
       dueDate := p.dueDate.GetOr(t.dueDate),
       completed := p.completed.GetOr(t.completed))
  }

  /** `prev.map(task => task.id === id ? { ...task, ...patch } : task)`. */
  function Updated(tasks: seq<Task>, id: string, p: Patch): (r: seq<Task>)
    ensures |r| == |tasks|
    ensures forall i :: 0 <= i < |tasks| ==> r[i] == if tasks[i].id == id then Patched(tasks[i], p) else tasks[i]
    decreases |tasks|
  {
    if tasks == [] then []
    else [if tasks[0].id == id then Patched(tasks[0], p) else tasks[0]] + Updated(tasks[1..], id, p)
  }

  lemma UpdatedConcat(a: seq<Task>, b: seq<Task>, id: string, p: Patch)
    ensures Updated(a + b, id, p) == Updated(a, id, p) + Updated(b, id, p)
  {
  }

  /** `updateTask` works bucket by bucket: each bucket keeps its tasks in
      their order with their `orderIndex`, and only the matching task is
      patched. */
  lemma {:induction false} UpdateTaskBuckets(tasks: seq<Task>, id: string, p: Patch, list: string)
    ensures Members(Updated(tasks, id, p), list) == Updated(Members(tasks, list), id, p)
    decreases |tasks|
  {
    if tasks != [] {
      var head := [tasks[0]];
      assert tasks == head + tasks[1..];
      assert Updated(tasks, id, p) == Updated(head, id, p) + Updated(tasks[1..], id, p);
      UpdateTaskBuckets(tasks[1..], id, p, list);
      FilterConcat(Updated(head, id, p), Updated(tasks[1..], id, p), ListOf, list, true);
      FilterConcat(head, tasks[1..], ListOf, list, true);
      UpdatedConcat(Members(head, list), Members(tasks[1..], list), id, p);
      assert Members(Updated(head, id, p), list) == Updated(Members(head, list), id, p);
    }
  }

  /** `updateTask` keeps a densely indexed bucket dense. */
  lemma UpdateTaskIndexed(tasks: seq<Task>, id: string, p: Patch, list: string)
    requires Indexed(tasks, list)
    ensures Indexed(Updated(tasks, id, p), list)
  {
    UpdateTaskBuckets(tasks, id, p, list);
  }

  /** `updateTask` keeps every id in its place, so it keeps ids unique. */
  lemma UpdateTaskKeepsIdsUnique(tasks: seq<Task>, id: string, p: Patch)
    ensures Ids(Updated(tasks, id, p)) == Ids(tasks)
    ensures UniqueIds(tasks) ==> UniqueIds(Updated(tasks, id, p))
  {
    var r := Updated(tasks, id, p);
    assert forall i :: 0 <= i < |r| ==> r[i].id == tasks[i].id;
  }

  /** `updateTask` keeps flags in step with buckets. */
  lemma UpdateTaskClassified(tasks: seq<Task>, id: string, p: Patch)
    requires AllClassified(tasks)
    ensures AllClassified(Updated(tasks, id, p))
  {
    forall t | t in Updated(tasks, id, p)
      ensures Classified(t)
    {
      var i :| 0 <= i < |tasks| && Updated(tasks, id, p)[i] == t;
      assert tasks[i] in tasks;
    }
  }

  /** The list after `deleteTask`: every task but the matching one. */
  function Deleted(tasks: seq<Task>, id: string): (r: seq<Task>)
    ensures forall t :: t in r <==> t in tasks && t.id != id
  {
    FilterMembership(tasks, IdOf, id, false);
    Without(tasks, id)
  }

  /** `deleteTask` does not reindex: each bucket loses the deleted task and
      keeps every other task, with its `orderIndex`, in order. */
  lemma DeleteTaskBuckets(tasks: seq<Task>, id: string, list: string)
    ensures Members(Deleted(tasks, id), list) == Without(Members(tasks, list), id)
    ensures AllClassified(tasks) ==> AllClassified(Deleted(tasks, id))
  {
    FilterCommute(tasks, IdOf, id, false, ListOf, list, true);
  }

  /** With unique ids, `deleteTask` removes exactly the matching task and
      keeps the rest in order. */
  lemma DeleteTaskRemovesOne(tasks: seq<Task>, i: nat)
    requires UniqueIds(tasks) && i < |tasks|
    ensures Deleted(tasks, tasks[i].id) == tasks[..i] + tasks[i + 1..]
  {
    FilterOutUnique(tasks, IdOf, i);
  }

  /** `deleteTask` keeps ids unique. */
  lemma DeleteTaskKeepsIdsUnique(tasks: seq<Task>, id: string)
    requires UniqueIds(tasks)
    ensures UniqueIds(Deleted(tasks, id))
  {
    FilterUniqueBy(tasks, IdOf, IdOf, id, false);
  }

  /** Deleting the first of two densely indexed inbox tasks leaves a gap:
      the survivor keeps `orderIndex` 1 and the inbox is no longer densely
      indexed. */
  lemma DeleteLeavesGap(a: Task, b: Task)
    requires a.list == Inbox && b.list == Inbox && a.id != b.id
    requires a.orderIndex == 0 && b.orderIndex == 1
    ensures Indexed([a, b], Inbox)
    ensures Deleted([a, b], a.id) == [b]
    ensures !Indexed(Deleted([a, b], a.id), Inbox)
  {
    FilterAll([a, b], ListOf, Inbox, true);
    FilterOutUnique([a, b], IdOf, 0);
    assert [a, b][1..] == [b];
    FilterAll([b], ListOf, Inbox, true);
    assert Members([b], Inbox)[0].orderIndex != 0;
  }

  // ------------------------------------------------------ updateOrderIndices

  /** `taskList.map((task, index) => ({ ...task, orderIndex: listId ===
      task.list ? index : task.orderIndex }))`. */
  function UpdateOrderIndices(s: seq<Task>, listId: string): (r: seq<Task>)
    ensures |r| == |s|
    ensures forall i :: 0 <= i < |s| ==>
      r[i] == s[i].(orderIndex := if listId == s[i].list then i else s[i].orderIndex)
  {
    seq(|s|, i requires 0 <= i < |s| => s[i].(orderIndex := if listId == s[i].list then i else s[i].orderIndex))
  }

  /** Reindexing a second time changes nothing. */
  lemma UpdateOrderIndicesIdempotent(s: seq<Task>, listId: string)
    ensures UpdateOrderIndices(UpdateOrderIndices(s, listId), listId) == UpdateOrderIndices(s, listId)
  {
  }

  /** Reindexing changes `orderIndex` and nothing else: no task moves, and
      no other field changes. */
  lemma UpdateOrderIndicesOnlyIndex(s: seq<Task>, listId: string)
    ensures Map(UpdateOrderIndices(s, listId), WithoutIndex) == Map(s, WithoutIndex)
  {
  }

  /** On a list of one bucket's tasks, reindexing makes the bucket densely
      indexed in list order. */
  lemma UpdateOrderIndicesIndexes(s: seq<Task>, listId: string)
    requires forall i :: 0 <= i < |s| ==> s[i].list == listId
    ensures Indexed(UpdateOrderIndices(s, listId), listId)
  {
    FilterAll(UpdateOrderIndices(s, listId), ListOf, listId, true);
  }

  /** `list.map((t, i) => ({ ...t, orderIndex: i }))`. */
  function Reindexed(s: seq<Task>): (r: seq<Task>)
    ensures |r| == |s|
    ensures forall i :: 0 <= i < |s| ==> r[i] == s[i].(orderIndex := i)
  {
    seq(|s|, i requires 0 <= i < |s| => s[i].(orderIndex := i))
  }

  // ---------------------------------------------------------------- onDragEnd

  /** The drag passes the handler's three guards: it has a destination, both
      droppable ids are non-empty, and some task has the dragged id. */
  predicate Applies(tasks: seq<Task>, ev: DropResult): (ok: bool)
    ensures ok <==>
      && ev.destination.Some?
      && ev.destination.value.droppableId != ""
      && ev.source.droppableId != ""
      && exists t :: t in tasks && t.id == ev.draggableId
  {
    && ev.destination.Some?
    && ev.destination.value.droppableId != ""
    && ev.source.droppableId != ""
    && Find(tasks, IdOf, ev.draggableId).Some?
  }

  /** The drag crossed buckets. */
  predicate MovedToNewList(ev: DropResult)
    requires ev.destination.Some?
  {
    ev.source.droppableId != ev.destination.value.droppableId
  }

  /** The task as the handler inserts it: the dragged task, reclassified into
      the destination bucket when the drag crossed buckets. */
  function Dropped(tasks: seq<Task>, ev: DropResult): (u: Task)
    requires Applies(tasks, ev)
    ensures var found := Find(tasks, IdOf, ev.draggableId).value;
      && u.id == ev.draggableId
      && (MovedToNewList(ev) ==>
            && u.list == ev.destination.value.droppableId
            && (u.important, u.urgent) == FlagsFor(u.list)
            && u == found.(list := u.list, important := u.important, urgent := u.urgent))
      && (!MovedToNewList(ev) ==> u == found)
  {
    var found := Find(tasks, IdOf, ev.draggableId).value;
    var destId := ev.destination.value.droppableId;
    if MovedToNewList(ev) then
      found.(list := destId, important := FlagsFor(destId).0, urgent := FlagsFor(destId).1)
    else found
  }

  /** The task list after `onDragEnd`: the tasks outside the destination
      bucket, then the destination bucket with the dropped task spliced in at
      the drop index and every member reindexed by position. */
  function DragEnd(tasks: seq<Task>, ev: DropResult): (r: seq<Task>)
    ensures ev.destination.None? ==> r == tasks
    ensures ev.destination.Some? && (ev.destination.value.droppableId == "" || ev.source.droppableId == "") ==> r == tasks
    ensures (forall t :: t in tasks ==> t.id != ev.draggableId) ==> r == tasks
  {
    if !Applies(tasks, ev) then tasks
    else
      var destId := ev.destination.value.droppableId;
      var filtered := Without(tasks, ev.draggableId);
      Others(filtered, destId) + Reindexed(Splice(Members(filtered, destId), ev.destination.value.index, Dropped(tasks, ev)))
  }

  /** The sort options after `onDragEnd`: a drag that passes the guards and
      crosses buckets clears the options of both buckets; any other drag
      leaves them alone. */
  function DragSortOptions(opts: map<string, Option<string>>, tasks: seq<Task>, ev: DropResult): (r: map<string, Option<string>>)
    ensures !Applies(tasks, ev) || !MovedToNewList(ev) ==> r == opts
    ensures Applies(tasks, ev) && MovedToNewList(ev) ==>
      && r.Keys == opts.Keys + {ev.source.droppableId, ev.destination.value.droppableId}
      && r[ev.source.droppableId] == None && r[ev.destination.value.droppableId] == None
      && forall k :: k in opts && k != ev.source.droppableId && k != ev.destination.value.droppableId ==> r[k] == opts[k]
  {
    if Applies(tasks, ev) && MovedToNewList(ev) then
      opts[ev.source.droppableId := None][ev.destination.value.droppableId := None]
    else opts
  }

  /** Where a successful drag leaves things: the list holds the tasks outside
      the destination bucket, in their old order, followed by the n tasks of
      the destination bucket indexed 0..n-1; the dropped task sits at the
      drop index (clamped to the end) and the bucket's other tasks keep their
      relative order around it. */
  lemma DragEndPlaces(tasks: seq<Task>, ev: DropResult)
    requires Applies(tasks, ev)
    ensures var destId := ev.destination.value.droppableId;
      var rest := Without(tasks, ev.draggableId);
      var same := Members(rest, destId);
      var n := |same| + 1;
      var k := SplicePosition(ev.destination.value.index, |same|);
      var r := DragEnd(tasks, ev);
      var tail := r[|r| - n..];
      && |r| == |rest| + 1
      && r[..|r| - n] == Others(rest, destId)
      && (forall i :: |r| - n <= i < |r| ==> r[i].orderIndex == i - (|r| - n))
      && r[|r| - n + k] == Dropped(tasks, ev).(orderIndex := k)
      && (forall i :: 0 <= i < k ==> r[|r| - n + i] == same[i].(orderIndex := i))
      && (forall i :: k < i < n ==> tail[i] == same[i - 1].(orderIndex := i))
  {
    var destId := ev.destination.value.droppableId;
    var rest := Without(tasks, ev.draggableId);
    var same := Members(rest, destId);
    var spliced := Splice(same, ev.destination.value.index, Dropped(tasks, ev));
    var r := DragEnd(tasks, ev);
    FilterPartition(rest, ListOf, destId);
    assert r == Others(rest, destId) + Reindexed(spliced);
    assert r[|r| - |spliced|..] == Reindexed(spliced);
    SpliceAround(same, ev.destination.value.index, Dropped(tasks, ev));
  }

  /** The dropped task ends up in the destination bucket. That holds for
      every drag across buckets, and for a drag within one bucket that is the
      task's own; it fails only for a report whose source is the destination
      but not the task's bucket, which leaves the task where it was. */
  predicate LandsInDestination(tasks: seq<Task>, ev: DropResult): (ok: bool)
    ensures ok <==>
      && Applies(tasks, ev)
      && (MovedToNewList(ev) || Find(tasks, IdOf, ev.draggableId).value.list == ev.destination.value.droppableId)
  {
    Applies(tasks, ev) && Dropped(tasks, ev).list == ev.destination.value.droppableId
  }

  /** For a drag that lands in its destination: the destination bucket is
      exactly the reindexed splice and so is densely indexed; the tasks of
      every other bucket, the source bucket's included, are the old ones
      minus the dragged task, unchanged and in order, so the source bucket
      is not compacted. */
  lemma DragEndBuckets(tasks: seq<Task>, ev: DropResult)
    requires LandsInDestination(tasks, ev)
    ensures var destId := ev.destination.value.droppableId;
      var r := DragEnd(tasks, ev);
      var rest := Without(tasks, ev.draggableId);
      && Members(r, destId) == Reindexed(Splice(Members(rest, destId), ev.destination.value.index, Dropped(tasks, ev)))
      && Indexed(r, destId)
      && Others(r, destId) == Without(Others(tasks, destId), ev.draggableId)
  {
    var destId := ev.destination.value.droppableId;
    var rest := Without(tasks, ev.draggableId);
    var spliced := Splice(Members(rest, destId), ev.destination.value.index, Dropped(tasks, ev));
    FilterMembership(rest, ListOf, destId, false);
    FilterMembership(rest, ListOf, destId, true);
    SplicedIntoBucket(Members(rest, destId), ev.destination.value.index, Dropped(tasks, ev), destId);
    FilterSplit(Others(rest, destId), Reindexed(spliced), ListOf, destId);
    FilterCommute(tasks, IdOf, ev.draggableId, false, ListOf, destId, false);
  }

  /** A task of bucket `list` spliced into that bucket's tasks gives tasks of
      that bucket, which reindexing keeps there. */
  lemma SplicedIntoBucket(same: seq<Task>, index: nat, u: Task, list: string)
    requires forall i :: 0 <= i < |same| ==> same[i].list == list
    requires u.list == list
    ensures forall i :: 0 <= i < |same| + 1 ==> Reindexed(Splice(same, index, u))[i].list == list
  {
    var k := SplicePosition(index, |same|);
    var spliced := Splice(same, index, u);
    forall i | 0 <= i < |spliced|
      ensures spliced[i].list == list
    {
      if i < k {
        assert spliced[i] == same[i];
      } else if i > k {
        assert spliced[i] == spliced[k + 1..][i - k - 1];
      }
    }
  }

  /** The ids after a successful drag are the ids of the tasks the dragged
      id was filtered out of, plus the dragged id once. */
  lemma DragEndIdsShape(tasks: seq<Task>, ev: DropResult)
    requires Applies(tasks, ev)
    ensures multiset(Ids(DragEnd(tasks, ev))) == multiset(Ids(Without(tasks, ev.draggableId))) + multiset{ev.draggableId}
  {
    var destId := ev.destination.value.droppableId;
    var rest := Without(tasks, ev.draggableId);
    var u := Dropped(tasks, ev);
    var front := Others(rest, destId);
    var spliced := Splice(Members(rest, destId), ev.destination.value.index, u);
    assert Ids(DragEnd(tasks, ev)) == Map(front + spliced, IdOf) by {
      MapConcat(front, Reindexed(spliced), IdOf);
      MapConcat(front, spliced, IdOf);
      ReindexedIds(spliced);
    }
    SplitAndSplice(rest, destId, ev.destination.value.index, u);
    MapPermutation(front + spliced, rest + [u], IdOf);
    MapConcat(rest, [u], IdOf);
  }

  /** Reindexing keeps every id in its place. */
  lemma ReindexedIds(s: seq<Task>)
    ensures Map(Reindexed(s), IdOf) == Map(s, IdOf)
  {
  }

  /** Splitting a list at a bucket and splicing a task into the bucket part
      gives a permutation of the list with the task appended. */
  lemma SplitAndSplice(rest: seq<Task>, list: string, index: nat, u: Task)
    ensures multiset(Others(rest, list) + Splice(Members(rest, list), index, u)) == multiset(rest + [u])
  {
    FilterPartition(rest, ListOf, list);
    SpliceMultiset(Members(rest, list), index, u);
  }

  /** The dragged id occurs exactly once after a successful drag, and when
      ids were unique the multiset of ids is what it was. */
  lemma DragEndIds(tasks: seq<Task>, ev: DropResult)
    requires Applies(tasks, ev)
    ensures multiset(Ids(DragEnd(tasks, ev)))[ev.draggableId] == 1
    ensures UniqueIds(tasks) ==> multiset(Ids(DragEnd(tasks, ev))) == multiset(Ids(tasks))
  {
    DragEndIdsShape(tasks, ev);
    FilterOutNoKey(tasks, IdOf, ev.draggableId);
    if UniqueIds(tasks) {
      FilterOutKeys(tasks, IdOf, Find(tasks, IdOf, ev.draggableId).value);
    }
  }

  /** A drag keeps ids unique. */
  lemma DragEndKeepsIdsUnique(tasks: seq<Task>, ev: DropResult)
    requires UniqueIds(tasks)
    ensures UniqueIds(DragEnd(tasks, ev))
  {
    if Applies(tasks, ev) {
      DragEndIds(tasks, ev);
      UniqueByPermutation(tasks, DragEnd(tasks, ev), IdOf);
    }
  }

  /** A drag keeps every task's flags in step with its bucket. */
  lemma DragEndClassified(tasks: seq<Task>, ev: DropResult)
    requires AllClassified(tasks)
    ensures AllClassified(DragEnd(tasks, ev))
  {
    if Applies(tasks, ev) {
      var destId := ev.destination.value.droppableId;
      var rest := Without(tasks, ev.draggableId);
      var u := Dropped(tasks, ev);
      assert Classified(u) by {
        assert Find(tasks, IdOf, ev.draggableId).value in tasks;
      }
      FilterMembership(tasks, IdOf, ev.draggableId, false);
      FilterMembership(rest, ListOf, destId, false);
      FilterMembership(rest, ListOf, destId, true);
      SplicedClassified(Members(rest, destId), ev.destination.value.index, u);
    }
  }

  /** Splicing and reindexing classified tasks gives classified tasks. */
  lemma SplicedClassified(same: seq<Task>, index: nat, u: Task)
    requires AllClassified(same) && Classified(u)
    ensures AllClassified(Reindexed(Splice(same, index, u)))
  {
    var spliced := Splice(same, index, u);
    var k := SplicePosition(index, |same|);
    forall i | 0 <= i < |spliced|
      ensures Classified(spliced[i])
    {
      if i < k {
        assert spliced[i] == same[i];
      } else if i > k {
        assert spliced[i] == spliced[k + 1..][i - k - 1];
        assert spliced[i] == same[i - 1];
      }
    }
  }

  // ---------------------------------------------------------- the inbox view

  function ByOrderIndex(a: Task, b: Task): (r: int)
    ensures r < 0 <==> a.orderIndex < b.orderIndex
    ensures r == 0 <==> a.orderIndex == b.orderIndex
  {
    a.orderIndex - b.orderIndex
  }

  /** `tasks.filter(t => t.list === list).sort((a, b) => a.orderIndex -
      b.orderIndex)`: the order in which a bucket is displayed, and the order
      that a drop's `destination.index` counts in. The sort is stable: tasks
      with equal `orderIndex` keep their list order. */
  function View(tasks: seq<Task>, list: string): (r: seq<Task>)
    ensures multiset(r) == multiset(Members(tasks, list))
    ensures Sorting.SortedOn(r, OrderIndexOf)
    ensures forall k :: Sorting.WithKey(r, OrderIndexOf, k) == Sorting.WithKey(Members(tasks, list), OrderIndexOf, k)
  {
    var m := Members(tasks, list);
    Sorting.SortBySorted(m, ByOrderIndex, OrderIndexOf);
    Sorting.SortByStable(m, ByOrderIndex, OrderIndexOf);
    Sorting.SortBy(m, ByOrderIndex)
  }

  /** The display order is determined: the one order of the bucket's tasks
      by `orderIndex` that keeps list order among equal indices. */
  lemma ViewDetermined(tasks: seq<Task>, list: string, r: seq<Task>)
    requires Sorting.SortedOn(r, OrderIndexOf)
    requires forall k :: Sorting.WithKey(r, OrderIndexOf, k) == Sorting.WithKey(Members(tasks, list), OrderIndexOf, k)
    ensures r == View(tasks, list)
  {
    Sorting.SortByCharacterised(Members(tasks, list), ByOrderIndex, OrderIndexOf, r);
  }

  /** A bucket whose `orderIndex` never decreases along the list is displayed
      in list order; a densely indexed bucket in particular. */
  lemma ViewOfOrderedBucket(tasks: seq<Task>, list: string)
    requires var m := Members(tasks, list);
      forall i, j :: 0 <= i < |m| && j == i + 1 < |m| ==> m[i].orderIndex <= m[j].orderIndex
    ensures View(tasks, list) == Members(tasks, list)
  {
    Sorting.SortByOrdered(Members(tasks, list), ByOrderIndex);
  }

  /** After a drag that lands in its destination the destination bucket is
      displayed in list order, with the dropped task at the drop index
      clamped to the last place. */
  lemma DragEndDisplay(tasks: seq<Task>, ev: DropResult)
    requires LandsInDestination(tasks, ev)
    ensures var destId := ev.destination.value.droppableId;
      var view := View(DragEnd(tasks, ev), destId);
      var n := |Members(Without(tasks, ev.draggableId), destId)|;
      && view == Members(DragEnd(tasks, ev), destId)
      && |view| == n + 1
      && view[SplicePosition(ev.destination.value.index, n)].id == ev.draggableId
  {
    DragEndBuckets(tasks, ev);
    ViewOfOrderedBucket(DragEnd(tasks, ev), ev.destination.value.droppableId);
  }

  /** Two tasks of one bucket listed against their `orderIndex` are
      displayed the other way round. */
  lemma ViewOfSwappedPair(x: Task, y: Task, list: string)
    requires x.list == list && y.list == list && x.orderIndex > y.orderIndex
    ensures View([x, y], list) == [y, x]
  {
    FilterAll([x, y], ListOf, list, true);
    SortPairByOrderIndex(x, y);
  }

  lemma SortPairByOrderIndex(x: Task, y: Task)
    requires x.orderIndex > y.orderIndex
    ensures Sorting.SortBy([x, y], ByOrderIndex) == [y, x]
  {
    assert [x, y][..1] == [x];
    assert Sorting.SortBy([x], ByOrderIndex) == [x];
    assert Sorting.Insert([x], y, ByOrderIndex) == Sorting.Insert([], y, ByOrderIndex) + [x];
  }

  /** `addTask` numbers the new task by counting the inbox, which is only
      right while the inbox is densely indexed: after the first two of three
      tasks are deleted the new task gets `orderIndex` 1 and is displayed
      before the task that was there before it. */
  lemma NewTaskAfterDeletesDisplayedFirst(a: Task, b: Task, c: Task, id: string, title: string, now: int)
    requires a.list == Inbox && b.list == Inbox && c.list == Inbox
    requires a.id != b.id && a.id != c.id && b.id != c.id
    requires a.orderIndex == 0 && b.orderIndex == 1 && c.orderIndex == 2
    ensures Indexed([a, b, c], Inbox)
    ensures var r := WithNewTask(Deleted(Deleted([a, b, c], a.id), b.id), id, title, now);
      && r == [c, r[1]] && r[1].id == id && r[1].orderIndex == 1
      && View(r, Inbox) == [r[1], c]
  {
    DeleteFirstTwo(a, b, c);
    var d := Task(id, title, "", None, None, now, None, false, Inbox, 1);
    AddToLoneTask(c, id, title, now);
    ViewOfSwappedPair(c, d, Inbox);
    IndexedTriple(a, b, c);
  }

  /** A second `addTask` after those deletes numbers its task 2, the same as
      the survivor: the inbox shows the first new task, then the survivor and
      the second new task in list order, as the stable sort keeps them. */
  lemma SecondNewTaskTiesAfterDeletes(a: Task, b: Task, c: Task, id: string, title: string, now: int,
                                      id2: string, title2: string, now2: int)
    requires a.list == Inbox && b.list == Inbox && c.list == Inbox
    requires a.id != b.id && a.id != c.id && b.id != c.id
    requires a.orderIndex == 0 && b.orderIndex == 1 && c.orderIndex == 2
    ensures var r := WithNewTask(WithNewTask(Deleted(Deleted([a, b, c], a.id), b.id), id, title, now), id2, title2, now2);
      && |r| == 3 && r[0] == c && r[1].id == id && r[2].id == id2
      && r[1].orderIndex == 1 && r[2].orderIndex == 2
      && View(r, Inbox) == [r[1], c, r[2]]
  {
    DeleteFirstTwo(a, b, c);
    var d := Task(id, title, "", None, None, now, None, false, Inbox, 1);
    AddToLoneTask(c, id, title, now);
    FilterAll([c, d], ListOf, Inbox, true);
    var e := Task(id2, title2, "", None, None, now2, None, false, Inbox, 2);
    assert WithNewTask([c, d], id2, title2, now2) == [c, d, e];
    ViewOfTie(c, d, e, Inbox);
  }

  /** Tasks listed `x, y, z` with `y` numbered below the tie of `x` and `z`
      are displayed `y, x, z`. */
  lemma ViewOfTie(x: Task, y: Task, z: Task, list: string)
    requires x.list == list && y.list == list && z.list == list
    requires x.orderIndex == z.orderIndex && y.orderIndex < x.orderIndex
    ensures View([x, y, z], list) == [y, x, z]
  {
    FilterAll([x, y, z], ListOf, list, true);
    SortTieByOrderIndex(x, y, z);
  }

  lemma SortTieByOrderIndex(x: Task, y: Task, z: Task)
    requires x.orderIndex == z.orderIndex && y.orderIndex < x.orderIndex
    ensures Sorting.SortBy([x, y, z], ByOrderIndex) == [y, x, z]
  {
    SortPairByOrderIndex(x, y);
    Sorting.SortBySnoc([x, y], z, ByOrderIndex);
    assert [x, y] + [z] == [x, y, z];
    Sorting.InsertAfterLast([y, x], z, ByOrderIndex);
  }

  lemma IndexedTriple(a: Task, b: Task, c: Task)
    requires a.list == Inbox && b.list == Inbox && c.list == Inbox
    requires a.orderIndex == 0 && b.orderIndex == 1 && c.orderIndex == 2
    ensures Indexed([a, b, c], Inbox)
  {
    FilterAll([a, b, c], ListOf, Inbox, true);
  }

  /** With distinct ids, deleting the first two of three tasks leaves the
      third. */
  lemma DeleteFirstTwo(a: Task, b: Task, c: Task)
    requires a.id != b.id && a.id != c.id && b.id != c.id
    ensures Deleted(Deleted([a, b, c], a.id), b.id) == [c]
  {
    DeleteHead(a, [b, c]);
    DeleteHead(b, [c]);
  }

  /** Deleting the first task's id, when no later task shares it, leaves the
      later tasks. */
  lemma DeleteHead(t: Task, rest: seq<Task>)
    requires forall i :: 0 <= i < |rest| ==> rest[i].id != t.id
    ensures Deleted([t] + rest, t.id) == rest
  {
    FilterAll(rest, IdOf, t.id, false);
    assert ([t] + rest)[1..] == rest;
  }

  /** Adding to a list holding one inbox task numbers the new task 1. */
  lemma AddToLoneTask(c: Task, id: string, title: string, now: int)
    requires c.list == Inbox
    ensures WithNewTask([c], id, title, now) == [c, Task(id, title, "", None, None, now, None, false, Inbox, 1)]
  {
    FilterAll([c], ListOf, Inbox, true);
  }

  // --------------------------------------------------------- setSortOption

  /** `new Date(b.createdAt) - new Date(a.createdAt)`: the newer task goes
      first. */
  function ByCreatedNewFirst(a: Task, b: Task): (r: int)
    ensures r < 0 <==> a.createdAt > b.createdAt
    ensures r == 0 <==> a.createdAt == b.createdAt
  {
    b.createdAt - a.createdAt
  }

  /** `new Date(a.createdAt) - new Date(b.createdAt)`: the older task goes
      first. */
  function ByCreatedOldFirst(a: Task, b: Task): (r: int)
    ensures r < 0 <==> a.createdAt < b.createdAt
    ensures r == 0 <==> a.createdAt == b.createdAt
  {
    a.createdAt - b.createdAt
  }

  /** `new Date(a.dueDate || Infinity) - new Date(b.dueDate || Infinity)`: a
      missing due date is an invalid Date, the difference is NaN, and the
      sort reads NaN as 0, so a task without a due date ties with every task. */
  function ByDueSoon(a: Task, b: Task): (r: int)
    ensures a.dueDate.None? || b.dueDate.None? ==> r == 0
    ensures a.dueDate.Some? && b.dueDate.Some? ==>
      (r < 0 <==> a.dueDate.value < b.dueDate.value) && (r == 0 <==> a.dueDate.value == b.dueDate.value)
  {
    if a.dueDate.Some? && b.dueDate.Some? then a.dueDate.value - b.dueDate.value else 0
  }

  /** `new Date(b.dueDate || 0) - new Date(a.dueDate || 0)`: a missing due
      date counts as the epoch. */
  function ByDueLater(a: Task, b: Task): (r: int)
    ensures r < 0 <==> a.dueDate.GetOr(0) > b.dueDate.GetOr(0)
    ensures r == 0 <==> a.dueDate.GetOr(0) == b.dueDate.GetOr(0)
  {
    b.dueDate.GetOr(0) - a.dueDate.GetOr(0)
  }

  function NewestFirstKey(t: Task): int { -t.createdAt }
  function CreatedAtOf(t: Task): int { t.createdAt }
  function DueOrZero(t: Task): int { t.dueDate.GetOr(0) }
  function LatestDueFirstKey(t: Task): int { -t.dueDate.GetOr(0) }

  /** The `switch (option)` of `setSortOption`: the bucket's tasks in the
      chosen order; an option it does not know keeps the current order. */
  function SortedForOption(bucket: seq<Task>, option: string): (r: seq<Task>)
    ensures multiset(r) == multiset(bucket)
  {
    if option == CreatedNewFirst then Sorting.SortBy(bucket, ByCreatedNewFirst)
    else if option == CreatedOldFirst then Sorting.SortBy(bucket, ByCreatedOldFirst)
    else if option == DueSoon then Sorting.SortBy(bucket, ByDueSoon)
    else if option == DueLater then Sorting.SortBy(bucket, ByDueLater)
    else bucket
  }

  /** The task list after `setSortOption(id, option)`: the other buckets'
      tasks, then the bucket in the chosen order, renumbered. No task is lost
      or duplicated. */
  function WithSortOption(tasks: seq<Task>, id: string, option: string): (r: seq<Task>)
    ensures |r| == |tasks|
    ensures multiset(Ids(r)) == multiset(Ids(tasks))
  {
    var sorted := SortedForOption(Members(tasks, id), option);
    ReorderedBucketIds(tasks, id, sorted);
    Others(tasks, id) + UpdateOrderIndices(sorted, id)
  }

  /** Putting a permutation of a bucket's tasks after the other buckets and
      renumbering it keeps the length and the ids. */
  lemma ReorderedBucketIds(tasks: seq<Task>, id: string, sorted: seq<Task>)
    requires multiset(sorted) == multiset(Members(tasks, id))
    ensures var r := Others(tasks, id) + UpdateOrderIndices(sorted, id);
      |r| == |tasks| && multiset(Ids(r)) == multiset(Ids(tasks))
  {
    var others := Others(tasks, id);
    FilterPartition(tasks, ListOf, id);
    assert |sorted| == |Members(tasks, id)| by {
      assert |multiset(sorted)| == |multiset(Members(tasks, id))|;
    }
    assert Ids(UpdateOrderIndices(sorted, id)) == Ids(sorted);
    MapConcat(others, UpdateOrderIndices(sorted, id), IdOf);
    MapConcat(others, sorted, IdOf);
    MapPermutation(others + sorted, tasks, IdOf);
  }

  /** Choosing a sort option keeps ids unique. */
  lemma SortOptionKeepsIdsUnique(tasks: seq<Task>, id: string, option: string)
    requires UniqueIds(tasks)
    ensures UniqueIds(WithSortOption(tasks, id, option))
  {
    UniqueByPermutation(tasks, WithSortOption(tasks, id, option), IdOf);
  }

  /** The bucket after a sort is the sorted list, reindexed by position; the
      other buckets are as they were. */
  lemma SortOptionBuckets(tasks: seq<Task>, id: string, option: string)
    ensures var r := WithSortOption(tasks, id, option);
      && Members(r, id) == Reindexed(SortedForOption(Members(tasks, id), option))
      && Others(r, id) == Others(tasks, id)
      && |r| == |tasks|
  {
    var sorted := SortedForOption(Members(tasks, id), option);
    FilterMembership(tasks, ListOf, id, false);
    SortedStaysInBucket(tasks, id, option);
    assert UpdateOrderIndices(sorted, id) == Reindexed(sorted);
    FilterSplit(Others(tasks, id), Reindexed(sorted), ListOf, id);
    FilterPartition(tasks, ListOf, id);
  }

  /** Sorting a bucket's tasks keeps them in the bucket. */
  lemma SortedStaysInBucket(tasks: seq<Task>, id: string, option: string)
    ensures var sorted := SortedForOption(Members(tasks, id), option);
      forall i :: 0 <= i < |sorted| ==> sorted[i].list == id && sorted[i] in tasks
  {
    var sorted := SortedForOption(Members(tasks, id), option);
    FilterMembership(tasks, ListOf, id, true);
    forall i | 0 <= i < |sorted|
      ensures sorted[i] in Members(tasks, id)
    {
      assert sorted[i] in multiset(Members(tasks, id));
    }
  }

  /** Choosing a sort option permutes the bucket's tasks, commits the new
      order to `orderIndex` (the bucket is densely indexed and displayed in
      that order afterwards) and leaves the other buckets alone. */
  lemma SortOptionPermutes(tasks: seq<Task>, id: string, option: string)
    ensures var r := WithSortOption(tasks, id, option);
      && multiset(Map(Members(r, id), WithoutIndex)) == multiset(Map(Members(tasks, id), WithoutIndex))
      && Indexed(r, id)
      && View(r, id) == Members(r, id)
      && Others(r, id) == Others(tasks, id)
  {
    var r := WithSortOption(tasks, id, option);
    var sorted := SortedForOption(Members(tasks, id), option);
    SortOptionBuckets(tasks, id, option);
    ReindexedWithoutIndex(sorted);
    MapPermutation(sorted, Members(tasks, id), WithoutIndex);
    ViewOfOrderedBucket(r, id);
  }

  /** Reindexing changes nothing but `orderIndex`. */
  lemma ReindexedWithoutIndex(s: seq<Task>)
    ensures Map(Reindexed(s), WithoutIndex) == Map(s, WithoutIndex)
  {
  }

  /** Choosing a sort option keeps flags in step with buckets. */
  lemma SortOptionClassified(tasks: seq<Task>, id: string, option: string)
    requires AllClassified(tasks)
    ensures AllClassified(WithSortOption(tasks, id, option))
  {
    var sorted := SortedForOption(Members(tasks, id), option);
    FilterMembership(tasks, ListOf, id, false);
    SortedStaysInBucket(tasks, id, option);
    assert UpdateOrderIndices(sorted, id) == Reindexed(sorted);
    assert AllClassified(Reindexed(sorted)) by {
      forall t | t in Reindexed(sorted)
        ensures Classified(t)
      {
        var i :| 0 <= i < |sorted| && Reindexed(sorted)[i] == t;
        assert Classified(sorted[i]);
      }
    }
  }

  /** The orders the options promise: newest or oldest creation first, due
      dates descending with a missing date as the epoch, and due dates
      ascending when every task of the bucket has one. */
  lemma SortOptionOrders(tasks: seq<Task>, id: string, option: string)
    ensures var m := Members(WithSortOption(tasks, id, option), id);
      && (option == CreatedNewFirst ==> forall i, j :: 0 <= i < j < |m| ==> m[i].createdAt >= m[j].createdAt)
      && (option == CreatedOldFirst ==> forall i, j :: 0 <= i < j < |m| ==> m[i].createdAt <= m[j].createdAt)
      && (option == DueLater ==> forall i, j :: 0 <= i < j < |m| ==> m[i].dueDate.GetOr(0) >= m[j].dueDate.GetOr(0))
  {
    var bucket := Members(tasks, id);
    SortOptionBuckets(tasks, id, option);
    if option == CreatedNewFirst {
      Sorting.SortBySorted(bucket, ByCreatedNewFirst, NewestFirstKey);
    } else if option == CreatedOldFirst {
      Sorting.SortBySorted(bucket, ByCreatedOldFirst, CreatedAtOf);
    } else if option == DueLater {
      Sorting.SortBySorted(bucket, ByDueLater, LatestDueFirstKey);
    }
  }

  /** `dueSoon` orders a bucket whose tasks all have a due date by ascending
      due date. */
  lemma SortOptionDueSoonDated(tasks: seq<Task>, id: string)
    requires forall t :: t in Members(tasks, id) ==> t.dueDate.Some?
    ensures var m := Members(WithSortOption(tasks, id, DueSoon), id);
      forall i, j :: 0 <= i < j < |m| ==> m[i].dueDate.Some? && m[j].dueDate.Some? && m[i].dueDate.value <= m[j].dueDate.value
  {
    var bucket := Members(tasks, id);
    var sorted := Sorting.SortBy(bucket, ByDueSoon);
    SortOptionBuckets(tasks, id, DueSoon);
    Sorting.SortBySorted(bucket, ByDueSoon, DueOrZero);
    forall i | 0 <= i < |sorted|
      ensures sorted[i].dueDate.Some?
    {
      assert sorted[i] in multiset(bucket);
    }
  }

  /** `dueSoon` keeps a bucket where no task has a due date in its order:
      every comparison is `NaN`. */
  lemma SortOptionDueSoonUndated(tasks: seq<Task>, id: string)
    requires forall t :: t in Members(tasks, id) ==> t.dueDate.None?
    ensures Map(Members(WithSortOption(tasks, id, DueSoon), id), WithoutIndex) == Map(Members(tasks, id), WithoutIndex)
  {
    var bucket := Members(tasks, id);
    SortOptionBuckets(tasks, id, DueSoon);
    Sorting.SortByOrdered(bucket, ByDueSoon);
    ReindexedWithoutIndex(bucket);
  }

  /** An option the switch does not know keeps the bucket's order and only
      commits it to `orderIndex`. */
  lemma SortOptionUnknown(tasks: seq<Task>, id: string, option: string)
    requires option != CreatedNewFirst && option != CreatedOldFirst && option != DueSoon && option != DueLater
    ensures var m := Members(WithSortOption(tasks, id, option), id);
      Map(m, WithoutIndex) == Map(Members(tasks, id), WithoutIndex)
  {
    SortOptionBuckets(tasks, id, option);
    var bucket := Members(tasks, id);
    assert Map(Reindexed(bucket), WithoutIndex) == Map(bucket, WithoutIndex);
  }

  // ------------------------------------------------------- the sort options

  /** `{ ...sortOptions, [id]: option }`: the options with bucket `id` set to
      `option` and every other entry kept. */
  function WithOption(opts: map<string, Option<string>>, id: string, option: string): (r: map<string, Option<string>>)
    ensures r.Keys == opts.Keys + {id}
    ensures r[id] == Some(option)
    ensures forall k :: k in opts && k != id ==> r[k] == opts[k]
  {
    opts[id := Some(option)]
  }

  /** What `sortOptionsRef.current` holds: the options object last handed to
      `setSortOptions`, or the updater function that `onDragEnd` hands it
      after a drag across buckets. */
  datatype OptionsRef = OptionsObject(opts: map<string, Option<string>>) | ClearUpdater(sourceId: string, destId: string)

  /** The ref after `onDragEnd`: only a drag across buckets calls
      `setSortOptions`, and it passes the updater. */
  function RefAfterDrag(ref: OptionsRef, tasks: seq<Task>, ev: DropResult): (r: OptionsRef)
    ensures !Applies(tasks, ev) || !MovedToNewList(ev) ==> r == ref
    ensures Applies(tasks, ev) && MovedToNewList(ev) ==> r.ClearUpdater?
  {
    if Applies(tasks, ev) && MovedToNewList(ev) then
      ClearUpdater(ev.source.droppableId, ev.destination.value.droppableId)
    else ref
  }

  /** `{ ...sortOptionsRef.current, [id]: option }` as written: spreading a
      function copies none of its properties, so when the ref holds the
      updater the result has the one entry `id`. */
  function SortOptionsAsWritten(ref: OptionsRef, id: string, option: string): (r: map<string, Option<string>>)
    ensures ref.OptionsObject? ==> r == WithOption(ref.opts, id, option)
    ensures ref.ClearUpdater? ==> r.Keys == {id} && r[id] == Some(option)
  {
    match ref
    case OptionsObject(opts) => opts[id := Some(option)]
    case ClearUpdater(_, _) => map[id := Some(option)]
  }

  /** After a drag across buckets, choosing an option in bucket `id` as
      written drops the option of every third bucket `k`, while the update
      the handler evidently intends keeps it. */
  lemma DragThenSortForgetsOptions(opts: map<string, Option<string>>, tasks: seq<Task>, ev: DropResult, id: string, option: string, k: string)
    requires Applies(tasks, ev) && MovedToNewList(ev)
    requires k in opts && k != id && k != ev.source.droppableId && k != ev.destination.value.droppableId
    ensures k !in SortOptionsAsWritten(RefAfterDrag(OptionsObject(opts), tasks, ev), id, option)
    ensures var intended := WithOption(DragSortOptions(opts, tasks, ev), id, option);
      k in intended && intended[k] == opts[k]
  {
  }

  // ---------------------------------------------------------------- the state

  function InitialSortOptions(): map<string, Option<string>> {
    map[IN := None, IU := None, NU := None, NN := None]
  }

  /** The state of the board: the tasks and the sort option last chosen per
      quadrant. */
  class Board {
    var tasks: seq<Task>
    var sortOptions: map<string, Option<string>>

    /** Every task's flags agree with its bucket, and no two tasks share an
        id. */
    ghost predicate Valid()
      reads this
    {
      AllClassified(tasks) && UniqueIds(tasks)
    }

    constructor ()
      ensures Valid()
      ensures tasks == [] && sortOptions == InitialSortOptions()
    {
      tasks := [];
      sortOptions := InitialSortOptions();
    }

    /** `addTask`: `id` is the fresh uuid, `title` the translated placeholder
        and `now` the clock. */
    method AddTask(id: string, title: string, now: int)
      requires Valid() && id !in Ids(tasks)
      modifies this
      ensures Valid()
      ensures tasks == WithNewTask(old(tasks), id, title, now)
      ensures sortOptions == old(sortOptions)
    {
      AddTaskBuckets(tasks, id, title, now, Inbox);
      AddTaskKeepsIdsUnique(tasks, id, title, now);
      var newTask := Task(id, title, "", None, None, now, None, false, Inbox, |Members(tasks, Inbox)|);
      tasks := tasks + [newTask];
    }

    method UpdateTask(id: string, p: Patch)
      requires Valid()
      modifies this
      ensures Valid()
      ensures tasks == Updated(old(tasks), id, p)
      ensures sortOptions == old(sortOptions)
    {
      UpdateTaskClassified(tasks, id, p);
      UpdateTaskKeepsIdsUnique(tasks, id, p);
      tasks := Updated(tasks, id, p);
    }

    method DeleteTask(id: string)
      requires Valid()
      modifies this
      ensures Valid()
      ensures tasks == Deleted(old(tasks), id)
      ensures sortOptions == old(sortOptions)
    {
      DeleteTaskBuckets(tasks, id, Inbox);
      DeleteTaskKeepsIdsUnique(tasks, id);
      tasks := Without(tasks, id);
    }

    /** `onDragEnd`, guard by guard. */
    method OnDragEnd(ev: DropResult)
      requires Valid()
      modifies this
      ensures Valid()
      ensures tasks == DragEnd(old(tasks), ev)
      ensures sortOptions == DragSortOptions(old(sortOptions), old(tasks), ev)
    {
      if ev.destination.None? {
        return;
      }
      var destId := ev.destination.value.droppableId;
      var sourceId := ev.source.droppableId;
      if destId == "" || sourceId == "" {
        return;
      }
      var draggedTask := Find(tasks, IdOf, ev.draggableId);
      if draggedTask.None? {
        return;
      }
      var filteredTasks := Without(tasks, ev.draggableId);
      var sameListTasks := Members(filteredTasks, destId);
      var otherTasks := Others(filteredTasks, destId);
      var updatedTask := draggedTask.value;
      var movedToNewList := sourceId != destId;
      if movedToNewList {
        updatedTask := updatedTask.(list := destId, important := FlagsFor(destId).0, urgent := FlagsFor(destId).1);
      }
      sameListTasks := Splice(sameListTasks, ev.destination.value.index, updatedTask);
      var reindexed := Reindexed(sameListTasks);
      DragEndClassified(tasks, ev);
      DragEndKeepsIdsUnique(tasks, ev);
      tasks := otherTasks + reindexed;
      if movedToNewList {
        sortOptions := sortOptions[sourceId := None][destId := None];
      }
    }

    /** The `setSortOption` closure that `renderQuadrant(id)` hands to the
        quadrant. */
    method SetSortOption(id: string, option: string)
      requires Valid()
      modifies this
      ensures Valid()
      ensures tasks == WithSortOption(old(tasks), id, option)
      ensures sortOptions == WithOption(old(sortOptions), id, option)
    {
      SortOptionClassified(tasks, id, option);
      SortOptionKeepsIdsUnique(tasks, id, option);
      var quadrantTasks := Members(tasks, id);
      var sorted := SortedForOption(quadrantTasks, option);
      var updated := UpdateOrderIndices(sorted, id);
      tasks := Others(tasks, id) + updated;
      sortOptions := WithOption(sortOptions, id, option);
    }
  }
}

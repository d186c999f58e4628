/** The earlier iteration of the board (src/App.jsx).

    The state is the list of tasks and a per-bucket flag that the sort button
    toggles. A task's bucket is its `list` field. Tasks carry no place within
    their bucket: a bucket is displayed in list order (see module
    `Quadrant`), so a drag and the sort button reorder the list itself. A
    drag always rewrites the task's flags and stamps the time it entered a
    quadrant. */
module App {
  import opened Common
  import opened Seqs
  import Sorting

  /** A task record. Timestamps are milliseconds since the epoch.
      `manualOrderIndex` is the field the quadrant display sorts by; this
      iteration never sets it, so it is `None` on every task it creates. */
  datatype Task = Task(
    id: string,
    title: string,
    description: string,
    important: bool,
    urgent: bool,
    createdAt: int,
    dueDate: Option<int>,
    completed: bool,
    list: string,
    movedToQuadrantAt: Option<int>,
    manualOrderIndex: Option<int>)

  function IdOf(t: Task): string { t.id }
  function ListOf(t: Task): string { t.list }

  /** `movedToQuadrantAt` as `new Date(...)` reads it: `null` is the epoch. */
  function MovedAt(t: Task): int { t.movedToQuadrantAt.GetOr(0) }

  /** `tasks.filter(t => t.list === list)`. */
  function Members(tasks: seq<Task>, list: string): seq<Task> {
    Filter(tasks, ListOf, list, true)
  }

  /** `tasks.filter(t => t.list !== list)`. */
  function Others(tasks: seq<Task>, list: string): seq<Task> {
    Filter(tasks, ListOf, list, false)
  }

  /** `tasks.filter(t => t.id !== id)`. */
  function Without(tasks: seq<Task>, id: string): seq<Task> {
    Filter(tasks, IdOf, id, false)
  }

  function Ids(tasks: seq<Task>): seq<string> {
    Map(tasks, IdOf)
  }

  /** No two tasks share an id, as fresh uuids guarantee. */
  ghost predicate UniqueIds(tasks: seq<Task>) {
    UniqueBy(tasks, IdOf)
  }

  /** A task's flags and quadrant time agree with its bucket: important
      exactly in IU and IN, urgent exactly in IU and NU, and a quadrant time
      exactly outside the inbox. */
  ghost predicate Classified(t: Task) {
    && t.important == (t.list == IU || t.list == IN)
    && t.urgent == (t.list == IU || t.list == NU)
    && (t.movedToQuadrantAt.None? <==> t.list == Inbox)
  }

  /** What every task this iteration creates or changes satisfies. */
  ghost predicate WellFormed(tasks: seq<Task>) {
    forall t :: t in tasks ==> Classified(t) && t.manualOrderIndex.None?
  }

  // ---------------------------------------------------------------- addTask

  /** The list after `addTask`: a fresh inbox task at the end. */
  function WithNewTask(tasks: seq<Task>, id: string, now: int): (r: seq<Task>)
    ensures |r| == |tasks| + 1 && r[..|tasks|] == tasks
    ensures var t := r[|tasks|];
      && t.id == id && t.title == "New Task" && t.description == ""
      && t.list == Inbox && !t.important && !t.urgent
      && t.createdAt == now && t.dueDate == None && !t.completed
      && t.movedToQuadrantAt == None && t.manualOrderIndex == None
  {
    tasks + [Task(id, "New Task", "", false, false, now, None, false, Inbox, None, None)]
  }

  /** `addTask` keeps every task well formed. */
  lemma AddTaskWellFormed(tasks: seq<Task>, id: string, now: int)
    requires WellFormed(tasks)
    ensures WellFormed(WithNewTask(tasks, id, now))
  {
    var r := WithNewTask(tasks, id, now);
    assert r == tasks + [r[|tasks|]];
  }

  /** `addTask` with a fresh uuid keeps ids unique. */
  lemma AddTaskKeepsIdsUnique(tasks: seq<Task>, id: string, now: int)
    requires UniqueIds(tasks) && id !in Ids(tasks)
    ensures UniqueIds(WithNewTask(tasks, id, now))
  {
    var r := WithNewTask(tasks, id, now);
    assert r == tasks + [r[|tasks|]];
    UniqueByAppend(tasks, r[|tasks|], IdOf);
  }

  // ------------------------------------------------ updateTask, deleteTask

  /** `{ ...task, ...patch }` for the fields the editor sends. */
  function Patched(t: Task, p: Patch): (r: Task)
    ensures r.id == t.id && r.list == t.list && r.createdAt == t.createdAt
    ensures r.important == t.important && r.urgent == t.urgent
    ensures r.movedToQuadrantAt == t.movedToQuadrantAt && r.manualOrderIndex == t.manualOrderIndex
    ensures p.title.Some? ==> r.title == p.title.value
    ensures p.title.None? ==> r.title == t.title
    ensures p.description.Some? ==> r.description == p.description.value
    ensures p.description.None? ==> r.description == t.description
    ensures p.dueDate.Some? ==> r.dueDate == p.dueDate.value
    ensures p.dueDate.None? ==> r.dueDate == t.dueDate
    ensures p.completed.Some? ==> r.completed == p.completed.value
    ensures p.completed.None? ==> r.completed == t.completed
  {
    t.(title := p.title.GetOr(t.title),
       description := p.description.GetOr(t.description),
       dueDate := p.dueDate.GetOr(t.dueDate),
       completed := p.completed.GetOr(t.completed))
  }

  /** `prev.map(task => task.id === id ? { ...task, ...patch } : task)`. */
  function Updated(tasks: seq<Task>, id: string, p: Patch): (r: seq<Task>)
    ensures |r| == |tasks|
    ensures forall i :: 0 <= i < |tasks| ==> r[i] == if tasks[i].id == id then Patched(tasks[i], p) else tasks[i]
  {
    seq(|tasks|, i requires 0 <= i < |tasks| => if tasks[i].id == id then Patched(tasks[i], p) else tasks[i])
  }

  /** `updateTask` keeps every task well formed and every task's bucket. */
  lemma UpdateTaskWellFormed(tasks: seq<Task>, id: string, p: Patch)
    ensures Map(Updated(tasks, id, p), ListOf) == Map(tasks, ListOf)
    ensures Ids(Updated(tasks, id, p)) == Ids(tasks)
    ensures WellFormed(tasks) ==> WellFormed(Updated(tasks, id, p))
  {
    if WellFormed(tasks) {
      forall t | t in Updated(tasks, id, p)
        ensures Classified(t) && t.manualOrderIndex.None?
      {
        var i :| 0 <= i < |tasks| && Updated(tasks, id, p)[i] == t;
        assert tasks[i] in tasks;
      }
    }
  }

  /** The list after `deleteTask`: every task but the matching one, in
      order. */
  function Deleted(tasks: seq<Task>, id: string): (r: seq<Task>)
    ensures forall t :: t in r <==> t in tasks && t.id != id
  {
    FilterMembership(tasks, IdOf, id, false);
    Without(tasks, id)
  }

  /** With unique ids, `deleteTask` removes exactly the matching task and
      keeps the rest in order. */
  lemma DeleteTaskRemovesOne(tasks: seq<Task>, i: nat)
    requires UniqueIds(tasks) && i < |tasks|
    ensures Deleted(tasks, tasks[i].id) == tasks[..i] + tasks[i + 1..]
  {
    FilterOutUnique(tasks, IdOf, i);
  }

  /** `deleteTask` keeps ids unique. */
  lemma DeleteTaskKeepsIdsUnique(tasks: seq<Task>, id: string)
    requires UniqueIds(tasks)
    ensures UniqueIds(Deleted(tasks, id))
  {
    FilterUniqueBy(tasks, IdOf, IdOf, id, false);
  }

  // ---------------------------------------------------------------- onDragEnd

  /** The dragged task as the handler re-creates it for bucket `destId`. */
  function Reclassified(t: Task, destId: string, now: int): (r: Task)
    ensures r.list == destId && Classified(r)
    ensures destId == Inbox ==> !r.important && !r.urgent && r.movedToQuadrantAt == None
    ensures destId == IU ==> r.important && r.urgent && r.movedToQuadrantAt == Some(now)
    ensures destId == IN ==> r.important && !r.urgent && r.movedToQuadrantAt == Some(now)
    ensures destId == NU ==> !r.important && r.urgent && r.movedToQuadrantAt == Some(now)
    ensures destId == NN ==> !r.important && !r.urgent && r.movedToQuadrantAt == Some(now)
    ensures r == t.(list := destId, important := r.important, urgent := r.urgent, movedToQuadrantAt := r.movedToQuadrantAt)
  {
    t.(list := destId,
       important := destId == IU || destId == IN,
       urgent := destId == IU || destId == NU,
       movedToQuadrantAt := if destId == Inbox then None else Some(now))
  }

  /** The drag passes the handler's two guards: it has a destination and
      some task has the dragged id. */
  predicate Applies(tasks: seq<Task>, ev: DropResult): (ok: bool)
    ensures ok <==> ev.destination.Some? && exists t :: t in tasks && t.id == ev.draggableId
  {
    ev.destination.Some? && Find(tasks, IdOf, ev.draggableId).Some?
  }

  /** The task as the handler inserts it. */
  function Dropped(tasks: seq<Task>, ev: DropResult, now: int): (u: Task)
    requires Applies(tasks, ev)
    ensures var found := Find(tasks, IdOf, ev.draggableId).value;
      && u.id == ev.draggableId && found in tasks
      && u.list == ev.destination.value.droppableId && Classified(u)
      && u == found.(list := u.list, important := u.important, urgent := u.urgent, movedToQuadrantAt := u.movedToQuadrantAt)
  {
    Reclassified(Find(tasks, IdOf, ev.draggableId).value, ev.destination.value.droppableId, now)
  }

  /** The task list after `onDragEnd` at time `now`: the tasks outside the
      destination bucket, then the destination bucket with the re-created
      task spliced in at the drop index. */
  function DragEnd(tasks: seq<Task>, ev: DropResult, now: int): (r: seq<Task>)
    ensures ev.destination.None? ==> r == tasks
    ensures (forall t :: t in tasks ==> t.id != ev.draggableId) ==> r == tasks
  {
    if !Applies(tasks, ev) then tasks
    else
      var destId := ev.destination.value.droppableId;
      var filtered := Without(tasks, ev.draggableId);
      Others(filtered, destId) + Splice(Members(filtered, destId), ev.destination.value.index, Dropped(tasks, ev, now))
  }

  /** Where a successful drag leaves things: the tasks outside the
      destination bucket in their old order, then the destination bucket
      with the dragged task at the drop index (clamped to the end) and the
      bucket's other tasks in their old order around it. With unique ids
      the number of tasks is unchanged. */
  lemma DragEndPlaces(tasks: seq<Task>, ev: DropResult, now: int)
    requires Applies(tasks, ev)
    ensures var destId := ev.destination.value.droppableId;
      var rest := Without(tasks, ev.draggableId);
      var same := Members(rest, destId);
      var front := Others(rest, destId);
      var k := SplicePosition(ev.destination.value.index, |same|);
      var r := DragEnd(tasks, ev, now);
      && |r| == |rest| + 1
      && r[..|front|] == front
      && r[|front| + k] == Dropped(tasks, ev, now)
      && r[|front|..|front| + k] == same[..k]
      && r[|front| + k + 1..] == same[k..]
  {
    var destId := ev.destination.value.droppableId;
    var rest := Without(tasks, ev.draggableId);
    var front := Others(rest, destId);
    var r := DragEnd(tasks, ev, now);
    var spliced := Splice(Members(rest, destId), ev.destination.value.index, Dropped(tasks, ev, now));
    FilterPartition(rest, ListOf, destId);
    assert r[|front|..] == spliced;
  }

  /** With unique ids a drag keeps the number of tasks. */
  lemma DragEndKeepsCount(tasks: seq<Task>, ev: DropResult, now: int)
    requires Applies(tasks, ev) && UniqueIds(tasks)
    ensures |DragEnd(tasks, ev, now)| == |tasks|
  {
    var dragged := Find(tasks, IdOf, ev.draggableId).value;
    var i :| 0 <= i < |tasks| && tasks[i] == dragged;
    FilterOutUnique(tasks, IdOf, i);
    DragEndPlaces(tasks, ev, now);
  }

  /** After a successful drag the destination bucket is the splice and the
      other buckets, the source bucket's included, are the old ones minus the
      dragged task, unchanged and in order. */
  lemma DragEndBuckets(tasks: seq<Task>, ev: DropResult, now: int)
    requires Applies(tasks, ev)
    ensures var destId := ev.destination.value.droppableId;
      var r := DragEnd(tasks, ev, now);
      && Members(r, destId) == Splice(Members(Without(tasks, ev.draggableId), destId), ev.destination.value.index, Dropped(tasks, ev, now))
      && Others(r, destId) == Without(Others(tasks, destId), ev.draggableId)
  {
    var destId := ev.destination.value.droppableId;
    var rest := Without(tasks, ev.draggableId);
    FilterMembership(rest, ListOf, destId, false);
    FilterMembership(rest, ListOf, destId, true);
    SplicedIntoBucket(Members(rest, destId), ev.destination.value.index, Dropped(tasks, ev, now), destId);
    FilterSplit(Others(rest, destId), Splice(Members(rest, destId), ev.destination.value.index, Dropped(tasks, ev, now)), ListOf, destId);
    FilterCommute(tasks, IdOf, ev.draggableId, false, ListOf, destId, false);
  }

  /** A task of bucket `list` spliced into that bucket's tasks gives tasks of
      that bucket. */
  lemma SplicedIntoBucket(same: seq<Task>, index: nat, u: Task, list: string)
    requires forall i :: 0 <= i < |same| ==> same[i].list == list
    requires u.list == list
    ensures forall i :: 0 <= i < |same| + 1 ==> Splice(same, index, u)[i].list == list
  {
    var k := SplicePosition(index, |same|);
    var spliced := Splice(same, index, u);
    forall i | 0 <= i < |spliced|
      ensures spliced[i].list == list
    {
      if i < k {
        assert spliced[i] == same[i];
      } else if i > k {
        assert spliced[i] == spliced[k + 1..][i - k - 1];
      }
    }
  }

  /** The dragged id occurs exactly once after a successful drag, and when
      ids were unique the multiset of ids is what it was. */
  lemma DragEndIds(tasks: seq<Task>, ev: DropResult, now: int)
    requires Applies(tasks, ev)
    ensures multiset(Ids(DragEnd(tasks, ev, now)))[ev.draggableId] == 1
    ensures UniqueIds(tasks) ==> multiset(Ids(DragEnd(tasks, ev, now))) == multiset(Ids(tasks))
  {
    DragEndIdsShape(tasks, ev, now);
    FilterOutNoKey(tasks, IdOf, ev.draggableId);
    if UniqueIds(tasks) {
      FilterOutKeys(tasks, IdOf, Find(tasks, IdOf, ev.draggableId).value);
    }
  }

  /** A drag keeps ids unique. */
  lemma DragEndKeepsIdsUnique(tasks: seq<Task>, ev: DropResult, now: int)
    requires UniqueIds(tasks)
    ensures UniqueIds(DragEnd(tasks, ev, now))
  {
    if Applies(tasks, ev) {
      DragEndIds(tasks, ev, now);
      UniqueByPermutation(tasks, DragEnd(tasks, ev, now), IdOf);
    }
  }

  /** The ids after a successful drag are the ids of the tasks the dragged
      id was filtered out of, plus the dragged id once. */
  lemma DragEndIdsShape(tasks: seq<Task>, ev: DropResult, now: int)
    requires Applies(tasks, ev)
    ensures multiset(Ids(DragEnd(tasks, ev, now))) == multiset(Ids(Without(tasks, ev.draggableId))) + multiset{ev.draggableId}
  {
    var rest := Without(tasks, ev.draggableId);
    var u := Dropped(tasks, ev, now);
    var destId := ev.destination.value.droppableId;
    var front := Others(rest, destId);
    var spliced := Splice(Members(rest, destId), ev.destination.value.index, u);
    MapConcat(front, spliced, IdOf);
    SplitAndSplice(rest, destId, ev.destination.value.index, u);
    MapPermutation(front + spliced, rest + [u], IdOf);
    MapConcat(rest, [u], IdOf);
  }

  /** Splitting a list at a bucket and splicing a task into the bucket part
      gives a permutation of the list with the task appended. */
  lemma SplitAndSplice(rest: seq<Task>, list: string, index: nat, u: Task)
    ensures multiset(Others(rest, list) + Splice(Members(rest, list), index, u)) == multiset(rest + [u])
  {
    FilterPartition(rest, ListOf, list);
    SpliceMultiset(Members(rest, list), index, u);
  }

  /** A drag keeps every task well formed. */
  lemma DragEndWellFormed(tasks: seq<Task>, ev: DropResult, now: int)
    requires WellFormed(tasks)
    ensures WellFormed(DragEnd(tasks, ev, now))
  {
    if Applies(tasks, ev) {
      var destId := ev.destination.value.droppableId;
      var rest := Without(tasks, ev.draggableId);
      var u := Dropped(tasks, ev, now);
      assert u.manualOrderIndex.None? by {
        assert Find(tasks, IdOf, ev.draggableId).value in tasks;
      }
      var spliced := Splice(Members(rest, destId), ev.destination.value.index, u);
      FilterMembership(tasks, IdOf, ev.draggableId, false);
      FilterMembership(rest, ListOf, destId, false);
      FilterMembership(rest, ListOf, destId, true);
      SpliceMultiset(Members(rest, destId), ev.destination.value.index, u);
      forall t | t in spliced
        ensures Classified(t) && t.manualOrderIndex.None?
      {
        assert t in multiset(spliced);
      }
    }
  }

  // ------------------------------------------------- handleSortByQuadrantTime

  /** `new Date(b.movedToQuadrantAt) - new Date(a.movedToQuadrantAt)`: most
      recently moved first, a task never moved counting as the epoch. */
  function ByMovedDesc(a: Task, b: Task): (r: int)
    ensures r < 0 <==> MovedAt(a) > MovedAt(b)
    ensures r == 0 <==> MovedAt(a) == MovedAt(b)
  {
    MovedAt(b) - MovedAt(a)
  }

  function NegMovedAt(t: Task): int { -MovedAt(t) }

  /** The task list after the sort button of bucket `listId`: the other
      buckets' tasks, then the bucket sorted by quadrant time. */
  function SortByQuadrantTime(tasks: seq<Task>, listId: string): (r: seq<Task>)
    ensures multiset(r) == multiset(tasks)
  {
    FilterPartition(tasks, ListOf, listId);
    Others(tasks, listId) + Sorting.SortBy(Members(tasks, listId), ByMovedDesc)
  }

  /** The sort button puts the other buckets' tasks first, unchanged and in
      order, then the bucket's own tasks in non-increasing quadrant time;
      each bucket keeps its members. */
  lemma SortByQuadrantTimeOrders(tasks: seq<Task>, listId: string)
    ensures var r := SortByQuadrantTime(tasks, listId);
      var n := |Others(tasks, listId)|;
      && r[..n] == Others(tasks, listId)
      && (forall i, j :: n <= i < j < |r| ==> MovedAt(r[i]) >= MovedAt(r[j]))
      && Members(r, listId) == r[n..]
      && Others(r, listId) == Others(tasks, listId)
  {
    var front := Others(tasks, listId);
    var sorted := Sorting.SortBy(Members(tasks, listId), ByMovedDesc);
    Sorting.SortBySorted(Members(tasks, listId), ByMovedDesc, NegMovedAt);
    FilterMembership(tasks, ListOf, listId, false);
    FilterMembership(tasks, ListOf, listId, true);
    forall i | 0 <= i < |sorted|
      ensures sorted[i].list == listId
    {
      assert sorted[i] in multiset(Members(tasks, listId));
    }
    FilterSplit(front, sorted, ListOf, listId);
    assert SortByQuadrantTime(tasks, listId)[|front|..] == sorted;
  }

  /** The sort button keeps ids unique. */
  lemma SortByQuadrantTimeKeepsIdsUnique(tasks: seq<Task>, listId: string)
    requires UniqueIds(tasks)
    ensures UniqueIds(SortByQuadrantTime(tasks, listId))
  {
    MapPermutation(tasks, SortByQuadrantTime(tasks, listId), IdOf);
    UniqueByPermutation(tasks, SortByQuadrantTime(tasks, listId), IdOf);
  }

  /** The sort button keeps every task well formed. */
  lemma SortByQuadrantTimeWellFormed(tasks: seq<Task>, listId: string)
    requires WellFormed(tasks)
    ensures WellFormed(SortByQuadrantTime(tasks, listId))
  {
    forall t | t in SortByQuadrantTime(tasks, listId)
      ensures Classified(t) && t.manualOrderIndex.None?
    {
      assert t in multiset(tasks);
    }
  }

  /** `{ ...prev, [listId]: !prev[listId] }`, a missing key reading as
      `false`. */
  function ToggledSortState(states: map<string, bool>, listId: string): (r: map<string, bool>)
    ensures r.Keys == states.Keys + {listId}
    ensures listId in states ==> r[listId] == !states[listId]
    ensures listId !in states ==> r[listId]
    ensures forall k :: k in states && k != listId ==> r[k] == states[k]
  {
    states[listId := !(listId in states && states[listId])]
  }

  /** Pressing the sort button twice leaves the bucket's flag as it read
      before, a missing flag reading as `false`. */
  lemma ToggleTwice(states: map<string, bool>, listId: string)
    ensures var r := ToggledSortState(ToggledSortState(states, listId), listId);
      r[listId] == (listId in states && states[listId])
  {
  }

  // ---------------------------------------------------------------- the state

  /** The state of the board: the tasks and the sort button's flag per
      bucket. */
  class Board {
    var tasks: seq<Task>
    var sortStates: map<string, bool>

    /** Every task's flags and quadrant time agree with its bucket, and no
        task has a manual order, and no two tasks share an id. */
    ghost predicate Valid()
      reads this
    {
      WellFormed(tasks) && UniqueIds(tasks)
    }

    constructor ()
      ensures Valid()
      ensures tasks == [] && sortStates == map[]
    {
      tasks := [];
      sortStates := map[];
    }

    /** `addTask`: `id` is the fresh uuid and `now` the clock. */
    method AddTask(id: string, now: int)
      requires Valid() && id !in Ids(tasks)
      modifies this
      ensures Valid()
      ensures tasks == WithNewTask(old(tasks), id, now)
      ensures sortStates == old(sortStates)
    {
      AddTaskWellFormed(tasks, id, now);
      AddTaskKeepsIdsUnique(tasks, id, now);
      var newTask := Task(id, "New Task", "", false, false, now, None, false, Inbox, None, None);
      tasks := tasks + [newTask];
    }

    method UpdateTask(id: string, p: Patch)
      requires Valid()
      modifies this
      ensures Valid()
      ensures tasks == Updated(old(tasks), id, p)
      ensures sortStates == old(sortStates)
    {
      UpdateTaskWellFormed(tasks, id, p);
      tasks := Updated(tasks, id, p);
    }

    method DeleteTask(id: string)
      requires Valid()
      modifies this
      ensures Valid()
      ensures tasks == Deleted(old(tasks), id)
      ensures sortStates == old(sortStates)
    {
      DeleteTaskKeepsIdsUnique(tasks, id);
      tasks := Deleted(tasks, id);
    }

    /** `onDragEnd`, guard by guard; `now` is the clock. */
    method OnDragEnd(ev: DropResult, now: int)
      requires Valid()
      modifies this
      ensures Valid()
      ensures tasks == DragEnd(old(tasks), ev, now)
      ensures sortStates == old(sortStates)
    {
      if ev.destination.None? {
        return;
      }
      var destId := ev.destination.value.droppableId;
      var draggedTask := Find(tasks, IdOf, ev.draggableId);
      if draggedTask.None? {
        return;
      }
      var updatedTask := draggedTask.value.(
        list := destId,
        important := destId == IU || destId == IN,
        urgent := destId == IU || destId == NU,
        movedToQuadrantAt := if destId == Inbox then None else Some(now));
      var filteredTasks := Without(tasks, ev.draggableId);
      var sameListTasks := Members(filteredTasks, destId);
      var otherTasks := Others(filteredTasks, destId);
      sameListTasks := Splice(sameListTasks, ev.destination.value.index, updatedTask);
      DragEndWellFormed(tasks, ev, now);
      DragEndKeepsIdsUnique(tasks, ev, now);
      tasks := otherTasks + sameListTasks;
    }

    method HandleSortByQuadrantTime(listId: string)
      requires Valid()
      modifies this
      ensures Valid()
      ensures tasks == SortByQuadrantTime(old(tasks), listId)
      ensures sortStates == ToggledSortState(old(sortStates), listId)
    {
      SortByQuadrantTimeWellFormed(tasks, listId);
      SortByQuadrantTimeKeepsIdsUnique(tasks, listId);
      var quadrantTasks := Members(tasks, listId);
      var sorted := Sorting.SortBy(quadrantTasks, ByMovedDesc);
      var otherTasks := Others(tasks, listId);
      tasks := otherTasks + sorted;
      sortStates := sortStates[listId := !(listId in sortStates && sortStates[listId])];
    }
  }
}

/** The quadrant display (src/components/Quadrant.jsx): which tasks a
    quadrant shows, in which order, and the index each is rendered at. That
    index is what the drag library reports as `destination.index` when a
    task is dropped into the quadrant. The component reads `list` and
    `manualOrderIndex` of the records it is given; the records are those of
    module `App`. */
module Quadrant {
  import opened Common
  import opened Seqs
  import Sorting
  import App

  /** `a.manualOrderIndex - b.manualOrderIndex || 0`: when either index is
      missing the difference is `NaN`, which `|| 0` turns into `0`. */
  function ByManualOrder(a: App.Task, b: App.Task): (r: int)
    ensures a.manualOrderIndex.None? || b.manualOrderIndex.None? ==> r == 0
    ensures a.manualOrderIndex.Some? && b.manualOrderIndex.Some? ==>
      (r < 0 <==> a.manualOrderIndex.value < b.manualOrderIndex.value)
      && (r == 0 <==> a.manualOrderIndex.value == b.manualOrderIndex.value)
  {
    if a.manualOrderIndex.Some? && b.manualOrderIndex.Some? then
      a.manualOrderIndex.value - b.manualOrderIndex.value
    else 0
  }

  function ManualOrderOf(t: App.Task): int { t.manualOrderIndex.GetOr(0) }

  /** `quadrantTasks`: the tasks of bucket `id`, in display order. */
  function QuadrantTasks(tasks: seq<App.Task>, id: string): (r: seq<App.Task>)
    ensures multiset(r) == multiset(App.Members(tasks, id))
  {
    Sorting.SortBy(App.Members(tasks, id), ByManualOrder)
  }

  /** A quadrant shows exactly the tasks whose bucket it is, each as often
      as it occurs in the list. */
  lemma QuadrantShowsBucket(tasks: seq<App.Task>, id: string)
    ensures forall t :: t in QuadrantTasks(tasks, id) <==> t in tasks && t.list == id
    ensures forall t :: multiset(QuadrantTasks(tasks, id))[t] == if t.list == id then multiset(tasks)[t] else 0
  {
    var r := QuadrantTasks(tasks, id);
    FilterMembership(tasks, App.ListOf, id, true);
    forall t
      ensures t in r <==> t in tasks && t.list == id
    {
      assert t in r <==> t in multiset(r);
      assert t in App.Members(tasks, id) <==> t in multiset(App.Members(tasks, id));
    }
  }

  /** The `(task, index)` pairs the component renders, the index being the
      task's drag index. */
  function Rendered(tasks: seq<App.Task>, id: string): (r: seq<(App.Task, nat)>)
    ensures |r| == |QuadrantTasks(tasks, id)|
    ensures forall i :: 0 <= i < |r| ==> r[i].0 == QuadrantTasks(tasks, id)[i] && r[i].1 == i
  {
    var shown := QuadrantTasks(tasks, id);
    seq(|shown|, i requires 0 <= i < |shown| => (shown[i], i as nat))
  }

  /** When every task of the bucket has a manual index, the display is in
      non-decreasing manual index. */
  lemma QuadrantSorted(tasks: seq<App.Task>, id: string)
    requires forall t :: t in App.Members(tasks, id) ==> t.manualOrderIndex.Some?
    ensures var r := QuadrantTasks(tasks, id);
      forall i, j :: 0 <= i < j < |r| ==>
        r[i].manualOrderIndex.Some? && r[j].manualOrderIndex.Some? && r[i].manualOrderIndex.value <= r[j].manualOrderIndex.value
  {
    var m := App.Members(tasks, id);
    var r := QuadrantTasks(tasks, id);
    Sorting.SortBySorted(m, ByManualOrder, ManualOrderOf);
    forall i | 0 <= i < |r|
      ensures r[i].manualOrderIndex.Some?
    {
      assert r[i] in multiset(m);
    }
  }

  /** When no task of the bucket has a manual index, every comparison is
      `0` and the stable sort keeps the bucket in list order. */
  lemma QuadrantInListOrder(tasks: seq<App.Task>, id: string)
    requires forall t :: t in App.Members(tasks, id) ==> t.manualOrderIndex.None?
    ensures QuadrantTasks(tasks, id) == App.Members(tasks, id)
  {
    Sorting.SortByOrdered(App.Members(tasks, id), ByManualOrder);
  }

  /** A board of `App` shows every bucket in list order, since that
      iteration never sets a manual index. */
  lemma WellFormedShownInListOrder(tasks: seq<App.Task>, id: string)
    requires App.WellFormed(tasks)
    ensures QuadrantTasks(tasks, id) == App.Members(tasks, id)
  {
    FilterMembership(tasks, App.ListOf, id, true);
    QuadrantInListOrder(tasks, id);
  }

  /** On a board of `App`, a task dropped into a quadrant is rendered there
      at the drop index, clamped to the last place, and the quadrant's other
      tasks are rendered in their old order around it. */
  lemma DropRenderedAtIndex(tasks: seq<App.Task>, ev: DropResult, now: int)
    requires App.WellFormed(tasks) && App.Applies(tasks, ev)
    ensures var destId := ev.destination.value.droppableId;
      var same := App.Members(App.Without(tasks, ev.draggableId), destId);
      var k := SplicePosition(ev.destination.value.index, |same|);
      var shown := Rendered(App.DragEnd(tasks, ev, now), destId);
      && |shown| == |same| + 1
      && shown[k] == (App.Dropped(tasks, ev, now), k)
      && (forall i :: 0 <= i < k ==> shown[i].0 == same[i])
      && (forall i :: k < i < |shown| ==> shown[i].0 == same[i - 1])
  {
    var destId := ev.destination.value.droppableId;
    var same := App.Members(App.Without(tasks, ev.draggableId), destId);
    var spliced := Splice(same, ev.destination.value.index, App.Dropped(tasks, ev, now));
    DropShownAsSplice(tasks, ev, now);
    SpliceAround(same, ev.destination.value.index, App.Dropped(tasks, ev, now));
    var shown := Rendered(App.DragEnd(tasks, ev, now), destId);
    assert forall i :: 0 <= i < |shown| ==> shown[i].0 == spliced[i];
  }

  /** After a drag on a board of `App`, the destination quadrant shows the
      bucket's remaining tasks with the dropped task spliced in. */
  lemma DropShownAsSplice(tasks: seq<App.Task>, ev: DropResult, now: int)
    requires App.WellFormed(tasks) && App.Applies(tasks, ev)
    ensures var destId := ev.destination.value.droppableId;
      QuadrantTasks(App.DragEnd(tasks, ev, now), destId)
        == Splice(App.Members(App.Without(tasks, ev.draggableId), destId), ev.destination.value.index, App.Dropped(tasks, ev, now))
  {
    App.DragEndWellFormed(tasks, ev, now);
    App.DragEndBuckets(tasks, ev, now);
    WellFormedShownInListOrder(App.DragEnd(tasks, ev, now), ev.destination.value.droppableId);
  }

  /** On a board of `App`, after the sort button the quadrant shows its
      tasks most recently moved first. */
  lemma SortButtonShown(tasks: seq<App.Task>, listId: string)
    requires App.WellFormed(tasks)
    ensures var shown := QuadrantTasks(App.SortByQuadrantTime(tasks, listId), listId);
      && multiset(shown) == multiset(App.Members(tasks, listId))
      && forall i, j :: 0 <= i < j < |shown| ==> App.MovedAt(shown[i]) >= App.MovedAt(shown[j])
  {
    SortedBucketShown(tasks, listId);
    Sorting.SortBySorted(App.Members(tasks, listId), App.ByMovedDesc, App.NegMovedAt);
  }

  /** On a board of `App`, after the sort button the quadrant shows the
      bucket sorted by the button's comparator. */
  lemma SortedBucketShown(tasks: seq<App.Task>, listId: string)
    requires App.WellFormed(tasks)
    ensures QuadrantTasks(App.SortByQuadrantTime(tasks, listId), listId)
      == Sorting.SortBy(App.Members(tasks, listId), App.ByMovedDesc)
  {
    var r := App.SortByQuadrantTime(tasks, listId);
    App.SortByQuadrantTimeWellFormed(tasks, listId);
    App.SortByQuadrantTimeOrders(tasks, listId);
    WellFormedShownInListOrder(r, listId);
    var n := |App.Others(tasks, listId)|;
    assert r[n..] == Sorting.SortBy(App.Members(tasks, listId), App.ByMovedDesc);
  }
}

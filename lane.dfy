/**
 * The lane component: the completion flag imposed on items added to a
 * lane, and the class lists of the lane, its items area and its drag ghost.
 * `c("lane")` and `c("lane-items")`, the plugin-prefixed class names, are
 * given as parameters.
 */
module LaneView {
  import opened Types
  import DragDrop

  /** `!!lane.data.shouldMarkItemsComplete`: an absent flag reads as false. */
  function ShouldMarkItemsComplete(data: LaneData): (mark: bool)
    ensures mark <==> data.shouldMarkItemsComplete == Some(true)
  {
    match data.shouldMarkItemsComplete
    case None => false
    case Some(b) => b
  }

  /** `update(item, { data: { isComplete: { $set: mark } } })` */
  function SetComplete(item: Item, mark: bool): (r: Item)
    ensures r.data.isComplete == Some(mark)
    ensures r.(data := item.data) == item
  {
    item.(data := item.data.(isComplete := Some(mark)))
  }

  /**
   * The items handed to `addItemsToLane`: the same items in the same order,
   * each with `isComplete` set to exactly the lane's flag and nothing else
   * changed.
   */
  function MarkItems(items: seq<Item>, mark: bool): (r: seq<Item>)
    ensures |r| == |items|
    ensures forall i :: 0 <= i < |r| ==>
              r[i].data.isComplete == Some(mark) && r[i].(data := items[i].data) == items[i]
    decreases |items|
  {
    if items == [] then []
    else [SetComplete(items[0], mark)] + MarkItems(items[1..], mark)
  }

  /** Marking is idempotent: items added twice to the same lane end up the same. */
  lemma MarkItemsIdempotent(items: seq<Item>, mark: bool)
    ensures MarkItems(MarkItems(items, mark), mark) == MarkItems(items, mark)
  {
  }

  /** Adding through a second lane overrides the first lane's flag completely. */
  lemma LastLaneWins(items: seq<Item>, first: bool, second: bool)
    ensures MarkItems(MarkItems(items, first), second) == MarkItems(items, second)
  {
  }

  /** `addItems`: one `addItemsToLane` call at the lane's index with the marked items. */
  function AddItems(laneIndex: int, data: LaneData, items: seq<Item>): (call: BoardCall)
    ensures call.AddItemsToLane? && call.laneIndex == laneIndex
    ensures |call.items| == |items|
    ensures forall i :: 0 <= i < |items| ==>
              call.items[i].data.isComplete == Some(data.shouldMarkItemsComplete == Some(true)) &&
              call.items[i].(data := items[i].data) == items[i]
  {
    AddItemsToLane(laneIndex, MarkItems(items, ShouldMarkItemsComplete(data)))
  }

  /** The transform of a lane's wrapper: applied only while sorting. */
  function LaneTransform<T>(isSorting: bool, transform: T): (r: Option<T>)
    ensures r.Some? <==> isSorting
    ensures r.Some? ==> r.value == transform
  {
    if isSorting then Some(transform) else None
  }

  /**
   * The lane's class list: the lane class first, then `is-placeholder`
   * while this lane is dragged, then `is-hovering` while the hovered index
   * is this lane's.
   */
  method LaneClassList(laneClass: string, isDragging: bool, overIndex: int, laneIndex: int)
    returns (classList: seq<string>)
    ensures 1 <= |classList| <= 3 && classList[0] == laneClass
    ensures ("is-placeholder" in classList[1..]) <==> isDragging
    ensures ("is-hovering" in classList[1..]) <==> overIndex == laneIndex
    ensures |classList| == 1 + (if isDragging then 1 else 0) + (if overIndex == laneIndex then 1 else 0)
    ensures isDragging ==> classList[1] == "is-placeholder"
  {
    classList := [laneClass];
    ghost var pushed: seq<string> := [];
    if isDragging {
      classList := classList + ["is-placeholder"];
      pushed := pushed + ["is-placeholder"];
    }
    if overIndex == laneIndex {
      classList := classList + ["is-hovering"];
      pushed := pushed + ["is-hovering"];
    }
    assert classList[1..] == pushed;
  }

  /**
   * The items area's class list: `is-dragging-over` only while it is the
   * hovered droppable and `over?.data.current?.type` is "item"; a missing
   * `over`, the board droppable and data-less payloads have no type.
   */
  method ItemsClassList(itemsClass: string, isOver: bool, over: Option<DragDrop.DragData>)
    returns (classList: seq<string>)
    ensures 1 <= |classList| <= 2 && classList[0] == itemsClass
    ensures ("is-dragging-over" in classList[1..]) <==> isOver && over.Some? && over.value.ItemDrag?
    ensures |classList| == 1 + (if isOver && over.Some? && over.value.ItemDrag? then 1 else 0)
  {
    var hoveredByItem := over.Some? && DragDrop.KindOf(over.value) == Some(DragDrop.ItemKind);
    classList := [itemsClass];
    if isOver && hoveredByItem {
      classList := classList + ["is-dragging-over"];
    }
    assert classList[1..] == if isOver && hoveredByItem then ["is-dragging-over"] else [];
  }

  /** The drag ghost of a lane always shows as the lane class plus `is-dragging`. */
  function GhostClassList(laneClass: string): (classList: seq<string>)
    ensures |classList| == 2 && classList[0] == laneClass && classList[1] == "is-dragging"
  {
    [laneClass, "is-dragging"]
  }
}

/**
 * The drag-and-drop controller of the app: the drop decision taken when a
 * drag ends, and the `laneGhost` state that drives the drag overlay.
 *
 * dnd-kit hands the handlers the `data.current` object of the dragged
 * entity (`active`) and of the droppable under the pointer (`over`, or null
 * when there is none). Four shapes of that object exist in the views:
 * a sortable lane, a sortable item, the board-wide droppable, and the
 * lane items area, whose droppable carries no data at all.
 */
module DragDrop {
  import opened Types

  datatype EntityKind = LaneKind | ItemKind

  /** The `data.current` payloads attached by the views. */
  datatype DragData =
      /** A sortable lane: `{ context, laneIndex, type: "lane" }`. */
    | LaneDrag(context: BoardContext, laneIndex: int)
      /** A sortable item: `{ itemIndex, laneIndex, type: "item" }` (no context). */
    | ItemDrag(laneIndex: int, itemIndex: int)
      /** The board droppable: `{ boardContext }` (no type, no `context`). */
    | BoardDrop(boardContext: BoardContext)
      /** The lane items area: `useDroppable({ id })` gives no data (`undefined`). */
    | NoData

  /** The payload's `type` field; absent on the board droppable and on missing data. */
  function KindOf(d: DragData): Option<EntityKind>
  {
    match d
    case LaneDrag(_, _) => Some(LaneKind)
    case ItemDrag(_, _) => Some(ItemKind)
    case _ => None
  }

  /** The payload's `context` field; only lanes carry one. */
  function ContextOf(d: DragData): Option<BoardContext>
  {
    if d.LaneDrag? then Some(d.context) else None
  }

  /** What a drag end does to the boards. */
  datatype DropOutcome =
      /** The handler returns without touching any board. */
    | NoOp
      /** Exactly one `setBoardData(reorderLanes(from, to))` on the context of `view`. */
    | ReorderLanes(view: ViewId, from: int, to: int)
      /** Reading `.view` of an absent `context` throws; nothing is changed. */
    | Throws

  /**
   * The drop decision of `onDragEnd` once `over` is known to be present:
   * reading `type` of missing data throws, different kinds are ignored, payloads without a context throw, different
   * views are ignored (no cross-board drop), a lane on its own index is
   * ignored, and any other lane drop reorders the lanes of the source
   * context. An item drop never changes a board.
   */
  function DecideDrop(source: DragData, destination: DragData): (r: DropOutcome)
    ensures source.NoData? || destination.NoData? ==> r == Throws
    ensures !source.NoData? && !destination.NoData? && KindOf(source) != KindOf(destination) ==> r == NoOp
    ensures r.Throws? <==>
              source.NoData? || destination.NoData? ||
              (KindOf(source) == KindOf(destination) &&
               (ContextOf(source).None? || ContextOf(destination).None?))
    ensures r.ReorderLanes? <==>
              source.LaneDrag? && destination.LaneDrag? &&
              source.context.view == destination.context.view &&
              source.laneIndex != destination.laneIndex
    ensures r.ReorderLanes? ==>
              r.view == source.context.view &&
              r.from == source.laneIndex && r.to == destination.laneIndex
    ensures source.ItemDrag? ==> !r.ReorderLanes?
  {
    if source.NoData? || destination.NoData? then Throws
    else if KindOf(source) != KindOf(destination) then NoOp
    else if ContextOf(source).None? || ContextOf(destination).None? then Throws
    else if ContextOf(source).value.view != ContextOf(destination).value.view then NoOp
    else if KindOf(source) == Some(LaneKind) then
      if source.laneIndex == destination.laneIndex then NoOp
      else ReorderLanes(source.context.view, source.laneIndex, destination.laneIndex)
    else NoOp
  }

  /** The whole of `onDragEnd`: a missing `over` throws while reading `over.data`. */
  function OnDragEndOutcome(source: DragData, over: Option<DragData>): (r: DropOutcome)
    ensures over.None? ==> r == Throws
    ensures over.Some? ==> r == DecideDrop(source, over.value)
  {
    if over.None? then Throws else DecideDrop(source, over.value)
  }

  /** Dropping a lane back onto its own index changes nothing, whatever else holds. */
  lemma SameIndexLaneDropIsNoOp(ctx: BoardContext, other: BoardContext, laneIndex: int)
    ensures DecideDrop(LaneDrag(ctx, laneIndex), LaneDrag(other, laneIndex)) == NoOp
  {
  }

  /** A lane dropped on an item or on the board droppable changes no board. */
  lemma LaneOnNonLaneIsNoOp(source: DragData, destination: DragData)
    requires source.LaneDrag? && (destination.ItemDrag? || destination.BoardDrop?)
    ensures DecideDrop(source, destination) == NoOp
  {
  }

  /** Any drop over a lane items area throws, after the ghost was cleared. */
  lemma DropOnItemsAreaThrows(current: Option<LaneGhost>, source: DragData)
    ensures OnDragEndOutcome(source, Some(NoData)) == Throws
    ensures GhostOnEnd(current, Some(NoData)) == None
  {
  }

  /** The ghost shown over the board while a lane is dragged. */
  datatype LaneGhost = LaneGhost(context: BoardContext, laneIndex: int)

  /**
   * The ghost after a drag starts: set for a lane, left alone otherwise.
   * Only sortables can be dragged, so `active` is a lane or an item; the
   * board droppable and the data-less items area (on which reading
   * `dragging.type` would throw) never start a drag.
   */
  function GhostOnStart(current: Option<LaneGhost>, active: DragData): (g: Option<LaneGhost>)
    ensures active.LaneDrag? ==> g == Some(LaneGhost(active.context, active.laneIndex))
    ensures !active.LaneDrag? ==> g == current
  {
    match active
    case LaneDrag(ctx, i) => Some(LaneGhost(ctx, i))
    case _ => current
  }

  /** The ghost after a drag ends: cleared unless reading `over` threw first. */
  function GhostOnEnd(current: Option<LaneGhost>, over: Option<DragData>): (g: Option<LaneGhost>)
    ensures over.Some? ==> g == None
    ensures over.None? ==> g == current
  {
    if over.None? then current else None
  }

  /** A reordering the app asked a view's `setBoardData` to apply. */
  datatype SetBoardCall = SetBoardCall(view: ViewId, from: int, to: int)

  /** The calls a drop outcome adds to the log: one for a reorder, none otherwise. */
  function CallsOf(outcome: DropOutcome): (calls: seq<SetBoardCall>)
    ensures |calls| <= 1
    ensures |calls| == 1 <==> outcome.ReorderLanes?
    ensures outcome.ReorderLanes? ==>
              calls[0] == SetBoardCall(outcome.view, outcome.from, outcome.to)
  {
    if outcome.ReorderLanes? then [SetBoardCall(outcome.view, outcome.from, outcome.to)] else []
  }

  /**
   * The boards of the open views after a drop, with `reorderLanes(from, to)`
   * (whose code is not part of this model) given as a board updater: only a
   * reorder changes anything, and then only the board of the source view.
   */
  function ApplyOutcome(boards: map<ViewId, Board>, outcome: DropOutcome,
                        reorderLanes: (int, int) -> (Board -> Board)): (r: map<ViewId, Board>)
    ensures r.Keys == boards.Keys
    ensures !outcome.ReorderLanes? ==> r == boards
    ensures forall v :: v in boards && !(outcome.ReorderLanes? && v == outcome.view) ==> r[v] == boards[v]
    ensures outcome.ReorderLanes? && outcome.view in boards ==>
              r[outcome.view] == reorderLanes(outcome.from, outcome.to)(boards[outcome.view])
  {
    if outcome.ReorderLanes? && outcome.view in boards then
      boards[outcome.view := reorderLanes(outcome.from, outcome.to)(boards[outcome.view])]
    else boards
  }

  /**
   * Every drop that is not a lane-on-lane drop in one view between different
   * indices makes no call and leaves every board as it was.
   */
  lemma RejectedDropsChangeNothing(source: DragData, over: Option<DragData>,
                                    boards: map<ViewId, Board>,
                                    reorderLanes: (int, int) -> (Board -> Board))
    requires !(over.Some? && source.LaneDrag? && over.value.LaneDrag? &&
               source.context.view == over.value.context.view &&
               source.laneIndex != over.value.laneIndex)
    ensures CallsOf(OnDragEndOutcome(source, over)) == []
    ensures ApplyOutcome(boards, OnDragEndOutcome(source, over), reorderLanes) == boards
  {
  }

  /**
   * The drag-and-drop app: the `laneGhost` state and the log of
   * `setBoardData(reorderLanes(..))` calls it has made to the views.
   */
  class DragDropApp {
    var laneGhost: Option<LaneGhost>
    var setBoardCalls: seq<SetBoardCall>

    constructor ()
      ensures laneGhost == None && setBoardCalls == []
    {
      laneGhost := None;
      setBoardCalls := [];
    }

    /**
     * `onDragStart`: a dragged lane becomes the ghost; an item leaves it as it
     * was. Only lanes and items are ever dragged (see `GhostOnStart`).
     */
    method OnDragStart(active: DragData)
      modifies this
      ensures laneGhost == GhostOnStart(old(laneGhost), active)
      ensures active.LaneDrag? ==> laneGhost == Some(LaneGhost(active.context, active.laneIndex))
      ensures setBoardCalls == old(setBoardCalls)
    {
      if active.LaneDrag? {
        laneGhost := Some(LaneGhost(active.context, active.laneIndex));
      }
    }

    /** `onDragCancel`: the ghost is cleared and no board is touched. */
    method OnDragCancel()
      modifies this
      ensures laneGhost == None
      ensures setBoardCalls == old(setBoardCalls)
    {
      laneGhost := None;
    }

    /**
     * `onDragEnd`: reads both payloads, clears the ghost, then takes the drop
     * decision; an accepted lane drop makes exactly one call, on the source's
     * context.
     */
    method OnDragEnd(active: DragData, over: Option<DragData>) returns (outcome: DropOutcome)
      modifies this
      ensures outcome == OnDragEndOutcome(active, over)
      ensures laneGhost == GhostOnEnd(old(laneGhost), over)
      ensures over.Some? ==> laneGhost == None
      ensures setBoardCalls == old(setBoardCalls) + CallsOf(outcome)
    {
      if over.None? {
        // `over.data.current` throws before the ghost is cleared
        return Throws;
      }
      var source := active;
      var destination := over.value;
      laneGhost := None;
      if source.NoData? || destination.NoData? {
        // `destination.type` of undefined throws
        return Throws;
      }
      if KindOf(source) != KindOf(destination) {
        return NoOp;
      }
      if ContextOf(source).None? || ContextOf(destination).None? {
        return Throws;
      }
      if ContextOf(source).value.view != ContextOf(destination).value.view {
        return NoOp;
      }
      if KindOf(source) == Some(LaneKind) {
        if source.laneIndex == destination.laneIndex {
          return NoOp;
        }
        setBoardCalls := setBoardCalls + [SetBoardCall(source.context.view, source.laneIndex, destination.laneIndex)];
        return ReorderLanes(source.context.view, source.laneIndex, destination.laneIndex);
      }
      return NoOp;
    }
  }

  /** A full session — start, then end over some target — leaves no ghost and
      makes at most one call, and only for a lane. */
  method DragSession(app: DragDropApp, active: DragData, over: DragData) returns (outcome: DropOutcome)
    modifies app
    ensures app.laneGhost == None
    ensures |app.setBoardCalls| <= |old(app.setBoardCalls)| + 1
    ensures |app.setBoardCalls| == |old(app.setBoardCalls)| + 1 ==> active.LaneDrag?
  {
    app.OnDragStart(active);
    outcome := app.OnDragEnd(active, Some(over));
  }

  /** A session that is cancelled leaves the call log and so every board untouched. */
  method CancelledSession(app: DragDropApp, active: DragData)
    modifies app
    ensures app.laneGhost == None
    ensures app.setBoardCalls == old(app.setBoardCalls)
  {
    app.OnDragStart(active);
    app.OnDragCancel();
  }
}

/**
 * The lane header: its `isEditing` and `confirmAction` state, the board
 * modifier each confirmed action dispatches, and the title edit.
 */
module LaneHeaderView {
  import opened Types

  /** The destructive lane actions that ask for confirmation first. */
  datatype ConfirmKind = Archive | ArchiveItems | Delete

  /**
   * The board-modifier call `onAction` makes: exactly the one matching the
   * pending action, at the header's lane index, or none when nothing is
   * pending.
   */
  function ConfirmCalls(action: Option<ConfirmKind>, laneIndex: int): (calls: seq<BoardCall>)
    ensures |calls| == (if action.Some? then 1 else 0)
    ensures action == Some(Archive) ==> calls == [ArchiveLane(laneIndex)]
    ensures action == Some(ArchiveItems) ==> calls == [ArchiveLaneItems(laneIndex)]
    ensures action == Some(Delete) ==> calls == [DeleteLane(laneIndex)]
  {
    match action
    case None => []
    case Some(Archive) => [ArchiveLane(laneIndex)]
    case Some(ArchiveItems) => [ArchiveLaneItems(laneIndex)]
    case Some(Delete) => [DeleteLane(laneIndex)]
  }

  /** Different confirmed actions, or different lanes, never dispatch the same call. */
  lemma ConfirmCallsInjective(a: ConfirmKind, b: ConfirmKind, i: int, j: int)
    requires ConfirmCalls(Some(a), i) == ConfirmCalls(Some(b), j)
    ensures a == b && i == j
  {
  }

  /** `update(lane, { title: { $set: title } })`: the lane with only its title replaced. */
  function Retitled(lane: Lane, title: string): (r: Lane)
    ensures r.title == title
    ensures r.id == lane.id && r.data == lane.data && r.items == lane.items
  {
    lane.(title := title)
  }

  /** A title edit followed by restoring the old title gives back the lane. */
  lemma RetitleRoundTrip(lane: Lane, title: string)
    ensures Retitled(Retitled(lane, title), lane.title) == lane
  {
  }

  class LaneHeader {
    /** The props the header was last rendered with. */
    var lane: Lane
    var laneIndex: int
    /** Component state; the settings panel is rendered exactly while `isEditing`. */
    var isEditing: bool
    var confirmAction: Option<ConfirmKind>
    /** Every board-modifier call the header has made. */
    var calls: seq<BoardCall>

    constructor (lane: Lane, laneIndex: int)
      ensures this.lane == lane && this.laneIndex == laneIndex
      ensures !isEditing && confirmAction == None && calls == []
    {
      this.lane := lane;
      this.laneIndex := laneIndex;
      isEditing := false;
      confirmAction := None;
      calls := [];
    }

    /** The title shows the lane's item count. */
    function ItemCount(): (n: nat)
      reads this
      ensures n == |lane.items|
    {
      |lane.items|
    }

    /** A new render with new props keeps the component state. */
    method Render(lane: Lane, laneIndex: int)
      modifies this
      ensures this.lane == lane && this.laneIndex == laneIndex
      ensures isEditing == old(isEditing) && confirmAction == old(confirmAction)
      ensures calls == old(calls)
    {
      this.lane := lane;
      this.laneIndex := laneIndex;
    }

    /** Double-clicking the header starts editing. */
    method OnDoubleClick()
      modifies this
      ensures isEditing
      ensures confirmAction == old(confirmAction) && calls == old(calls)
      ensures lane == old(lane) && laneIndex == old(laneIndex)
    {
      isEditing := true;
    }

    /**
     * `setIsEditing(editing)` as handed to the settings menu and to the lane
     * title, whose code is not part of this model: only the flag changes.
     */
    method SetEditing(editing: bool)
      modifies this
      ensures isEditing == editing
      ensures confirmAction == old(confirmAction) && calls == old(calls)
      ensures lane == old(lane) && laneIndex == old(laneIndex)
    {
      isEditing := editing;
    }

    /** The close button stops editing. */
    method OnClose()
      modifies this
      ensures !isEditing
      ensures confirmAction == old(confirmAction) && calls == old(calls)
      ensures lane == old(lane) && laneIndex == old(laneIndex)
    {
      isEditing := false;
    }

    /** The settings menu asks for a confirmation. */
    method SetConfirmAction(action: ConfirmKind)
      modifies this
      ensures confirmAction == Some(action)
      ensures isEditing == old(isEditing) && calls == old(calls)
      ensures lane == old(lane) && laneIndex == old(laneIndex)
    {
      confirmAction := Some(action);
    }

    /** Confirming: dispatch the matching modifier, then clear the pending action. */
    method OnAction()
      modifies this
      ensures calls == old(calls) + ConfirmCalls(old(confirmAction), laneIndex)
      ensures confirmAction == None
      ensures isEditing == old(isEditing)
      ensures lane == old(lane) && laneIndex == old(laneIndex)
    {
      match confirmAction {
        case Some(Archive) =>
          calls := calls + [ArchiveLane(laneIndex)];
        case Some(ArchiveItems) =>
          calls := calls + [ArchiveLaneItems(laneIndex)];
        case Some(Delete) =>
          calls := calls + [DeleteLane(laneIndex)];
        case None =>
      }
      confirmAction := None;
    }

    /** Cancelling: clear the pending action and call nothing. */
    method OnCancel()
      modifies this
      ensures confirmAction == None && calls == old(calls)
      ensures isEditing == old(isEditing)
      ensures lane == old(lane) && laneIndex == old(laneIndex)
    {
      confirmAction := None;
    }

    /** Editing the title: one `updateLane` call with the lane retitled. */
    method OnTitleChange(title: string)
      modifies this
      ensures calls == old(calls) + [UpdateLane(laneIndex, Retitled(lane, title))]
      ensures isEditing == old(isEditing) && confirmAction == old(confirmAction)
      ensures lane == old(lane) && laneIndex == old(laneIndex)
    {
      calls := calls + [UpdateLane(laneIndex, lane.(title := title))];
    }
  }
}

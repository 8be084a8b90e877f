/**
 * The board data model of the kanban view: a board is an ordered sequence of
 * lanes plus a separate ordered archive of items; a lane owns its ordered
 * items. Views and the React contexts that belong to them are identified by
 * ids. The calls the components make into the board modifiers (whose code is
 * not part of this model) are recorded as values of `BoardCall`.
 */
module Types {

  datatype Option<T> = None | Some(value: T)

  /** Identity of an open kanban view; contexts compare views by identity. */
  type ViewId = nat

  /** Optional per-item flags (`isComplete` may be absent). */
  datatype ItemData = ItemData(isComplete: Option<bool>)

  /**
   * Date, time and tags of a card, each optional; a moment is an instant
   * number. None of it is read by the logic modelled here.
   */
  datatype ItemMetadata = ItemMetadata(date: Option<int>, time: Option<int>, tags: Option<seq<string>>)

  /** A card: three title variants (display, raw markdown, search-normalised). */
  datatype Item = Item(
    id: string,
    title: string,
    titleRaw: string,
    titleSearch: string,
    metadata: ItemMetadata,
    data: ItemData)

  /** Optional per-lane flags (`shouldMarkItemsComplete` may be absent). */
  datatype LaneData = LaneData(shouldMarkItemsComplete: Option<bool>)

  datatype Lane = Lane(id: string, title: string, data: LaneData, items: seq<Item>)

  /** A setting value as the host returns it: absent, a number, or anything else. */
  datatype SettingValue = Undefined | Number(n: int) | NonNumber

  /** The settings blob; opaque to the logic modelled here. */
  datatype KanbanSettings = KanbanSettings(entries: map<string, SettingValue>)

  datatype Board = Board(
    isSearching: bool,
    settings: KanbanSettings,
    lanes: seq<Lane>,
    archive: seq<Item>)

  /** The board context a view provides to its components. */
  datatype BoardContext = BoardContext(view: ViewId, filePath: Option<string>, query: string)

  /** One call into the board modifiers of a view. */
  datatype BoardCall =
    | ArchiveLane(laneIndex: int)
    | ArchiveLaneItems(laneIndex: int)
    | DeleteLane(laneIndex: int)
    | UpdateLane(laneIndex: int, lane: Lane)
    | UpdateItem(laneIndex: int, itemIndex: int, item: Item)
    | AddItemsToLane(laneIndex: int, items: seq<Item>)
}

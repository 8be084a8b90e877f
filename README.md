# Kanban drag-and-drop decision layer, in Dafny

This project models the decision layer of an Obsidian kanban board plugin. It covers:

- what happens when a dragged lane or card is dropped;
- the `laneGhost` state behind the drag overlay;
- the effect that caps the archive at the "max-archive-size" setting;
- the board's link-click and hover dispatch;
- the card and lane component rules: newline normalisation of an edited title, search matching, completion marking of added items, class lists;
- the lane header's editing and confirm state machine.

Modules follow the source files:

| module | file |
|---|---|
| `Types` | `src/components/types.ts`: Board, Lane, LaneData, Item, ItemData as datatypes, and the board-modifier calls as values |
| `Js` | JavaScript's `Array.prototype.slice(start)` and the host's `String.prototype.contains` |
| `DragDrop` | `src/DragDropApp.tsx` |
| `Kanban` | `src/components/Kanban.tsx` |
| `ItemCard` | `src/components/Item/Item.tsx` |
| `LaneView` | `src/components/Lane/Lane.tsx` |
| `LaneHeaderView` | `src/components/Lane/LaneHeader.tsx` |

A view is identified by an id (`ViewId`). A `BoardContext` is a record of that view id, the file path and the query, and drops compare contexts by their view (`DragDropApp.tsx:68`). State the source updates in place is a class:

- `DragDrop.DragDropApp` holds `laneGhost` and a log of the `setBoardData(reorderLanes(..))` calls.
- `Kanban.KanbanState` holds `boardData` and the search query.
- `LaneHeaderView.LaneHeader` holds `isEditing`, `confirmAction` and a log of the board-modifier calls.

Pure rules are functions with lemmas. Class lists built with `push` are methods.

Calls into code this model does not contain are handled two ways:

- Calls to `getBoardModifiers`'s modifiers are recorded as `BoardCall` values.
- `reorderLanes`, `view.parser.updateItem` and `toLocaleLowerCase` are function parameters.

dnd-kit's drag payloads come in four shapes:

- a sortable lane: `{context, laneIndex, type: "lane"}`;
- a sortable item: `{itemIndex, laneIndex, type: "item"}`, with no `context`;
- the board droppable: `{boardContext}`, with no `type`;
- the lane items area's droppable, `useDroppable({ id: laneId })` (`Lane.tsx:31-33`), which has no data at all (`undefined`).

`DragDrop.DragData` models these four. `onDragEnd` reads `over.data`, then `destination.type`, then `source.context.view`, so three cases throw a `TypeError`:

- a drop with no `over`. This happens before `setLaneGhost(null)`, so the ghost stays set.
- a drop over a lane items area, since `destination` is undefined. This happens after the ghost was cleared. The items area is rendered only from JSX that is commented out (`Lane.tsx:134-139`), but the model keeps the case.
- an item dropped on an item, since items carry no context.

The model keeps all three cases as a `Throws` outcome. It does not use a precondition that excludes them.

Edge cases of the code that the model keeps:

- `addItems` sets `isComplete` to the lane's flag in both directions (`Lane.tsx:96-104`): true into a marking lane, false into any other lane.
- A cap of 0 keeps the whole archive, because `slice(-0)` is `slice(0)`. The effect still calls `setBoardData`.
- A cap below -1 drops items from the front. Through the effect re-running on each length change, it empties the archive.

## Model

| member | source | states |
|---|---|---|
| `Js.SliceStart` | src/components/Kanban.tsx:152 | slice's start index: a negative start counts from the end and is clamped at 0; a non-negative start is clamped at the length |
| `Js.Slice` | src/components/Kanban.tsx:152 | `slice(start)` is a suffix of the array; its length is `min(-start, len)` for a negative start and `max(len - start, 0)` otherwise |
| `Js.SliceNegZero` | src/components/Kanban.tsx:152 | `slice(-0)` returns the whole array |
| `Js.SliceLast` | src/components/Kanban.tsx:152 | `slice(-n)` with `0 < n <= len` is exactly the last `n` elements in order |
| `Js.ContainsIff` | src/components/Item/Item.tsx:119 | the recursive `contains` holds iff the query occurs at some position of the text (both directions) |
| `DragDrop.DecideDrop` | src/DragDropApp.tsx:64-80 | a payload without data throws; otherwise different types give NoOp; a payload without a context throws; a reorder happens iff both sides are lanes of the same view at different indices; the reorder goes to the source view with source and destination indices; an item drop never reorders |
| `DragDrop.OnDragEndOutcome` | src/DragDropApp.tsx:55-80 | a missing `over` throws; otherwise the outcome is the drop decision |
| `DragDrop.SameIndexLaneDropIsNoOp` | src/DragDropApp.tsx:73-76 | a lane dropped on its own index is a NoOp, whichever contexts are involved |
| `DragDrop.LaneOnNonLaneIsNoOp` | src/DragDropApp.tsx:64-66 | a lane dropped on an item or on the board droppable is a NoOp |
| `DragDrop.DropOnItemsAreaThrows` | src/DragDropApp.tsx:58-64 | any drop over the data-less lane items area throws when `destination.type` is read, after the ghost has been cleared |
| `DragDrop.GhostOnStart` | src/DragDropApp.tsx:85-94 | drag start sets the ghost to the lane's context and index for a lane, and leaves it unchanged otherwise |
| `DragDrop.GhostOnEnd` | src/DragDropApp.tsx:56-62 | drag end clears the ghost whenever `over` is present; a missing `over` throws first and leaves it set |
| `DragDrop.CallsOf` | src/DragDropApp.tsx:79 | an outcome makes at most one call, exactly one iff it is a reorder, and that call carries the reorder's view and indices |
| `DragDrop.ApplyOutcome` | src/DragDropApp.tsx:79 | only a reorder changes a board, only the source view's board, and that board becomes `reorderLanes(from, to)` applied to it |
| `DragDrop.RejectedDropsChangeNothing` | src/DragDropApp.tsx:56-80 | every drop other than an accepted lane reorder makes no call and leaves all boards equal |
| `DragDrop.DragDropApp.constructor` | src/DragDropApp.tsx:46-47 | the ghost starts out null and no call has been made |
| `DragDrop.DragDropApp.OnDragStart` | src/DragDropApp.tsx:85-94 | the ghost becomes the dragged lane; a non-lane start changes nothing; no board call |
| `DragDrop.DragDropApp.OnDragCancel` | src/DragDropApp.tsx:82-84 | the ghost is cleared and no board call is made |
| `DragDrop.DragDropApp.OnDragEnd` | src/DragDropApp.tsx:55-81 | the outcome is the drop decision; the ghost is cleared whenever `over` is present; the call log grows by exactly the outcome's calls |
| `DragDrop.DragSession` | src/DragDropApp.tsx:55-94 | a start followed by a drop over a target leaves no ghost and adds at most one call, and only when a lane was dragged |
| `DragDrop.CancelledSession` | src/DragDropApp.tsx:82-94 | a start followed by a cancel leaves no ghost and makes no call |
| `Kanban.ArchiveTrim` | src/components/Kanban.tsx:140-157 | `setBoardData` is called iff the cap is a number other than -1 and the archive is longer than it; only the archive changes, and the new archive is a suffix of the old one; a positive cap keeps exactly the last `max` items in order; a cap of 0 keeps the board as it was; a cap below -1 drops the first `-max` items |
| `Kanban.PositiveCapSettles` | src/components/Kanban.tsx:145-157 | after a trim with a positive cap, the next run of the effect does nothing |
| `Kanban.TrimIsIdempotent` | src/components/Kanban.tsx:140-157 | for a cap of 0 or more that the archive exceeds (the cases where the effect trims and the cap is not below -1), the next run does nothing or sets the same board |
| `Kanban.SettleArchive` | src/components/Kanban.tsx:140-157 | the effect re-runs while the archive length changes; the result differs from the board only in its archive, which is a suffix of the old archive |
| `Kanban.CapBelowMinusOneEmptiesArchive` | src/components/Kanban.tsx:145-157 | with a cap below -1, re-running the effect as often as the archive is long ends with an empty archive |
| `Kanban.UnlimitedNeverTrims` | src/components/Kanban.tsx:141-143 | an absent setting or -1 never changes the board |
| `Kanban.OnClick` | src/components/Kanban.tsx:40-74 | non-anchors do nothing; an internal link opens with `newLeaf = ctrl or meta`; otherwise a tag opens the search `"tag:" + href`; otherwise an external link opens in a window; each case is stated in both directions |
| `Kanban.PreventsDefault` | src/components/Kanban.tsx:47-71 | `preventDefault` is called for exactly the three handled actions: opening an internal link, a tag search, or an external window |
| `Kanban.AttrText` | src/components/Kanban.tsx:64 | an attribute interpolated into a template literal is its text, or `"null"` when the element has no such attribute |
| `Kanban.HandledClickPreventsDefault` | src/components/Kanban.tsx:40-73 | `preventDefault` is called iff the target is an anchor with class internal-link, tag or external-link, i.e. exactly when the click is handled |
| `Kanban.PlainAnchorIsIgnored` | src/components/Kanban.tsx:43-73 | an anchor with none of the three link classes does nothing and does not prevent the default |
| `Kanban.OnMouseOver` | src/components/Kanban.tsx:24-39 | hover-link fires iff the target is an anchor with class internal-link, carrying its href and the view's path |
| `Kanban.HoverMatchesInternalClick` | src/components/Kanban.tsx:29-46 | an element gets a hover preview exactly when a click on it opens an internal link |
| `Kanban.KanbanState.constructor` | src/components/Kanban.tsx:126-132 | the state starts with the given board and an empty search query |
| `Kanban.KanbanState.Context` | src/components/Kanban.tsx:163-172 | the context carries the view, its file path and the lowercased search query |
| `Kanban.KanbanState.SetSearchQuery` | src/components/Kanban.tsx:93-95 | typing replaces the query and leaves the board alone |
| `Kanban.KanbanState.RunArchiveEffect` | src/components/Kanban.tsx:140-157 | reports whether `setBoardData` was called; the new board is the trim decision; lanes, settings and `isSearching` are unchanged |
| `ItemCard.CollapseLineBreaks` | src/components/Item/Item.tsx:41 | the normalised text contains no CR or LF and is no longer than the input |
| `ItemCard.CollapseIsScan` | src/components/Item/Item.tsx:41 | the run-based definition equals a left-to-right scan that emits one space when a run of line breaks opens |
| `ItemCard.NoBreaksUnchanged` | src/components/Item/Item.tsx:41 | a text without CR or LF is unchanged |
| `ItemCard.CollapseIdempotent` | src/components/Item/Item.tsx:41 | normalising twice equals normalising once |
| `ItemCard.RunBecomesOneSpace` | src/components/Item/Item.tsx:41 | a non-empty run of CR and LF becomes exactly one space |
| `ItemCard.CollapseConcat` | src/components/Item/Item.tsx:41 | normalisation distributes over concatenation when the cut does not split a run, so other characters keep their order |
| `ItemCard.OnContentChange` | src/components/Item/Item.tsx:38-47 | the edit makes one `updateItem` call at the card's own lane and item index, carrying the parser's item for the edited text with its line-break runs collapsed (`CollapseLineBreaks`, whose properties are the lemmas above) |
| `ItemCard.IsMatch` | src/components/Item/Item.tsx:119 | a card matches iff the query is non-empty and occurs in its search title |
| `ItemCard.ClassModifiers` | src/components/Item/Item.tsx:120-130 | the computed modifiers come first; `is-dragging` is added iff the card is dragged, right after them; with a query, `is-search-hit` is added iff the card matches and `is-search-miss` iff it does not; with no query, neither is added; nothing else is added (the length is the base plus one per condition) |
| `LaneView.ShouldMarkItemsComplete` | src/components/Lane/Lane.tsx:68 | the lane marks items iff its flag is present and true |
| `LaneView.SetComplete` | src/components/Lane/Lane.tsx:97-103 | the item's `isComplete` becomes the given flag and nothing else changes |
| `LaneView.MarkItems` | src/components/Lane/Lane.tsx:96-105 | same count and order; every item's `isComplete` is exactly the flag; every other field is unchanged |
| `LaneView.MarkItemsIdempotent` | src/components/Lane/Lane.tsx:96-104 | marking twice with one flag is marking once |
| `LaneView.LastLaneWins` | src/components/Lane/Lane.tsx:96-104 | marking with one flag and then another equals marking with the second, in both directions |
| `LaneView.AddItems` | src/components/Lane/Lane.tsx:92-109 | one `addItemsToLane` call at the lane's index; items keep their count; each item's `isComplete` is the lane's flag (false when the flag is absent); every other field is unchanged |
| `LaneView.LaneTransform` | src/components/Lane/Lane.tsx:111-114 | a transform is applied iff the lane is sorting |
| `LaneView.LaneClassList` | src/components/Lane/Lane.tsx:116-124 | the lane class comes first; `is-placeholder` is present iff the lane is dragged, and then comes second; `is-hovering` is present iff `overIndex == laneIndex`; nothing else is added (the length is one plus one per condition) |
| `LaneView.ItemsClassList` | src/components/Lane/Lane.tsx:35-39 | the items class comes first; `is-dragging-over` is present iff the area is hovered and the hovered payload is a sortable item (the only payload whose `type` is "item"); nothing else is added |
| `LaneView.GhostClassList` | src/components/Lane/Lane.tsx:156 | the ghost's class list is exactly the lane class plus `is-dragging` |
| `LaneHeaderView.ConfirmCalls` | src/components/Lane/LaneHeader.tsx:86-98 | archive, archive-items and delete each dispatch exactly their matching modifier at the lane index; no pending action dispatches nothing |
| `LaneHeaderView.ConfirmCallsInjective` | src/components/Lane/LaneHeader.tsx:86-98 | two confirmations dispatch the same call only for the same action on the same lane |
| `LaneHeaderView.Retitled` | src/components/Lane/LaneHeader.tsx:47-52 | the lane gets the new title; id, data and items are kept |
| `LaneHeaderView.RetitleRoundTrip` | src/components/Lane/LaneHeader.tsx:50 | restoring the old title gives back the original lane |
| `LaneHeaderView.LaneHeader.constructor` | src/components/Lane/LaneHeader.tsx:21-27 | the header starts out not editing and with no calls; nothing is pending, assuming `useSettingsMenu` (in `LaneMenu`, which is not part of this model) starts `confirmAction` as null |
| `LaneHeaderView.LaneHeader.ItemCount` | src/components/Lane/LaneHeader.tsx:45 | the displayed count is the lane's number of items |
| `LaneHeaderView.LaneHeader.Render` | src/components/Lane/LaneHeader.tsx:20-23 | new props keep `isEditing`, `confirmAction` and the call log |
| `LaneHeaderView.LaneHeader.OnDoubleClick` | src/components/Lane/LaneHeader.tsx:32 | double-click sets editing; nothing else changes |
| `LaneHeaderView.LaneHeader.SetEditing` | src/components/Lane/LaneHeader.tsx:25-27 | the `setIsEditing` handed to the settings menu and to the lane title (line 44) sets the editing flag to the given value and changes nothing else |
| `LaneHeaderView.LaneHeader.OnClose` | src/components/Lane/LaneHeader.tsx:57-60 | the close button clears editing; nothing else changes |
| `LaneHeaderView.LaneHeader.SetConfirmAction` | src/components/Lane/LaneHeader.tsx:25-27 | the settings menu's request becomes the pending action |
| `LaneHeaderView.LaneHeader.OnAction` | src/components/Lane/LaneHeader.tsx:86-100 | the call log grows by exactly the matching modifier call, then the pending action is cleared; editing is unchanged |
| `LaneHeaderView.LaneHeader.OnCancel` | src/components/Lane/LaneHeader.tsx:101 | cancel clears the pending action and makes no call |
| `LaneHeaderView.LaneHeader.OnTitleChange` | src/components/Lane/LaneHeader.tsx:47-52 | one `updateLane` call at the lane index, with the lane changed only in its title |

## Left out

- `reorderLanes`, `getBoardModifiers`, `getItemClassModifiers`, `view.parser.updateItem` and the helper `c`: their code is not part of this model. They appear as parameters or as recorded calls, so lane reordering and item moves are not modelled as sequence operations.
- Collision detection, sensors and the layout measuring strategy: this is dnd-kit library behaviour that the code does not configure. The hovered target, `isOver`, `isDragging`, `isSorting` and `overIndex` are inputs.
- React rendering, portals, JSX, `DragOverlay`, CSS transforms and lane width styles are not modelled. `LaneTransform` models only whether a transform is applied. `console.log` is not modelled.
- The drag overlay's lookup `view.dataBridge.data.lanes[laneGhost.laneIndex]` (`src/DragDropApp.tsx:99-108`) is rendering and is not modelled.
- Obsidian's workspace, the search plugin and `window.open` are host calls. They appear only as `ClickAction` / `HoverAction` tags.
- `toLocaleLowerCase` is locale dependent, so `KanbanState.Context` takes the lowercasing as a parameter.
- The search box's Escape key and cancel button (`Kanban.tsx:96-112`) toggle search in the host; only the query text is modelled.
- The focus effect (`Kanban.tsx:134-138`) moves DOM focus and is not modelled.
- The date and time pickers, the context menu and the double-click editing state of cards (`Item.tsx:49-78, 154-172`) are host UI and are not modelled. The same holds for the lane header's menu rendering and `LaneMenu`'s `useSettingsMenu`. Its confirm request is the `SetConfirmAction` entry point. `useSettingsMenu` and `LaneTitle` may also call `setIsEditing`; their code is not part of this model, and such a call is the `SetEditing` entry point.
- `Item.dom` is a DOM node and is not modelled. `ItemMetadata` keeps only the optional `date`, `time` (as instant numbers) and `tags`; the optional `file` and `fileMetadata` fields (`types.ts:39-40`) are host objects and are left out. The settings blob is an opaque map.
- The lane settings panel that `isEditing` shows (`LaneHeader.tsx:80`) and the confirm dialog that a pending action shows are rendering and are not modelled; only the state that decides them is.
- `Kanban.ArchiveTrim`: the cap is modelled as an integer or a non-number. Other JavaScript numbers are not modelled: with NaN or +Infinity the `archive.length > max` test fails and nothing happens; with -Infinity the slice starts past the end and the archive is emptied; a fraction is compared as it is and then truncated toward zero by `slice`.
- `Kanban.SettleArchive`: React re-runs the effect whenever `archive.length` changes. Here that is bounded by a `fuel` count of re-runs. The effect also depends on the setting value, and that dependency is not modelled.
- `Kanban.OnMouseOver`: the source path comes from `view.file.path`, which throws when the view has no file. The model takes the path as given.
- The commented-out cross-file and cross-view `onDragEnd`, with its preview mode (`src/DragDropApp.tsx:116-235`), is disabled code and is not modelled.
- `src/components/context.ts` declares an interface and the React context object `ObsidianContext`, with no behaviour. `BoardContext` keeps its `view`, `filePath` and `query` fields. `boardModifiers` and `setBoardData` are not fields of the model; their uses appear only as recorded `BoardCall` and `SetBoardCall` values.

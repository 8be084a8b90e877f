/**
 * The board view: the effect that caps the archive at the
 * "max-archive-size" setting, the link-click and hover dispatch of the
 * board's event handlers, and the board context handed to the lanes.
 */
module Kanban {
  import opened Types
  import Js

  /**
   * One run of the archive-cap effect: `None` when it returns without calling
   * `setBoardData`, otherwise the board it sets. `-1` and an absent setting
   * mean "unlimited"; the new archive is `archive.slice(-max)` with
   * JavaScript's clamping, so a positive cap keeps the latest `max` items,
   * a cap of 0 keeps everything (`slice(-0)` is `slice(0)`), and a cap below
   * -1 drops the first `-max` items.
   */
  function ArchiveTrim(board: Board, maxArchiveLength: SettingValue): (r: Option<Board>)
    ensures r.Some? <==>
              maxArchiveLength.Number? && maxArchiveLength.n != -1 &&
              |board.archive| > maxArchiveLength.n
    ensures r.Some? ==> OnlyArchiveChanged(board, r.value)
    ensures r.Some? ==> IsSuffix(r.value.archive, board.archive)
    ensures r.Some? && maxArchiveLength.n > 0 ==> |r.value.archive| == maxArchiveLength.n
    ensures r.Some? && maxArchiveLength.n == 0 ==> r.value == board
    ensures r.Some? && maxArchiveLength.n < -1 ==>
              |r.value.archive| == |board.archive| - Js.Min(-maxArchiveLength.n, |board.archive|)
  {
    match maxArchiveLength
    case Undefined => None
    case NonNumber => None
    case Number(max) =>
      if max == -1 then None
      else if |board.archive| > max then
        Some(board.(archive := Js.Slice(board.archive, max * -1)))
      else None
  }

  /** A positive cap settles after one run: running the effect again does nothing. */
  lemma PositiveCapSettles(board: Board, max: int)
    requires max > 0
    requires ArchiveTrim(board, Number(max)).Some?
    ensures ArchiveTrim(ArchiveTrim(board, Number(max)).value, Number(max)).None?
  {
  }

  /** Under any cap that is not below -1, a board the effect set is left alone by the next run. */
  lemma TrimIsIdempotent(board: Board, max: SettingValue)
    requires max.Number? && max.n >= 0 && |board.archive| > max.n
    ensures var b := ArchiveTrim(board, max).value;
            ArchiveTrim(b, max).None? || ArchiveTrim(b, max) == Some(b)
  {
  }

  /**
   * The effect re-runs while the archive length it depends on changes, at
   * most `fuel` more times. The result differs from `board` only in the
   * archive, which is a suffix of the old one.
   */
  function SettleArchive(board: Board, maxArchiveLength: SettingValue, fuel: nat): (r: Board)
    ensures OnlyArchiveChanged(board, r)
    ensures IsSuffix(r.archive, board.archive)
    decreases fuel
  {
    var t := ArchiveTrim(board, maxArchiveLength);
    if t.None? then board
    else
      var b := t.value;
      if |b.archive| != |board.archive| && fuel > 0 then
        var r := SettleArchive(b, maxArchiveLength, fuel - 1);
        SuffixOfSuffix(board.archive, b.archive, r.archive);
        r
      else b
  }

  /** `after` agrees with `before` in every field but the archive. */
  predicate OnlyArchiveChanged(before: Board, after: Board)
  {
    after.isSearching == before.isSearching && after.settings == before.settings &&
    after.lanes == before.lanes
  }

  /** `c` is the last `|c|` elements of `a`. */
  ghost predicate IsSuffix<T>(c: seq<T>, a: seq<T>)
  {
    |c| <= |a| && c == a[|a| - |c|..]
  }

  /** A suffix of a suffix is a suffix. */
  lemma SuffixOfSuffix<T>(a: seq<T>, b: seq<T>, c: seq<T>)
    requires IsSuffix(b, a) && IsSuffix(c, b)
    ensures IsSuffix(c, a)
  {
  }

  /** A cap below -1 empties the archive once the effect has re-run often enough. */
  lemma {:induction false} CapBelowMinusOneEmptiesArchive(board: Board, max: int, fuel: nat)
    requires max < -1
    requires fuel >= |board.archive|
    ensures SettleArchive(board, Number(max), fuel).archive == []
    decreases fuel
  {
    if board.archive == [] {
      SettleBelowMinusOneEmpty(board, max, fuel);
    } else {
      var b := SettleBelowMinusOneStep(board, max, fuel);
      CapBelowMinusOneEmptiesArchive(b, max, fuel - 1);
    }
  }

  /** With a cap below -1 an empty archive stays empty. */
  lemma SettleBelowMinusOneEmpty(board: Board, max: int, fuel: nat)
    requires max < -1 && board.archive == []
    ensures SettleArchive(board, Number(max), fuel).archive == []
  {
    var b := ArchiveTrim(board, Number(max)).value;
    assert |b.archive| == |board.archive|;
    assert SettleArchive(board, Number(max), fuel) == b;
  }

  /**
   * With a cap below -1 a non-empty archive always shrinks, so the effect
   * runs again on the board it set.
   */
  lemma SettleBelowMinusOneStep(board: Board, max: int, fuel: nat) returns (b: Board)
    requires max < -1 && board.archive != [] && fuel > 0
    ensures |b.archive| < |board.archive|
    ensures SettleArchive(board, Number(max), fuel).archive == SettleArchive(b, Number(max), fuel - 1).archive
  {
    b := ArchiveTrim(board, Number(max)).value;
    SettleStep(board, Number(max), fuel);
  }

  /** The effect set a board of another archive length: it runs again on that board. */
  lemma SettleStep(board: Board, maxArchiveLength: SettingValue, fuel: nat)
    requires ArchiveTrim(board, maxArchiveLength).Some?
    requires |ArchiveTrim(board, maxArchiveLength).value.archive| != |board.archive|
    requires fuel > 0
    ensures SettleArchive(board, maxArchiveLength, fuel) ==
              SettleArchive(ArchiveTrim(board, maxArchiveLength).value, maxArchiveLength, fuel - 1)
  {
  }

  /** An unlimited setting never changes the archive, however often the effect runs. */
  lemma UnlimitedNeverTrims(board: Board, fuel: nat)
    ensures SettleArchive(board, Undefined, fuel) == board
    ensures SettleArchive(board, Number(-1), fuel) == board
  {
  }

  /** A clicked or hovered element of the board. */
  datatype Element = Element(tagName: string, classes: set<string>, href: Option<string>)

  /** What a click on the board asks the host to do. */
  datatype ClickAction =
    | NoAction
      /** `workspace.openLinkText(href, filePath, newLeaf)` */
    | OpenLinkText(linktext: Option<string>, sourcePath: Option<string>, newLeaf: bool)
      /** The global-search plugin's `openGlobalSearch(query)` */
    | OpenGlobalSearch(query: string)
      /** `window.open(href, "_blank")` */
    | OpenWindow(url: Option<string>)

  /** The text a template literal gives for an attribute: `"null"` when absent. */
  function AttrText(a: Option<string>): (text: string)
    ensures a.Some? ==> text == a.value
    ensures a.None? ==> text == "null"
  {
    if a.Some? then a.value else "null"
  }

  /**
   * `onClick`: only anchors are handled; an internal link wins over a tag,
   * which wins over an external link, and any other anchor is ignored.
   * Ctrl or Meta opens an internal link in a new pane.
   */
  function OnClick(target: Element, ctrlKey: bool, metaKey: bool, filePath: Option<string>): (a: ClickAction)
    ensures target.tagName != "A" ==> a == NoAction
    ensures a.OpenLinkText? <==> target.tagName == "A" && "internal-link" in target.classes
    ensures a.OpenLinkText? ==>
              a == OpenLinkText(target.href, filePath, ctrlKey || metaKey)
    ensures a.OpenGlobalSearch? <==>
              target.tagName == "A" && "internal-link" !in target.classes && "tag" in target.classes
    ensures a.OpenGlobalSearch? ==> a.query == "tag:" + AttrText(target.href)
    ensures a.OpenWindow? <==>
              target.tagName == "A" && "internal-link" !in target.classes &&
              "tag" !in target.classes && "external-link" in target.classes
    ensures a.OpenWindow? ==> a.url == target.href
  {
    if target.tagName != "A" then NoAction
    else if "internal-link" in target.classes then
      OpenLinkText(target.href, filePath, ctrlKey || metaKey)
    else if "tag" in target.classes then
      OpenGlobalSearch("tag:" + AttrText(target.href))
    else if "external-link" in target.classes then
      OpenWindow(target.href)
    else NoAction
  }

  /** `e.preventDefault()` is called exactly when the click is handled. */
  function PreventsDefault(a: ClickAction): (p: bool)
    ensures p <==> a.OpenLinkText? || a.OpenGlobalSearch? || a.OpenWindow?
  {
    !a.NoAction?
  }

  /**
   * Every handled click calls `preventDefault`, and only those: an anchor
   * carrying one of the three link classes.
   */
  lemma HandledClickPreventsDefault(target: Element, ctrlKey: bool, metaKey: bool, filePath: Option<string>)
    ensures PreventsDefault(OnClick(target, ctrlKey, metaKey, filePath)) <==>
              target.tagName == "A" &&
              ("internal-link" in target.classes || "tag" in target.classes ||
               "external-link" in target.classes)
  {
  }

  /** A plain anchor without any of the three link classes is left to the browser. */
  lemma PlainAnchorIsIgnored(target: Element, ctrlKey: bool, metaKey: bool, filePath: Option<string>)
    requires target.tagName == "A"
    requires "internal-link" !in target.classes && "tag" !in target.classes
    requires "external-link" !in target.classes
    ensures OnClick(target, ctrlKey, metaKey, filePath) == NoAction
    ensures !PreventsDefault(OnClick(target, ctrlKey, metaKey, filePath))
  {
  }

  /** What hovering over the board asks the host to do. */
  datatype HoverAction =
    | NoHover
      /** The workspace's `"hover-link"` event */
    | HoverLink(linktext: Option<string>, sourcePath: string)

  /** `onMouseOver`: only an anchor with class `internal-link` triggers a link preview. */
  function OnMouseOver(target: Element, sourcePath: string): (h: HoverAction)
    ensures h.HoverLink? <==> target.tagName == "A" && "internal-link" in target.classes
    ensures h.HoverLink? ==> h.linktext == target.href && h.sourcePath == sourcePath
  {
    if target.tagName != "A" then NoHover
    else if "internal-link" in target.classes then HoverLink(target.href, sourcePath)
    else NoHover
  }

  /** Hovering previews exactly the anchors a click opens as internal links. */
  lemma HoverMatchesInternalClick(target: Element, ctrlKey: bool, metaKey: bool,
                                  filePath: Option<string>, sourcePath: string)
    ensures OnMouseOver(target, sourcePath).HoverLink? <==>
              OnClick(target, ctrlKey, metaKey, filePath).OpenLinkText?
  {
  }

  /**
   * The board view's state: the board it shows and the search box's text.
   * `toLocaleLowerCase` is locale-dependent and is given as `lower`.
   */
  class KanbanState {
    var boardData: Board
    var searchQuery: string
    const view: ViewId
    const filePath: Option<string>

    constructor (view: ViewId, filePath: Option<string>, board: Board)
      ensures this.view == view && this.filePath == filePath
      ensures boardData == board && searchQuery == ""
    {
      this.view := view;
      this.filePath := filePath;
      boardData := board;
      searchQuery := "";
    }

    /** The context this view provides: its id, its file and the lowercased query. */
    function Context(lower: string -> string): (ctx: BoardContext)
      reads this
      ensures ctx.view == view && ctx.filePath == filePath
      ensures ctx.query == lower(searchQuery)
    {
      BoardContext(view, filePath, lower(searchQuery))
    }

    /** Typing in the search box. */
    method SetSearchQuery(q: string)
      modifies this
      ensures searchQuery == q && boardData == old(boardData)
    {
      searchQuery := q;
    }

    /** One run of the archive-cap effect; `called` says whether `setBoardData` was called. */
    method RunArchiveEffect(maxArchiveLength: SettingValue) returns (called: bool)
      modifies this
      ensures called == ArchiveTrim(old(boardData), maxArchiveLength).Some?
      ensures called ==> boardData == ArchiveTrim(old(boardData), maxArchiveLength).value
      ensures !called ==> boardData == old(boardData)
      ensures boardData.lanes == old(boardData).lanes
      ensures boardData.settings == old(boardData).settings
      ensures boardData.isSearching == old(boardData).isSearching
      ensures searchQuery == old(searchQuery)
    {
      if maxArchiveLength.Undefined? || maxArchiveLength == Number(-1) {
        return false;
      }
      if maxArchiveLength.Number? && |boardData.archive| > maxArchiveLength.n {
        boardData := boardData.(archive := Js.Slice(boardData.archive, maxArchiveLength.n * -1));
        return true;
      }
      return false;
    }
  }
}

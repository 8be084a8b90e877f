/**
 * The card component: the newline normalisation applied when a card's text
 * is edited, search matching, and the class modifiers of the card.
 */
module ItemCard {
  import opened Types
  import Js

  predicate IsLineBreak(c: char)
  {
    c == '\r' || c == '\n'
  }

  predicate NoLineBreaks(s: string)
  {
    forall i :: 0 <= i < |s| ==> !IsLineBreak(s[i])
  }

  /** `s` without its leading run of line breaks. */
  function DropBreaks(s: string): (r: string)
    ensures |r| <= |s|
    ensures r == [] || !IsLineBreak(r[0])
    decreases |s|
  {
    if s != [] && IsLineBreak(s[0]) then DropBreaks(s[1..]) else s
  }

  /**
   * `value.replace(/[\r\n]+/g, " ")`: every maximal run of CR and LF
   * characters becomes one space.
   */
  function CollapseLineBreaks(s: string): (r: string)
    ensures NoLineBreaks(r)
    ensures |r| <= |s|
    decreases |s|
  {
    if s == [] then []
    else if IsLineBreak(s[0]) then [' '] + CollapseLineBreaks(DropBreaks(s))
    else [s[0]] + CollapseLineBreaks(s[1..])
  }

  /**
   * The regular expression's left-to-right scan, one character at a time:
   * a line break emits a space only when it opens a run (`inRun` is false).
   */
  function Scan(s: string, inRun: bool): string
    decreases |s|
  {
    if s == [] then []
    else if IsLineBreak(s[0]) then
      (if inRun then Scan(s[1..], true) else [' '] + Scan(s[1..], true))
    else [s[0]] + Scan(s[1..], false)
  }

  /** Inside a run, the scan skips the rest of the run and carries on as outside it. */
  lemma {:induction false} ScanInRun(s: string)
    ensures Scan(s, true) == Scan(DropBreaks(s), false)
    decreases |s|
  {
    if s != [] && IsLineBreak(s[0]) {
      ScanInRun(s[1..]);
    }
  }

  /** The run-collapsing definition agrees with the character-by-character scan. */
  lemma {:induction false} CollapseIsScan(s: string)
    ensures CollapseLineBreaks(s) == Scan(s, false)
    decreases |s|
  {
    if s == [] {
    } else if IsLineBreak(s[0]) {
      assert DropBreaks(s) == DropBreaks(s[1..]);
      ScanInRun(s[1..]);
      CollapseIsScan(DropBreaks(s));
    } else {
      CollapseIsScan(s[1..]);
    }
  }

  /** A text without line breaks is left as it is. */
  lemma {:induction false} NoBreaksUnchanged(s: string)
    requires NoLineBreaks(s)
    ensures CollapseLineBreaks(s) == s
    decreases |s|
  {
    if s != [] {
      assert NoLineBreaks(s[1..]);
      NoBreaksUnchanged(s[1..]);
    }
  }

  /** Normalising twice is normalising once. */
  lemma CollapseIdempotent(s: string)
    ensures CollapseLineBreaks(CollapseLineBreaks(s)) == CollapseLineBreaks(s)
  {
    NoBreaksUnchanged(CollapseLineBreaks(s));
  }

  /** A non-empty run made only of line breaks becomes exactly one space. */
  lemma {:induction false} RunBecomesOneSpace(run: string)
    requires run != [] && forall i :: 0 <= i < |run| ==> IsLineBreak(run[i])
    ensures CollapseLineBreaks(run) == " "
  {
    AllBreaksDropped(run);
  }

  /** A text made only of line breaks is one leading run. */
  lemma {:induction false} AllBreaksDropped(s: string)
    requires forall i :: 0 <= i < |s| ==> IsLineBreak(s[i])
    ensures DropBreaks(s) == []
    decreases |s|
  {
    if s != [] {
      assert forall i :: 0 <= i < |s[1..]| ==> s[1..][i] == s[i + 1];
      AllBreaksDropped(s[1..]);
    }
  }

  /** Dropping the leading run of a concatenation. */
  lemma {:induction false} DropBreaksConcat(a: string, b: string)
    requires DropBreaks(a) == [] ==> (b == [] || !IsLineBreak(b[0]))
    ensures DropBreaks(a + b) == (if DropBreaks(a) == [] then b else DropBreaks(a) + b)
    decreases |a|
  {
    if a != [] && IsLineBreak(a[0]) {
      assert (a + b)[1..] == a[1..] + b;
      DropBreaksConcat(a[1..], b);
    } else if a == [] {
      assert a + b == b;
    }
  }

  /**
   * Normalisation works piece by piece as long as no run of line breaks is
   * cut in two: every other character is kept, in order.
   */
  lemma {:induction false} CollapseConcat(a: string, b: string)
    requires !(a != [] && IsLineBreak(a[|a| - 1]) && b != [] && IsLineBreak(b[0]))
    ensures CollapseLineBreaks(a + b) == CollapseLineBreaks(a) + CollapseLineBreaks(b)
    decreases |a|, 1
  {
    if a == [] {
      assert a + b == b;
    } else if IsLineBreak(a[0]) {
      CollapseConcatRun(a, b);
    } else {
      CollapseConcatChar(a, b);
    }
  }

  /** The case of `CollapseConcat` where `a` opens with an ordinary character. */
  lemma {:induction false} CollapseConcatChar(a: string, b: string)
    requires a != [] && !IsLineBreak(a[0])
    requires !(IsLineBreak(a[|a| - 1]) && b != [] && IsLineBreak(b[0]))
    ensures CollapseLineBreaks(a + b) == CollapseLineBreaks(a) + CollapseLineBreaks(b)
    decreases |a|, 0
  {
    var tail := a[1..];
    assert a == [a[0]] + tail;
    assert a + b == [a[0]] + (tail + b);
    if tail != [] {
      assert tail[|tail| - 1] == a[|a| - 1];
    }
    CollapseConcat(tail, b);
    CollapseCons(a[0], tail);
    CollapseCons(a[0], tail + b);
    assert [a[0]] + (CollapseLineBreaks(tail) + CollapseLineBreaks(b)) ==
           ([a[0]] + CollapseLineBreaks(tail)) + CollapseLineBreaks(b);
  }

  /** An ordinary character in front is kept in front. */
  lemma CollapseCons(c: char, s: string)
    requires !IsLineBreak(c)
    ensures CollapseLineBreaks([c] + s) == [c] + CollapseLineBreaks(s)
  {
    assert ([c] + s)[1..] == s;
  }

  /** The case of `CollapseConcat` where `a` opens with a run of line breaks. */
  lemma {:induction false} CollapseConcatRun(a: string, b: string)
    requires a != [] && IsLineBreak(a[0])
    requires !(IsLineBreak(a[|a| - 1]) && b != [] && IsLineBreak(b[0]))
    ensures CollapseLineBreaks(a + b) == CollapseLineBreaks(a) + CollapseLineBreaks(b)
    decreases |a|, 0
  {
    var rest := DropBreaks(a);
    assert (a + b)[0] == a[0];
    if rest == [] {
      EmptyDropBreaks(a);
      DropBreaksConcat(a, b);
    } else {
      LastOfDropBreaks(a);
      DropBreaksConcat(a, b);
      CollapseConcat(rest, b);
    }
  }

  /** A text whose leading run is all of it consists of line breaks. */
  lemma {:induction false} EmptyDropBreaks(s: string)
    requires DropBreaks(s) == []
    ensures forall i :: 0 <= i < |s| ==> IsLineBreak(s[i])
    decreases |s|
  {
    if s != [] {
      EmptyDropBreaks(s[1..]);
      assert forall i :: 1 <= i < |s| ==> s[i] == s[1..][i - 1];
    }
  }

  /** What is left after the leading run ends as the whole text ends. */
  lemma {:induction false} LastOfDropBreaks(s: string)
    requires DropBreaks(s) != []
    ensures DropBreaks(s)[|DropBreaks(s)| - 1] == s[|s| - 1]
    decreases |s|
  {
    if IsLineBreak(s[0]) {
      LastOfDropBreaks(s[1..]);
    }
  }

  /**
   * `onContentChange`: the edited text, normalised, goes through the
   * parser's `updateItem` (given as `parseUpdate`) and is handed to the
   * board modifiers at the card's own lane and item index.
   */
  function OnContentChange(laneIndex: int, itemIndex: int, item: Item, value: string,
                           parseUpdate: (Item, string) -> Item): (call: BoardCall)
    ensures call.UpdateItem? && call.laneIndex == laneIndex && call.itemIndex == itemIndex
    ensures call.item == parseUpdate(item, CollapseLineBreaks(value))
  {
    var titleRaw := CollapseLineBreaks(value);
    UpdateItem(laneIndex, itemIndex, parseUpdate(item, titleRaw))
  }

  /** `isMatch`: the query is non-empty and occurs somewhere in the card's search title. */
  function IsMatch(query: string, item: Item): (m: bool)
    ensures m <==> query != "" && exists i :: Js.OccursAt(item.titleSearch, query, i)
  {
    Js.ContainsIff(item.titleSearch, query);
    if query != "" then Js.Contains(item.titleSearch, query) else false
  }

  /**
   * The card's class modifiers: those `getItemClassModifiers` computed
   * (`base`), then `is-dragging` while dragged, then one of `is-search-hit`
   * or `is-search-miss` while a query is active.
   */
  method ClassModifiers(base: seq<string>, isDragging: bool, query: string, item: Item)
    returns (mods: seq<string>)
    ensures |mods| >= |base| && mods[..|base|] == base
    ensures ("is-dragging" in mods[|base|..]) <==> isDragging
    ensures query == "" ==>
              "is-search-hit" !in mods[|base|..] && "is-search-miss" !in mods[|base|..]
    ensures query != "" ==>
              ("is-search-hit" in mods[|base|..] <==> IsMatch(query, item)) &&
              ("is-search-miss" in mods[|base|..] <==> !IsMatch(query, item))
    ensures |mods| == |base| + (if isDragging then 1 else 0) + (if query != "" then 1 else 0)
    ensures isDragging ==> mods[|base|] == "is-dragging"
  {
    var isMatch := IsMatch(query, item);
    ghost var added: seq<string> := [];
    mods := base;
    if isDragging {
      mods := mods + ["is-dragging"];
      added := added + ["is-dragging"];
    }
    if query != "" {
      if isMatch {
        mods := mods + ["is-search-hit"];
        added := added + ["is-search-hit"];
      } else {
        mods := mods + ["is-search-miss"];
        added := added + ["is-search-miss"];
      }
    }
    assert mods == base + added && mods[|base|..] == added;
  }
}

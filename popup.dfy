/**
 * The key preview popups (`KeyPopup`): a single-character bubble, and a row of
 * long-press options with one of them highlighted. The views of the row are
 * reduced to their text and highlight; where they sit on screen is handed to
 * `SelectByTouchX` by the caller, as the layout engine measured it.
 */
module Popup {
  import opened Wrappers

  /** One option of the multi row: its text and whether it is drawn at full alpha. */
  datatype OptionView = OptionView(text: string, highlighted: bool)

  /** The measured row: its left edge on screen, its width, and each option's left edge and width
      inside it. */
  datatype RowGeometry = RowGeometry(rowLeft: int, rowWidth: nat, lefts: seq<int>, widths: seq<nat>)

  /** Kotlin's `coerceIn(lo, hi)`. */
  function Clamp(v: int, lo: int, hi: int): (c: int)
    requires lo <= hi
    ensures lo <= c <= hi
    ensures lo <= v <= hi ==> c == v
    ensures v < lo ==> c == lo
    ensures v > hi ==> c == hi
  {
    if v < lo then lo else if v > hi then hi else v
  }

  function Abs(x: int): nat {
    if x < 0 then -x else x
  }

  /** Exactly the option at `i` is highlighted (and `i` may be out of range, then none is). */
  predicate HighlightsOnly(views: seq<OptionView>, i: int) {
    forall j :: 0 <= j < |views| ==> views[j].highlighted == (j == i)
  }

  function Texts(views: seq<OptionView>): (ts: seq<string>)
    ensures |ts| == |views|
  {
    seq(|views|, j requires 0 <= j < |views| => views[j].text)
  }

  /** The views with the highlight moved to `i`. */
  function Highlight(views: seq<OptionView>, i: int): (vs: seq<OptionView>)
    ensures Texts(vs) == Texts(views) && HighlightsOnly(vs, i)
  {
    seq(|views|, j requires 0 <= j < |views| => OptionView(views[j].text, j == i))
  }

  /** The argmin loop of `selectByTouchX`: the index whose centre is nearest to `x`, the earliest one on a
      tie (the comparison is strict), `fallback` when there are no options. Centres and `x` are doubled
      so that the half-pixel centres stay integers. */
  method NearestIndex(centres: seq<int>, x: int, fallback: int) returns (best: int)
    ensures |centres| == 0 ==> best == fallback
    ensures |centres| > 0 ==> 0 <= best < |centres|
    ensures |centres| > 0 ==> forall j :: 0 <= j < |centres| ==> Abs(centres[best] - x) <= Abs(centres[j] - x)
    ensures |centres| > 0 ==> forall j :: 0 <= j < best ==> Abs(centres[j] - x) > Abs(centres[best] - x)
  {
    best := fallback;
    var bestDist := 0;
    var idx := 0;
    while idx < |centres|
      invariant 0 <= idx <= |centres|
      invariant idx == 0 ==> best == fallback
      invariant idx > 0 ==> 0 <= best < idx && bestDist == Abs(centres[best] - x)
      invariant idx > 0 ==> forall j :: 0 <= j < idx ==> bestDist <= Abs(centres[j] - x)
      invariant idx > 0 ==> forall j :: 0 <= j < best ==> Abs(centres[j] - x) > bestDist
    {
      var d := Abs(centres[idx] - x);
      // bestDist starts at Float.MAX_VALUE, which every finite distance is below
      if idx == 0 || d < bestDist {
        bestDist := d;
        best := idx;
      }
      idx := idx + 1;
    }
  }

  /** The example of three options centred at 10, 30 and 50: a touch at 28 picks the middle one,
      a touch at 20, equally far from the first two, picks the first. */
  method NearestExamples() returns (at28: int, at20: int)
    ensures at28 == 1 && at20 == 0
  {
    var centres := [20, 60, 100];
    at28 := NearestIndex(centres, 56, 0);
    assert Abs(centres[1] - 56) < Abs(centres[0] - 56) && Abs(centres[1] - 56) < Abs(centres[2] - 56);
    at20 := NearestIndex(centres, 40, 2);
    assert Abs(centres[0] - 40) == Abs(centres[1] - 40) < Abs(centres[2] - 40);
  }

  /** Doubled centre of option `i` in the row, and the doubled touch position clamped into the row. */
  function Centre(g: RowGeometry, i: nat): (c: int)
    requires i < |g.lefts| && i < |g.widths|
    ensures 2 * g.lefts[i] <= c <= 2 * (g.lefts[i] + g.widths[i])
    ensures c - 2 * g.lefts[i] == 2 * (g.lefts[i] + g.widths[i]) - c
  {
    2 * g.lefts[i] + g.widths[i]
  }

  function TouchInRow(g: RowGeometry, rawX: int): int {
    2 * Clamp(rawX - g.rowLeft, 0, g.rowWidth)
  }

  /** Option `i` of `n` is the one nearest to the touch, and no earlier option is as near. */
  predicate IsNearest(g: RowGeometry, rawX: int, n: nat, i: int)
    requires n <= |g.lefts| && n <= |g.widths|
  {
    && 0 <= i < n
    && (forall j :: 0 <= j < n ==> Abs(Centre(g, i) - TouchInRow(g, rawX)) <= Abs(Centre(g, j) - TouchInRow(g, rawX)))
    && (forall j :: 0 <= j < i ==> Abs(Centre(g, j) - TouchInRow(g, rawX)) > Abs(Centre(g, i) - TouchInRow(g, rawX)))
  }

  class KeyPopup {
    /** The text of the single-character bubble (`singlePopup`/`singleTv`), None when it is hidden. */
    var singleText: Option<string>
    /** The multi row is on screen (`multiPopup` and `optionsRow` are set). */
    var multiShown: bool
    var optionViews: seq<OptionView>
    var selectedIndex: int

    /** At most one kind of preview is live; a shown row has a selected, and only that, highlighted option. */
    ghost predicate Valid()
      reads this
    {
      && (multiShown ==> 0 <= selectedIndex < |optionViews| && HighlightsOnly(optionViews, selectedIndex))
      && (!multiShown ==> optionViews == [])
      && !(multiShown && singleText.Some?)
    }

    constructor ()
      ensures Valid() && singleText == None && !multiShown && optionViews == [] && selectedIndex == 0
    {
      singleText, multiShown, optionViews, selectedIndex := None, false, [], 0;
    }

    function Options(): seq<string>
      reads this
    {
      Texts(optionViews)
    }

    /** `getSelected`: the text of the option at `selectedIndex`, or null when there is none. */
    function GetSelected(): (s: Option<string>)
      reads this
      ensures s.Some? <==> 0 <= selectedIndex < |optionViews|
      ensures s.Some? ==> s.value == Options()[selectedIndex]
    {
      if 0 <= selectedIndex < |optionViews| then Some(optionViews[selectedIndex].text) else None
    }

    /** `hideAll`: both popups dismissed and the option list emptied; `selectedIndex` keeps its value. */
    method HideAll()
      modifies this
      ensures Valid()
      ensures singleText == None && !multiShown && optionViews == [] && selectedIndex == old(selectedIndex)
      ensures GetSelected() == None
    {
      singleText := None;
      multiShown := false;
      optionViews := [];
    }

    /** `showSingle`: hides everything, then shows the bubble with `text`. */
    method ShowSingle(text: string)
      modifies this
      ensures Valid()
      ensures singleText == Some(text) && !multiShown && optionViews == [] && selectedIndex == old(selectedIndex)
    {
      HideAll();
      singleText := Some(text);
    }

    /** `updateSingle`: changes the bubble's text if the bubble is there. */
    method UpdateSingle(text: string)
      requires Valid()
      modifies this
      ensures Valid()
      ensures singleText == if old(singleText).Some? then Some(text) else None
      ensures multiShown == old(multiShown) && optionViews == old(optionViews) && selectedIndex == old(selectedIndex)
    {
      if singleText.Some? {
        singleText := Some(text);
      }
    }

    /** `showMulti`: hides everything, then shows the options with the clamped initial index highlighted.
        `coerceIn(0, options.lastIndex)` throws on an empty list, so the options are never empty. */
    method ShowMulti(options: seq<string>, initialIndex: int)
      requires |options| > 0
      modifies this
      ensures Valid()
      ensures multiShown && singleText == None
      ensures Options() == options
      ensures selectedIndex == Clamp(initialIndex, 0, |options| - 1)
      ensures HighlightsOnly(optionViews, selectedIndex)
      ensures GetSelected() == Some(options[selectedIndex])
    {
      HideAll();
      var sel := Clamp(initialIndex, 0, |options| - 1);
      var views := seq(|options|, i requires 0 <= i < |options| => OptionView(options[i], i == sel));
      assert Texts(views) == options;
      selectedIndex, optionViews, multiShown := sel, views, true;
    }

    /** `selectByTouchX`: without a row, returns `selectedIndex` and changes nothing; otherwise clamps the
        touch into the row, selects and highlights the option whose centre is nearest, and returns it. */
    method SelectByTouchX(rawX: int, g: RowGeometry) returns (index: int)
      requires Valid()
      requires multiShown ==> |g.lefts| == |optionViews| && |g.widths| == |optionViews|
      modifies this
      ensures Valid()
      ensures !old(multiShown) ==>
        && index == old(selectedIndex)
        && singleText == old(singleText) && !multiShown && optionViews == old(optionViews) && selectedIndex == old(selectedIndex)
      ensures old(multiShown) ==>
        && multiShown && singleText == old(singleText) && Options() == old(Options())
        && index == selectedIndex && HighlightsOnly(optionViews, index)
        && IsNearest(g, rawX, |optionViews|, index)
    {
      if !multiShown {
        return selectedIndex;
      }
      var xLocal := Clamp(rawX - g.rowLeft, 0, g.rowWidth);
      var n := |optionViews|;
      var centres := seq(n, i requires 0 <= i < n => 2 * g.lefts[i] + g.widths[i]);
      var best := NearestIndex(centres, 2 * xLocal, selectedIndex);
      assert forall j :: 0 <= j < n ==> centres[j] == Centre(g, j);
      optionViews := Highlight(optionViews, best);
      selectedIndex := best;
      return best;
    }
  }
}

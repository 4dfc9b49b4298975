/** The 3x3 grid of main.py: a dictionary from cell number 1..9 to the
    string shown for that cell, copied fresh from the base layout for every
    game and updated in place by place_mark. */
module Grid {

  /** The initial grid. Cells 3 and 6 end their row with a line break, and
      cell 1 carries a leading space so that the three rendered rows line up. */
  const BaseLayout: map<int, string> := map[
    1 := " []", 2 := "[]", 3 := "[]\n",
    4 := "[]",  5 := "[]", 6 := "[]\n",
    7 := "[]",  8 := "[]", 9 := "[]"]

  /** Cell numbers of the grid, row-major. */
  predicate IsCell(k: int) {
    1 <= k <= 9
  }

  predicate EndsWithNewline(s: string) {
    |s| > 0 && s[|s| - 1] == '\n'
  }

  /** Python's `s.rstrip("\n")`: every trailing line break is removed. */
  function StripNewlines(s: string): (r: string)
    ensures |r| <= |s| && r == s[..|r|]
    ensures forall i :: |r| <= i < |s| ==> s[i] == '\n'
    ensures !EndsWithNewline(r)
    decreases |s|
  {
    if EndsWithNewline(s) then StripNewlines(s[..|s| - 1]) else s
  }

  /** The string place_mark writes into cell `position` for `mark`. */
  function Stored(position: int, mark: string): string {
    if position == 3 || position == 6 then mark + "\n" else mark
  }

  /** A grid whose keys are exactly the nine cells and whose line breaks
      sit exactly after cells 3 and 6. */
  ghost predicate WellFormed(layout: map<int, string>) {
    (forall k :: k in layout <==> IsCell(k)) &&
    (forall k :: k in layout ==> (EndsWithNewline(layout[k]) <==> k == 3 || k == 6))
  }

  /** The dictionary object the game mutates. */
  class Layout {
    var cells: map<int, string>

    /** `base_layout.copy()` */
    constructor Copy()
      ensures cells == BaseLayout
    {
      cells := BaseLayout;
    }
  }

  /** place_mark: overwrite one cell of the grid, in place. */
  method PlaceMark(position: int, layout: Layout, mark: string)
    modifies layout
    ensures layout.cells == old(layout.cells)[position := Stored(position, mark)]
    ensures layout.cells.Keys == old(layout.cells).Keys + {position}
    ensures forall k :: k in old(layout.cells) && k != position ==> layout.cells[k] == old(layout.cells)[k]
  {
    if position == 3 || position == 6 {
      layout.cells := layout.cells[position := mark + "\n"];
    } else {
      layout.cells := layout.cells[position := mark];
    }
  }

  /** Reading a placed mark back through rstrip("\n") gives the mark itself,
      whichever cell it went into; the line break is added exactly for 3 and 6. */
  lemma StoredReadsBack(position: int, mark: string)
    requires !EndsWithNewline(mark)
    ensures StripNewlines(Stored(position, mark)) == mark
    ensures EndsWithNewline(Stored(position, mark)) <==> position == 3 || position == 6
  {
    if position == 3 || position == 6 {
      var s := mark + "\n";
      assert EndsWithNewline(s);
      assert s[..|s| - 1] == mark;
    }
  }

  /** The base layout is well formed, and no cell of it reads back as a
      mark other than the two empty-cell strings. */
  lemma BaseLayoutFacts()
    ensures WellFormed(BaseLayout)
    ensures forall k :: k in BaseLayout ==> StripNewlines(BaseLayout[k]) == " []" || StripNewlines(BaseLayout[k]) == "[]"
  {
    assert StripNewlines("[]\n") == "[]" by { StoredReadsBack(3, "[]"); }
    assert StripNewlines("[]") == "[]" by { StoredReadsBack(1, "[]"); }
    assert StripNewlines(" []") == " []" by { StoredReadsBack(1, " []"); }
  }

  /** place_mark keeps the grid well formed for a mark without a line break,
      and leaves every other cell as it was. */
  lemma PlacePreservesWellFormed(layout: map<int, string>, position: int, mark: string)
    requires WellFormed(layout) && IsCell(position) && !EndsWithNewline(mark)
    ensures WellFormed(layout[position := Stored(position, mark)])
    ensures StripNewlines(layout[position := Stored(position, mark)][position]) == mark
  {
    StoredReadsBack(position, mark);
  }
}

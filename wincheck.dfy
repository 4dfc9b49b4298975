/** check_win of main.py: does one player hold a full row, column or diagonal? */
module WinCheck {
  import opened Grid

  /** The eight winning lines, in the order check_win tries them:
      the two diagonals, the three columns, the three rows. */
  const PossibleWins: seq<seq<int>> := [
    [1, 5, 9], [3, 5, 7],
    [1, 4, 7], [2, 5, 8], [3, 6, 9],
    [1, 2, 3], [4, 5, 6], [7, 8, 9]]

  /** Cell `k` is one of those check_win collects for `mark`: its string,
      with trailing line breaks stripped, is the mark. */
  predicate Holds(layout: map<int, string>, k: int, mark: string) {
    k in layout && StripNewlines(layout[k]) == mark
  }

  /** Every cell of `line` is held by `mark`. */
  predicate LineHeld(layout: map<int, string>, line: seq<int>, mark: string) {
    forall j :: 0 <= j < |line| ==> Holds(layout, line[j], mark)
  }

  /** Some winning line is held entirely by `mark`. */
  predicate HasWon(layout: map<int, string>, mark: string) {
    exists i :: 0 <= i < |PossibleWins| && LineHeld(layout, PossibleWins[i], mark)
  }

  /** check_win: collect the cells holding `mark`, visiting the cells in
      the dictionary's key order 1..9, then look for a winning line all of
      whose cells were collected. */
  method CheckWin(layout: map<int, string>, mark: string) returns (won: bool)
    ensures won <==> HasWon(layout, mark)
  {
    var cellsFilled: seq<int> := [];
    for num := 1 to 10
      invariant forall k :: k in cellsFilled <==> 1 <= k < num && Holds(layout, k, mark)
    {
      if num in layout && StripNewlines(layout[num]) == mark {
        cellsFilled := cellsFilled + [num];
      }
    }
    var w := 0;
    while w < |PossibleWins|
      invariant 0 <= w <= |PossibleWins|
      invariant forall i :: 0 <= i < w ==> !LineHeld(layout, PossibleWins[i], mark)
    {
      var win := PossibleWins[w];
      if forall j :: 0 <= j < |win| ==> win[j] in cellsFilled {
        assert LineHeld(layout, PossibleWins[w], mark);
        return true;
      }
      w := w + 1;
    }
    return false;
  }

  /** Each winning line is three distinct cells of the grid. */
  lemma LineShape(w: int)
    requires 0 <= w < |PossibleWins|
    ensures |PossibleWins[w]| == 3
    ensures forall j :: 0 <= j < 3 ==> IsCell(PossibleWins[w][j])
    ensures PossibleWins[w][0] != PossibleWins[w][1] && PossibleWins[w][1] != PossibleWins[w][2] && PossibleWins[w][0] != PossibleWins[w][2]
  {
  }

  /** Placing `mark` into the last free cell of a line whose other two cells
      it already holds is reported as a win at once, whatever the rest of
      the grid holds. */
  lemma CompletingMoveWins(layout: map<int, string>, i: int, position: int, mark: string)
    requires 0 <= i < |PossibleWins| && position in PossibleWins[i]
    requires forall j :: 0 <= j < 3 && PossibleWins[i][j] != position ==> Holds(layout, PossibleWins[i][j], mark)
    requires !EndsWithNewline(mark)
    ensures HasWon(layout[position := Stored(position, mark)], mark)
  {
    StoredReadsBack(position, mark);
    assert LineHeld(layout[position := Stored(position, mark)], PossibleWins[i], mark);
  }

  /** Whether `mark` has won depends only on which cells hold it. */
  lemma HasWonFromHeldCells(a: map<int, string>, b: map<int, string>, mark: string)
    requires forall k :: 1 <= k <= 9 ==> (Holds(a, k, mark) <==> Holds(b, k, mark))
    ensures HasWon(a, mark) <==> HasWon(b, mark)
  {
    if HasWon(a, mark) {
      var i :| 0 <= i < |PossibleWins| && LineHeld(a, PossibleWins[i], mark);
      LineShape(i);
      LineCarries(a, b, mark, PossibleWins[i]);
    }
    if HasWon(b, mark) {
      var i :| 0 <= i < |PossibleWins| && LineHeld(b, PossibleWins[i], mark);
      LineShape(i);
      LineCarries(b, a, mark, PossibleWins[i]);
    }
  }

  /** A line of grid cells held in `a` is held in `b` when `b` holds every
      cell `a` does. */
  lemma LineCarries(a: map<int, string>, b: map<int, string>, mark: string, line: seq<int>)
    requires forall k :: 1 <= k <= 9 ==> (Holds(a, k, mark) ==> Holds(b, k, mark))
    requires forall j :: 0 <= j < |line| ==> IsCell(line[j])
    requires LineHeld(a, line, mark)
    ensures LineHeld(b, line, mark)
  {
  }

  /** The empty cells " []", "[]" and "[]\n" never count for a real mark:
      on a fresh grid nobody holds a cell, and nobody has won. */
  lemma EmptyCellsNeverCount(mark: string)
    requires mark != "[]" && mark != " []"
    ensures forall k :: !Holds(BaseLayout, k, mark)
    ensures !HasWon(BaseLayout, mark)
  {
    BaseLayoutFacts();
    forall i | 0 <= i < |PossibleWins| ensures !LineHeld(BaseLayout, PossibleWins[i], mark) {
      assert !Holds(BaseLayout, PossibleWins[i][0], mark);
    }
  }

  /** check_win compares strings, so asked about the empty-cell string "[]"
      it reports the untouched middle column of a fresh grid as a win. The
      game only ever asks about "[X]" and "[O]". */
  lemma EmptyStringWinsOnFreshGrid()
    ensures HasWon(BaseLayout, "[]")
  {
    BaseLayoutFacts();
    assert LineHeld(BaseLayout, PossibleWins[3], "[]");
  }
}

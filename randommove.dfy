/** random_choice of main.py: the computer's move, drawn by rejection
    sampling. Each call of random.randint(1, 9) is taken from a supplied
    stream of draws, so the chooser is a function of that stream. */
module RandomMove {

  /** A value random.randint(1, 9) can return. */
  type Draw = d: int | 1 <= d <= 9 witness 1

  /** The outcome of the rejection loop: the cell chosen and how many draws
      it consumed, or the stream ran out before a free cell came up. */
  datatype Choice = Picked(cell: int, used: nat) | Exhausted

  /** The first draw that is not a taken cell. */
  function FirstFree(draws: seq<Draw>, cellsTaken: seq<int>): (c: Choice)
    ensures c.Picked? ==> 1 <= c.used <= |draws| && c.cell == draws[c.used - 1]
    ensures c.Picked? ==> 1 <= c.cell <= 9 && c.cell !in cellsTaken
    ensures c.Picked? ==> forall j :: 0 <= j < c.used - 1 ==> draws[j] in cellsTaken
    ensures c.Exhausted? <==> forall j :: 0 <= j < |draws| ==> draws[j] in cellsTaken
    decreases |draws|
  {
    if |draws| == 0 then Exhausted
    else if draws[0] !in cellsTaken then Picked(draws[0], 1)
    else match FirstFree(draws[1..], cellsTaken)
      case Picked(cell, used) => Picked(cell, used + 1)
      case Exhausted => Exhausted
  }

  /** random_choice: draw, and draw again while the cell is taken. */
  method RandomChoice(cellsTaken: seq<int>, draws: seq<Draw>) returns (c: Choice)
    ensures c == FirstFree(draws, cellsTaken)
    ensures c.Picked? ==> 1 <= c.cell <= 9 && c.cell !in cellsTaken
  {
    if |draws| == 0 {
      return Exhausted;
    }
    var choice := draws[0];
    var used := 1;
    while choice in cellsTaken
      invariant 1 <= used <= |draws| && choice == draws[used - 1]
      invariant forall j :: 0 <= j < used - 1 ==> draws[j] in cellsTaken
      decreases |draws| - used
    {
      if used == |draws| {
        return Exhausted;
      }
      choice := draws[used];
      used := used + 1;
    }
    FirstFreeIsFirst(draws, cellsTaken, used - 1);
    return Picked(choice, used);
  }

  /** The choice is fixed by the position of the first free draw. */
  lemma FirstFreeIsFirst(draws: seq<Draw>, cellsTaken: seq<int>, n: nat)
    requires n < |draws| && draws[n] !in cellsTaken
    requires forall j :: 0 <= j < n ==> draws[j] in cellsTaken
    ensures FirstFree(draws, cellsTaken) == Picked(draws[n], n + 1)
  {
  }

  /** On a grid whose every cell is taken no draw is ever accepted: the loop
      could only end by running out of draws. This is why the game never
      asks for the computer's move on a full grid. */
  lemma FullGridNeverPicks(draws: seq<Draw>, cellsTaken: seq<int>)
    requires forall k :: 1 <= k <= 9 ==> k in cellsTaken
    ensures FirstFree(draws, cellsTaken) == Exhausted
  {
  }

  /** Once a free cell is drawn, the loop stops on the first such draw.
      Example: with 5 taken, the draws 5, 5, 2 give cell 2 after three draws. */
  lemma StopsAtRepeatedTaken()
    ensures FirstFree([5, 5, 2], [5]) == Picked(2, 3)
  {
  }
}

/** single_game and multi_game of main.py: one loop of turns in which X
    moves, X's win is checked, a full grid ends the game, then O moves and
    O's win is checked. The two entry points differ only in where O's move
    comes from, so both are one loop parameterised by the second mover. */
module Game {
  import opened Util
  import opened Grid
  import opened WinCheck
  import opened Input
  import opened RandomMove

  const MarkX := "[X]"
  const MarkO := "[O]"

  /** single_game (O is the computer) or multi_game (O is a second person). */
  datatype Mode = SinglePlayer | MultiPlayer

  /** Where a move comes from: a line typed at the prompt, or random_choice. */
  datatype Mover = Human | Computer

  datatype Outcome = FirstPlayerWin | SecondPlayerWin | Tie

  /** How the game ends: the string the game returns, or Stalled when the
      input lines (or the random draws) run out before the game is over,
      where Python would raise EOFError. */
  datatype Ending = Over(result: string) | Stalled

  function SecondMover(mode: Mode): Mover {
    if mode == SinglePlayer then Computer else Human
  }

  /** The strings the two games return. */
  function Label(mode: Mode, outcome: Outcome): string {
    match (mode, outcome)
    case (SinglePlayer, FirstPlayerWin) => "user"
    case (SinglePlayer, SecondPlayerWin) => "ai"
    case (MultiPlayer, FirstPlayerWin) => "player1"
    case (MultiPlayer, SecondPlayerWin) => "player2"
    case (_, Tie) => "tie"
  }

  /** The mark of the placement with 0-based number `k`: X moves first and
      the players alternate. */
  function MarkOf(k: nat): string {
    if k % 2 == 0 then MarkX else MarkO
  }

  predicate InRange(s: seq<int>) {
    forall i :: 0 <= i < |s| ==> 1 <= s[i] <= 9
  }

  /** A possible `cells_taken`: cell numbers, none twice. */
  predicate Legal(s: seq<int>) {
    Distinct(s) && InRange(s)
  }

  /** The grid after placing `moves` in order on a fresh copy of the base
      layout, with alternating marks. */
  function Replay(moves: seq<int>): map<int, string>
    decreases |moves|
  {
    if moves == [] then BaseLayout
    else
      var k := |moves| - 1;
      Replay(moves[..k])[moves[k] := Stored(moves[k], MarkOf(k))]
  }

  /** A move and what is left of the inputs and the draws after it. */
  datatype Move = Move(cell: int, stdin: seq<string>, rng: seq<Draw>)

  /** One move: for a person, the prompt's input() line followed by
      handle_input's re-prompts; for the computer, random_choice. */
  function Turn(mover: Mover, stdin: seq<string>, rng: seq<Draw>, cellsTaken: seq<int>): (m: Option<Move>)
    ensures m.Some? ==> 1 <= m.value.cell <= 9 && m.value.cell !in cellsTaken
    ensures m.Some? && mover == Human ==> m.value.rng == rng && |m.value.stdin| < |stdin|
    ensures m.Some? && mover == Computer ==> m.value.stdin == stdin && |m.value.rng| < |rng|
  {
    match mover
    case Human =>
      (match Validate(stdin, cellsTaken)
       case EndOfInput => None
       case Chosen(cell, read) => Some(Move(cell, stdin[read + 1..], rng)))
    case Computer =>
      match FirstFree(rng, cellsTaken)
      case Exhausted => None
      case Picked(cell, used) => Some(Move(cell, stdin, rng[used..]))
  }

  /** The game loop from its head, with `taken` placed so far: while
      fewer than nine cells are taken, X moves. Gives the ending and the
      final `cells_taken`. */
  function Round(mode: Mode, taken: seq<int>, stdin: seq<string>, rng: seq<Draw>): (r: (Ending, seq<int>))
    requires Legal(taken)
    ensures taken <= r.1 && Legal(r.1)
    ensures |taken| <= 9 ==> |r.1| <= 9
    ensures r.0.Over? ==> r.0.result in {Label(mode, FirstPlayerWin), Label(mode, SecondPlayerWin), Label(mode, Tie)}
    decreases 9 - |taken|, 0
  {
    if |taken| >= 9 then (Over(Label(mode, Tie)), taken)
    else match Turn(Human, stdin, rng, taken)
      case None => (Stalled, taken)
      case Some(x) => AfterFirst(mode, taken + [x.cell], x.stdin, x.rng)
  }

  /** After X's placement: X's win check, then the full-grid break, then
      O moves. */
  function AfterFirst(mode: Mode, t1: seq<int>, stdin: seq<string>, rng: seq<Draw>): (r: (Ending, seq<int>))
    requires Legal(t1) && |t1| <= 9
    ensures t1 <= r.1 && Legal(r.1) && |r.1| <= 9
    ensures r.0.Over? ==> r.0.result in {Label(mode, FirstPlayerWin), Label(mode, SecondPlayerWin), Label(mode, Tie)}
    decreases 9 - |t1|, 2
  {
    if HasWon(Replay(t1), MarkX) then (Over(Label(mode, FirstPlayerWin)), t1)
    else if |t1| == 9 then (Over(Label(mode, Tie)), t1)
    else match Turn(SecondMover(mode), stdin, rng, t1)
      case None => (Stalled, t1)
      case Some(o) => AfterSecond(mode, t1 + [o.cell], o.stdin, o.rng)
  }

  /** After O's placement: O's win check, then the next iteration. */
  function AfterSecond(mode: Mode, t2: seq<int>, stdin: seq<string>, rng: seq<Draw>): (r: (Ending, seq<int>))
    requires Legal(t2)
    ensures t2 <= r.1 && Legal(r.1)
    ensures |t2| <= 9 ==> |r.1| <= 9
    ensures r.0.Over? ==> r.0.result in {Label(mode, FirstPlayerWin), Label(mode, SecondPlayerWin), Label(mode, Tie)}
    decreases 9 - |t2|, 1
  {
    if HasWon(Replay(t2), MarkO) then (Over(Label(mode, SecondPlayerWin)), t2)
    else Round(mode, t2, stdin, rng)
  }

  /** The player of placement `k` (1-based) holds a line right after it. */
  ghost predicate WinsAt(moves: seq<int>, k: nat)
    requires 1 <= k <= |moves|
  {
    HasWon(Replay(moves[..k]), MarkOf(k - 1))
  }

  /** No placement of `moves` gave its player a line. */
  ghost predicate Quiet(moves: seq<int>) {
    forall k :: 1 <= k <= |moves| ==> !WinsAt(moves, k)
  }

  /** The game loop, as single_game and multi_game run it: a fresh grid,
      an empty `cells_taken`, and the turns taken from `inputs` (every line
      either player types, in order) and `draws` (the computer's calls of
      random.randint). */
  method PlayGame(mode: Mode, inputs: seq<string>, draws: seq<Draw>) returns (ending: Ending, cellsTaken: seq<int>)
    ensures (ending, cellsTaken) == Round(mode, [], inputs, draws)
  {
    ghost var target := Round(mode, [], inputs, draws);
    var grid := new Layout.Copy();
    cellsTaken := [];
    var stdin, rng := inputs, draws;
    while |cellsTaken| < 9
      invariant Legal(cellsTaken)
      invariant grid.cells == Replay(cellsTaken)
      invariant Round(mode, cellsTaken, stdin, rng) == target
      decreases 9 - |cellsTaken|
    {
      // X's turn
      var x := MoveAndPlace(Human, grid, cellsTaken, stdin, rng);
      if x.None? {
        return Stalled, cellsTaken;
      }
      cellsTaken := cellsTaken + [x.value.cell];
      stdin, rng := x.value.stdin, x.value.rng;
      assert AfterFirst(mode, cellsTaken, stdin, rng) == target;
      var won := CheckWin(grid.cells, MarkX);
      if won {
        return Over(Label(mode, FirstPlayerWin)), cellsTaken;
      }
      // a full grid ends the game before O is asked to move
      if |cellsTaken| == 9 {
        break;
      }
      // O's turn
      var o := MoveAndPlace(SecondMover(mode), grid, cellsTaken, stdin, rng);
      if o.None? {
        return Stalled, cellsTaken;
      }
      cellsTaken := cellsTaken + [o.value.cell];
      stdin, rng := o.value.stdin, o.value.rng;
      assert AfterSecond(mode, cellsTaken, stdin, rng) == target;
      won := CheckWin(grid.cells, MarkO);
      if won {
        return Over(Label(mode, SecondPlayerWin)), cellsTaken;
      }
    }
    return Over(Label(mode, Tie)), cellsTaken;
  }

  /** single_game: the user is X and types every X move; the computer is O
      and takes its moves from `draws`. */
  method SingleGame(inputs: seq<string>, draws: seq<Draw>) returns (ending: Ending, cellsTaken: seq<int>)
    ensures (ending, cellsTaken) == Round(SinglePlayer, [], inputs, draws)
    ensures Rules(SinglePlayer, ending, cellsTaken)
    ensures ending.Over? ==> ending.result in {"user", "ai", "tie"}
  {
    ending, cellsTaken := PlayGame(SinglePlayer, inputs, draws);
    GameFollowsRules(SinglePlayer, inputs, draws);
  }

  /** multi_game: the two players are prompted in turn ("Player 1's turn",
      "Player 2's turn") but read the same standard input, so their lines
      come from one shared sequence, and no draw is made. */
  method MultiGame(inputs: seq<string>) returns (ending: Ending, cellsTaken: seq<int>)
    ensures (ending, cellsTaken) == Round(MultiPlayer, [], inputs, [])
    ensures Rules(MultiPlayer, ending, cellsTaken)
    ensures ending.Over? ==> ending.result in {"player1", "player2", "tie"}
  {
    ending, cellsTaken := PlayGame(MultiPlayer, inputs, []);
    GameFollowsRules(MultiPlayer, inputs, []);
  }

  /** One half-turn of the loop: the move is read or drawn, then place_mark
      writes the mover's mark (X for an even number of earlier placements,
      O otherwise) into the grid. */
  method MoveAndPlace(mover: Mover, grid: Layout, cellsTaken: seq<int>, stdin: seq<string>, rng: seq<Draw>) returns (m: Option<Move>)
    requires Legal(cellsTaken) && grid.cells == Replay(cellsTaken)
    modifies grid
    ensures m == Turn(mover, stdin, rng, cellsTaken)
    ensures m.None? ==> grid.cells == old(grid.cells)
    ensures m.Some? ==> Legal(cellsTaken + [m.value.cell]) && grid.cells == Replay(cellsTaken + [m.value.cell])
  {
    m := TakeTurn(mover, stdin, rng, cellsTaken);
    if m.Some? {
      ReplayAppend(cellsTaken, m.value.cell);
      LegalExtend(cellsTaken, m.value.cell);
      PlaceMark(m.value.cell, grid, MarkOf(|cellsTaken|));
    }
  }

  /** One move read from the inputs or drawn. */
  method TakeTurn(mover: Mover, stdin: seq<string>, rng: seq<Draw>, cellsTaken: seq<int>) returns (m: Option<Move>)
    ensures m == Turn(mover, stdin, rng, cellsTaken)
  {
    match mover
    case Human =>
      if |stdin| == 0 {
        return None;
      }
      var reply := HandleInput(stdin[0], cellsTaken, stdin[1..]);
      assert [stdin[0]] + stdin[1..] == stdin;
      match reply {
        case EndOfInput => return None;
        case Chosen(cell, read) => return Some(Move(cell, stdin[read + 1..], rng));
      }
    case Computer =>
      var choice := RandomChoice(cellsTaken, rng);
      match choice {
        case Exhausted => return None;
        case Picked(cell, used) => return Some(Move(cell, stdin, rng[used..]));
      }
  }

  // ---------------------------------------------------------------------
  // What the loop computes, stated without the loop.
  // ---------------------------------------------------------------------

  /** The ending `r` of a loop entered with `taken` placed agrees with the
      placements it reports: they extend `taken` without repeats, no
      placement before the last one won, and the last one decides. A game
      ends with a win exactly when its last placement completed a line
      for its player (X for an odd count, O for an even one), with "tie"
      only on a full grid, and is Stalled only while cells are free and
      nobody has won. */
  ghost predicate Consistent(mode: Mode, taken: seq<int>, r: (Ending, seq<int>)) {
    var moves := r.1;
    Legal(moves) && taken <= moves &&
    match r.0
    case Stalled => |moves| < 9 && Quiet(moves)
    case Over(s) =>
      |moves| > 0 && Quiet(moves[..|moves| - 1]) &&
      if WinsAt(moves, |moves|) then
        s == Label(mode, if |moves| % 2 == 1 then FirstPlayerWin else SecondPlayerWin)
      else
        s == Label(mode, Tie) && |moves| >= 9
  }

  lemma {:induction false} RoundFacts(mode: Mode, taken: seq<int>, stdin: seq<string>, rng: seq<Draw>)
    requires Legal(taken) && |taken| % 2 == 0 && Quiet(taken)
    ensures Consistent(mode, taken, Round(mode, taken, stdin, rng))
    decreases 9 - |taken|, 0
  {
    if |taken| >= 9 {
      EndsFull(mode, taken);
    } else {
      match Turn(Human, stdin, rng, taken)
      case None =>
        EndsStalled(mode, taken);
      case Some(x) =>
        var t1 := taken + [x.cell];
        LegalExtend(taken, x.cell);
        assert t1[..|t1| - 1] == taken;
        assert |t1| == |taken| + 1 <= 9;
        Parity(|taken|);
        AfterFirstFacts(mode, t1, x.stdin, x.rng);
        ConsistentFromLater(mode, taken, t1, AfterFirst(mode, t1, x.stdin, x.rng));
    }
  }

  lemma {:induction false} AfterFirstFacts(mode: Mode, t1: seq<int>, stdin: seq<string>, rng: seq<Draw>)
    requires Legal(t1) && |t1| <= 9 && |t1| % 2 == 1 && Quiet(t1[..|t1| - 1])
    ensures Consistent(mode, t1, AfterFirst(mode, t1, stdin, rng))
    decreases 9 - |t1|, 2
  {
    LastWin(t1);
    assert MarkOf(|t1| - 1) == MarkX;
    if HasWon(Replay(t1), MarkX) {
      EndsWithWin(mode, t1);
    } else {
      QuietAfter(t1);
      if |t1| == 9 {
        EndsFull(mode, t1);
      } else {
        SecondTurnFacts(mode, t1, stdin, rng);
      }
    }
  }

  /** The same, from X's placement that neither won nor filled the grid:
      O moves next. */
  lemma {:induction false} SecondTurnFacts(mode: Mode, t1: seq<int>, stdin: seq<string>, rng: seq<Draw>)
    requires Legal(t1) && |t1| < 9 && |t1| % 2 == 1 && Quiet(t1) && !HasWon(Replay(t1), MarkX)
    ensures Consistent(mode, t1, AfterFirst(mode, t1, stdin, rng))
    decreases 9 - |t1|, 1
  {
    var m := Turn(SecondMover(mode), stdin, rng, t1);
    if m.None? {
      EndsStalled(mode, t1);
    } else {
      var o := m.value;
      var t2 := t1 + [o.cell];
      LegalExtend(t1, o.cell);
      assert t2[..|t2| - 1] == t1;
      Parity(|t1|);
      AfterSecondFacts(mode, t2, o.stdin, o.rng);
      ConsistentFromLater(mode, t1, t2, AfterSecond(mode, t2, o.stdin, o.rng));
    }
  }

  lemma {:induction false} AfterSecondFacts(mode: Mode, t2: seq<int>, stdin: seq<string>, rng: seq<Draw>)
    requires Legal(t2) && |t2| > 0 && |t2| % 2 == 0 && Quiet(t2[..|t2| - 1])
    ensures Consistent(mode, t2, AfterSecond(mode, t2, stdin, rng))
    decreases 9 - |t2|, 1
  {
    LastWin(t2);
    assert MarkOf(|t2| - 1) == MarkO;
    if HasWon(Replay(t2), MarkO) {
      EndsWithWin(mode, t2);
    } else {
      QuietAfter(t2);
      RoundFacts(mode, t2, stdin, rng);
    }
  }

  /** The game ends at a placement that completed its player's line. */
  lemma EndsWithWin(mode: Mode, moves: seq<int>)
    requires Legal(moves) && |moves| > 0 && Quiet(moves[..|moves| - 1]) && WinsAt(moves, |moves|)
    ensures Consistent(mode, moves, (Over(Label(mode, if |moves| % 2 == 1 then FirstPlayerWin else SecondPlayerWin)), moves))
  {
  }

  /** The game ends in a tie on a full, quiet grid. */
  lemma EndsFull(mode: Mode, moves: seq<int>)
    requires Legal(moves) && |moves| >= 9 && Quiet(moves)
    ensures Consistent(mode, moves, (Over(Label(mode, Tie)), moves))
  {
    QuietPrefix(moves, |moves| - 1);
    assert !WinsAt(moves, |moves|);
  }

  /** The game stalls on a quiet grid with a free cell. */
  lemma EndsStalled(mode: Mode, moves: seq<int>)
    requires Legal(moves) && |moves| < 9 && Quiet(moves)
    ensures Consistent(mode, moves, (Stalled, moves))
  {
  }

  /** What holds of an ending from a later stage holds from an earlier one. */
  lemma ConsistentFromLater(mode: Mode, earlier: seq<int>, later: seq<int>, r: (Ending, seq<int>))
    requires earlier <= later && Consistent(mode, later, r)
    ensures Consistent(mode, earlier, r)
  {
  }

  /** A placement that did not complete a line keeps the game quiet. */
  lemma QuietExtend(t: seq<int>, c: int)
    requires Quiet(t) && !WinsAt(t + [c], |t| + 1)
    ensures Quiet(t + [c])
  {
    var u := t + [c];
    forall k | 1 <= k <= |u| ensures !WinsAt(u, k) {
      if k <= |t| {
        assert u[..|t|] == t;
        SamePrefixSameWin(t, u, k);
      }
    }
  }

  /** A game whose last placement did not win, and which was quiet before
      it, is quiet. */
  lemma QuietAfter(t: seq<int>)
    requires |t| > 0 && Quiet(t[..|t| - 1]) && !WinsAt(t, |t|)
    ensures Quiet(t)
  {
    assert t[..|t| - 1] + [t[|t| - 1]] == t;
    QuietExtend(t[..|t| - 1], t[|t| - 1]);
  }

  /** Every prefix of a quiet game is quiet. */
  lemma QuietPrefix(t: seq<int>, n: nat)
    requires Quiet(t) && n <= |t|
    ensures Quiet(t[..n])
  {
    forall k | 1 <= k <= n ensures !WinsAt(t[..n], k) {
      SamePrefixSameWin(t[..n], t, k);
    }
  }

  /** Whether placement `k` won depends only on the first `k` placements. */
  lemma SamePrefixSameWin(a: seq<int>, b: seq<int>, k: nat)
    requires 1 <= k <= |a| <= |b| && a == b[..|a|]
    ensures WinsAt(a, k) <==> WinsAt(b, k)
  {
    assert a[..k] == b[..k];
  }

  lemma LastWin(u: seq<int>)
    requires |u| > 0
    ensures WinsAt(u, |u|) <==> HasWon(Replay(u), MarkOf(|u| - 1))
  {
    assert u[..|u|] == u;
  }

  /** What a whole game, started on a fresh grid with nothing taken,
      reports: the placements are distinct cells, at most nine; X wins
      ("user" / "player1") exactly when an odd-numbered placement, the last,
      completed an X line; O wins ("ai" / "player2") exactly when an
      even-numbered one did; "tie" exactly when all nine placements went
      by without a line; a game that ends with a result had no line before
      its last placement; the game stalls only when input runs out on a
      quiet grid with a free cell; and the player who did not move last
      never holds a line, so at most one winner is ever possible. */
  ghost predicate Rules(mode: Mode, e: Ending, moves: seq<int>) {
    Legal(moves) && |moves| <= 9 &&
    (e == Over(Label(mode, FirstPlayerWin)) <==> |moves| % 2 == 1 && WinsAt(moves, |moves|)) &&
    (e == Over(Label(mode, SecondPlayerWin)) <==> |moves| > 0 && |moves| % 2 == 0 && WinsAt(moves, |moves|)) &&
    (e == Over(Label(mode, Tie)) <==> |moves| == 9 && Quiet(moves)) &&
    (e == Stalled ==> |moves| < 9 && Quiet(moves)) &&
    (e.Over? ==> |moves| > 0 && Quiet(moves[..|moves| - 1])) &&
    (e.Over? ==> e.result in {Label(mode, FirstPlayerWin), Label(mode, SecondPlayerWin), Label(mode, Tie)}) &&
    (|moves| > 0 ==> !HasWon(Replay(moves), MarkOf(|moves|)))
  }

  lemma GameFollowsRules(mode: Mode, inputs: seq<string>, draws: seq<Draw>)
    ensures Rules(mode, Round(mode, [], inputs, draws).0, Round(mode, [], inputs, draws).1)
  {
    var r := Round(mode, [], inputs, draws);
    RoundFacts(mode, [], inputs, draws);
    ConsistentGivesRules(mode, r.0, r.1);
  }

  /** A game ending consistent with its placements from the empty grid
      obeys the rules. */
  lemma ConsistentGivesRules(mode: Mode, e: Ending, moves: seq<int>)
    requires Consistent(mode, [], (e, moves))
    ensures Rules(mode, e, moves)
  {
    Pigeonhole(moves);
    if e.Stalled? {
      StalledRules(mode, moves);
    } else if WinsAt(moves, |moves|) {
      WinRules(mode, moves, e.result);
    } else {
      TieRules(mode, moves);
    }
  }

  /** A game that stalls before the grid fills, without a line, obeys the rules. */
  lemma StalledRules(mode: Mode, moves: seq<int>)
    requires Legal(moves) && |moves| < 9 && Quiet(moves)
    ensures Rules(mode, Stalled, moves)
  {
    if |moves| > 0 {
      QuietPrefix(moves, |moves| - 1);
      OnlyLastMoverHasLine(moves);
      assert !WinsAt(moves, |moves|);
    }
  }

  /** A game won by the last placement, after no earlier one won, obeys the rules. */
  lemma WinRules(mode: Mode, moves: seq<int>, s: string)
    requires Legal(moves) && 0 < |moves| <= 9 && Quiet(moves[..|moves| - 1]) && WinsAt(moves, |moves|)
    requires s == Label(mode, if |moves| % 2 == 1 then FirstPlayerWin else SecondPlayerWin)
    ensures Rules(mode, Over(s), moves)
  {
    OnlyLastMoverHasLine(moves);
    LabelsDiffer(mode);
    assert !Quiet(moves);
  }

  /** A game whose nine placements completed no line obeys the rules. */
  lemma TieRules(mode: Mode, moves: seq<int>)
    requires Legal(moves) && |moves| == 9 && Quiet(moves[..8]) && !WinsAt(moves, 9)
    ensures Rules(mode, Over(Label(mode, Tie)), moves)
  {
    LastSplit(moves);
    OnlyLastMoverHasLine(moves);
    QuietExtend(moves[..8], moves[8]);
    LabelsDiffer(mode);
  }

  /** The three strings a game can return in one mode are distinct. */
  lemma LabelsDiffer(mode: Mode)
    ensures Label(mode, FirstPlayerWin) != Label(mode, SecondPlayerWin)
    ensures Label(mode, FirstPlayerWin) != Label(mode, Tie)
    ensures Label(mode, SecondPlayerWin) != Label(mode, Tie)
  {
    if mode == MultiPlayer {
      assert Label(mode, FirstPlayerWin)[6] != Label(mode, SecondPlayerWin)[6];
    }
  }

  /** The player who did not make the last placement holds no line,
      provided no earlier placement won. */
  lemma OnlyLastMoverHasLine(moves: seq<int>)
    requires Legal(moves) && |moves| > 0 && Quiet(moves[..|moves| - 1])
    ensures !HasWon(Replay(moves), MarkOf(|moves|))
  {
    var p := moves[..|moves| - 1];
    var c := moves[|moves| - 1];
    LastSplit(moves);
    assert MarkOf(|moves|) == MarkOf(|p| + 1);
    if |p| == 0 {
      EmptyCellsNeverCount(MarkOf(|p| + 1));
    } else {
      LastWin(p);
      assert !WinsAt(p, |p|);
      assert MarkOf(|p| - 1) == MarkOf(|p| + 1);
    }
    OpponentUnaffected(p, c);
  }

  /** A placement never changes whether the other player holds a line. */
  lemma OpponentUnaffected(t: seq<int>, c: int)
    requires Legal(t + [c])
    ensures HasWon(Replay(t + [c]), MarkOf(|t| + 1)) <==> HasWon(Replay(t), MarkOf(|t| + 1))
  {
    LegalParts(t, c);
    var mine, other := MarkOf(|t|), MarkOf(|t| + 1);
    var before := Replay(t);
    FreeCellReadsEmpty(t, c);
    MarksDiffer(|t|);
    MarksDiffer(|t| + 1);
    StoredReadsBack(c, mine);
    PlaceKeepsOthers(before, c, Stored(c, mine), other);
    ReplayAppend(t, c);
    HasWonFromHeldCells(before[c := Stored(c, mine)], before, other);
  }

  lemma LegalParts(t: seq<int>, c: int)
    requires Legal(t + [c])
    ensures Legal(t) && 1 <= c <= 9 && c !in t
  {
    var u := t + [c];
    assert u[..|t|] == t;
    assert u[|t|] == c;
  }

  /** A cell no placement took still holds its empty-cell string. */
  lemma FreeCellReadsEmpty(t: seq<int>, c: int)
    requires Legal(t) && IsCell(c) && c !in t
    ensures c in Replay(t)
    ensures StripNewlines(Replay(t)[c]) == " []" || StripNewlines(Replay(t)[c]) == "[]"
  {
    ReplayShape(t);
    BaseLayoutFacts();
  }

  /** The two marks differ from each other and from the empty-cell strings. */
  lemma MarksDiffer(n: nat)
    ensures MarkOf(n) != MarkOf(n + 1)
    ensures MarkOf(n) != "[]" && MarkOf(n) != " []" && !EndsWithNewline(MarkOf(n))
  {
    assert MarkX[1] != MarkO[1];
  }

  /** Overwriting a cell nobody holds for `mark` with a string that does
      not read back as `mark` leaves the cells held by `mark` as they were. */
  lemma PlaceKeepsOthers(before: map<int, string>, c: int, value: string, mark: string)
    requires !Holds(before, c, mark) && StripNewlines(value) != mark
    ensures forall k :: Holds(before[c := value], k, mark) <==> Holds(before, k, mark)
  {
  }

  /** Three placements by one player covering a line make that player a
      winner. */
  lemma WinFromPlacements(t: seq<int>, w: int, a: nat, b: nat, c: nat)
    requires Legal(t) && 0 <= w < |PossibleWins| && a < |t| && b < |t| && c < |t|
    requires t[a] == PossibleWins[w][0] && t[b] == PossibleWins[w][1] && t[c] == PossibleWins[w][2]
    requires MarkOf(a) == MarkOf(b) && MarkOf(a) == MarkOf(c)
    ensures HasWon(Replay(t), MarkOf(a))
  {
    var layout, line, mark := Replay(t), PossibleWins[w], MarkOf(a);
    ReplayShape(t);
    LineShape(w);
    assert Holds(layout, t[a], mark) && Holds(layout, t[b], mark) && Holds(layout, t[c], mark);
    forall j | 0 <= j < |line| ensures Holds(layout, line[j], mark) {
      assert j == 0 || j == 1 || j == 2;
    }
    assert LineHeld(layout, line, mark);
  }

  /** X at 1, 5 and 9 with O at 2 and 3: the main diagonal is X's. */
  lemma DiagonalWin()
    ensures HasWon(Replay([1, 2, 5, 3, 9]), MarkX)
  {
    WinFromPlacements([1, 2, 5, 3, 9], 0, 0, 2, 4);
  }

  /** X's ninth placement, into cell 9, completes the diagonal 1-5-9. */
  lemma NinthMoveWins()
    ensures WinsAt([1, 2, 3, 4, 5, 6, 8, 7, 9], 9)
  {
    var m := [1, 2, 3, 4, 5, 6, 8, 7, 9];
    assert m[..9] == m;
    WinFromPlacements(m, 0, 0, 4, 8);
  }

  /** The win check runs before the full-grid break: a game whose ninth
      placement completes X's line is reported as X's win, not a tie.
      `NinthMoveWins` shows such placements exist. */
  lemma WinOnNinthMoveIsReported(mode: Mode, inputs: seq<string>, draws: seq<Draw>)
    requires |Round(mode, [], inputs, draws).1| == 9 && WinsAt(Round(mode, [], inputs, draws).1, 9)
    ensures Round(mode, [], inputs, draws).0 == Over(Label(mode, FirstPlayerWin))
    ensures Round(mode, [], inputs, draws).0 != Over("tie")
  {
    GameFollowsRules(mode, inputs, draws);
    LabelsDiffer(mode);
  }

  // ---------------------------------------------------------------------
  // Facts about the grid a sequence of placements produces.
  // ---------------------------------------------------------------------

  /** A non-empty sequence is its front followed by its last element. */
  lemma LastSplit(s: seq<int>)
    requires |s| > 0
    ensures s[..|s| - 1] + [s[|s| - 1]] == s
  {
  }

  /** One more placement flips whose turn it is. */
  lemma Parity(n: nat)
    ensures (n + 1) % 2 == 1 - n % 2
  {
  }

  /** Appending a free cell keeps `cells_taken` free of repeats. */
  lemma LegalExtend(t: seq<int>, c: int)
    requires Legal(t) && 1 <= c <= 9 && c !in t
    ensures Legal(t + [c])
  {
  }

  lemma ReplayAppend(t: seq<int>, c: int)
    ensures Replay(t + [c]) == Replay(t)[c := Stored(c, MarkOf(|t|))]
  {
    assert (t + [c])[..|t|] == t;
  }

  /** The grid after `t`: its keys and line breaks are those of the base
      layout, an untaken cell keeps its empty-cell string, and the cell of
      placement `i` reads back as that placement's mark. */
  lemma {:induction false} ReplayShape(t: seq<int>)
    requires Legal(t)
    ensures WellFormed(Replay(t))
    ensures forall k :: IsCell(k) && k !in t ==> Replay(t)[k] == BaseLayout[k]
    ensures forall i :: 0 <= i < |t| ==> StripNewlines(Replay(t)[t[i]]) == MarkOf(i)
    decreases |t|
  {
    if t == [] {
      BaseLayoutFacts();
    } else {
      var n := |t| - 1;
      var p, c := t[..n], t[n];
      LastSplit(t);
      LegalParts(p, c);
      ReplayShape(p);
      ReplayAppend(p, c);
      var before, after := Replay(p), Replay(t);
      assert after == before[c := Stored(c, MarkOf(n))];
      MarksDiffer(n);
      PlacePreservesWellFormed(before, c, MarkOf(n));
      forall i | 0 <= i < n ensures StripNewlines(after[t[i]]) == MarkOf(i) {
        assert p[i] == t[i] && t[i] != c;
        assert after[t[i]] == before[p[i]];
      }
    }
  }

  /** `cells_taken` is exactly the set of cells whose string reads back as
      a mark. */
  lemma TakenIsMarked(t: seq<int>)
    requires Legal(t)
    ensures forall k :: IsCell(k) ==> (k in t <==> Holds(Replay(t), k, MarkX) || Holds(Replay(t), k, MarkO))
  {
    ReplayShape(t);
    forall k | IsCell(k) ensures k in t <==> Holds(Replay(t), k, MarkX) || Holds(Replay(t), k, MarkO) {
      if k in t {
        var i :| 0 <= i < |t| && t[i] == k;
        assert Holds(Replay(t), k, MarkOf(i));
      } else {
        FreeCellReadsEmpty(t, k);
      }
    }
  }

  /** The cells placed with `mark`, in the order they were placed. */
  function PlacedBy(t: seq<int>, mark: string): seq<int>
    decreases |t|
  {
    if t == [] then []
    else
      var n := |t| - 1;
      PlacedBy(t[..n], mark) + (if MarkOf(n) == mark then [t[n]] else [])
  }

  /** X moves first and the two alternate: X has placed (n + 1) / 2 and O
      n / 2 of the first n placements, so after X's move X is one ahead and
      after O's move they are level. */
  lemma {:induction false} MarkCounts(t: seq<int>)
    ensures |PlacedBy(t, MarkX)| == (|t| + 1) / 2 && |PlacedBy(t, MarkO)| == |t| / 2
    decreases |t|
  {
    if t != [] {
      var n := |t| - 1;
      MarkCounts(t[..n]);
      MarksDiffer(n);
      if n % 2 == 0 {
        assert MarkOf(n) == MarkX;
      } else {
        assert MarkOf(n) == MarkO;
      }
    }
  }

  /** The cells that read back as a mark are exactly those placed with it. */
  lemma {:induction false} PlacedByHolds(t: seq<int>, mark: string)
    requires Legal(t) && (mark == MarkX || mark == MarkO)
    ensures forall k :: IsCell(k) ==> (Holds(Replay(t), k, mark) <==> k in PlacedBy(t, mark))
    decreases |t|
  {
    if t == [] {
      EmptyCellsNeverCount(mark);
    } else {
      var n := |t| - 1;
      var p, c := t[..n], t[n];
      LastSplit(t);
      LegalParts(p, c);
      PlacedByHolds(p, mark);
      ReplayAppend(p, c);
      FreeCellReadsEmpty(p, c);
      MarksDiffer(n);
      StoredReadsBack(c, MarkOf(n));
      var added := if MarkOf(n) == mark then [c] else [];
      assert PlacedBy(t, mark) == PlacedBy(p, mark) + added;
      PlaceOneMark(Replay(p), c, Stored(c, MarkOf(n)), mark, PlacedBy(p, mark), added);
    }
  }

  /** One more placement adds its cell to the cells held by its own mark
      and leaves those held by any other mark alone. */
  lemma PlaceOneMark(before: map<int, string>, c: int, value: string, mark: string, held: seq<int>, added: seq<int>)
    requires forall k :: IsCell(k) ==> (Holds(before, k, mark) <==> k in held)
    requires !Holds(before, c, mark)
    requires added == (if StripNewlines(value) == mark then [c] else [])
    ensures forall k :: IsCell(k) ==> (Holds(before[c := value], k, mark) <==> k in held + added)
  {
  }

  /** A cell reads back as a mark only if some placement put it there. */
  lemma HeldWasPlaced(t: seq<int>, k: int, mark: string)
    requires Legal(t) && IsCell(k) && Holds(Replay(t), k, mark)
    requires mark != " []" && mark != "[]"
    ensures exists i :: 0 <= i < |t| && t[i] == k && MarkOf(i) == mark
  {
    if k !in t {
      FreeCellReadsEmpty(t, k);
    } else {
      ReplayShape(t);
      var i :| 0 <= i < |t| && t[i] == k;
    }
  }

  /** A line takes three placements of one player, so nobody has won
      within the first four placements of a game. */
  lemma NoEarlyWin(t: seq<int>, mark: string)
    requires Legal(t) && |t| <= 4
    requires mark != " []" && mark != "[]"
    ensures !HasWon(Replay(t), mark)
  {
    var layout := Replay(t);
    if HasWon(layout, mark) {
      var w :| 0 <= w < |PossibleWins| && LineHeld(layout, PossibleWins[w], mark);
      LineShape(w);
      var x, y, z := PossibleWins[w][0], PossibleWins[w][1], PossibleWins[w][2];
      assert Holds(layout, x, mark) && Holds(layout, y, mark) && Holds(layout, z, mark);
      HeldWasPlaced(t, x, mark);
      HeldWasPlaced(t, y, mark);
      HeldWasPlaced(t, z, mark);
      var a :| 0 <= a < |t| && t[a] == x && MarkOf(a) == mark;
      var b :| 0 <= b < |t| && t[b] == y && MarkOf(b) == mark;
      var c :| 0 <= c < |t| && t[c] == z && MarkOf(c) == mark;
      SameMarkSameParity(a, b);
      SameMarkSameParity(a, c);
      TwoPerParity(a, b, c);
    }
  }

  /** Among the placement numbers 0..3 only two share a parity. */
  lemma TwoPerParity(a: nat, b: nat, c: nat)
    requires a < 4 && b < 4 && c < 4
    requires a % 2 == b % 2 && a % 2 == c % 2
    ensures a == b || a == c || b == c
  {
  }

  lemma SameMarkSameParity(i: nat, j: nat)
    requires MarkOf(i) == MarkOf(j)
    ensures i % 2 == j % 2
  {
    assert MarkX[1] != MarkO[1];
  }

  /** A cell number sequence without repeats has at most 9 entries, and
      while it has fewer some cell is still free. */
  lemma Pigeonhole(t: seq<int>)
    requires Legal(t)
    ensures |t| <= 9
    ensures |t| < 9 ==> exists c :: 1 <= c <= 9 && c !in t
  {
    DistinctCard(t);
    SubsetOfCells(Elements(t));
    if |t| < 9 && forall c :: 1 <= c <= 9 ==> c in t {
      CoveredHasNine(t);
    }
  }

  /** A sequence holding every cell has at least nine distinct entries. */
  lemma CoveredHasNine(t: seq<int>)
    requires Distinct(t)
    requires forall c :: 1 <= c <= 9 ==> c in t
    ensures |t| >= 9
  {
    var cells := {1, 2, 3, 4, 5, 6, 7, 8, 9};
    var e := Elements(t);
    forall c | c in cells ensures c in e {
      assert 1 <= c <= 9;
      assert c in t;
      var i :| 0 <= i < |t| && t[i] == c;
    }
    assert |cells| == 9;
    assert e == cells + (e - cells);
    assert |e| == |cells| + |e - cells|;
    DistinctCard(t);
  }

  function Elements(t: seq<int>): set<int> {
    set i | 0 <= i < |t| :: t[i]
  }

  lemma SubsetOfCells(s: set<int>)
    requires forall k :: k in s ==> 1 <= k <= 9
    ensures |s| <= 9
    ensures |s| == 9 ==> s == {1, 2, 3, 4, 5, 6, 7, 8, 9}
  {
    var cells := {1, 2, 3, 4, 5, 6, 7, 8, 9};
    assert |cells| == 9;
    forall k | k in s ensures k in cells {
      assert k == 1 || k == 2 || k == 3 || k == 4 || k == 5 || k == 6 || k == 7 || k == 8 || k == 9;
    }
    assert cells == s + (cells - s);
    assert |cells| == |s| + |cells - s|;
  }

  lemma {:induction false} DistinctCard(t: seq<int>)
    requires Distinct(t)
    ensures |Elements(t)| == |t|
    decreases |t|
  {
    if |t| > 0 {
      var p := t[..|t| - 1];
      DistinctCard(p);
      assert Elements(t) == Elements(p) + {t[|t| - 1]};
    }
  }
}

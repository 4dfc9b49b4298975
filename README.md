# Tic-tac-toe engine, modelled in Dafny

This project models the gameplay engine of `main.py`, a command-line
tic-tac-toe game. There are two modes:

- single player: the user is X and a random computer is O;
- two players: they are prompted in turn ("Player 1's turn", "Player 2's turn")
  and both read the same standard input.

The model covers five parts:

- **The grid.** A dictionary from cell number 1..9 to the string shown for
  that cell: `" []"`, `"[]"`, `"[]\n"` when empty, `"[X]"` / `"[O]"` (plus
  `"\n"` on cells 3 and 6) when marked. Each game copies a fresh grid from
  `base_layout`, and `place_mark` updates it in place. In the model this
  dictionary is the `map` field of the class `Grid.Layout`. Because the
  display strings are kept, cell 1's leading space disappears once it is
  marked, just as in the program.
- **`check_win`** (`WinCheck.CheckWin`). It collects the cells whose string,
  stripped of trailing line breaks, equals the mark. It then looks for one of
  the eight lines all of whose cells were collected. It is proved equal to
  the predicate `HasWon`.
- **`handle_input`** (`Input.HandleInput`). Python's `int()` is reduced to:
  surrounding whitespace, an optional sign, then decimal digits. Each input
  is classified in the program's order: not a number, outside 1..9, already
  taken, or accepted. The method re-reads until an input is accepted.
- **`random_choice`** (`RandomMove.RandomChoice`). Rejection sampling over a
  supplied stream of draws, each one a value `random.randint(1, 9)` can
  return.
- **`single_game` / `multi_game`.** The two share one loop,
  `Game.PlayGame`, parameterised by who makes O's moves. The loop is proved
  equal to the recursive function `Game.Round`, which with `AfterFirst` and
  `AfterSecond` describes one loop iteration step by step. The independent
  description of how a game ends is `Game.Rules`:
  - X wins exactly when the last placement is odd-numbered and completed an
    X line;
  - O wins exactly when the last placement is even-numbered and completed an
    O line;
  - a game with a result had no line before its last placement;
  - "tie" happens exactly when nine placements passed without a line;
  - the player who did not move last never holds a line.

  `Game.GameFollowsRules` proves that every game obeys these rules.

Inputs and randomness are parameters:

- Every line the players type is an element of one `seq<string>`.
- Every call of `random.randint` is an element of a `seq<Draw>`.
- When either runs out before the game is over, the game ends `Stalled`.
  This is where the program would raise `EOFError`, or, for the draws,
  would go on drawing.

## Model

| member | source | states |
|---|---|---|
| `Grid.Layout.Copy` | main.py:162 | a fresh grid holds exactly the base layout |
| `Grid.BaseLayoutFacts` | main.py:4-8 | the base layout has keys 1..9 with line breaks after 3 and 6 only, and every empty cell reads back as `" []"` or `"[]"` |
| `Grid.StripNewlines` | main.py:99 | `rstrip("\n")` returns a prefix of its input, removes only line breaks, and leaves no trailing line break |
| `Grid.PlaceMark` | main.py:108-126 | the grid after the call is the old grid with `position` set to `mark + "\n"` on cells 3 and 6 and to `mark` otherwise; no other key changes and no key but `position` is added |
| `Grid.StoredReadsBack` | main.py:121-124 | a placed mark reads back through `rstrip("\n")` as the mark itself, and a line break is added exactly for cells 3 and 6 |
| `Grid.PlacePreservesWellFormed` | main.py:121-126 | placing a mark on a well-formed grid keeps the keys 1..9 and the line breaks after 3 and 6 only, and the cell then reads back as the mark |
| `WinCheck.HasWon` | main.py:75-106 | the predicate check_win decides: some one of the eight lines has all three cells reading back as `mark`; `CheckWin` is proved equal to it |
| `WinCheck.CheckWin` | main.py:75-106 | returns true exactly when some winning line has all three cells reading back as `mark` |
| `WinCheck.LineShape` | main.py:88-95 | every winning line is three distinct cells of the grid |
| `WinCheck.CompletingMoveWins` | main.py:102-104 | placing a mark in the only cell of a line it did not yet hold makes it a winner, whatever else the grid holds |
| `WinCheck.HasWonFromHeldCells` | main.py:98-104 | whether a mark has won depends only on which cells read back as that mark |
| `WinCheck.EmptyCellsNeverCount` | main.py:98-100 | on a fresh grid no cell holds a real mark, and nobody has won |
| `WinCheck.EmptyStringWinsOnFreshGrid` | main.py:98-104 | asked about the empty-cell string `"[]"`, check_win reports the untouched middle column of a fresh grid as a win |
| `Input.ParseDigits` | main.py:147 | a string is read as a natural number exactly when it is a non-empty run of decimal digits, and then its value is the digits' decimal value |
| `Input.ParseShow` | main.py:147 | `int(str(n)) == n` for every integer `n` |
| `Input.ParseIgnoresSurroundingSpace` | main.py:147 | any run of tab, line feed, vertical tab, form feed, carriage return and space before and after the text does not change what `int()` reads |
| `Input.ParseUnsignedDigits` | main.py:147 | a run of decimal digits, leading zeros included, is read as its decimal value |
| `Input.ParseSignedDigits` | main.py:147 | a `+` or `-` followed by decimal digits is read as the value of the digits, with the sign applied |
| `Input.SeparatorIsNotSpace` | main.py:147 | text starting with any of the control characters 0x1C..0x1F is not read as a number, whatever follows, since `int()` does not skip them |
| `Input.Classify` | main.py:146-157 | an input is rejected as not a number, then as outside 1..9, then as a taken cell, in that order, and is accepted otherwise with the number it spells |
| `Input.Validate` | main.py:145-159 | the reply is the first accepted input of the stream: its cell is in 1..9 and free, every earlier input was rejected, and the stream runs out exactly when no input is accepted |
| `Input.HandleInput` | main.py:128-159 | the retry loop returns the reply of `Validate` on the first line followed by the later ones; the cell is in 1..9 and free; an accepted first line is returned without reading another |
| `Input.ValidateFirst` | main.py:156-159 | the first accepted input fixes the reply |
| `Input.RejectThenAccept` | main.py:145-159 | `"abc"`, `"10"`, `"5"` on an empty grid: rejected as not a number, then out of range, then cell 5 is chosen from the third line |
| `RandomMove.FirstFree` | main.py:69-73 | the chosen cell is the first draw not taken, it is in 1..9 and free, every earlier draw was taken, and the draws run out exactly when every draw is taken |
| `RandomMove.RandomChoice` | main.py:56-73 | the rejection loop returns the first free draw |
| `RandomMove.FirstFreeIsFirst` | main.py:70-73 | the choice is decided by the first draw that is free |
| `RandomMove.FullGridNeverPicks` | main.py:70-71 | on a full grid no draw is ever accepted |
| `RandomMove.StopsAtRepeatedTaken` | main.py:69-73 | with cell 5 taken, the draws 5, 5, 2 give cell 2 after three draws |
| `Game.Replay` | main.py:162-188 | the grid after the placements so far: a fresh copy of the base layout with each placement's cell set by `place_mark` to its player's mark, X first; its properties are stated by `ReplayShape`, `PlacedByHolds` and `TakenIsMarked` |
| `Game.Turn` | main.py:166-182 | a move is a free cell in 1..9; a typed move consumes at least one input line and no draw, and a computer move consumes at least one draw and no input |
| `Game.TakeTurn` | main.py:166-182 | a move as asked for by the loop, equal to `Turn` |
| `Game.MoveAndPlace` | main.py:166-188 | after a move the grid is the replay of the placements with the new cell appended, and `cells_taken` with it still has no repeats |
| `Game.Round` | main.py:164-193 | one iteration of the loop from its head: the tie on a full grid, X's move, then `AfterFirst`; the placements only grow, never repeat a cell, and the result is one of the mode's three strings |
| `Game.AfterFirst` | main.py:174-188 | after X's placement: X's win check, the full-grid break, then O's move and `AfterSecond`; the same growth, legality and result facts |
| `Game.AfterSecond` | main.py:190-193 | after O's placement: O's win check, then the next iteration; the same growth, legality and result facts |
| `Game.PlayGame` | main.py:161-233 | the loop ends as `Round` says, with the final `cells_taken` |
| `Game.SingleGame` | main.py:161-193 | single_game follows `Rules`, and returns only "user", "ai" or "tie" |
| `Game.MultiGame` | main.py:195-233 | multi_game follows `Rules` with both players reading one input stream, and returns only "player1", "player2" or "tie" |
| `Game.RoundFacts` | main.py:164-193 | from the loop head, the ending is consistent with the placements: they extend the ones before without repeats, no placement before the last one won, a win goes to the player of the last placement, "tie" needs nine placements, and a stall comes with a quiet grid with a free cell |
| `Game.AfterFirstFacts` | main.py:174-188 | the same, from just after X's placement: X's win check runs first, then the full-grid break, then O moves |
| `Game.SecondTurnFacts` | main.py:181-191 | the same, from an X placement that neither won nor filled the grid: O moves next |
| `Game.AfterSecondFacts` | main.py:190-191 | the same, from just after O's placement |
| `Game.GameFollowsRules` | main.py:164-193 | a whole game ends with at most nine distinct placements, with X's or O's win exactly when the last placement completed that player's line and no earlier one completed any, with "tie" exactly after nine placements without a line, and with no line for the player who did not move last |
| `Game.StalledRules` | main.py:164-191 | a game cut short before the grid fills, with no line made, obeys `Rules` |
| `Game.WinRules` | main.py:174-191 | a game whose last placement completed a line, after no earlier one did, obeys `Rules` with that player's result |
| `Game.TieRules` | main.py:176-193 | a game whose nine placements completed no line obeys `Rules` with the result "tie" |
| `Game.LabelsDiffer` | main.py:175-193 | the three results a mode can return are distinct strings |
| `Game.OnlyLastMoverHasLine` | main.py:174-191 | if no earlier placement won, the player who did not make the last placement holds no line |
| `Game.OpponentUnaffected` | main.py:168-188 | a placement never changes whether the other player has won |
| `Game.WinOnNinthMoveIsReported` | main.py:174-179 | any game whose ninth placement completes X's line is reported as X's win, not as a tie |
| `Game.NinthMoveWins` | main.py:164-175 | the placements 1, 2, 3, 4, 5, 6, 8, 7, 9 give X the diagonal 1-5-9 at the ninth placement |
| `Game.WinFromPlacements` | main.py:102-104 | if one player's placements cover the three cells of a winning line, that player has won on the replayed grid |
| `Game.ConsistentGivesRules` | main.py:164-193 | an ending consistent with its placements from the empty grid obeys `Rules` |
| `Game.DiagonalWin` | main.py:102-104 | X on 1, 5 and 9 with O on 2 and 3 holds the main diagonal |
| `Game.ReplayAppend` | main.py:168-172 | one more placement updates exactly its cell of the replayed grid |
| `Game.LegalExtend` | main.py:172 | appending a free cell number to `cells_taken` keeps it free of repeats and within 1..9 |
| `Game.ReplayShape` | main.py:162-188 | the grid after any placements keeps the base layout's keys and line breaks; an untaken cell keeps its empty string, and the cell of each placement reads back as that placement's mark |
| `Game.TakenIsMarked` | main.py:168-188 | `cells_taken` is exactly the set of cells reading back as `"[X]"` or `"[O]"` |
| `Game.HeldWasPlaced` | main.py:168-188 | a cell reads back as a mark only if a placement of that mark put it there |
| `Game.FreeCellReadsEmpty` | main.py:162 | a cell nobody took still reads back as an empty-cell string |
| `Game.MarkCounts` | main.py:164-188 | X has made (n + 1) / 2 and O n / 2 of the first n placements: one ahead after X's move, level after O's |
| `Game.PlacedByHolds` | main.py:168-188 | the cells reading back as a mark are exactly those placed with it |
| `Game.NoEarlyWin` | main.py:102-104 | nobody can hold a line within the first four placements |
| `Game.Pigeonhole` | main.py:164-182 | `cells_taken` without repeats has at most nine entries, and with fewer than nine some cell is still free, so the computer is never asked to move on a full grid |
| `Game.QuietExtend` | main.py:174-191 | a placement that completed no line keeps the game free of wins |
| `Game.QuietPrefix` | main.py:164-191 | every earlier stage of a game without wins was also without wins |

## Left out

- The banner, help and guide strings (main.py:10-53). They are constant text.
- The top-level command loop and its result messages (main.py:236-270).
- Printing the grid as `" ".join(current_grid.values())` (main.py:171, main.py:186-187, main.py:209, main.py:227), and the message at main.py:196. These are console output only.
- The prompt texts passed to `input()` (main.py:149, main.py:153, main.py:155, main.py:166, main.py:203, main.py:221). Reading a line is modelled as taking the next element of the input sequence. The end of that sequence, where Python raises `EOFError`, ends the game `Stalled`.
- `random.randint` and the uniform distribution of the computer's move. The draws are a supplied sequence of values in 1..9. Only the rejection logic is modelled, not probability. Running out of draws ends the game `Stalled`, where the program would keep drawing.
- Python `int()` beyond surrounding ASCII whitespace (tab, line feed, vertical tab, form feed, carriage return, space), an optional sign and ASCII digits. Underscore separators and non-ASCII digits and spaces are not modelled.
- `Input.ParseInt`: the limit on the number of digits `int()` accepts is not modelled. The `match` statement needs Python 3.10 or later, and from 3.10.7 and 3.11 on `int()` raises ValueError on text of more than 4300 digits, leading zeros included, so the program rejects such input as not a number and asks again. The model reads the value instead. A long run with a large value is then rejected as outside 1..9, and the player is asked again with a different message. A run of more than 4300 digits made of leading zeros and a digit 1..9, such as 4300 zeros followed by `5`, is accepted by the model as that cell, where the program rejects it.
- `Input.ParseInt`: it states no contract of its own. Its behaviour is stated through `ParseDigits`, `ParseUnsignedDigits`, `ParseSignedDigits`, `ParseShow`, `ParseIgnoresSurroundingSpace` and `SeparatorIsNotSpace`.
- Dictionary iteration order: `check_win` iterates the dictionary's keys. The model visits 1..9 in order, which is the order in which a copy of `base_layout` keeps them. The order only affects the order of `cells_filled`, not the result.
- `place_mark` returns the grid it updated, and the caller assigns it back to `current_grid`. That is the same object, so the model has only the in-place update.

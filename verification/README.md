# Jomoku core in Dafny

Jomoku is a Gomoku ("x in a row") game for two players. Stones are placed on a
board of `NUMBER_OF_COLUMNS` × `NUMBER_OF_ROWS` cells.

Each player owns a `Board`, a grid of `Stone` references. Every board shares one
process-wide list of blocked positions. A `Game` joins the white and the black
board:
- it places ordinary stones and joker stones (a joker counts for both players);
- it blocks positions;
- it decides the winner;
- it classifies every cell as BLACK, WHITE, JOKER, BLOCKED or FREE.

A player wins when one of their lines holds a long enough run of stones. The
lines are scanned by `checkForWinningRow`, over the columns, the rows and the
"diagonals" that `getDiagonals` builds.

The command line is read by `UI.initOptionsMap` into an option map. Position
lists such as `3x4, 5x6` are read by `ParseHelper`.

The computer opponent (`OpponentEngine`) keeps one `Field` per cell. A field
holds four `Row` windows of `2K - 1` type codes around it, where K is the win
length. Placing a stone writes the stone's code into the windows of every field
within reach. Each window keeps a one-way "blocked" ratchet. A field recomputes
its score lazily, the next time it is read. The engine then moves to the first
strictly best cell in column-major order.

`BoardMatrix` holds the batch evaluator's matrix helpers:
- transposition and reversal;
- in-place addition and scaling;
- a placeability-filtered arg-max;
- the vertical window evaluator.

## Modules

| file | module | models |
|---|---|---|
| `wrappers.dfy` | `Wrappers` | `Option` and `Result` |
| `text.dfy` | `Text` | Java `int` range, decimal printing, `Integer.parseInt` on digit strings, `String.split` on one character (keeping trailing empty pieces, which Java's `split` drops; ParseHelper splits only strings its pattern has already checked, which never end in an empty piece, so the two agree there), removal of spaces |
| `stones.dfy` | `Stones` | `Stone.Position`, and the column-major order on cells that both arg-max scans use |
| `win_scan.dfy` | `WinScan` | the line scan of `checkForWinningRow`, the rotation of `getDiagonals` and the four checks of `doesPlayerWin`, as values |
| `boards.dfy` | `Boards` | `Board` and `Stone` as objects, and the shared blocked list |
| `games.dfy` | `Games` | `Game` and `Game.FieldType` |
| `parse_helper.dfy` | `ParseHelper` | `ParseHelper` |
| `engine_spec.dfy` | `EngineSpec` | the opponent engine's states (`RowState`, `FieldState`, grid of fields) and the writes of `setStoneType`, as values |
| `opponent_engine.dfy` | `Engines` | `OpponentEngine`, `Field` and `Row` as objects, each method proved against `EngineSpec` |
| `board_matrix.dfy` | `BoardMatrix` | the `BoardMatrix` helpers |
| `ui_options.dfy` | `UiOptions` | the `UI` option table and map |

Modelling choices:
- `Position` is a class. Java's `Position` defines no `equals`, so the
  blocked-list lookup compares object identity. Dafny's reference equality on
  classes gives the same behaviour.
- Doubles are modelled as `real`.
- Java exceptions that the game can reach are modelled as explicit `Failure`
  results:
  - `ArrayIndexOutOfBoundsException` (`WinScan.RuntimeError`);
  - `NumberFormatException` (`ParseHelper.NumberFormatError`).

## Model

| member | source | states |
|---|---|---|
| Stones.Position.constructor | src/jomoku/Stone.java:62-65 | `COLUMN` and `ROW` are the constructor's arguments; they are constants and never change |
| Stones.Position.ToString | src/jomoku/Stone.java:79-81 | the text is the decimal column, then `x`, then the decimal row |
| Stones.Position.IsInBounds | src/jomoku/Stone.java:74-76 | only the upper bounds are compared; NegativeCoordinatesAreInBounds states the consequence |
| Stones.NegativeCoordinatesAreInBounds | src/jomoku/Stone.java:74-76 | `isInBounds` has no lower bound: a negative coordinate below the upper bounds counts as in bounds, yet it is not an array index |
| Text.DigitChar | src/jomoku/Stone.java:80 | a digit character stands for its value |
| Text.NatToString | src/jomoku/Stone.java:80 | decimal printing yields only digits |
| Text.DecimalRoundTrip | src/jomoku/Stone.java:80 | reading back the printed digits of n gives n |
| Text.ParseInt | src/jomoku/ui/ParseHelper.java:35 | `Integer.parseInt` on a digit string succeeds exactly when the value fits in an `int`, and then returns that value |
| Text.IndexFrom | src/jomoku/ui/ParseHelper.java:34 | the first occurrence of the separator at or after a start index, or the end |
| Text.IndexOf | src/jomoku/ui/ParseHelper.java:34 | the first occurrence of the separator, or the length when there is none |
| Text.Split | src/jomoku/ui/ParseHelper.java:34 | splitting gives at least one piece, and no piece holds the separator |
| Text.SplitJoin | src/jomoku/ui/ParseHelper.java:54 | splitting the join of separator-free pieces gives the pieces back |
| Text.JoinSplit | src/jomoku/ui/ParseHelper.java:54 | joining the pieces of a split gives the string back |
| Text.IndexOfAbsent | src/jomoku/ui/ParseHelper.java:34 | with no separator, the search runs to the end |
| Text.IndexOfAfterPrefix | src/jomoku/ui/ParseHelper.java:34 | the separator after a separator-free prefix is found just after the prefix |
| Text.RemoveSpaces | src/jomoku/ui/ParseHelper.java:50 | the result holds no space and is no longer than the input; RemoveSpacesChar and RemoveSpacesAppend give the rest of its meaning |
| Text.RemoveSpacesChar | src/jomoku/ui/ParseHelper.java:50 | a single character is dropped exactly when it is a space |
| Text.RemoveSpacesAppend | src/jomoku/ui/ParseHelper.java:50 | removal works piece by piece, so every non-space character survives, in order |
| Text.IntToString | src/jomoku/Stone.java:80 | Java's decimal text of an int: a `-` before the digits when negative; IntStringShape and the parse round trips give its meaning |
| Text.DecimalValue | src/jomoku/ui/ParseHelper.java:35 | the value of a digit string; DecimalRoundTrip inverts NatToString with it |
| WinScan.ScanState | src/jomoku/Board.java:123-137 | the loop's pair (recorded maximum, current run) after a prefix; CurrentRunIsTrailing and RecordedRunIsClosedRun give its meaning |
| WinScan.LineWins | src/jomoku/Board.java:123-137 | the verdict of one line; LineWinsIff characterises it in both directions |
| WinScan.LastWritten | src/jomoku/Board.java:163-172 | the cell of the rotated grid after the first n lines were written, the last write winning; RotationWithoutCollision and EmptyNeverWritten give its meaning |
| WinScan.Diagonals | src/jomoku/Board.java:163-172 | the rotated grid, or the out-of-range failure when a line is longer than the target's rows; FirstRotationSucceeds and WideBoardFails give its meaning |
| WinScan.PlayerWins | src/jomoku/Board.java:98-113 | the four ordered checks of doesPlayerWin, short-circuiting; ClosedColumnRunWins and WideBoardFails give its meaning |
| WinScan.CurrentRunIsTrailing | src/jomoku/Board.java:123-137 | the scan's current run counts the trailing stones of the prefix read so far |
| WinScan.RecordedRunIsClosedRun | src/jomoku/Board.java:123-137 | the maximum recorded is at least k exactly when some run of k stones ends just before an empty cell |
| WinScan.LineWinsIff | src/jomoku/Board.java:123-137 | a line wins exactly when K <= 0, or when some run of at least K stones is immediately followed by an empty cell |
| WinScan.TrailingStonesNotRecorded | src/jomoku/Board.java:123-137 | stones appended at the end of a line never change the recorded maximum: a run reaching the last cell is not counted |
| WinScan.EmptyLineScan | src/jomoku/Board.java:123-137 | a line without stones records no run |
| WinScan.Transpose | src/jomoku/Board.java:102-108 | the transposed grid has the swapped dimensions, with `t[j][i] == g[i][j]` |
| WinScan.RotationWithoutCollision | src/jomoku/Board.java:163-172 | when the lines fit into the columns, cell (c, r) is stored at `[r][(c + r) mod NUMBER_OF_COLUMNS]` and no later write overwrites it |
| WinScan.ModuloDistinct | src/jomoku/Board.java:168 | two different lines never share a rotated slot within one row |
| WinScan.FirstRotationSucceeds | src/jomoku/Board.java:99 | rotating the board itself never indexes out of range |
| WinScan.ClosedColumnRunWins | src/jomoku/Board.java:98-113 | a run of K stones followed by an empty cell in any column makes the player win |
| WinScan.WideBoardFails | src/jomoku/Board.java:98-113 | with columns > rows >= 1, any board that wins by none of the first three scans makes the second rotation (Board.java:109) index out of range |
| WinScan.EmptyWideBoardFails | src/jomoku/Board.java:98-113 | in particular the empty board with columns > rows >= 1 fails that way |
| WinScan.EmptyNeverWritten | src/jomoku/Board.java:163-172 | rotating a board without stones stores no stone |
| Boards.BlockedList.constructor | src/jomoku/Board.java:29 | the shared blocked list starts empty |
| Boards.Stone.constructor | src/jomoku/Stone.java:31-35 | a stone's board is its player's board, its owner is that board's owner, and its position is the one given |
| Boards.Stone.ToString | src/jomoku/Stone.java:38-40 | a stone prints as its position |
| Boards.Occupancy | src/jomoku/Board.java:98-113 | the occupancy grid has the board's dimensions, and each line marks the cells holding a stone |
| Boards.Occupy | src/jomoku/Board.java:44 | placing a stone adds exactly one occupied cell |
| Boards.Board.constructor | src/jomoku/Board.java:36-40 | a new board has the game's dimensions, the shared blocked list, and no stones |
| Boards.Board.GetStone | src/jomoku/Board.java:86-91 | out of bounds gives null instead of failing; a stone found is this board's stone at that position |
| Boards.Board.IsStoneSetAtPosition | src/jomoku/Board.java:50-53 | true exactly when `getStone` finds a stone; then the position is a real index |
| Boards.Board.CanStoneBePlacedAtPosition | src/jomoku/Board.java:55-58 | true exactly when the position is in bounds, not in the blocked list (by identity) and holds no stone |
| Boards.Board.IsStonePositionBlocked | src/jomoku/Board.java:76-78 | membership in the one shared list, by object identity; Games.Game.BlockStonePosition proves every board sees a new block |
| Boards.Board.BlockStonePosition | src/jomoku/Board.java:65-67 | the position is appended to the one shared list, which every board sees |
| Boards.Board.PlaceStone | src/jomoku/Board.java:42-48 | returns whether placement was allowed before; on success only that cell changes, to a fresh stone at that position; on failure nothing changes |
| Boards.Board.CheckForWinningRow | src/jomoku/Board.java:123-137 | the loop's answer is the line-scan verdict of that line |
| Boards.Board.CheckForWinningRows | src/jomoku/Board.java:148-155 | true exactly when some line of the grid wins |
| Boards.Board.GetDiagonals | src/jomoku/Board.java:163-172 | fails exactly when the value rotation fails; otherwise it returns a fresh grid with the rotated cells |
| Boards.Board.DoesPlayerWin | src/jomoku/Board.java:98-113 | the verdict of the four ordered checks: the grid, its rotation, its transpose and the transpose's rotation, including the out-of-range failure |
| Games.WinnerOf | src/jomoku/Game.java:165-173 | white wins whenever the white board wins; black only when white does not; nobody when neither does; a failure of a check that is reached propagates |
| Games.StoneFieldType | src/jomoku/Game.java:181-199 | stones on both boards give JOKER, black only BLACK, white only WHITE, none FREE; never BLOCKED |
| Games.JokerFold | src/jomoku/Game.java:132-136 | the in-order fold of the joker placements over both grids: a position free on both boards is occupied on both, any other position changes neither; the grids keep their dimensions |
| Games.Game.constructor | src/jomoku/Game.java:62-71 | two fresh empty boards of the given size and win length, sharing the blocked list |
| Games.Game.WithDefaultWinLength | src/jomoku/Game.java:79-88 | as the constructor, with win length 5 |
| Games.Game.BlockStonePosition | src/jomoku/Game.java:95-97 | the position is appended to the shared list, and every board on it then sees the position as blocked |
| Games.Game.BlockStonePositions | src/jomoku/Game.java:104-108 | every listed position is appended, in order |
| Games.Game.CanStoneBePlacedAtPosition | src/jomoku/Game.java:155-158 | placeable exactly when both boards accept the position |
| Games.Game.PlaceJokerStone | src/jomoku/Game.java:117-124 | all or nothing: on success both boards gain the cell and it reads as JOKER; on failure neither board changes |
| Games.Game.PlaceJokerStones | src/jomoku/Game.java:132-136 | the boards end as the in-order fold of the joker placements: rejected positions are skipped |
| Games.Game.PlaceStone | src/jomoku/Game.java:147-153 | succeeds exactly when the position is placeable on both boards; then only the chosen colour's board gains the cell; otherwise both are unchanged |
| Games.Game.Winner | src/jomoku/Game.java:165-173 | the white-first verdict of the two boards' win checks |
| Games.Game.GetFieldType | src/jomoku/Game.java:181-199 | BLOCKED exactly when the position is blocked; FREE exactly when it is unblocked and on neither board; otherwise the stone classification |
| Games.Game.GetBoardFieldTypes | src/jomoku/Game.java:207-216 | a fresh columns × rows array classifying every cell; since its positions are fresh objects, no cell is ever BLOCKED |
| Games.CanPlaceIffFree | src/jomoku/Game.java:155-158 | a position is placeable exactly when it is an index and its field type is FREE |
| ParseHelper.PairFormatOf | src/jomoku/ui/ParseHelper.java:33 | `digits x digits` matches the pair pattern |
| ParseHelper.DigitsHaveNo | src/jomoku/ui/ParseHelper.java:33 | a digit string contains no non-digit |
| ParseHelper.SplitPair | src/jomoku/ui/ParseHelper.java:34 | a string in pair format splits at its `x` into exactly two pieces |
| ParseHelper.ParseStringAsIntegerValuePair | src/jomoku/ui/ParseHelper.java:32-39 | the pattern check, the split at `x` and the two `Integer.parseInt` calls; PairParseMeaning states its meaning in both directions |
| ParseHelper.PairParseMeaning | src/jomoku/ui/ParseHelper.java:32-39 | anything but `digits x digits` is a format error; otherwise both values are parsed in order, and a value above the `int` range is an error |
| ParseHelper.ParseStringAsPosition | src/jomoku/ui/ParseHelper.java:20-23 | a fresh Position holding the parsed pair, or the pair parser's error |
| ParseHelper.PositionRoundTrip | src/jomoku/ui/ParseHelper.java:20-23 | printing a non-negative pair and parsing it gives the pair back |
| ParseHelper.PositionToStringRoundTrip | src/jomoku/Stone.java:79-81 | parsing `p.toString()` gives p's coordinates for non-negative p |
| ParseHelper.NegativePositionRejected | src/jomoku/ui/ParseHelper.java:33 | the text of a position with a negative coordinate is rejected as malformed |
| ParseHelper.IntStringShape | src/jomoku/Stone.java:80 | a printed number is non-empty, has no `x`, and starts with `-` when negative |
| ParseHelper.ParsePairs | src/jomoku/ui/ParseHelper.java:56-58 | succeeds exactly when every piece parses; the results are then the pieces' pairs in order; else an out-of-range error |
| ParseHelper.ListFormatOfJoin | src/jomoku/ui/ParseHelper.java:51-54 | comma-joined pairs match the list pattern and split back into the same pieces |
| ParseHelper.ListFormatIsJoin | src/jomoku/ui/ParseHelper.java:51-54 | a string matching the list pattern is the comma join of its pieces, each of which is a pair |
| ParseHelper.ParsePositionList | src/jomoku/ui/ParseHelper.java:48-62 | null or empty input gives no positions; after removing spaces, a string that does not match the list pattern is a format error; success gives one pair per comma-separated piece |
| ParseHelper.ParseStringAsPositionArray | src/jomoku/ui/ParseHelper.java:48-62 | a fresh array of fresh Positions holding the parsed pairs in input order, or the same error |
| ParseHelper.ParsePieces | src/jomoku/ui/ParseHelper.java:55-59 | the indexed loop fills one fresh Position per piece, or stops with the out-of-range error |
| ParseHelper.SpaceInsertionIgnored | src/jomoku/ui/ParseHelper.java:49-50 | a space inserted anywhere into a non-empty list changes neither the result nor the error |
| ParseHelper.AllSpacesRejected | src/jomoku/ui/ParseHelper.java:49-53 | a non-empty all-space string is rejected, not treated as empty |
| ParseHelper.SpacesRemoveToEmpty | src/jomoku/ui/ParseHelper.java:50 | removing the spaces from an all-space string leaves the empty string |
| ParseHelper.RemoveSpacesKeepsSpaceless | src/jomoku/ui/ParseHelper.java:50 | a string without spaces is left as it is |
| ParseHelper.JoinAvoids | src/jomoku/ui/ParseHelper.java:54 | joining pieces that avoid a character gives a string that avoids it |
| ParseHelper.RenderedPiece | src/jomoku/Stone.java:79-81 | a printed non-negative position is one list piece that parses back to its pair |
| ParseHelper.ListRoundTrip | src/jomoku/ui/ParseHelper.java:48-62 | parsing the comma-joined texts of non-negative positions gives the positions back, in order |
| EngineSpec.ConvertFieldTypeToIntType | src/jomoku/opponent/OpponentEngine.java:159-174 | FREE is 0, BLOCKED -1, JOKER 2; the engine's own colour is 3 and the other colour 1, in both directions |
| EngineSpec.IsFieldOkay | src/jomoku/opponent/OpponentEngine.java:315-317 | a cell is acceptable when it holds the own code or the joker code, or is free and free cells are accepted; SideRunWidens relies on it |
| EngineSpec.SideRun | src/jomoku/opponent/OpponentEngine.java:290-313 | the run of acceptable cells on one side, from offset i up to centerIndex - 1, stopping at the first unacceptable cell; SideRunBound and SideRunWidens give its meaning |
| EngineSpec.RunLength | src/jomoku/opponent/OpponentEngine.java:290-313 | the two sides' runs added; RunLengthBound and FreeSpaceWidens give its meaning |
| EngineSpec.CalculateScore | src/jomoku/opponent/OpponentEngine.java:283-288 | the score of the strict and the free-space run length; Engines.Row.CalculateScore is proved equal to it |
| EngineSpec.SideRunBound | src/jomoku/opponent/OpponentEngine.java:290-313 | one side's run counts at most the offsets from i to centerIndex - 1 |
| EngineSpec.RunLengthBound | src/jomoku/opponent/OpponentEngine.java:290-313 | the run length is at most 2 · (centerIndex - 1) |
| EngineSpec.SideRunWidens | src/jomoku/opponent/OpponentEngine.java:315-317 | accepting free cells never shortens one side's run |
| EngineSpec.FreeSpaceWidens | src/jomoku/opponent/OpponentEngine.java:290-317 | the free-space run length is at least the strict run length |
| EngineSpec.RowRecalc | src/jomoku/opponent/OpponentEngine.java:267-280 | a recalculation keeps the window's codes |
| EngineSpec.RecalcBlocks | src/jomoku/opponent/OpponentEngine.java:267-280 | afterwards blocked exactly when it was blocked before or the centre is non-free; a blocked window scores -1; the recalculation that blocks changes only the flag; an unblocked score is own plus opponent score |
| EngineSpec.RowWrite | src/jomoku/opponent/OpponentEngine.java:333-337 | a write changes exactly the addressed slot to the new code |
| EngineSpec.BlockedRatchet | src/jomoku/opponent/OpponentEngine.java:267-280 | a blocked window stays blocked at score -1 after any write; a non-free write to the centre blocks it |
| EngineSpec.FieldRecalc | src/jomoku/opponent/OpponentEngine.java:212-221 | afterwards the field is clean; a clean field is unchanged; the windows are untouched |
| EngineSpec.FieldScore | src/jomoku/opponent/OpponentEngine.java:227-230 | the score a read returns, recalculated when the field is dirty; ScoreReadIsStable gives its meaning |
| EngineSpec.ScoreReadIsStable | src/jomoku/opponent/OpponentEngine.java:227-230 | a second read with no update between recalculates nothing and gives the same score |
| EngineSpec.FieldSetType | src/jomoku/opponent/OpponentEngine.java:237-243 | the field takes the code, is marked dirty and keeps its middle bonus |
| EngineSpec.FieldRowWrite | src/jomoku/opponent/OpponentEngine.java:333-337 | only the addressed window's slot `offset + centerIndex` changes, and the field is marked dirty |
| EngineSpec.ApplyWrite | src/jomoku/opponent/OpponentEngine.java:68-104 | a write outside the grid changes nothing; one inside replaces only the addressed field, by its `setFieldType` or its window write (SetTypeWriteAt, SetRowWriteAt), keeping the grid's shape |
| EngineSpec.ApplyWrites | src/jomoku/opponent/OpponentEngine.java:61-105 | the writes applied one by one, in order, keeping the grid's shape; fields no write addresses stay unchanged (UntouchedFieldKept) |
| EngineSpec.ReplaceFits | src/jomoku/opponent/OpponentEngine.java:68 | replacing one field by one that fits keeps the grid's shape |
| EngineSpec.SetTypeWriteAt | src/jomoku/opponent/OpponentEngine.java:68 | the centre write replaces only the target field, by its `setFieldType` |
| EngineSpec.CentreWritesInOrder | src/jomoku/opponent/OpponentEngine.java:68 | the centre writes amount to the target's `setFieldType` |
| EngineSpec.WindowWriteStep | src/jomoku/opponent/OpponentEngine.java:73-102 | one window write replaces only the addressed field, by its window write |
| EngineSpec.SetRowWriteAt | src/jomoku/opponent/OpponentEngine.java:73-102 | a window write on a grid replaces only the addressed field |
| EngineSpec.ApplyWritesAppend | src/jomoku/opponent/OpponentEngine.java:61-105 | writes applied one list after another are the writes of the joined list |
| EngineSpec.ApplyWritesSnoc | src/jomoku/opponent/OpponentEngine.java:61-105 | one more write at the end is one more step |
| EngineSpec.ApplyWritesSingle | src/jomoku/opponent/OpponentEngine.java:61-105 | a one-write list is that write |
| EngineSpec.UntouchedFieldKept | src/jomoku/opponent/OpponentEngine.java:61-105 | a field that no write addresses is unchanged |
| EngineSpec.UntouchedFieldUnwritten | src/jomoku/opponent/OpponentEngine.java:61-105 | a field that one write does not address is unchanged |
| EngineSpec.LoopState | src/jomoku/opponent/OpponentEngine.java:71-104 | the grid after the iterations lo to hi - 1 of one loop, in order, keeping its shape; LoopStateIsSteps ties it to the loop's writes |
| EngineSpec.LoopStateIsSteps | src/jomoku/opponent/OpponentEngine.java:71-104 | running a loop equals applying its iterations' writes in order |
| EngineSpec.Step | src/jomoku/opponent/OpponentEngine.java:71-104 | the writes of iteration i of one loop, with that loop's bounds checks; StepReach states where they land |
| EngineSpec.Steps | src/jomoku/opponent/OpponentEngine.java:71-104 | the writes of iterations lo to hi - 1, in order; StepsReach states where they land |
| EngineSpec.SetStoneTypeWrites | src/jomoku/opponent/OpponentEngine.java:61-105 | the ordered write list of `setStoneType` and whether the horizontal loop fails; SetStoneTypeReach states where they land |
| EngineSpec.SetStoneTypeState | src/jomoku/opponent/OpponentEngine.java:61-105 | the grid after the centre write and the four loops, stopping after a failing horizontal loop; SetStoneTypeStateIsWrites ties it to the ordered write list |
| EngineSpec.SetStoneTypeStateIsWrites | src/jomoku/opponent/OpponentEngine.java:61-105 | `setStoneType` equals applying the ordered write list: centre, vertical, horizontal, diagonal, anti-diagonal |
| EngineSpec.SetStoneTypeInOrder | src/jomoku/opponent/OpponentEngine.java:61-105 | running the centre write and then the four loops one after another gives the ordered write list's result |
| EngineSpec.ThenStepsSnoc | src/jomoku/opponent/OpponentEngine.java:71-104 | one more loop range adds exactly that loop's steps at the end of the write list |
| EngineSpec.LoopsInOrder | src/jomoku/opponent/OpponentEngine.java:71-104 | any number of loops run one after another, after some writes, equal those writes followed by each loop's steps in order |
| EngineSpec.SetStoneTypeFailsInOrder | src/jomoku/opponent/OpponentEngine.java:81-88 | when the horizontal loop fails, the state holds the writes up to the failure, in order |
| EngineSpec.StepReach | src/jomoku/opponent/OpponentEngine.java:71-104 | every write of one loop iteration stays within reach of the target |
| EngineSpec.StepsReach | src/jomoku/opponent/OpponentEngine.java:71-104 | every write of a loop stays within reach of the target |
| EngineSpec.SetStoneTypeReach | src/jomoku/opponent/OpponentEngine.java:61-105 | reach of `setStoneType`: the target's centre; its own column within distance < K, never row 0 from above; only rightward in its row; the bounds-checked cells `[row ± i][column + i]` |
| EngineSpec.AllAppend | src/jomoku/opponent/OpponentEngine.java:61-105 | reach holds for a joined list when it holds for both parts |
| EngineSpec.EmptyRow | src/jomoku/opponent/OpponentEngine.java:259-262 | a new window has 2K - 1 slots around centre K - 1 |
| EngineSpec.InitialField | src/jomoku/opponent/OpponentEngine.java:204-210 | a new field: the given code, four empty windows of 2K - 1 slots, clean, with the middle bonus as its score |
| EngineSpec.InitialFieldIgnoresCode | src/jomoku/opponent/OpponentEngine.java:204-210 | the constructor's code never reaches the windows: they start unblocked and all free, and the first score is the middle bonus alone |
| EngineSpec.Scores | src/jomoku/opponent/OpponentEngine.java:150 | the score grid has the fields' shape and each field's score |
| EngineSpec.ReadBefore | src/jomoku/opponent/OpponentEngine.java:147-155 | after the scan reached (i, j), exactly the fields before it in column-major order are recalculated |
| EngineSpec.NothingReadYet | src/jomoku/opponent/OpponentEngine.java:147 | before the scan nothing is recalculated |
| EngineSpec.ReadOneMore | src/jomoku/opponent/OpponentEngine.java:150 | reading the next field advances the scan by one cell |
| EngineSpec.ReadAgain | src/jomoku/opponent/OpponentEngine.java:151 | reading a field a second time changes nothing |
| EngineSpec.ReadStep | src/jomoku/opponent/OpponentEngine.java:150-151 | one or two reads of the current field advance the scan by one cell |
| EngineSpec.ReadColumnDone | src/jomoku/opponent/OpponentEngine.java:147-149 | the end of one column is the start of the next |
| EngineSpec.ReadingKeepsScores | src/jomoku/opponent/OpponentEngine.java:150 | reading scores never changes any score |
| EngineSpec.ScanColumn | src/jomoku/opponent/OpponentEngine.java:149-154 | the column's running maximum is at least the start and every scanned score |
| EngineSpec.ScanGrid | src/jomoku/opponent/OpponentEngine.java:147-155 | the grid's running maximum is at least the start and every scanned score |
| EngineSpec.ScanColumnIsFirstMax | src/jomoku/opponent/OpponentEngine.java:149-154 | either nothing beat the start, or the result is the first cell of the column holding a strictly larger maximum |
| EngineSpec.ScanGridIsFirstMax | src/jomoku/opponent/OpponentEngine.java:144-157 | either no score beats the start, or the result is the first cell in column-major order holding the strictly largest score |
| Engines.Row.constructor | src/jomoku/opponent/OpponentEngine.java:259-262 | a fresh array of 2K - 1 free slots, centre K - 1, unblocked |
| Engines.Row.CalcFieldRowLengthAroundCenter | src/jomoku/opponent/OpponentEngine.java:290-313 | the two-sided loop computes the run length of the specification |
| Engines.Row.CalculateScore | src/jomoku/opponent/OpponentEngine.java:283-288 | the score of the strict and the free-space run lengths |
| Engines.Row.RecalculateScore | src/jomoku/opponent/OpponentEngine.java:267-280 | the window's new state is the specified recalculation, with its ratchet |
| Engines.Row.SetFieldType | src/jomoku/opponent/OpponentEngine.java:333-337 | writes slot `position + centerIndex` and recalculates |
| Engines.Row.SetCenterFieldType | src/jomoku/opponent/OpponentEngine.java:344-348 | writes the centre slot and recalculates |
| Engines.Field.constructor | src/jomoku/opponent/OpponentEngine.java:204-210 | four fresh distinct windows and the initial field state with its middle bonus |
| Engines.Field.RecalculateScore | src/jomoku/opponent/OpponentEngine.java:212-221 | the field's new state is the specified lazy recalculation |
| Engines.Field.GetScore | src/jomoku/opponent/OpponentEngine.java:227-230 | returns the field's score and leaves it clean |
| Engines.Field.SetFieldType | src/jomoku/opponent/OpponentEngine.java:237-243 | the code goes to the field and to the centre of all four windows, and the field is marked dirty |
| Engines.Field.SetRowFieldType | src/jomoku/opponent/OpponentEngine.java:333-337 | one window's slot is written and the field is marked dirty |
| Engines.OpponentEngine.constructor | src/jomoku/opponent/OpponentEngine.java:34-52 | one field per board cell, each with the cell's type code for this engine's colour and its middle bonus |
| Engines.OpponentEngine.Apply | src/jomoku/opponent/OpponentEngine.java:68-102 | one write of `setStoneType` updates the grid as specified |
| Engines.OpponentEngine.SetStoneType | src/jomoku/opponent/OpponentEngine.java:61-105 | a position outside the grid fails untouched; otherwise the grid becomes the specified state, failing exactly when K - 1 exceeds the number of columns |
| Engines.OpponentEngine.SetVerticalRow | src/jomoku/opponent/OpponentEngine.java:71-79 | the vertical loop's state is the specified loop state |
| Engines.OpponentEngine.SetVerticalPair | src/jomoku/opponent/OpponentEngine.java:72-77 | one vertical iteration applies its specified writes |
| Engines.OpponentEngine.SetHorizontalRow | src/jomoku/opponent/OpponentEngine.java:81-88 | the horizontal loop fails exactly when K - 1 exceeds the columns, after the writes before the failing index; otherwise it runs its K iterations |
| Engines.OpponentEngine.SetDiagonal | src/jomoku/opponent/OpponentEngine.java:90-96 | the diagonal loop's state is the specified loop state |
| Engines.OpponentEngine.SetAntiDiagonal | src/jomoku/opponent/OpponentEngine.java:98-104 | the anti-diagonal loop's state is the specified loop state |
| Engines.OpponentEngine.ReadScore | src/jomoku/opponent/OpponentEngine.java:150 | reading a field's score returns its specified score and recalculates only that field |
| Engines.OpponentEngine.ExamineBestPosition | src/jomoku/opponent/OpponentEngine.java:144-157 | an empty grid fails; otherwise the result is the first strictly best cell from the middle default at score 0, and exactly the read fields are recalculated |
| Engines.OpponentEngine.ExamineColumn | src/jomoku/opponent/OpponentEngine.java:148-154 | one column of the scan extends the running maximum as specified |
| BoardMatrix.ChangeColumnsAndRows | src/jomoku/opponent/BoardMatrix.java:204-224 | a `[0].length × length` matrix with `t[r][c] == m[c][r]`, for any element type |
| BoardMatrix.ChangeColumnsAndRowsTwice | src/jomoku/opponent/BoardMatrix.java:204-224 | transposing twice gives the original |
| BoardMatrix.ReverseColumns | src/jomoku/opponent/BoardMatrix.java:226-236 | same dimensions, with `t[C - 1 - c][r] == m[c][r]` |
| BoardMatrix.ReverseColumnsTwice | src/jomoku/opponent/BoardMatrix.java:226-236 | reversing the columns twice gives the original |
| BoardMatrix.ReverseRows | src/jomoku/opponent/BoardMatrix.java:238-248 | same dimensions, with `t[c][R - 1 - r] == m[c][r]` |
| BoardMatrix.ReverseRowsTwice | src/jomoku/opponent/BoardMatrix.java:238-248 | reversing the rows twice gives the original |
| BoardMatrix.IntToDoubleMatrix | src/jomoku/opponent/BoardMatrix.java:106-115 | same dimensions, with every entry's value kept |
| BoardMatrix.Round | src/jomoku/opponent/BoardMatrix.java:373 | `Math.round` gives a `long`, the nearest integer when that is in range |
| BoardMatrix.LongToInt | src/jomoku/opponent/BoardMatrix.java:373 | the `(int)` cast keeps values in the `int` range and otherwise keeps the low 32 bits |
| BoardMatrix.Positivize | src/jomoku/opponent/BoardMatrix.java:373 | a negative entry becomes -1; a non-negative entry in the `int` range becomes its nearest integer |
| BoardMatrix.HugeValueBecomesMinusOne | src/jomoku/opponent/BoardMatrix.java:373 | a value at or above the `long` range saturates and is then cut to -1 |
| BoardMatrix.DoubleToPositivizedIntMatrix | src/jomoku/opponent/BoardMatrix.java:368-377 | same dimensions; every negative entry becomes -1 |
| BoardMatrix.PositivizedIntRoundTrip | src/jomoku/opponent/BoardMatrix.java:106-115 | integer entries of at least -1 survive the conversion to doubles and back |
| BoardMatrix.AddMatrizes | src/jomoku/opponent/BoardMatrix.java:257-267 | fails, leaving matrix1 unchanged, exactly when both matrices have no columns; otherwise returns matrix1, which becomes the entrywise sum when both dimensions match and is unchanged otherwise |
| BoardMatrix.MultiplyMatrixWithScalar | src/jomoku/opponent/BoardMatrix.java:276-284 | returns the matrix, every entry multiplied in place by `1 + scalar` |
| BoardMatrix.GetMaximumValuePosition | src/jomoku/opponent/BoardMatrix.java:330-344 | the sentinel (-1, -1, 0), or a placeable cell with its positive value that no placeable cell exceeds and no earlier placeable cell in column-major order reaches |
| BoardMatrix.ExamineMatrixColumn | src/jomoku/opponent/BoardMatrix.java:334-341 | one column of the scan extends the first placeable maximum |
| BoardMatrix.Visit | src/jomoku/opponent/BoardMatrix.java:137-142 | one step of the evaluator's side loop: a cell out of the grid, or any cell after a block, counts as missing; an in-grid cell before a block adds its entry and, when the opponent array is false there, blocks every later cell of the walk; the bound is at most one missing cell per step, and OpenWalkForward and OpenWalkBackward pin the counts on an unblocked row |
| BoardMatrix.Walk | src/jomoku/opponent/BoardMatrix.java:136-152 | the side loop of k steps in order; at most k cells are missing, and OpenWalkForward and OpenWalkBackward give the exact count on an unblocked row |
| BoardMatrix.VerticalValue | src/jomoku/opponent/BoardMatrix.java:130-158 | the evaluator's value: `Integer.MIN_VALUE` when the entry is non-zero, 0 when a side left cells missing but fewer than inARow in all, else the two sides' score; LeftEdgeKeepsItsValue and RightEdgeIsZero give its meaning |
| BoardMatrix.CalculateValueForPositionVertical | src/jomoku/opponent/BoardMatrix.java:130-158 | `Integer.MIN_VALUE` for an occupied cell; otherwise the value of the two walks, forward `inARow` and backward `inARow + 1` steps |
| BoardMatrix.ForwardSide | src/jomoku/opponent/BoardMatrix.java:136-143 | the forward loop's sum and missing count are those of the forward walk |
| BoardMatrix.BackwardSide | src/jomoku/opponent/BoardMatrix.java:144-152 | the backward loop's sum and missing count are those of the backward walk of one more step |
| BoardMatrix.OpenWalkForward | src/jomoku/opponent/BoardMatrix.java:136-143 | on a row with no blocking cell, the forward walk counts only the cells beyond the right edge as missing |
| BoardMatrix.OpenWalkBackward | src/jomoku/opponent/BoardMatrix.java:145-152 | on such a row, the backward walk counts only the cells beyond the left edge as missing |
| BoardMatrix.LeftEdgeKeepsItsValue | src/jomoku/opponent/BoardMatrix.java:153-157 | at the first column of an open row, the cut-short rule does not apply and the value is the two sides' score |
| BoardMatrix.RightEdgeIsZero | src/jomoku/opponent/BoardMatrix.java:153-154 | at the last column of an open row, with 2 <= inARow < columns, the value is 0: the rule is not symmetric |
| UiOptions.PutEntries | src/jomoku/ui/UI.java:213-216 | every table name is in the map afterwards, and no key is lost |
| UiOptions.PutEntriesStoresDefaults | src/jomoku/ui/UI.java:213-216 | each table name maps to its own default |
| UiOptions.Assignments | src/jomoku/ui/UI.java:217-228 | the argument loop makes at most one assignment per argument |
| UiOptions.ApplyAll | src/jomoku/ui/UI.java:222-225 | every assigned name is stored, and no key is lost |
| UiOptions.ApplyAllSnoc | src/jomoku/ui/UI.java:222-225 | a later assignment overwrites an earlier one |
| UiOptions.ApplyAllUntouched | src/jomoku/ui/UI.java:222-225 | a name never assigned keeps its entry, or stays absent |
| UiOptions.AssignmentsAppendFlag | src/jomoku/ui/UI.java:224-226 | a flag at the end assigns `"true"` to its name |
| UiOptions.AssignmentsAppendFlagValue | src/jomoku/ui/UI.java:219-223 | a flag followed by a non-flag assigns that argument to its name and consumes it |
| UiOptions.AssignmentsShift | src/jomoku/ui/UI.java:217-219 | a non-flag argument in front is skipped |
| UiOptions.TrailingFlagIsTrue | src/jomoku/ui/UI.java:224-226 | `-name` as the last argument stores `"true"` under name, whatever came before and whether or not name is in the table |
| UiOptions.FlagValueIsStored | src/jomoku/ui/UI.java:219-223 | `-name value` at the end stores value under name, overwriting earlier occurrences |
| UiOptions.LeadingNonFlagIgnored | src/jomoku/ui/UI.java:217-219 | an unconsumed non-flag argument changes nothing |
| UiOptions.OptionNamesDistinct | src/jomoku/ui/UI.java:31-49 | the table's names are pairwise distinct |
| UiOptions.DefaultsBeforeArguments | src/jomoku/ui/UI.java:31-49 | before any argument, every table name maps to its default (null ones included): `size` is `19x19`, `xInARow` is `5`, `block` and `joker` are empty, `gui` is null |
| UiOptions.UI.constructor | src/jomoku/ui/UI.java:50 | the option map starts empty |
| UiOptions.InitialOptions | src/jomoku/ui/UI.java:212-229 | the map after the defaults and then the argument assignments; DefaultsBeforeArguments, TrailingFlagIsTrue, FlagValueIsStored and LeadingNonFlagIgnored give its meaning |
| UiOptions.UI.InitOptionsMap | src/jomoku/ui/UI.java:212-229 | the map becomes the old map updated with the defaults, then the argument assignments in order |
| UiOptions.UI.GetOption | src/jomoku/ui/UI.java:280-282 | the stored value, or null for a name never stored |

## Left out

- Swing GUI, console front-ends, `ConsoleUI` and `Opponent.java`: rendering, console I/O, `Math.random` and threads. These files are not part of this model.
- `UI.run`, `playGame`, `replay`, `help`, `handleSevereError` and the help texts of the option table. They do input and output, exit the process and pick a random first player. Draw detection and free-field counting are not modelled, because `Board.resetNumberOfFreeFields` and `Game.drawn` are not in `Board.java` and `Game.java`.
- `Player`: its colour and board ownership are modelled as a `PlayerType` on each `Board`. `AbstractUI` and `AbstractPlayer` are not part of this model.
- `Math.pow` scores: the engine's score of the two run lengths and the vertical evaluator's power are parameters of the model (`runScore`, `power`). They are not computed.
- Floating point: doubles are modelled as `real`. NaN, infinities and rounding of sums are not modelled.
- `Position.getX`, `getY` and `getDistance` are not in `Stone.java`, and `Player.isWhite()` (called at OpponentEngine.java:168 and :170) is not in `Player.java`. The engine uses `COLUMN` and `ROW`. The distance to the middle cell is a parameter function of the engine's constructor. `Engines.OpponentEngine.isWhite` stands for the engine's player's `TYPE == WHITE`.
- `OpponentEngine.getScoreMatrix`, `getRoundedScoreMatrix` and `printScoreMatrix`: output of the scores only.
- The `BoardMatrix` constructor and its `calculateMatrix` chain depend on board methods that are not in `Board.java`. Also left out:
  - `calculateValueForPositionDiagonalsLeftTopToRightBottom`;
  - the matrix `getDiagonals`;
  - `addMiddleBonus`;
  - `ramndomize` (random numbers);
  - `toString`.
- `OpponentEngine` grid: the engine keeps its fields' states as a value grid, `seq<seq<FieldState>>`. The `Field` and `Row` classes are proved separately against the same states. Field objects shared between grid cells (aliasing) are not modelled: Java never creates them.
- Engines.OpponentEngine.constructor: the separate Java constructor and `init()` are one constructor here. Calling the engine before `init()` (a null `fieldArr`) is not modelled.
- Engines.Row.SetFieldType: in Java the inner `Row` sets its outer `Field`'s recalculation flag itself. Here `Engines.Field.SetRowFieldType` sets the flag right after the window's update, which gives the same final state.
- BoardMatrix matrices are rectangular and have at least one column (`Rectangular`), so `BoardMatrix.ChangeColumnsAndRows`, `BoardMatrix.ReverseColumns`, `BoardMatrix.ReverseRows`, `BoardMatrix.IntToDoubleMatrix` and `BoardMatrix.DoubleToPositivizedIntMatrix` do not model the ArrayIndexOutOfBoundsException Java's `arr[0]` throws on an empty outer array. Jagged Java arrays are not modelled. The two in-place operations work on `array2`.
- BoardMatrix.CalculateValueForPositionVertical: does not model the 32-bit overflow of the loop bounds `column + inARow` and `column - inARow - 1`, which are unbounded integers here.
- Boards.Board.GetStone: requires that an in-bounds position is a real index (`IndexSafe`). A negative coordinate passes `isInBounds`, and Java then indexes the array out of range; that exception is not modelled.
- Boards.Board.IsStoneSetAtPosition: requires `IndexSafe`, for the same reason as `GetStone`.
- Boards.Board.CanStoneBePlacedAtPosition: requires `PlaceSafe`, for the same reason as `GetStone`.
- Boards.Board.PlaceStone: requires `PlaceSafe`, for the same reason as `GetStone`.
- Games.Game.CanStoneBePlacedAtPosition: requires `PlaceSafe`; the boards' lookups throw on a negative in-bounds position, which is not modelled.
- Games.Game.PlaceJokerStone: requires `PlaceSafe`, for the same reason as `Games.Game.CanStoneBePlacedAtPosition`.
- Games.Game.PlaceJokerStones: requires every entry to be non-null and `PlaceSafe`; the exception a null or negative entry raises is not modelled.
- Games.Game.PlaceStone: requires `PlaceSafe`, for the same reason as `Games.Game.CanStoneBePlacedAtPosition`.
- Games.Game.GetFieldType: requires `PlaceSafe`. An unblocked position with a negative coordinate below the upper bounds makes `getStone` index out of range; that exception is not modelled.
- Engines.Row.constructor: requires 1 <= K and 2K - 1 <= `Integer.MAX_VALUE`. With K < 1 the size 2K - 1 is negative and Java throws NegativeArraySizeException; with K > 2^30 the `int` product wraps to a negative size, with the same exception. That exception is not modelled.
- Engines.Field.constructor: requires the same bounds on K as `Engines.Row.constructor`, for the same reason.
- Engines.OpponentEngine.constructor: requires the same bounds on K as `Engines.Row.constructor`, for the same reason.

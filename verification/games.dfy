/**
 * The game: the white and the black board over one shared blocked list,
 * joker stones counting for both, the winner with white checked first, and the
 * field type of the combined board.
 */
module Games {
  import opened Wrappers
  import opened Text
  import opened Stones
  import opened WinScan
  import opened Boards

  /** The win length a game gets when none is given. */
  const DEFAULT_NUMBER_OF_STONES_IN_A_ROW_TO_WIN: Int32 := 5

  /** Game.FieldType: the type of a field of the combined board. */
  datatype FieldType = BLACK | WHITE | JOKER | BLOCKED | FREE

  /**
   * winner(): the white board's outcome decides first; the black board is
   * only asked when white does not win. A crash of either check propagates.
   */
  function WinnerOf(white: Result<bool, RuntimeError>, black: Result<bool, RuntimeError>): (r: Result<Option<PlayerType>, RuntimeError>)
    ensures r == Success(Some(PlayerType.WHITE)) <==> white == Success(true)
    ensures r == Success(Some(PlayerType.BLACK)) <==> white == Success(false) && black == Success(true)
    ensures r == Success(None) <==> white == Success(false) && black == Success(false)
    ensures r.Failure? <==> white.Failure? || (white == Success(false) && black.Failure?)
  {
    if white.Failure? then Failure(white.error)
    else if white.value then Success(Some(PlayerType.WHITE))
    else if black.Failure? then Failure(black.error)
    else if black.value then Success(Some(PlayerType.BLACK))
    else Success(None)
  }

  /** The field type given the stones found on the black and the white board. */
  function StoneFieldType(blackStone: Stone?, whiteStone: Stone?): (t: FieldType)
    ensures t != FieldType.BLOCKED
    ensures t == FieldType.JOKER <==> blackStone != null && whiteStone != null
    ensures t == FieldType.BLACK <==> blackStone != null && whiteStone == null
    ensures t == FieldType.WHITE <==> blackStone == null && whiteStone != null
    ensures t == FieldType.FREE <==> blackStone == null && whiteStone == null
  {
    if blackStone != null then
      if whiteStone != null then FieldType.JOKER else FieldType.BLACK
    else if whiteStone != null then FieldType.WHITE
    else FieldType.FREE
  }

  /** The position can take a stone on a grid with the given occupancy. */
  predicate FreeIn(g: Grid, p: Position, numberOfColumns: nat, numberOfRows: nat, blocked: seq<Position?>)
    requires |g| == numberOfColumns && IsRect(g, numberOfRows)
  {
    p.IsIndexOf(numberOfColumns, numberOfRows) && p !in blocked && !g[p.COLUMN][p.ROW]
  }

  /**
   * The occupancy of the white and the black board after placeJokerStones:
   * each position in turn gets a stone on both boards when it is free on both,
   * and is skipped otherwise.
   */
  function JokerFold(white: Grid, black: Grid, positions: seq<Position?>,
                     numberOfColumns: nat, numberOfRows: nat, blocked: seq<Position?>): (r: (Grid, Grid))
    requires |white| == numberOfColumns && IsRect(white, numberOfRows)
    requires |black| == numberOfColumns && IsRect(black, numberOfRows)
    requires forall i :: 0 <= i < |positions| ==> positions[i] != null
    ensures |r.0| == numberOfColumns && IsRect(r.0, numberOfRows)
    ensures |r.1| == numberOfColumns && IsRect(r.1, numberOfRows)
    // a stone, once set, stays
    ensures forall c, q :: 0 <= c < numberOfColumns && 0 <= q < numberOfRows && white[c][q] ==> r.0[c][q]
    ensures forall c, q :: 0 <= c < numberOfColumns && 0 <= q < numberOfRows && black[c][q] ==> r.1[c][q]
    // joker stones go on both boards at once
    ensures forall c, q :: 0 <= c < numberOfColumns && 0 <= q < numberOfRows && r.0[c][q] && !white[c][q] ==> r.1[c][q] && !black[c][q]
    ensures forall c, q :: 0 <= c < numberOfColumns && 0 <= q < numberOfRows && r.1[c][q] && !black[c][q] ==> r.0[c][q] && !white[c][q]
    // every listed grid position that is not blocked ends up taken on some board
    ensures forall i :: 0 <= i < |positions| && positions[i].IsIndexOf(numberOfColumns, numberOfRows) && positions[i] !in blocked ==>
              r.0[positions[i].COLUMN][positions[i].ROW] || r.1[positions[i].COLUMN][positions[i].ROW]
    decreases |positions|
  {
    if positions == [] then (white, black)
    else
      var prev := JokerFold(white, black, positions[..|positions| - 1], numberOfColumns, numberOfRows, blocked);
      var p := positions[|positions| - 1];
      if FreeIn(prev.1, p, numberOfColumns, numberOfRows, blocked) && FreeIn(prev.0, p, numberOfColumns, numberOfRows, blocked)
      then (Occupy(prev.0, p.COLUMN, p.ROW), Occupy(prev.1, p.COLUMN, p.ROW))
      else prev
  }

  class Game {
    const NUMBER_OF_STONES_IN_A_ROW_TO_WIN: Int32
    const NUMBER_OF_COLUMNS: Size
    const NUMBER_OF_ROWS: Size
    const WHITE_PLAYER_BOARD: Board
    const BLACK_PLAYER_BOARD: Board
    /** The blocked list shared by every board. */
    const blocked: BlockedList

    /**
     * Both boards have the game's size and win length, belong to their
     * colours, are different grids and share the game's blocked list.
     */
    ghost predicate Valid()
      reads this, WHITE_PLAYER_BOARD, WHITE_PLAYER_BOARD.stones, BLACK_PLAYER_BOARD, BLACK_PLAYER_BOARD.stones
    {
      WHITE_PLAYER_BOARD.Valid() && BLACK_PLAYER_BOARD.Valid() &&
      WHITE_PLAYER_BOARD.stones != BLACK_PLAYER_BOARD.stones &&
      WHITE_PLAYER_BOARD.owner == PlayerType.WHITE && BLACK_PLAYER_BOARD.owner == PlayerType.BLACK &&
      WHITE_PLAYER_BOARD.blocked == blocked && BLACK_PLAYER_BOARD.blocked == blocked &&
      WHITE_PLAYER_BOARD.numberOfColumns == NUMBER_OF_COLUMNS && BLACK_PLAYER_BOARD.numberOfColumns == NUMBER_OF_COLUMNS &&
      WHITE_PLAYER_BOARD.numberOfRows == NUMBER_OF_ROWS && BLACK_PLAYER_BOARD.numberOfRows == NUMBER_OF_ROWS &&
      WHITE_PLAYER_BOARD.stonesToWin == NUMBER_OF_STONES_IN_A_ROW_TO_WIN &&
      BLACK_PLAYER_BOARD.stonesToWin == NUMBER_OF_STONES_IN_A_ROW_TO_WIN
    }

    /** A game with two empty boards of the given size over the shared blocked list. */
    constructor (numberOfColumns: Size, numberOfRows: Size, stonesToWin: Int32, blocked: BlockedList)
      ensures Valid() && fresh(WHITE_PLAYER_BOARD) && fresh(BLACK_PLAYER_BOARD)
      ensures fresh(WHITE_PLAYER_BOARD.stones) && fresh(BLACK_PLAYER_BOARD.stones)
      ensures NUMBER_OF_COLUMNS == numberOfColumns && NUMBER_OF_ROWS == numberOfRows
      ensures NUMBER_OF_STONES_IN_A_ROW_TO_WIN == stonesToWin && this.blocked == blocked
      ensures forall i, j :: 0 <= i < numberOfColumns && 0 <= j < numberOfRows ==>
                WHITE_PLAYER_BOARD.stones[i, j] == null && BLACK_PLAYER_BOARD.stones[i, j] == null
    {
      NUMBER_OF_COLUMNS := numberOfColumns;
      NUMBER_OF_ROWS := numberOfRows;
      NUMBER_OF_STONES_IN_A_ROW_TO_WIN := stonesToWin;
      this.blocked := blocked;
      WHITE_PLAYER_BOARD := new Board(PlayerType.WHITE, blocked, numberOfColumns, numberOfRows, stonesToWin);
      BLACK_PLAYER_BOARD := new Board(PlayerType.BLACK, blocked, numberOfColumns, numberOfRows, stonesToWin);
    }

    /** A game with the default win length of five. */
    constructor WithDefaultWinLength(numberOfColumns: Size, numberOfRows: Size, blocked: BlockedList)
      ensures Valid() && fresh(WHITE_PLAYER_BOARD) && fresh(BLACK_PLAYER_BOARD)
      ensures fresh(WHITE_PLAYER_BOARD.stones) && fresh(BLACK_PLAYER_BOARD.stones)
      ensures NUMBER_OF_COLUMNS == numberOfColumns && NUMBER_OF_ROWS == numberOfRows
      ensures NUMBER_OF_STONES_IN_A_ROW_TO_WIN == 5 && this.blocked == blocked
      ensures forall i, j :: 0 <= i < numberOfColumns && 0 <= j < numberOfRows ==>
                WHITE_PLAYER_BOARD.stones[i, j] == null && BLACK_PLAYER_BOARD.stones[i, j] == null
    {
      NUMBER_OF_COLUMNS := numberOfColumns;
      NUMBER_OF_ROWS := numberOfRows;
      NUMBER_OF_STONES_IN_A_ROW_TO_WIN := DEFAULT_NUMBER_OF_STONES_IN_A_ROW_TO_WIN;
      this.blocked := blocked;
      WHITE_PLAYER_BOARD := new Board(PlayerType.WHITE, blocked, numberOfColumns, numberOfRows, DEFAULT_NUMBER_OF_STONES_IN_A_ROW_TO_WIN);
      BLACK_PLAYER_BOARD := new Board(PlayerType.BLACK, blocked, numberOfColumns, numberOfRows, DEFAULT_NUMBER_OF_STONES_IN_A_ROW_TO_WIN);
    }

    /** Looking the position up on either board never indexes out of range. */
    predicate PlaceSafe(p: Position)
      reads blocked
    {
      p !in blocked.positions && p.IsInBounds(NUMBER_OF_COLUMNS, NUMBER_OF_ROWS) ==>
        p.IsIndexOf(NUMBER_OF_COLUMNS, NUMBER_OF_ROWS)
    }

    /**
     * Blocks the position for every board of the process; any board over the
     * same list now reports it blocked.
     */
    method BlockStonePosition(p: Position)
      requires Valid()
      modifies blocked
      ensures blocked.positions == old(blocked.positions) + [p]
      ensures forall b: Board :: b.blocked == blocked ==> b.IsStonePositionBlocked(p)
    {
      WHITE_PLAYER_BOARD.BlockStonePosition(p);
    }

    /** Blocks every listed position, in array order. */
    method BlockStonePositions(positions: array<Position?>)
      requires Valid()
      modifies blocked
      ensures blocked.positions == old(blocked.positions) + positions[..]
    {
      var i := 0;
      while i < positions.Length
        invariant 0 <= i <= positions.Length
        invariant blocked.positions == old(blocked.positions) + positions[..i]
      {
        WHITE_PLAYER_BOARD.BlockStonePosition(positions[i]);
        assert positions[..i + 1] == positions[..i] + [positions[i]];
        i := i + 1;
      }
      assert positions[..i] == positions[..];
    }

    /** Both boards can take a stone at the position. */
    predicate CanStoneBePlacedAtPosition(p: Position): (can: bool)
      requires Valid() && PlaceSafe(p)
      reads this, WHITE_PLAYER_BOARD, WHITE_PLAYER_BOARD.stones, BLACK_PLAYER_BOARD, BLACK_PLAYER_BOARD.stones, blocked
      ensures can <==> p.IsIndexOf(NUMBER_OF_COLUMNS, NUMBER_OF_ROWS) && p !in blocked.positions &&
                       WHITE_PLAYER_BOARD.stones[p.COLUMN, p.ROW] == null &&
                       BLACK_PLAYER_BOARD.stones[p.COLUMN, p.ROW] == null
    {
      WHITE_PLAYER_BOARD.CanStoneBePlacedAtPosition(p) && BLACK_PLAYER_BOARD.CanStoneBePlacedAtPosition(p)
    }

    /**
     * Places a joker stone: when the position is free on both boards, each
     * board gets a stone there; otherwise neither board changes.
     */
    method PlaceJokerStone(p: Position) returns (placed: bool)
      requires Valid() && PlaceSafe(p)
      modifies WHITE_PLAYER_BOARD.stones, BLACK_PLAYER_BOARD.stones
      ensures Valid()
      ensures placed == old(CanStoneBePlacedAtPosition(p))
      ensures placed ==> GetFieldType(p) == FieldType.JOKER
      ensures placed ==> Occupancy(WHITE_PLAYER_BOARD.stones) == Occupy(old(Occupancy(WHITE_PLAYER_BOARD.stones)), p.COLUMN as nat, p.ROW as nat)
      ensures placed ==> Occupancy(BLACK_PLAYER_BOARD.stones) == Occupy(old(Occupancy(BLACK_PLAYER_BOARD.stones)), p.COLUMN as nat, p.ROW as nat)
      ensures !placed ==> unchanged(WHITE_PLAYER_BOARD.stones) && unchanged(BLACK_PLAYER_BOARD.stones)
    {
      if BLACK_PLAYER_BOARD.CanStoneBePlacedAtPosition(p) && WHITE_PLAYER_BOARD.CanStoneBePlacedAtPosition(p) {
        var w := WHITE_PLAYER_BOARD.PlaceStone(p);
        var b := BLACK_PLAYER_BOARD.PlaceStone(p);
        return true;
      }
      return false;
    }

    /**
     * Places a joker stone at every listed position in array order, skipping
     * those that are not free on both boards.
     */
    method PlaceJokerStones(positions: array<Position?>)
      requires Valid()
      requires forall i :: 0 <= i < positions.Length ==> positions[i] != null && PlaceSafe(positions[i])
      modifies WHITE_PLAYER_BOARD.stones, BLACK_PLAYER_BOARD.stones
      ensures Valid()
      ensures (Occupancy(WHITE_PLAYER_BOARD.stones), Occupancy(BLACK_PLAYER_BOARD.stones)) ==
              JokerFold(old(Occupancy(WHITE_PLAYER_BOARD.stones)), old(Occupancy(BLACK_PLAYER_BOARD.stones)),
                        positions[..], NUMBER_OF_COLUMNS, NUMBER_OF_ROWS, blocked.positions)
    {
      ghost var white0 := Occupancy(WHITE_PLAYER_BOARD.stones);
      ghost var black0 := Occupancy(BLACK_PLAYER_BOARD.stones);
      var i := 0;
      while i < positions.Length
        invariant 0 <= i <= positions.Length
        invariant Valid()
        invariant (Occupancy(WHITE_PLAYER_BOARD.stones), Occupancy(BLACK_PLAYER_BOARD.stones)) ==
                  JokerFold(white0, black0, positions[..i], NUMBER_OF_COLUMNS, NUMBER_OF_ROWS, blocked.positions)
      {
        var p := positions[i];
        assert positions[..i + 1][..i] == positions[..i];
        var placed := PlaceJokerStone(p);
        i := i + 1;
      }
      assert positions[..i] == positions[..];
    }

    /**
     * Places a stone of the given colour when the position is free on both
     * boards; the other colour's board never changes.
     */
    method PlaceStone(p: Position, isWhiteStone: bool) returns (placed: bool)
      requires Valid() && PlaceSafe(p)
      modifies WHITE_PLAYER_BOARD.stones, BLACK_PLAYER_BOARD.stones
      ensures Valid()
      ensures placed == old(CanStoneBePlacedAtPosition(p))
      ensures placed ==> GetFieldType(p) == (if isWhiteStone then FieldType.WHITE else FieldType.BLACK)
      ensures placed && isWhiteStone ==>
                Occupancy(WHITE_PLAYER_BOARD.stones) == Occupy(old(Occupancy(WHITE_PLAYER_BOARD.stones)), p.COLUMN as nat, p.ROW as nat)
      ensures placed && !isWhiteStone ==>
                Occupancy(BLACK_PLAYER_BOARD.stones) == Occupy(old(Occupancy(BLACK_PLAYER_BOARD.stones)), p.COLUMN as nat, p.ROW as nat)
      ensures !placed || !isWhiteStone ==> unchanged(WHITE_PLAYER_BOARD.stones)
      ensures !placed || isWhiteStone ==> unchanged(BLACK_PLAYER_BOARD.stones)
    {
      var board := if isWhiteStone then WHITE_PLAYER_BOARD else BLACK_PLAYER_BOARD;
      if CanStoneBePlacedAtPosition(p) {
        placed := board.PlaceStone(p);
        return;
      }
      return false;
    }

    /**
     * winner(): WHITE when the white board wins, whatever black has; BLACK only
     * when black alone wins; none when neither does.
     */
    method Winner() returns (r: Result<Option<PlayerType>, RuntimeError>)
      requires Valid()
      ensures r == WinnerOf(
        PlayerWins(Occupancy(WHITE_PLAYER_BOARD.stones), NUMBER_OF_COLUMNS, NUMBER_OF_ROWS, NUMBER_OF_STONES_IN_A_ROW_TO_WIN),
        PlayerWins(Occupancy(BLACK_PLAYER_BOARD.stones), NUMBER_OF_COLUMNS, NUMBER_OF_ROWS, NUMBER_OF_STONES_IN_A_ROW_TO_WIN))
    {
      var white := WHITE_PLAYER_BOARD.DoesPlayerWin();
      match white
      case Failure(e) =>
        return Failure(e);
      case Success(true) =>
        return Success(Some(PlayerType.WHITE));
      case Success(false) =>
        var black := BLACK_PLAYER_BOARD.DoesPlayerWin();
        match black
        case Failure(e) =>
          return Failure(e);
        case Success(true) =>
          return Success(Some(PlayerType.BLACK));
        case Success(false) =>
          return Success(None);
    }

    /** getFieldType: BLOCKED first, then the stones found on the two boards. */
    function GetFieldType(p: Position): (t: FieldType)
      requires Valid() && PlaceSafe(p)
      reads this, WHITE_PLAYER_BOARD, WHITE_PLAYER_BOARD.stones, BLACK_PLAYER_BOARD, BLACK_PLAYER_BOARD.stones, blocked
      ensures t == FieldType.BLOCKED <==> p in blocked.positions
      ensures t == FieldType.FREE <==> (p !in blocked.positions &&
        !WHITE_PLAYER_BOARD.IsStoneSetAtPosition(p) && !BLACK_PLAYER_BOARD.IsStoneSetAtPosition(p))
    {
      if BLACK_PLAYER_BOARD.IsStonePositionBlocked(p) then FieldType.BLOCKED
      else StoneFieldType(BLACK_PLAYER_BOARD.GetStone(p), WHITE_PLAYER_BOARD.GetStone(p))
    }

    /**
     * getBoardFieldTypes: the field type of every cell, looked up through a
     * new Position object; a new object is never in the blocked list, so no
     * cell reads BLOCKED.
     */
    method GetBoardFieldTypes() returns (arr: array2<FieldType>)
      requires Valid()
      ensures fresh(arr) && arr.Length0 == NUMBER_OF_COLUMNS && arr.Length1 == NUMBER_OF_ROWS
      ensures forall i, j :: 0 <= i < NUMBER_OF_COLUMNS && 0 <= j < NUMBER_OF_ROWS ==>
                arr[i, j] == StoneFieldType(BLACK_PLAYER_BOARD.stones[i, j], WHITE_PLAYER_BOARD.stones[i, j])
      ensures forall i, j :: 0 <= i < NUMBER_OF_COLUMNS && 0 <= j < NUMBER_OF_ROWS ==> arr[i, j] != FieldType.BLOCKED
    {
      arr := new FieldType[NUMBER_OF_COLUMNS, NUMBER_OF_ROWS]((_, _) => FieldType.FREE);
      var i := 0;
      while i < NUMBER_OF_COLUMNS
        invariant 0 <= i <= NUMBER_OF_COLUMNS
        invariant forall c, q :: 0 <= c < i && 0 <= q < NUMBER_OF_ROWS ==>
                    arr[c, q] == StoneFieldType(BLACK_PLAYER_BOARD.stones[c, q], WHITE_PLAYER_BOARD.stones[c, q])
      {
        var j := 0;
        while j < NUMBER_OF_ROWS
          invariant 0 <= j <= NUMBER_OF_ROWS
          invariant forall c, q :: 0 <= q < NUMBER_OF_ROWS && (0 <= c < i || (c == i && q < j)) ==>
                      arr[c, q] == StoneFieldType(BLACK_PLAYER_BOARD.stones[c, q], WHITE_PLAYER_BOARD.stones[c, q])
        {
          var position := new Position(i, j);
          arr[i, j] := GetFieldType(position);
          j := j + 1;
        }
        i := i + 1;
      }
    }
  }

  /**
   * A position can take a stone exactly when it is a grid index whose field
   * type is FREE.
   */
  lemma {:induction false} CanPlaceIffFree(game: Game, p: Position)
    requires game.Valid() && game.PlaceSafe(p)
    ensures game.CanStoneBePlacedAtPosition(p) <==>
              p.IsIndexOf(game.NUMBER_OF_COLUMNS, game.NUMBER_OF_ROWS) && game.GetFieldType(p) == FieldType.FREE
  {
  }
}

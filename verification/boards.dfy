/**
 * A player's board: a columns-by-rows grid of stones, the process-wide list of
 * blocked positions every board consults, and the line-scan win detection.
 */
module Boards {
  import opened Wrappers
  import opened Text
  import opened Stones
  import opened WinScan

  /** Player.PlayerType: a joker player sets stones counting for both colours. */
  datatype PlayerType = WHITE | BLACK | BOTH

  /**
   * The static list of blocked positions. Every board of the process sees the
   * same list; membership is by object identity, as Position defines no equality.
   */
  class BlockedList {
    var positions: seq<Position?>

    constructor ()
      ensures positions == []
    {
      positions := [];
    }
  }

  /** A stone on the board of the player who set it. */
  class Stone {
    const PLAYER: PlayerType
    const POSITION: Position
    const BOARD: Board

    /** The stone's board is its player's board, and the player is that board's owner. */
    constructor (board: Board, position: Position)
      ensures PLAYER == board.owner && BOARD == board && POSITION == position
    {
      PLAYER := board.owner;
      POSITION := position;
      BOARD := board;
    }

    /** A stone prints as its position. */
    function ToString(): (s: string)
      ensures s == IntToString(POSITION.COLUMN) + "x" + IntToString(POSITION.ROW)
    {
      POSITION.ToString()
    }
  }

  /** Which cells of a grid of stones hold a stone. */
  function Occupancy(a: array2<Stone?>): (g: Grid)
    reads a
    ensures |g| == a.Length0 && IsRect(g, a.Length1)
    ensures forall i :: 0 <= i < a.Length0 ==> g[i] == Line(a, i)
  {
    seq(a.Length0, i requires 0 <= i < a.Length0 reads a => Line(a, i))
  }

  /** Which cells of line `i` of a grid of stones hold a stone. */
  function Line(a: array2<Stone?>, i: nat): (s: seq<bool>)
    requires i < a.Length0
    reads a
    ensures |s| == a.Length1
    ensures forall j :: 0 <= j < a.Length1 ==> s[j] == (a[i, j] != null)
  {
    seq(a.Length1, j requires 0 <= j < a.Length1 reads a => a[i, j] != null)
  }

  /** The occupancy grid with one more cell set. */
  function Occupy(g: Grid, column: nat, row: nat): (h: Grid)
    requires column < |g| && row < |g[column]|
    ensures |h| == |g| && |h[column]| == |g[column]| && h[column][row]
    ensures forall i, j :: 0 <= i < |g| && 0 <= j < |g[i]| ==>
              |h[i]| == |g[i]| && h[i][j] == (g[i][j] || (i == column && j == row))
  {
    g[column := g[column][row := true]]
  }

  /** Two grids of the same shape with the same cells are equal. */
  lemma {:induction false} SameCells(g: Grid, h: Grid)
    requires |g| == |h|
    requires forall i :: 0 <= i < |g| ==> |g[i]| == |h[i]|
    requires forall i, j :: 0 <= i < |g| && 0 <= j < |g[i]| ==> g[i][j] == h[i][j]
    ensures g == h
  {
    forall i | 0 <= i < |g| ensures g[i] == h[i] {
      assert g[i] == h[i];
    }
  }

  class Board {
    const stones: array2<Stone?>
    const owner: PlayerType
    const blocked: BlockedList
    const numberOfColumns: Size
    const numberOfRows: Size
    const stonesToWin: Int32

    /**
     * The grid has the game's size, and every stone on it belongs to this
     * board, to its owner, and sits at its own position.
     */
    ghost predicate Valid()
      reads this, stones
    {
      stones.Length0 == numberOfColumns && stones.Length1 == numberOfRows &&
      forall i, j :: 0 <= i < numberOfColumns && 0 <= j < numberOfRows && stones[i, j] != null ==>
        stones[i, j].BOARD == this && stones[i, j].PLAYER == owner &&
        stones[i, j].POSITION.COLUMN == i && stones[i, j].POSITION.ROW == j
    }

    /** An empty board of the game's size for the given player. */
    constructor (owner: PlayerType, blocked: BlockedList, numberOfColumns: Size, numberOfRows: Size, stonesToWin: Int32)
      ensures Valid() && fresh(stones)
      ensures this.owner == owner && this.blocked == blocked && this.stonesToWin == stonesToWin
      ensures this.numberOfColumns == numberOfColumns && this.numberOfRows == numberOfRows
      ensures forall i, j :: 0 <= i < numberOfColumns && 0 <= j < numberOfRows ==> stones[i, j] == null
    {
      this.stones := new Stone?[numberOfColumns, numberOfRows]((_, _) => null);
      this.owner := owner;
      this.blocked := blocked;
      this.numberOfColumns := numberOfColumns;
      this.numberOfRows := numberOfRows;
      this.stonesToWin := stonesToWin;
    }

    /**
     * Looking a position up never indexes out of range: the bounds test has no
     * lower bound, so a negative position that passes it would crash.
     */
    predicate IndexSafe(p: Position) {
      p.IsInBounds(numberOfColumns, numberOfRows) ==> p.IsIndexOf(numberOfColumns, numberOfRows)
    }

    /** The looked-up position is an index of the grid unless it is blocked. */
    predicate PlaceSafe(p: Position)
      reads blocked
    {
      !IsStonePositionBlocked(p) ==> IndexSafe(p)
    }

    /** The stone at the position, null out of bounds. */
    function GetStone(p: Position): (s: Stone?)
      requires Valid() && IndexSafe(p)
      reads this, stones
      ensures !p.IsInBounds(numberOfColumns, numberOfRows) ==> s == null
      ensures s != null ==> p.IsIndexOf(numberOfColumns, numberOfRows) &&
                            s.BOARD == this && s.PLAYER == owner &&
                            s.POSITION.COLUMN == p.COLUMN && s.POSITION.ROW == p.ROW
    {
      if p.IsInBounds(numberOfColumns, numberOfRows) then stones[p.COLUMN, p.ROW] else null
    }

    /** Some stone is set at the position; false out of bounds. */
    predicate IsStoneSetAtPosition(p: Position): (isSet: bool)
      requires Valid() && IndexSafe(p)
      reads this, stones
      ensures isSet <==> GetStone(p) != null
      ensures isSet ==> p.IsIndexOf(numberOfColumns, numberOfRows)
    {
      p.IsInBounds(numberOfColumns, numberOfRows) && stones[p.COLUMN, p.ROW] != null
    }

    /** This very Position object was blocked, through any board or game. */
    predicate IsStonePositionBlocked(p: Position)
      reads blocked
    {
      p in blocked.positions
    }

    /** A stone can go on a grid cell that is neither blocked nor taken. */
    predicate CanStoneBePlacedAtPosition(p: Position): (can: bool)
      requires Valid() && PlaceSafe(p)
      reads this, stones, blocked
      ensures can <==> p.IsIndexOf(numberOfColumns, numberOfRows) && p !in blocked.positions &&
                       stones[p.COLUMN, p.ROW] == null
    {
      p.IsInBounds(numberOfColumns, numberOfRows) && !IsStonePositionBlocked(p) && !IsStoneSetAtPosition(p)
    }

    /** Appends the position to the list every board shares. */
    method BlockStonePosition(p: Position?)
      modifies blocked
      ensures blocked.positions == old(blocked.positions) + [p]
    {
      blocked.positions := blocked.positions + [p];
    }

    /**
     * Sets a new stone of the owner at the position when it can be placed
     * there; otherwise nothing changes. Either way the position cannot take a
     * stone afterwards, and no stone already on the board is removed.
     */
    method PlaceStone(p: Position) returns (placed: bool)
      requires Valid() && PlaceSafe(p)
      modifies stones
      ensures Valid()
      ensures placed == old(CanStoneBePlacedAtPosition(p))
      ensures placed ==> stones[p.COLUMN, p.ROW] != null && fresh(stones[p.COLUMN, p.ROW]) &&
                         stones[p.COLUMN, p.ROW].POSITION == p &&
                         Occupancy(stones) == Occupy(old(Occupancy(stones)), p.COLUMN as nat, p.ROW as nat)
      ensures forall i, j :: (0 <= i < numberOfColumns && 0 <= j < numberOfRows &&
                (!placed || i != p.COLUMN || j != p.ROW)) ==> stones[i, j] == old(stones[i, j])
      ensures !CanStoneBePlacedAtPosition(p)
    {
      if CanStoneBePlacedAtPosition(p) {
        var s := new Stone(this, p);
        ghost var before := Occupancy(stones);
        stones[p.COLUMN, p.ROW] := s;
        SameCells(Occupancy(stones), Occupy(before, p.COLUMN as nat, p.ROW as nat));
        return true;
      }
      return false;
    }

    /**
     * checkForWinningRow on line `i` of a grid: the longest run closed by an
     * empty cell reaches the win length.
     */
    method CheckForWinningRow(a: array2<Stone?>, i: nat) returns (win: bool)
      requires i < a.Length0
      ensures win == LineWins(Line(a, i), stonesToWin)
    {
      ghost var line := Line(a, i);
      var maxRun, run := 0, 0;
      var j := 0;
      while j < a.Length1
        invariant 0 <= j <= a.Length1
        invariant (maxRun, run) == ScanState(line[..j])
      {
        assert line[..j + 1][..j] == line[..j];
        if a[i, j] != null {
          run := run + 1;
        } else {
          if run > maxRun {
            maxRun := run;
          }
          run := 0;
        }
        j := j + 1;
      }
      assert line[..j] == line;
      win := maxRun >= stonesToWin;
    }

    /** checkForWinningRow on a whole grid: the first winning line, in order. */
    method CheckForWinningRows(a: array2<Stone?>) returns (win: bool)
      ensures win == AnyLineWins(Occupancy(a), stonesToWin)
    {
      var i := 0;
      while i < a.Length0
        invariant 0 <= i <= a.Length0
        invariant forall k :: 0 <= k < i ==> !LineWins(Line(a, k), stonesToWin)
      {
        win := CheckForWinningRow(a, i);
        if win {
          return;
        }
        i := i + 1;
      }
      win := false;
    }

    /**
     * getDiagonals: a fresh rows-by-columns grid where cell r of input line c
     * goes to line r, cell (c + r) mod columns; out of range as soon as an
     * input line is longer than the number of rows.
     */
    method GetDiagonals(a: array2<Stone?>) returns (r: Result<array2<Stone?>, RuntimeError>)
      requires a.Length0 > 0 && a.Length1 > 0 ==> numberOfColumns > 0
      ensures r.Failure? <==> Diagonals(Occupancy(a), a.Length1, numberOfRows, numberOfColumns).Failure?
      ensures r.Success? ==> (fresh(r.value) &&
        Occupancy(r.value) == Diagonals(Occupancy(a), a.Length1, numberOfRows, numberOfColumns).value)
    {
      ghost var g := Occupancy(a);
      ghost var width := a.Length1;
      var d := new Stone?[numberOfRows, numberOfColumns]((_, _) => null);
      var c := 0;
      while c < a.Length0
        invariant 0 <= c <= a.Length0
        invariant c > 0 ==> width <= numberOfRows
        invariant forall q, k :: 0 <= q < numberOfRows && 0 <= k < numberOfColumns ==>
                    (d[q, k] != null) == LastWritten(g, width, q, k, numberOfColumns, c)
      {
        var q := 0;
        while q < a.Length1
          invariant 0 <= q <= a.Length1 && q <= numberOfRows
          invariant forall u, k :: 0 <= u < numberOfRows && 0 <= k < numberOfColumns ==>
                      (d[u, k] != null) == LastWritten(g, width, u, k, numberOfColumns, if u < q then c + 1 else c)
        {
          if q >= numberOfRows {
            return Failure(ArrayIndexOutOfBounds);
          }
          d[q, (c + q) % numberOfColumns] := a[c, q];
          q := q + 1;
        }
        c := c + 1;
      }
      SameCells(Occupancy(d), Diagonals(g, width, numberOfRows, numberOfColumns).value);
      return Success(d);
    }

    /**
     * doesPlayerWin: the grid, its rotation, its transpose and the rotation of
     * the transpose are scanned in that order; the last rotation may index out
     * of range.
     */
    method DoesPlayerWin() returns (r: Result<bool, RuntimeError>)
      requires Valid()
      ensures r == PlayerWins(Occupancy(stones), numberOfColumns, numberOfRows, stonesToWin)
    {
      ghost var g := Occupancy(stones);
      var win := CheckForWinningRows(stones);
      if win {
        return Success(true);
      }
      FirstRotationSucceeds(g, numberOfColumns, numberOfRows);
      var d := GetDiagonals(stones);
      win := CheckForWinningRows(d.value);
      if win {
        return Success(true);
      }
      var h := new Stone?[numberOfRows, numberOfColumns]((_, _) => null);
      var i := 0;
      while i < stones.Length0
        invariant 0 <= i <= stones.Length0
        invariant forall c, q :: 0 <= c < i && 0 <= q < numberOfRows ==> h[q, c] == stones[c, q]
      {
        var j := 0;
        while j < stones.Length1
          invariant 0 <= j <= stones.Length1
          invariant forall c, q :: 0 <= q < numberOfRows && (0 <= c < i || (c == i && q < j)) ==>
                      h[q, c] == stones[c, q]
        {
          h[j, i] := stones[i, j];
          j := j + 1;
        }
        i := i + 1;
      }
      SameCells(Occupancy(h), Transpose(g, numberOfRows));
      win := CheckForWinningRows(h);
      if win {
        return Success(true);
      }
      var d2 := GetDiagonals(h);
      match d2
      case Failure(e) =>
        assert PlayerWins(g, numberOfColumns, numberOfRows, stonesToWin).Failure?;
        assert e == ArrayIndexOutOfBounds;
        return Failure(e);
      case Success(m) =>
        win := CheckForWinningRows(m);
        return Success(win);
    }
  }
}

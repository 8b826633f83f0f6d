/**
 * Stone.Position: an immutable column/row pair. It defines no equality of its
 * own, so two Position objects with the same coordinates are still two
 * different objects: the model keeps it a class, compared by reference.
 */
module Stones {
  import opened Text

  /** Cell (c, r) comes before cell (c2, r2) in column-major order: columns first, then rows. */
  predicate Before(c: int, r: int, c2: int, r2: int) {
    c < c2 || (c == c2 && r < r2)
  }

  class Position {
    /** Column number, 0 is the first column. */
    const COLUMN: Int32
    /** Row number, 0 is the first row. */
    const ROW: Int32

    constructor (column: Int32, row: Int32)
      ensures COLUMN == column && ROW == row
    {
      COLUMN := column;
      ROW := row;
    }

    /** Only the upper bounds are checked: negative coordinates count as in bounds. */
    predicate IsInBounds(numberOfColumns: int, numberOfRows: int) {
      COLUMN < numberOfColumns && ROW < numberOfRows
    }

    /** The coordinates are array indices of a grid of the given size. */
    predicate IsIndexOf(numberOfColumns: int, numberOfRows: int) {
      0 <= COLUMN < numberOfColumns && 0 <= ROW < numberOfRows
    }

    /** Decimal column, then "x", then decimal row. */
    function ToString(): (s: string)
      ensures s == IntToString(COLUMN) + "x" + IntToString(ROW)
      ensures 'x' in s
    {
      var s := IntToString(COLUMN) + "x" + IntToString(ROW);
      assert s[|IntToString(COLUMN)|] == 'x';
      s
    }
  }

  /**
   * The bounds test has no lower bound: a position with a negative coordinate
   * passes it for every non-empty grid, although it is no index of that grid.
   */
  lemma {:induction false} NegativeCoordinatesAreInBounds(p: Position, numberOfColumns: int, numberOfRows: int)
    requires p.COLUMN < 0 || p.ROW < 0
    requires p.COLUMN < numberOfColumns && p.ROW < numberOfRows
    ensures p.IsInBounds(numberOfColumns, numberOfRows)
    ensures !p.IsIndexOf(numberOfColumns, numberOfRows)
  {
  }
}

/**
 * The batch evaluator's matrix helpers. A Java `double[][]` indexed
 * [column][row] is a `Matrix<real>`; the shape helpers that build fresh arrays
 * are functions, the two that update their argument in place are methods on
 * `array2<real>`. The arg-max asks the game which cells can take a stone, and
 * the vertical evaluator walks a column window in both directions.
 */
module BoardMatrix {
  import opened Wrappers
  import opened Text
  import WinScan
  import opened Stones
  import opened Games

  /** A matrix as its columns, each holding the values of the rows. */
  type Matrix<T> = seq<seq<T>>

  /** The matrix has the given number of columns, each of the given number of rows. */
  predicate IsMatrix<T>(m: Matrix<T>, columns: nat, rows: nat) {
    |m| == columns && forall c :: 0 <= c < |m| ==> |m[c]| == rows
  }

  /** `arr[0]` exists and every column is as long as it. */
  predicate Rectangular<T>(m: Matrix<T>) {
    |m| > 0 && IsMatrix(m, |m|, |m[0]|)
  }

  /**
   * changeColumnsAndRows (both the double and the boolean version): an
   * `arr[0].length` by `arr.length` matrix holding `arr[c][r]` at [r][c].
   */
  function ChangeColumnsAndRows<T>(m: Matrix<T>): (t: Matrix<T>)
    requires Rectangular(m)
    ensures IsMatrix(t, |m[0]|, |m|)
    ensures forall c, r :: 0 <= c < |m| && 0 <= r < |m[0]| ==> t[r][c] == m[c][r]
  {
    seq(|m[0]|, r requires 0 <= r < |m[0]| => seq(|m|, c requires 0 <= c < |m| => m[c][r]))
  }

  /** Changing columns and rows twice gives the original matrix back. */
  lemma ChangeColumnsAndRowsTwice<T>(m: Matrix<T>)
    requires Rectangular(m) && |m[0]| > 0
    ensures Rectangular(ChangeColumnsAndRows(m))
    ensures ChangeColumnsAndRows(ChangeColumnsAndRows(m)) == m
  {
    var t := ChangeColumnsAndRows(m);
    var u := ChangeColumnsAndRows(t);
    forall c | 0 <= c < |m|
      ensures u[c] == m[c]
    {
      forall r | 0 <= r < |m[0]|
        ensures u[c][r] == m[c][r]
      {
        assert u[c][r] == t[r][c];
      }
    }
  }

  /** reverseColumns: the same shape with column c moved to column `arr.length - 1 - c`. */
  function ReverseColumns<T>(m: Matrix<T>): (t: Matrix<T>)
    requires Rectangular(m)
    ensures IsMatrix(t, |m|, |m[0]|)
    ensures forall c, r :: 0 <= c < |m| && 0 <= r < |m[0]| ==> t[|m| - 1 - c][r] == m[c][r]
  {
    seq(|m|, c requires 0 <= c < |m| => m[|m| - 1 - c])
  }

  /** Reversing the columns twice gives the original matrix back. */
  lemma ReverseColumnsTwice<T>(m: Matrix<T>)
    requires Rectangular(m)
    ensures Rectangular(ReverseColumns(m))
    ensures ReverseColumns(ReverseColumns(m)) == m
  {
    var t := ReverseColumns(m);
    var u := ReverseColumns(t);
    forall c | 0 <= c < |m|
      ensures u[c] == m[c]
    {
      var c' := |m| - 1 - c;
      forall r | 0 <= r < |m[0]|
        ensures u[c][r] == m[c][r]
      {
        assert t[c'][r] == m[c][r];
        assert u[|m| - 1 - c'][r] == t[c'][r];
      }
    }
  }

  /** reverseRows: the same shape with row r of every column moved to row `arr[0].length - 1 - r`. */
  function ReverseRows<T>(m: Matrix<T>): (t: Matrix<T>)
    requires Rectangular(m)
    ensures IsMatrix(t, |m|, |m[0]|)
    ensures forall c, r :: 0 <= c < |m| && 0 <= r < |m[0]| ==> t[c][|m[0]| - 1 - r] == m[c][r]
  {
    seq(|m|, c requires 0 <= c < |m| => seq(|m[0]|, r requires 0 <= r < |m[0]| => m[c][|m[0]| - 1 - r]))
  }

  /** Reversing the rows twice gives the original matrix back. */
  lemma ReverseRowsTwice<T>(m: Matrix<T>)
    requires Rectangular(m)
    ensures Rectangular(ReverseRows(m))
    ensures ReverseRows(ReverseRows(m)) == m
  {
    var rows := |m[0]|;
    var t := ReverseRows(m);
    var u := ReverseRows(t);
    forall c | 0 <= c < |m|
      ensures u[c] == m[c]
    {
      forall r | 0 <= r < rows
        ensures u[c][r] == m[c][r]
      {
        var r' := rows - 1 - r;
        assert t[c][r'] == m[c][r];
        assert u[c][rows - 1 - r'] == t[c][r'];
      }
    }
  }

  /** intToDoubleMatrix: the same shape, every entry converted to a double. */
  function IntToDoubleMatrix(m: Matrix<Int32>): (t: Matrix<real>)
    requires Rectangular(m)
    ensures IsMatrix(t, |m|, |m[0]|)
    ensures forall c, r :: 0 <= c < |m| && 0 <= r < |m[0]| ==> t[c][r] == m[c][r] as real
  {
    seq(|m|, c requires 0 <= c < |m| => seq(|m[0]|, r requires 0 <= r < |m[0]| => m[c][r] as real))
  }

  const MIN_LONG: int := -0x8000_0000_0000_0000
  const MAX_LONG: int := 0x7FFF_FFFF_FFFF_FFFF

  /**
   * Math.round on a double: the closest long, halves rounding up, saturating
   * at the ends of the long range.
   */
  function Round(x: real): (n: int)
    ensures MIN_LONG <= n <= MAX_LONG
    ensures MIN_LONG as real - 0.5 <= x < MAX_LONG as real + 0.5 ==> n as real - 0.5 <= x < n as real + 0.5
  {
    var f := (x + 0.5).Floor;
    if f < MIN_LONG then MIN_LONG else if f > MAX_LONG then MAX_LONG else f
  }

  /** The (int) cast of a long: its low 32 bits read as a two's-complement int. */
  function LongToInt(n: int): (i: Int32)
    ensures MIN_INT <= n <= MAX_INT ==> i == n
    ensures (i - n) % 0x1_0000_0000 == 0
  {
    (n - MIN_INT) % 0x1_0000_0000 + MIN_INT
  }

  /**
   * One entry of doubleToPositivizedIntMatrix: a negative value becomes -1,
   * any other value is rounded to the nearest int.
   */
  function Positivize(x: real): (n: Int32)
    ensures x < 0.0 ==> n == -1
    ensures 0.0 <= x < MAX_INT as real + 0.5 ==> 0 <= n && n as real - 0.5 <= x < n as real + 0.5
  {
    LongToInt(Round(if x < 0.0 then -1.0 else x))
  }

  /** A value too large for a long saturates at Long.MAX_VALUE, whose low 32 bits read as -1. */
  lemma HugeValueBecomesMinusOne(x: real)
    requires x >= MAX_LONG as real
    ensures Positivize(x) == -1
  {
    assert Round(x) == MAX_LONG;
    assert (MAX_LONG - MIN_INT) % 0x1_0000_0000 == 0x7FFF_FFFF;
  }

  /** doubleToPositivizedIntMatrix: the same shape, each entry positivized and rounded. */
  function DoubleToPositivizedIntMatrix(m: Matrix<real>): (t: Matrix<Int32>)
    requires Rectangular(m)
    ensures IsMatrix(t, |m|, |m[0]|)
    ensures forall c, r :: 0 <= c < |m| && 0 <= r < |m[0]| ==> t[c][r] == Positivize(m[c][r])
    ensures forall c, r :: 0 <= c < |m| && 0 <= r < |m[0]| && m[c][r] < 0.0 ==> t[c][r] == -1
  {
    seq(|m|, c requires 0 <= c < |m| => seq(|m[0]|, r requires 0 <= r < |m[0]| => Positivize(m[c][r])))
  }

  /** Converting an int matrix whose entries are at least -1 to doubles and back gives it back. */
  lemma PositivizedIntRoundTrip(m: Matrix<Int32>)
    requires Rectangular(m)
    requires forall c, r :: 0 <= c < |m| && 0 <= r < |m[c]| ==> m[c][r] >= -1
    ensures Rectangular(IntToDoubleMatrix(m))
    ensures DoubleToPositivizedIntMatrix(IntToDoubleMatrix(m)) == m
  {
    var d := IntToDoubleMatrix(m);
    var back := DoubleToPositivizedIntMatrix(d);
    forall c | 0 <= c < |m|
      ensures back[c] == m[c]
    {
      forall r | 0 <= r < |m[0]|
        ensures back[c][r] == m[c][r]
      {
        var x := d[c][r];
        assert x == m[c][r] as real;
        if m[c][r] == -1 {
          assert Round(-1.0) == -1;
        } else {
          assert Round(x) == m[c][r];
        }
      }
    }
  }

  /**
   * addMatrizes: when both matrices have the same number of columns and the
   * same column length, each entry of matrix2 is added to matrix1's, in
   * place; otherwise matrix1 is left alone. matrix1 is returned either way,
   * and matrix2 may be matrix1 itself. Two matrices without columns pass the
   * first comparison and then fail at matrix1[0].
   */
  method AddMatrizes(matrix1: array2<real>, matrix2: array2<real>) returns (r: Result<array2<real>, WinScan.RuntimeError>)
    modifies matrix1
    ensures matrix1.Length0 == matrix2.Length0 == 0 <==> r == Failure(WinScan.ArrayIndexOutOfBounds)
    ensures r.Success? ==> r.value == matrix1
    ensures r.Success? && matrix1.Length0 == matrix2.Length0 && matrix1.Length1 == matrix2.Length1 ==>
      forall i, j :: 0 <= i < matrix1.Length0 && 0 <= j < matrix1.Length1 ==>
        matrix1[i, j] == old(matrix1[i, j]) + old(matrix2[i, j])
    ensures r.Failure? || !(matrix1.Length0 == matrix2.Length0 && matrix1.Length1 == matrix2.Length1) ==> unchanged(matrix1)
  {
    if matrix1.Length0 == matrix2.Length0 && matrix1.Length0 == 0 {
      return Failure(WinScan.ArrayIndexOutOfBounds);
    }
    if matrix1.Length0 == matrix2.Length0 && matrix1.Length1 == matrix2.Length1 {
      var i := 0;
      while i < matrix2.Length0
        invariant 0 <= i <= matrix2.Length0
        invariant forall c, k :: 0 <= c < i && 0 <= k < matrix1.Length1 ==>
          matrix1[c, k] == old(matrix1[c, k]) + old(matrix2[c, k])
        invariant forall c, k :: i <= c < matrix1.Length0 && 0 <= k < matrix1.Length1 ==>
          matrix1[c, k] == old(matrix1[c, k]) && matrix2[c, k] == old(matrix2[c, k])
      {
        var j := 0;
        while j < matrix2.Length1
          invariant 0 <= j <= matrix2.Length1
          invariant forall c, k :: 0 <= c < i && 0 <= k < matrix1.Length1 ==>
            matrix1[c, k] == old(matrix1[c, k]) + old(matrix2[c, k])
          invariant forall k :: 0 <= k < j ==> matrix1[i, k] == old(matrix1[i, k]) + old(matrix2[i, k])
          invariant forall c, k :: 0 <= c < matrix1.Length0 && 0 <= k < matrix1.Length1 && (c > i || (c == i && k >= j)) ==>
            matrix1[c, k] == old(matrix1[c, k]) && matrix2[c, k] == old(matrix2[c, k])
        {
          matrix1[i, j] := matrix1[i, j] + matrix2[i, j];
          j := j + 1;
        }
        i := i + 1;
      }
    }
    r := Success(matrix1);
  }

  /**
   * multiplyMatrixWithScalar: every entry gets its own product with the
   * scalar added, in place, so it is multiplied by 1 + scalar.
   */
  method MultiplyMatrixWithScalar(matrix: array2<real>, scalar: real) returns (r: array2<real>)
    modifies matrix
    ensures r == matrix
    ensures forall i, j :: 0 <= i < matrix.Length0 && 0 <= j < matrix.Length1 ==>
      matrix[i, j] == (1.0 + scalar) * old(matrix[i, j])
  {
    var i := 0;
    while i < matrix.Length0
      invariant 0 <= i <= matrix.Length0
      invariant forall c, k :: 0 <= c < i && 0 <= k < matrix.Length1 ==> matrix[c, k] == (1.0 + scalar) * old(matrix[c, k])
      invariant forall c, k :: i <= c < matrix.Length0 && 0 <= k < matrix.Length1 ==> matrix[c, k] == old(matrix[c, k])
    {
      var j := 0;
      while j < matrix.Length1
        invariant 0 <= j <= matrix.Length1
        invariant forall c, k :: 0 <= c < i && 0 <= k < matrix.Length1 ==> matrix[c, k] == (1.0 + scalar) * old(matrix[c, k])
        invariant forall k :: 0 <= k < j ==> matrix[i, k] == (1.0 + scalar) * old(matrix[i, k])
        invariant forall c, k :: 0 <= c < matrix.Length0 && 0 <= k < matrix.Length1 && (c > i || (c == i && k >= j)) ==>
          matrix[c, k] == old(matrix[c, k])
      {
        matrix[i, j] := matrix[i, j] + matrix[i, j] * scalar;
        j := j + 1;
      }
      i := i + 1;
    }
    r := matrix;
  }

  /** A matrix entry with its position; (-1, -1, 0) stands for "no maximum". */
  datatype MatrixValueContainer = MatrixValueContainer(column: Int32, row: Int32, value: real)

  const NO_MAXIMUM: MatrixValueContainer := MatrixValueContainer(-1, -1, 0.0)

  /** (c, r) is an entry of the (possibly ragged) matrix. */
  predicate IsCell(m: Matrix<real>, c: int, r: int) {
    0 <= c < |m| && 0 <= r < |m[c]|
  }

  /** The game can take a stone at (c, r): a field of the board that both players' boards leave empty. */
  ghost predicate Placeable(game: Game, c: int, r: int)
    requires game.Valid()
    reads game, game.WHITE_PLAYER_BOARD, game.WHITE_PLAYER_BOARD.stones, game.BLACK_PLAYER_BOARD, game.BLACK_PLAYER_BOARD.stones
  {
    0 <= c < game.NUMBER_OF_COLUMNS && 0 <= r < game.NUMBER_OF_ROWS &&
    game.WHITE_PLAYER_BOARD.stones[c, r] == null && game.BLACK_PLAYER_BOARD.stones[c, r] == null
  }

  /**
   * After the entries before (i, j) are examined: `best` is the first
   * placeable entry with the largest value among them, or NO_MAXIMUM when no
   * placeable entry among them is positive.
   */
  ghost predicate FirstMaximumSoFar(m: Matrix<real>, game: Game, i: int, j: int, best: MatrixValueContainer)
    requires game.Valid()
    reads game, game.WHITE_PLAYER_BOARD, game.WHITE_PLAYER_BOARD.stones, game.BLACK_PLAYER_BOARD, game.BLACK_PLAYER_BOARD.stones
  {
    (best == NO_MAXIMUM ||
      (IsCell(m, best.column, best.row) && Placeable(game, best.column, best.row) &&
       best.value == m[best.column][best.row] && best.value > 0.0 && Before(best.column, best.row, i, j))) &&
    (forall c, r :: IsCell(m, c, r) && Placeable(game, c, r) && Before(c, r, i, j) ==> m[c][r] <= best.value) &&
    (forall c, r :: IsCell(m, c, r) && Placeable(game, c, r) && Before(c, r, best.column, best.row) ==> m[c][r] < best.value)
  }

  /**
   * getMaximumValuePosition: the first placeable entry, in column-major
   * order, holding the largest value over all placeable entries, when that
   * value is positive; NO_MAXIMUM otherwise.
   */
  method GetMaximumValuePosition(matrix: Matrix<real>, game: Game) returns (best: MatrixValueContainer)
    requires game.Valid()
    requires |matrix| <= MAX_INT && forall c :: 0 <= c < |matrix| ==> |matrix[c]| <= MAX_INT
    ensures best == NO_MAXIMUM || best.value > 0.0
    ensures best != NO_MAXIMUM ==>
      IsCell(matrix, best.column, best.row) && Placeable(game, best.column, best.row) &&
      best.value == matrix[best.column][best.row]
    ensures forall c, r :: IsCell(matrix, c, r) && Placeable(game, c, r) ==> matrix[c][r] <= best.value
    ensures forall c, r :: IsCell(matrix, c, r) && Placeable(game, c, r) && Before(c, r, best.column, best.row) ==>
      matrix[c][r] < best.value
  {
    best := NO_MAXIMUM;
    var i := 0;
    while i < |matrix|
      invariant 0 <= i <= |matrix|
      invariant FirstMaximumSoFar(matrix, game, i, 0, best)
    {
      best := ExamineMatrixColumn(matrix, game, i, best);
      i := i + 1;
    }
  }

  /** The inner loop of getMaximumValuePosition over the entries of column i. */
  method ExamineMatrixColumn(matrix: Matrix<real>, game: Game, i: nat, best: MatrixValueContainer)
    returns (newBest: MatrixValueContainer)
    requires game.Valid() && i < |matrix| <= MAX_INT && |matrix[i]| <= MAX_INT
    requires FirstMaximumSoFar(matrix, game, i, 0, best)
    ensures FirstMaximumSoFar(matrix, game, i + 1, 0, newBest)
  {
    newBest := best;
    var row := matrix[i];
    var j := 0;
    while j < |row|
      invariant 0 <= j <= |row|
      invariant FirstMaximumSoFar(matrix, game, i, j, newBest)
    {
      if row[j] > newBest.value {
        var pos := new Position(i, j);
        var placeable := game.CanStoneBePlacedAtPosition(pos);
        if placeable {
          newBest := MatrixValueContainer(i, j, row[j]);
        }
      }
      j := j + 1;
    }
  }

  /**
   * The running values of one side of the vertical evaluator: the summed
   * entries, the steps that counted as missing, and whether the window is
   * blocked.
   */
  datatype Tally = Tally(sum: real, missing: nat, blocked: bool)

  /** Both matrices have the same shape and a column 0. */
  predicate SameShape(orig: Matrix<real>, opponent: Matrix<bool>) {
    Rectangular(orig) && IsMatrix(opponent, |orig|, |orig[0]|)
  }

  /**
   * One step of a side at column i: off the board or after a block the step
   * is missing; otherwise the entry is added, and the window is blocked from
   * then on when the opponent's array is false there.
   */
  function Visit(orig: Matrix<real>, opponent: Matrix<bool>, row: nat, i: int, t: Tally): (next: Tally)
    requires SameShape(orig, opponent) && row < |orig[0]|
    ensures next.missing == t.missing || next.missing == t.missing + 1
  {
    if i < 0 || i >= |orig| || t.blocked then t.(missing := t.missing + 1)
    else Tally(t.sum + orig[i][row], t.missing, !opponent[i][row])
  }

  /** The tally after k steps from column `from`, moving by `dir` each step. */
  function Walk(orig: Matrix<real>, opponent: Matrix<bool>, row: nat, from: int, dir: int, k: nat): (t: Tally)
    requires SameShape(orig, opponent) && row < |orig[0]|
    ensures t.missing <= k
  {
    if k == 0 then Tally(0.0, 0, false)
    else Visit(orig, opponent, row, from + dir * (k - 1), Walk(orig, opponent, row, from, dir, k - 1))
  }

  /** The number of times a loop `for (x = 0; x < n; x++)` runs. */
  function StepCount(n: int): nat {
    if n > 0 then n else 0
  }

  /** The positive part of a sum. */
  function Positive(x: real): real {
    if x > 0.0 then x else 0.0
  }

  /** The score of the two sides' sums: the power of the positive parts when either is positive, else 0. */
  function SidesValue(forward: Tally, backward: Tally, power: real -> real): real {
    if forward.sum > 0.0 || backward.sum > 0.0 then power(Positive(forward.sum) + Positive(backward.sum)) else 0.0
  }

  /**
   * calculateValueForPositionVertical: Integer.MIN_VALUE for an occupied
   * entry; otherwise the forward side walks inARow steps and the backward side
   * inARow + 1 steps, and the value is 0 when a side was cut short but the
   * missing steps are fewer than inARow, else the sides' value. `power(e)`
   * stands for Math.pow(base, e).
   */
  function VerticalValue(orig: Matrix<real>, opponent: Matrix<bool>, column: nat, row: nat, inARow: int,
                         power: real -> real): real
    requires SameShape(orig, opponent) && column < |orig| && row < |orig[0]|
  {
    if orig[column][row] != 0.0 then MIN_INT as real
    else
      var forward := Walk(orig, opponent, row, column, 1, StepCount(inARow));
      var backward := Walk(orig, opponent, row, column, -1, StepCount(inARow + 1));
      if (forward.missing != 0 || backward.missing != 0) && forward.missing + backward.missing < inARow then 0.0
      else SidesValue(forward, backward, power)
  }

  /** The vertical evaluator: the two side loops, then the combination of their tallies. */
  method CalculateValueForPositionVertical(orig: Matrix<real>, opponent: Matrix<bool>, column: nat, row: nat,
                                           inARow: int, power: real -> real) returns (v: real)
    requires SameShape(orig, opponent) && column < |orig| && row < |orig[0]|
    ensures orig[column][row] != 0.0 ==> v == MIN_INT as real
    ensures v == VerticalValue(orig, opponent, column, row, inARow, power)
  {
    if orig[column][row] != 0.0 {
      return MIN_INT as real;
    }
    var l1, missing1 := ForwardSide(orig, opponent, column, row, inARow);
    var l2, missing2 := BackwardSide(orig, opponent, column, row, inARow);
    if (missing1 != 0 || missing2 != 0) && missing1 + missing2 < inARow {
      v := 0.0;
    } else {
      v := if l1 > 0.0 || l2 > 0.0 then power((if l1 > 0.0 then l1 else 0.0) + (if l2 > 0.0 then l2 else 0.0)) else 0.0;
    }
  }

  /** The forward loop: inARow steps from the entry towards higher columns. */
  method ForwardSide(orig: Matrix<real>, opponent: Matrix<bool>, column: nat, row: nat, inARow: int)
    returns (l1: real, missing1: nat)
    requires SameShape(orig, opponent) && column < |orig| && row < |orig[0]|
    ensures var t := Walk(orig, opponent, row, column, 1, StepCount(inARow)); l1 == t.sum && missing1 == t.missing
  {
    var rowBlocked := false;
    l1, missing1 := 0.0, 0;
    var i := column;
    while i < column + inARow
      invariant column <= i <= column + StepCount(inARow)
      invariant Tally(l1, missing1, rowBlocked) == Walk(orig, opponent, row, column, 1, i - column)
    {
      if i >= |orig| || rowBlocked {
        missing1 := missing1 + 1;
      } else {
        rowBlocked := !opponent[i][row];
        l1 := l1 + orig[i][row];
      }
      i := i + 1;
    }
  }

  /** The backward loop: inARow + 1 steps from the entry towards lower columns. */
  method BackwardSide(orig: Matrix<real>, opponent: Matrix<bool>, column: nat, row: nat, inARow: int)
    returns (l2: real, missing2: nat)
    requires SameShape(orig, opponent) && column < |orig| && row < |orig[0]|
    ensures var t := Walk(orig, opponent, row, column, -1, StepCount(inARow + 1)); l2 == t.sum && missing2 == t.missing
  {
    var rowBlocked := false;
    l2, missing2 := 0.0, 0;
    var i := column;
    while i > column - inARow - 1
      invariant column - StepCount(inARow + 1) <= i <= column
      invariant Tally(l2, missing2, rowBlocked) == Walk(orig, opponent, row, column, -1, column - i)
    {
      if i < 0 || rowBlocked {
        missing2 := missing2 + 1;
      } else {
        rowBlocked := !opponent[i][row];
        l2 := l2 + orig[i][row];
      }
      i := i - 1;
    }
  }

  /** No entry of the row is blocked for the opponent's array. */
  predicate OpenRow(opponent: Matrix<bool>, row: nat) {
    forall c :: 0 <= c < |opponent| && row < |opponent[c]| ==> opponent[c][row]
  }

  /** On an open row a forward walk misses exactly the steps past the last column. */
  lemma {:induction false} OpenWalkForward(orig: Matrix<real>, opponent: Matrix<bool>, row: nat, from: nat, k: nat)
    requires SameShape(orig, opponent) && row < |orig[0]| && from < |orig| && OpenRow(opponent, row)
    ensures !Walk(orig, opponent, row, from, 1, k).blocked
    ensures Walk(orig, opponent, row, from, 1, k).missing == StepCount(from + k - |orig|)
  {
    if k > 0 {
      OpenWalkForward(orig, opponent, row, from, k - 1);
    }
  }

  /** On an open row a backward walk misses exactly the steps before column 0. */
  lemma {:induction false} OpenWalkBackward(orig: Matrix<real>, opponent: Matrix<bool>, row: nat, from: nat, k: nat)
    requires SameShape(orig, opponent) && row < |orig[0]| && from < |orig| && OpenRow(opponent, row)
    ensures !Walk(orig, opponent, row, from, -1, k).blocked
    ensures Walk(orig, opponent, row, from, -1, k).missing == StepCount(k - from - 1)
  {
    if k > 0 {
      OpenWalkBackward(orig, opponent, row, from, k - 1);
    }
  }

  /**
   * On an open row of at least inARow columns, an empty entry in the first
   * column is never cut to 0: the backward side misses inARow steps, which is
   * not fewer than inARow.
   */
  lemma LeftEdgeKeepsItsValue(orig: Matrix<real>, opponent: Matrix<bool>, row: nat, inARow: int, power: real -> real)
    requires SameShape(orig, opponent) && row < |orig[0]| && OpenRow(opponent, row)
    requires 1 <= inARow <= |orig| && orig[0][row] == 0.0
    ensures VerticalValue(orig, opponent, 0, row, inARow, power) ==
            SidesValue(Walk(orig, opponent, row, 0, 1, inARow), Walk(orig, opponent, row, 0, -1, inARow + 1), power)
  {
    OpenWalkForward(orig, opponent, row, 0, inARow);
    OpenWalkBackward(orig, opponent, row, 0, inARow + 1);
  }

  /**
   * The mirror case differs: on an open row of more than inARow columns,
   * with inARow at least 2, an empty entry in the last column is worth 0,
   * because the forward side misses inARow - 1 steps and the backward side,
   * one step longer, misses none.
   */
  lemma RightEdgeIsZero(orig: Matrix<real>, opponent: Matrix<bool>, row: nat, inARow: int, power: real -> real)
    requires SameShape(orig, opponent) && row < |orig[0]| && OpenRow(opponent, row)
    requires 2 <= inARow < |orig| && orig[|orig| - 1][row] == 0.0
    ensures VerticalValue(orig, opponent, |orig| - 1, row, inARow, power) == 0.0
  {
    OpenWalkForward(orig, opponent, row, |orig| - 1, inARow);
    OpenWalkBackward(orig, opponent, row, |orig| - 1, inARow + 1);
  }
}

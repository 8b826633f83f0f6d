/**
 * OpponentEngine and its inner classes Field and Row as objects updated in
 * place. Each method is proved against the values of EngineSpec: a Row's
 * fields are a RowState, a Field's a FieldState, and the engine keeps the
 * grid of FieldStates of its fields as `cells`.
 *
 * In the source a Row is an inner object of its Field and sets the Field's
 * `fieldNeedsRecalculation` itself; here the Field methods that write to a
 * window set that flag after the window's update.
 */
module Engines {
  import opened Wrappers
  import opened Text
  import opened Stones
  import opened WinScan
  import opened Games
  import opened EngineSpec

  /** One window of 2 * centerIndex + 1 type codes around a field. */
  class Row {
    const centerIndex: nat
    const stones: array<int>
    /** The Math.pow score of the two run lengths. */
    const runScore: (nat, nat) -> real
    var score: real
    var ownScore: real
    var opponentScore: real
    var isBlocked: bool

    /** Depends on constant fields only, so no update can break it. */
    ghost predicate Valid() {
      stones.Length == 2 * centerIndex + 1
    }

    function State(): RowState
      reads this, stones
    {
      RowState(stones[..], score, ownScore, opponentScore, isBlocked)
    }

    /** A window for a win length of stonesToWin: 2 * stonesToWin - 1 free slots. */
    constructor (stonesToWin: int, runScore: (nat, nat) -> real)
      requires 1 <= stonesToWin && stonesToWin * 2 - 1 <= MAX_INT
      ensures Valid() && fresh(stones)
      ensures centerIndex == stonesToWin - 1 && this.runScore == runScore
      ensures State() == EmptyRow(stonesToWin)
    {
      stones := new int[stonesToWin * 2 - 1](_ => FREE_FIELD);
      centerIndex := (stonesToWin * 2 - 1) / 2;
      this.runScore := runScore;
      score, ownScore, opponentScore := 0.0, 0.0, 0.0;
      isBlocked := false;
      new;
      assert stones[..] == EmptyRow(stonesToWin).stones;
    }

    /**
     * calcFieldRowLengthAroundCenter: offsets 1 up to centerIndex - 1 on both
     * sides, each side counting until its first cell that is not okay.
     */
    method CalcFieldRowLengthAroundCenter(ownFieldType: int, withFreeSpace: bool) returns (length: nat)
      requires Valid()
      ensures length == RunLength(stones[..], centerIndex, ownFieldType, withFreeSpace)
    {
      ghost var left := SideRun(stones[..], centerIndex, true, ownFieldType, withFreeSpace, 1);
      ghost var right := SideRun(stones[..], centerIndex, false, ownFieldType, withFreeSpace, 1);
      ghost var leftLength, rightLength := 0, 0;
      var blockedLeft, blockedRight := false, false;
      length := 0;
      var i := 1;
      while i < centerIndex
        invariant i >= 1
        invariant length == leftLength + rightLength
        invariant if blockedLeft then leftLength == left
                  else leftLength + SideRun(stones[..], centerIndex, true, ownFieldType, withFreeSpace, i) == left
        invariant if blockedRight then rightLength == right
                  else rightLength + SideRun(stones[..], centerIndex, false, ownFieldType, withFreeSpace, i) == right
      {
        var curLeftType := stones[centerIndex - i];
        var curRightType := stones[centerIndex + i];
        if !blockedLeft {
          if IsFieldOkay(curLeftType, ownFieldType, withFreeSpace) {
            length := length + 1;
            leftLength := leftLength + 1;
          } else {
            blockedLeft := true;
          }
        }
        if !blockedRight {
          if IsFieldOkay(curRightType, ownFieldType, withFreeSpace) {
            length := length + 1;
            rightLength := rightLength + 1;
          } else {
            blockedRight := true;
          }
        }
        i := i + 1;
      }
    }

    /** calculateScore: the score of the strict and the free-space run length. */
    method CalculateScore(ownFieldType: int) returns (res: real)
      requires Valid()
      ensures res == EngineSpec.CalculateScore(stones[..], centerIndex, ownFieldType, runScore)
    {
      var rowLength := CalcFieldRowLengthAroundCenter(ownFieldType, false);
      var rowWithFreeSpacesLength := CalcFieldRowLengthAroundCenter(ownFieldType, true);
      res := runScore(rowLength, rowWithFreeSpacesLength);
    }

    /** recalculateScore: the blocked ratchet, then the two scores. */
    method RecalculateScore()
      requires Valid()
      modifies this
      ensures State() == RowRecalc(old(State()), centerIndex, runScore)
    {
      if isBlocked {
        score := BLOCKED_SCORE;
        ownScore := BLOCKED_SCORE;
        opponentScore := BLOCKED_SCORE;
      } else if stones[centerIndex] != FREE_FIELD {
        isBlocked := true;
      } else {
        ownScore := CalculateScore(OWN_FIELD);
        opponentScore := CalculateScore(OPPONENT_FIELD);
        score := ownScore + opponentScore * OPPONENT_FACTOR;
      }
    }

    /** setFieldType: `position` is relative to the centre. */
    method SetFieldType(position: int, code: int)
      requires Valid() && 0 <= position + centerIndex < stones.Length
      modifies this, stones
      ensures State() == RowWrite(old(State()), position + centerIndex, code, centerIndex, runScore)
    {
      stones[position + centerIndex] := code;
      RecalculateScore();
    }

    method SetCenterFieldType(code: int)
      requires Valid()
      modifies this, stones
      ensures State() == RowWrite(old(State()), centerIndex, code, centerIndex, runScore)
    {
      stones[centerIndex] := code;
      RecalculateScore();
    }
  }

  /** One board cell: its type code, its four windows and its lazily summed score. */
  class Field {
    const position: Position
    const ownMiddleBonusFactor: real
    var fieldType: int
    const leftTopRightBottom: Row
    const rightTopLeftBottom: Row
    const vertical: Row
    const horizontal: Row
    var scoreSum: real
    var fieldNeedsRecalculation: bool

    /** The field, its four windows and their slot arrays. */
    ghost function Repr(): set<object> {
      {this, leftTopRightBottom, rightTopLeftBottom, vertical, horizontal,
       leftTopRightBottom.stones, rightTopLeftBottom.stones, vertical.stones, horizontal.stones}
    }

    /** Depends on constant fields only, so no update can break it. */
    ghost predicate Valid() {
      leftTopRightBottom != rightTopLeftBottom && leftTopRightBottom != vertical && leftTopRightBottom != horizontal &&
      rightTopLeftBottom != vertical && rightTopLeftBottom != horizontal && vertical != horizontal &&
      leftTopRightBottom.stones != rightTopLeftBottom.stones && leftTopRightBottom.stones != vertical.stones &&
      leftTopRightBottom.stones != horizontal.stones && rightTopLeftBottom.stones != vertical.stones &&
      rightTopLeftBottom.stones != horizontal.stones && vertical.stones != horizontal.stones &&
      leftTopRightBottom.Valid() && rightTopLeftBottom.Valid() && vertical.Valid() && horizontal.Valid() &&
      leftTopRightBottom.centerIndex == CenterIndex() && rightTopLeftBottom.centerIndex == CenterIndex() &&
      horizontal.centerIndex == CenterIndex() &&
      leftTopRightBottom.runScore == RunScore() && rightTopLeftBottom.runScore == RunScore() &&
      horizontal.runScore == RunScore()
    }

    function CenterIndex(): nat {
      vertical.centerIndex
    }

    function RunScore(): (nat, nat) -> real {
      vertical.runScore
    }

    function State(): FieldState
      reads this, leftTopRightBottom, rightTopLeftBottom, vertical, horizontal
      reads leftTopRightBottom.stones, rightTopLeftBottom.stones, vertical.stones, horizontal.stones
    {
      FieldState(fieldType, leftTopRightBottom.State(), rightTopLeftBottom.State(), vertical.State(),
                 horizontal.State(), scoreSum, fieldNeedsRecalculation, ownMiddleBonusFactor)
    }

    /**
     * A field at `position` with the given type code. `distance` is the
     * position's distance to the board's middle (Position.getDistance, which
     * is not part of this model); the middle bonus grows as it shrinks.
     */
    constructor (position: Position, fieldType: int, stonesToWin: int, runScore: (nat, nat) -> real, distance: real)
      requires 1 <= stonesToWin && stonesToWin * 2 - 1 <= MAX_INT
      ensures Valid() && fresh(Repr())
      ensures CenterIndex() == stonesToWin - 1 && RunScore() == runScore && this.position == position
      ensures State() == InitialField(fieldType, stonesToWin, (1.0 - distance) * MIDDLE_BONUS_FACTOR)
    {
      leftTopRightBottom := new Row(stonesToWin, runScore);
      rightTopLeftBottom := new Row(stonesToWin, runScore);
      vertical := new Row(stonesToWin, runScore);
      horizontal := new Row(stonesToWin, runScore);
      this.position := position;
      this.fieldType := fieldType;
      ownMiddleBonusFactor := (1.0 - distance) * MIDDLE_BONUS_FACTOR;
      scoreSum := (1.0 - distance) * MIDDLE_BONUS_FACTOR;
      fieldNeedsRecalculation := false;
    }

    /** recalculateScore: the sum of the window scores plus the middle bonus, once per update. */
    method RecalculateScore()
      requires Valid()
      modifies this
      ensures State() == FieldRecalc(old(State()))
    {
      if fieldNeedsRecalculation {
        scoreSum := leftTopRightBottom.score + rightTopLeftBottom.score + vertical.score + horizontal.score;
        scoreSum := scoreSum + scoreSum * ownMiddleBonusFactor;
        fieldNeedsRecalculation := false;
      }
    }

    method GetScore() returns (score: real)
      requires Valid()
      modifies this
      ensures State() == FieldRecalc(old(State()))
      ensures score == FieldScore(old(State()))
    {
      RecalculateScore();
      score := scoreSum;
    }

    /** setFieldType: the type code goes to the centre of all four windows. */
    method SetFieldType(code: int)
      requires Valid()
      modifies Repr()
      ensures State() == FieldSetType(old(State()), code, CenterIndex(), RunScore())
    {
      fieldType := code;
      ghost var s0 := State();
      vertical.SetCenterFieldType(code);
      fieldNeedsRecalculation := true;
      assert State() == s0.(vertical := RowWrite(s0.vertical, CenterIndex(), code, CenterIndex(), RunScore()), fieldNeedsRecalculation := true);
      ghost var s1 := State();
      horizontal.SetCenterFieldType(code);
      fieldNeedsRecalculation := true;
      assert State() == s1.(horizontal := RowWrite(s1.horizontal, CenterIndex(), code, CenterIndex(), RunScore()), fieldNeedsRecalculation := true);
      ghost var s2 := State();
      leftTopRightBottom.SetCenterFieldType(code);
      fieldNeedsRecalculation := true;
      assert State() == s2.(leftTopRightBottom := RowWrite(s2.leftTopRightBottom, CenterIndex(), code, CenterIndex(), RunScore()), fieldNeedsRecalculation := true);
      ghost var s3 := State();
      rightTopLeftBottom.SetCenterFieldType(code);
      fieldNeedsRecalculation := true;
      assert State() == s3.(rightTopLeftBottom := RowWrite(s3.rightTopLeftBottom, CenterIndex(), code, CenterIndex(), RunScore()), fieldNeedsRecalculation := true);
    }

    /** The window of direction d. */
    function Window(d: Direction): Row
      reads this
    {
      match d
      case LeftTopRightBottom => leftTopRightBottom
      case RightTopLeftBottom => rightTopLeftBottom
      case Vertical => vertical
      case Horizontal => horizontal
    }

    /** `<window>.setFieldType(position, code)` on the window of direction d. */
    method SetRowFieldType(d: Direction, position: int, code: int)
      requires Valid() && -(CenterIndex() as int) <= position <= CenterIndex()
      modifies Repr()
      ensures State() == FieldRowWrite(old(State()), d, position, code, CenterIndex(), RunScore())
    {
      ghost var s := State();
      var window := Window(d);
      window.SetFieldType(position, code);
      fieldNeedsRecalculation := true;
      forall e | e != d
        ensures State().RowOf(e) == s.RowOf(e)
      {
        assert Window(e) != window && Window(e).stones != window.stones;
      }
    }
  }

  /**
   * The engine: the grid of its fields by column, then row. The grid holds
   * the fields' states as values; each update replaces one field's state.
   */
  class OpponentEngine {
    /** player.isWhite() of the player this engine plays for. */
    const isWhite: bool
    const runScore: (nat, nat) -> real
    /** game.getNumberOfStonesInARowToWin() of the engine's game. */
    const stonesToWin: int
    /** game.getNumberOfRows(): the length of every column of the grid. */
    const rows: Size
    var fieldArr: seq<seq<FieldState>>

    ghost predicate Valid()
      reads this
    {
      1 <= stonesToWin && stonesToWin * 2 - 1 <= MAX_INT && |fieldArr| <= MAX_INT &&
      CellsFit(fieldArr, |fieldArr|, rows, stonesToWin - 1)
    }

    /**
     * The constructor and init(): one fresh field per cell of the game's
     * board, with the cell's type code for this engine's colour. `distance`
     * stands for Position.getDistance, the distance of a cell to the middle
     * cell (columns / 2, rows / 2).
     */
    constructor (game: Game, isWhite: bool, runScore: (nat, nat) -> real, distance: (int, int, int, int) -> real)
      requires game.Valid()
      requires 1 <= game.NUMBER_OF_STONES_IN_A_ROW_TO_WIN && game.NUMBER_OF_STONES_IN_A_ROW_TO_WIN * 2 - 1 <= MAX_INT
      ensures Valid() && this.isWhite == isWhite && this.runScore == runScore
      ensures stonesToWin == game.NUMBER_OF_STONES_IN_A_ROW_TO_WIN && rows == game.NUMBER_OF_ROWS
      ensures |fieldArr| == game.NUMBER_OF_COLUMNS
      ensures forall i, j :: 0 <= i < game.NUMBER_OF_COLUMNS && 0 <= j < game.NUMBER_OF_ROWS ==>
                fieldArr[i][j] == InitialField(
                  ConvertFieldTypeToIntType(StoneFieldType(game.BLACK_PLAYER_BOARD.stones[i, j], game.WHITE_PLAYER_BOARD.stones[i, j]), isWhite),
                  game.NUMBER_OF_STONES_IN_A_ROW_TO_WIN,
                  (1.0 - distance(i, j, game.NUMBER_OF_COLUMNS / 2, game.NUMBER_OF_ROWS / 2)) * MIDDLE_BONUS_FACTOR)
    {
      this.isWhite := isWhite;
      this.runScore := runScore;
      stonesToWin := game.NUMBER_OF_STONES_IN_A_ROW_TO_WIN;
      rows := game.NUMBER_OF_ROWS;
      var types := game.GetBoardFieldTypes();
      var columns := types.Length0;
      var grid: seq<seq<FieldState>> := [];
      var i := 0;
      while i < columns
        invariant 0 <= i <= columns && |grid| == i
        invariant forall k, l :: 0 <= k < i && 0 <= l < types.Length1 ==>
                    |grid[k]| == types.Length1 &&
                    grid[k][l] == InitialField(ConvertFieldTypeToIntType(types[k, l], isWhite), game.NUMBER_OF_STONES_IN_A_ROW_TO_WIN,
                                               (1.0 - distance(k, l, columns / 2, types.Length1 / 2)) * MIDDLE_BONUS_FACTOR)
        invariant forall k :: 0 <= k < i ==> |grid[k]| == types.Length1
      {
        var column: seq<FieldState> := [];
        var j := 0;
        while j < types.Length1
          invariant 0 <= j <= types.Length1 && |column| == j
          invariant forall l :: 0 <= l < j ==>
                      column[l] == InitialField(ConvertFieldTypeToIntType(types[i, l], isWhite), game.NUMBER_OF_STONES_IN_A_ROW_TO_WIN,
                                                (1.0 - distance(i, l, columns / 2, types.Length1 / 2)) * MIDDLE_BONUS_FACTOR)
        {
          var code := ConvertFieldTypeToIntType(types[i, j], isWhite);
          column := column + [InitialField(code, game.NUMBER_OF_STONES_IN_A_ROW_TO_WIN,
                                           (1.0 - distance(i, j, columns / 2, types.Length1 / 2)) * MIDDLE_BONUS_FACTOR)];
          j := j + 1;
        }
        grid := grid + [column];
        i := i + 1;
      }
      fieldArr := grid;
    }

    /**
     * One write of setStoneType: fieldArr[column][row].setFieldType(code),
     * or fieldArr[column][row].<window>.setFieldType(offset, code).
     */
    method Apply(w: Write)
      requires Valid() && WriteFits(w, |fieldArr|, rows, stonesToWin - 1)
      modifies this
      ensures Valid() && |fieldArr| == |old(fieldArr)|
      ensures fieldArr == ApplyWrites(old(fieldArr), [w], |old(fieldArr)|, rows, stonesToWin - 1, runScore)
    {
      ApplyWritesSingle(fieldArr, w, |fieldArr|, rows, stonesToWin - 1, runScore);
      var field := fieldArr[w.column][w.row];
      match w {
        case SetType(column, row, code) =>
          SetTypeWriteAt(fieldArr, column, row, code, |fieldArr|, rows, stonesToWin - 1, runScore);
          field := FieldSetType(field, code, stonesToWin - 1, runScore);
        case SetRow(_, _, d, offset, code) =>
          SetRowWriteAt(fieldArr, w, |fieldArr|, rows, stonesToWin - 1, runScore);
          field := FieldRowWrite(field, d, offset, code, stonesToWin - 1, runScore);
      }
      fieldArr := fieldArr[w.column := fieldArr[w.column][w.row := field]];
    }

    /**
     * setStoneType: the position's own field first, then the vertical,
     * horizontal, diagonal and anti-diagonal windows around it, which is the
     * order of SetStoneTypeWrites (SetStoneTypeStateIsWrites). An empty grid
     * (fieldArr[0]) or a position outside the grid fails before any write; a
     * win length above columns + 1 fails in the horizontal loop, after the
     * writes before it.
     */
    method SetStoneType(position: Position, fieldType: FieldType) returns (r: Result<(), RuntimeError>)
      requires Valid()
      modifies this
      ensures Valid() && |fieldArr| == |old(fieldArr)|
      ensures var t := Target(position.COLUMN, position.ROW, |old(fieldArr)|, rows, ConvertFieldTypeToIntType(fieldType, isWhite));
              if !position.IsIndexOf(|old(fieldArr)|, rows) then
                r == Failure(ArrayIndexOutOfBounds) && fieldArr == old(fieldArr)
              else
                (r.Failure? <==> stonesToWin - 1 > |old(fieldArr)|) &&
                fieldArr == SetStoneTypeState(old(fieldArr), t, stonesToWin, |old(fieldArr)|, rows, stonesToWin - 1, runScore)
    {
      var typeInt := ConvertFieldTypeToIntType(fieldType, isWhite);
      var columns := |fieldArr|;
      if columns == 0 {
        // rows = fieldArr[0].length
        return Failure(ArrayIndexOutOfBounds);
      }
      var column, row := position.COLUMN, position.ROW;
      if !(0 <= column < columns && 0 <= row < rows) {
        return Failure(ArrayIndexOutOfBounds);
      }
      var t := Target(column, row, columns, rows, typeInt);
      Apply(SetType(column, row, typeInt));
      SetVerticalRow(t);
      r := SetHorizontalRow(t);
      if r.Failure? {
        return;
      }
      SetDiagonal(t);
      SetAntiDiagonal(t);
    }

    /** The vertical loop: the field i rows up (never row 0, which the centre write covers), then the field i rows down. */
    method SetVerticalRow(t: Target)
      requires Valid() && t.columns == |fieldArr| && t.rows == rows
      requires 0 <= t.column < t.columns && 0 <= t.row < t.rows
      modifies this
      ensures Valid() && |fieldArr| == |old(fieldArr)|
      ensures fieldArr == LoopState(old(fieldArr), VerticalLoop, t, 0, stonesToWin, t.columns, rows, stonesToWin - 1, runScore)
    {
      ghost var start := fieldArr;
      var i := 0;
      while i < stonesToWin
        invariant 0 <= i <= stonesToWin && Valid() && |fieldArr| == t.columns
        invariant fieldArr == LoopState(start, VerticalLoop, t, 0, i, t.columns, rows, stonesToWin - 1, runScore)
      {
        SetVerticalPair(t, i);
        i := i + 1;
      }
      assert i == stonesToWin;
    }

    /** Iteration i of the vertical loop: the field i rows up unless that is row 0 or above, then the field i rows down. */
    method SetVerticalPair(t: Target, i: int)
      requires Valid() && t.columns == |fieldArr| && t.rows == rows
      requires 0 <= t.column < t.columns && 0 <= t.row < t.rows && 0 <= i < stonesToWin
      modifies this
      ensures Valid() && |fieldArr| == |old(fieldArr)|
      ensures fieldArr == ApplyWrites(old(fieldArr), Step(VerticalLoop, t, i), t.columns, rows, stonesToWin - 1, runScore)
    {
      ghost var before := fieldArr;
      ghost var up: seq<Write> := [];
      if t.row - i > 0 {
        var w := SetRow(t.column, t.row - i, Vertical, -i, t.code);
        Apply(w);
        up := [w];
      }
      ghost var down: seq<Write> := [];
      if t.row + i < rows {
        var w := SetRow(t.column, t.row + i, Vertical, i, t.code);
        Apply(w);
        down := [w];
      }
      ApplyWritesAppend(before, up, down, t.columns, rows, stonesToWin - 1, runScore);
      assert up + down == Step(VerticalLoop, t, i);
    }

    /**
     * The horizontal loop: the field i columns right. Its leftward branch is
     * taken first when i > columns, and then indexes fieldArr[column - i]
     * below 0, which fails.
     */
    method SetHorizontalRow(t: Target) returns (r: Result<(), RuntimeError>)
      requires Valid() && t.columns == |fieldArr| && t.rows == rows
      requires 0 <= t.column < t.columns && 0 <= t.row < t.rows
      modifies this
      ensures Valid() && |fieldArr| == |old(fieldArr)|
      ensures r.Failure? <==> stonesToWin - 1 > t.columns
      ensures r.Failure? ==> fieldArr == LoopState(old(fieldArr), HorizontalLoop, t, 0, t.columns + 1, t.columns, rows, stonesToWin - 1, runScore)
      ensures r.Success? ==> fieldArr == LoopState(old(fieldArr), HorizontalLoop, t, 0, stonesToWin, t.columns, rows, stonesToWin - 1, runScore)
    {
      ghost var start := fieldArr;
      var i := 0;
      while i < stonesToWin
        invariant 0 <= i <= stonesToWin && i <= t.columns + 1 && Valid() && |fieldArr| == t.columns
        invariant fieldArr == LoopState(start, HorizontalLoop, t, 0, i, t.columns, rows, stonesToWin - 1, runScore)
      {
        if i - t.columns > 0 {
          // fieldArr[column - i] with column - i < 0
          return Failure(ArrayIndexOutOfBounds);
        }
        if t.column + i < t.columns {
          Apply(SetRow(t.column + i, t.row, Horizontal, i, t.code));
        }
        i := i + 1;
      }
      assert i == stonesToWin;
      return Success(());
    }

    /** The leftTopRightBottom loop: fieldArr[row + i][column + i], when in the grid. */
    method SetDiagonal(t: Target)
      requires Valid() && t.columns == |fieldArr| && t.rows == rows
      modifies this
      ensures Valid() && |fieldArr| == |old(fieldArr)|
      ensures fieldArr == LoopState(old(fieldArr), DiagonalLoop, t, -stonesToWin + 1, stonesToWin,
                                    t.columns, rows, stonesToWin - 1, runScore)
    {
      ghost var start := fieldArr;
      var i := -stonesToWin + 1;
      while i < stonesToWin
        invariant -stonesToWin + 1 <= i <= stonesToWin && Valid() && |fieldArr| == t.columns
        invariant fieldArr == LoopState(start, DiagonalLoop, t, -stonesToWin + 1, i, t.columns, rows, stonesToWin - 1, runScore)
      {
        var curRow := t.column + i;
        var curColumn := t.row + i;
        if curColumn < t.columns && curRow < rows && curColumn >= 0 && curRow >= 0 {
          Apply(SetRow(curColumn, curRow, LeftTopRightBottom, i, t.code));
        }
        i := i + 1;
      }
      assert i == stonesToWin;
    }

    /** The rightTopLeftBottom loop: fieldArr[row - i][column + i], when in the grid. */
    method SetAntiDiagonal(t: Target)
      requires Valid() && t.columns == |fieldArr| && t.rows == rows
      modifies this
      ensures Valid() && |fieldArr| == |old(fieldArr)|
      ensures fieldArr == LoopState(old(fieldArr), AntiDiagonalLoop, t, -(stonesToWin - 1), stonesToWin,
                                    t.columns, rows, stonesToWin - 1, runScore)
    {
      ghost var start := fieldArr;
      var i := -(stonesToWin - 1);
      while i < stonesToWin
        invariant -(stonesToWin - 1) <= i <= stonesToWin && Valid() && |fieldArr| == t.columns
        invariant fieldArr == LoopState(start, AntiDiagonalLoop, t, -(stonesToWin - 1), i, t.columns, rows, stonesToWin - 1, runScore)
      {
        var curRow := t.column + i;
        var curColumn := t.row - i;
        if curColumn < t.columns && curRow < rows && curColumn >= 0 && curRow >= 0 {
          Apply(SetRow(curColumn, curRow, RightTopLeftBottom, i, t.code));
        }
        i := i + 1;
      }
      assert i == stonesToWin;
    }

    /** fieldArr[i][j].getScore(): the field's score, recalculated first when it is marked. */
    method ReadScore(i: int, j: int) returns (score: real)
      requires Valid() && 0 <= i < |fieldArr| && 0 <= j < rows
      modifies this
      ensures Valid() && score == FieldScore(old(fieldArr)[i][j])
      ensures fieldArr == old(fieldArr)[i := old(fieldArr)[i][j := FieldRecalc(old(fieldArr)[i][j])]]
    {
      var field := fieldArr[i][j];
      assert FieldFits(field, stonesToWin - 1);
      var read := FieldRecalc(field);
      assert read.RowOf(Vertical) == field.RowOf(Vertical) && read.RowOf(Horizontal) == field.RowOf(Horizontal);
      assert read.RowOf(LeftTopRightBottom) == field.RowOf(LeftTopRightBottom);
      assert read.RowOf(RightTopLeftBottom) == field.RowOf(RightTopLeftBottom);
      ReplaceFits(fieldArr, i, j, read, |fieldArr|, rows, stonesToWin - 1);
      fieldArr := fieldArr[i := fieldArr[i][j := read]];
      score := read.scoreSum;
    }

    /**
     * examineBestPosition: scans the grid column by column, starting from the
     * middle cell (columns / 2, rows / 2) with score 0, and moves to a cell
     * only when its score is strictly greater. Reading a score recalculates
     * a marked field. An empty grid fails at fieldArr[0].
     */
    method ExamineBestPosition() returns (r: Result<Position, RuntimeError>)
      requires Valid()
      modifies this
      ensures Valid()
      ensures |old(fieldArr)| == 0 ==> r == Failure(ArrayIndexOutOfBounds) && fieldArr == old(fieldArr)
      ensures |old(fieldArr)| > 0 ==>
                var b := ScanGrid(Scores(old(fieldArr)), |old(fieldArr)|, Best(0.0, |old(fieldArr)| / 2, rows / 2));
                r.Success? && r.value.COLUMN == b.column && r.value.ROW == b.row &&
                fieldArr == ReadBefore(old(fieldArr), |old(fieldArr)|, 0)
    {
      var columns := |fieldArr|;
      if columns == 0 {
        return Failure(ArrayIndexOutOfBounds);
      }
      ghost var start := fieldArr;
      ghost var scores := Scores(start);
      ghost var init := Best(0.0, columns / 2, rows / 2);
      var maxPosition := new Position(columns / 2, rows / 2);
      var maxScore := 0.0;
      var i := 0;
      NothingReadYet(start);
      while i < columns
        invariant 0 <= i <= columns && Valid() && |fieldArr| == columns
        invariant fieldArr == ReadBefore(start, i, 0)
        invariant Best(maxScore, maxPosition.COLUMN, maxPosition.ROW) == ScanGrid(scores, i, init)
      {
        maxScore, maxPosition := ExamineColumn(start, i, maxScore, maxPosition);
        i := i + 1;
      }
      return Success(maxPosition);
    }

    /** The inner loop of examineBestPosition, over column i: the running maximum moves only on a strictly greater score. */
    method ExamineColumn(ghost start: seq<seq<FieldState>>, i: int, maxScore: real, maxPosition: Position)
      returns (newScore: real, newPosition: Position)
      requires Valid() && 0 <= i < |start| && fieldArr == ReadBefore(start, i, 0)
      requires forall k :: 0 <= k < |start| ==> |start[k]| == rows
      modifies this
      ensures Valid() && fieldArr == ReadBefore(start, i + 1, 0)
      ensures Best(newScore, newPosition.COLUMN, newPosition.ROW) ==
              ScanColumn(Scores(start)[i], i, rows, Best(maxScore, maxPosition.COLUMN, maxPosition.ROW))
    {
      ghost var scores := Scores(start)[i];
      ghost var acc := Best(maxScore, maxPosition.COLUMN, maxPosition.ROW);
      newScore, newPosition := maxScore, maxPosition;
      var j := 0;
      while j < rows
        invariant 0 <= j <= rows && Valid() && |fieldArr| == |start|
        invariant fieldArr == ReadBefore(start, i, j)
        invariant Best(newScore, newPosition.COLUMN, newPosition.ROW) == ScanColumn(scores, i, j, acc)
      {
        ReadStep(start, i, j);
        var score := ReadScore(i, j);
        if score > newScore {
          newScore := ReadScore(i, j);
          newPosition := new Position(i, j);
        }
        j := j + 1;
      }
      ReadColumnDone(start, i, rows);
    }
  }
}

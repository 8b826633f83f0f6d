/**
 * The values behind OpponentEngine's objects: the integer type codes, the
 * state of one Row window and of one Field, the score recalculations, the
 * run-length count around a window's centre, the ordered list of window writes
 * setStoneType performs, and the column-major arg-max of examineBestPosition.
 * Scores are reals; the Math.pow score of a window is the abstract function
 * `runScore` of the two run lengths.
 */
module EngineSpec {
  import opened Games
  import opened Stones

  const BLOCKED_FIELD: int := -1
  const FREE_FIELD: int := 0
  const OPPONENT_FIELD: int := 1
  const JOKER_FIELD: int := 2
  const OWN_FIELD: int := 3

  /** Row.BLOCKED_SCORE. */
  const BLOCKED_SCORE: real := -1.0
  /** Row.opponentFactor. */
  const OPPONENT_FACTOR: real := 1.0
  /** Field.middleBonusFactor. */
  const MIDDLE_BONUS_FACTOR: real := 0.01

  /**
   * convertFieldTypeToIntType for an engine playing white (`isWhite`) or
   * black: the engine's own colour is OWN_FIELD, the other colour OPPONENT_FIELD.
   */
  function ConvertFieldTypeToIntType(t: FieldType, isWhite: bool): (code: int)
    ensures code == FREE_FIELD <==> t == FieldType.FREE
    ensures code == BLOCKED_FIELD <==> t == FieldType.BLOCKED
    ensures code == JOKER_FIELD <==> t == FieldType.JOKER
    ensures code == OWN_FIELD <==> (t == FieldType.WHITE && isWhite) || (t == FieldType.BLACK && !isWhite)
    ensures code == OPPONENT_FIELD <==> (t == FieldType.WHITE && !isWhite) || (t == FieldType.BLACK && isWhite)
  {
    match t
    case FREE => FREE_FIELD
    case BLOCKED => BLOCKED_FIELD
    case JOKER => JOKER_FIELD
    case WHITE => if isWhite then OWN_FIELD else OPPONENT_FIELD
    case BLACK => if !isWhite then OWN_FIELD else OPPONENT_FIELD
  }

  /** isFieldOkay: the own code, a joker, or (when allowed) a free cell continues a run. */
  predicate IsFieldOkay(code: int, ownFieldType: int, isFreeFieldOkay: bool) {
    code == ownFieldType || code == JOKER_FIELD || (isFreeFieldOkay && code == FREE_FIELD)
  }

  /** How many offsets calcFieldRowLengthAroundCenter examines on each side: 1 up to centerIndex - 1. */
  function Reach(centerIndex: nat): nat {
    if centerIndex > 0 then centerIndex - 1 else 0
  }

  /**
   * The okay cells one side of the window counts from offset i outwards, up
   * to offset centerIndex - 1: it stops for good at its first cell that is
   * not okay. `toLeft` picks the side.
   */
  function SideRun(stones: seq<int>, centerIndex: nat, toLeft: bool, ownFieldType: int, withFreeSpace: bool, i: nat): nat
    requires 2 * centerIndex < |stones|
    decreases centerIndex - i
  {
    if i == 0 || i >= centerIndex then 0
    else
      var code := if toLeft then stones[centerIndex - i] else stones[centerIndex + i];
      if IsFieldOkay(code, ownFieldType, withFreeSpace) then 1 + SideRun(stones, centerIndex, toLeft, ownFieldType, withFreeSpace, i + 1)
      else 0
  }

  /**
   * calcFieldRowLengthAroundCenter: both sides counted from offset 1; the
   * outermost slots (offset centerIndex) are never looked at.
   */
  function RunLength(stones: seq<int>, centerIndex: nat, ownFieldType: int, withFreeSpace: bool): nat
    requires 2 * centerIndex < |stones|
  {
    SideRun(stones, centerIndex, true, ownFieldType, withFreeSpace, 1) +
    SideRun(stones, centerIndex, false, ownFieldType, withFreeSpace, 1)
  }

  /** A side counted from offset i >= 1 has at most centerIndex - i cells to count. */
  lemma {:induction false} SideRunBound(stones: seq<int>, centerIndex: nat, toLeft: bool, ownFieldType: int, withFreeSpace: bool, i: nat)
    requires 2 * centerIndex < |stones| && i >= 1
    ensures SideRun(stones, centerIndex, toLeft, ownFieldType, withFreeSpace, i) <= if i < centerIndex then centerIndex - i else 0
    decreases centerIndex - i
  {
    if i < centerIndex {
      SideRunBound(stones, centerIndex, toLeft, ownFieldType, withFreeSpace, i + 1);
    }
  }

  /** The count never exceeds 2 * (centerIndex - 1). */
  lemma {:induction false} RunLengthBound(stones: seq<int>, centerIndex: nat, ownFieldType: int, withFreeSpace: bool)
    requires 2 * centerIndex < |stones|
    ensures RunLength(stones, centerIndex, ownFieldType, withFreeSpace) <= 2 * Reach(centerIndex)
  {
    SideRunBound(stones, centerIndex, true, ownFieldType, withFreeSpace, 1);
    SideRunBound(stones, centerIndex, false, ownFieldType, withFreeSpace, 1);
  }

  /** Accepting free cells only widens what is okay, so a side can only count further. */
  lemma {:induction false} SideRunWidens(stones: seq<int>, centerIndex: nat, toLeft: bool, ownFieldType: int, i: nat)
    requires 2 * centerIndex < |stones|
    ensures SideRun(stones, centerIndex, toLeft, ownFieldType, false, i) <= SideRun(stones, centerIndex, toLeft, ownFieldType, true, i)
    decreases centerIndex - i
  {
    if i != 0 && i < centerIndex {
      SideRunWidens(stones, centerIndex, toLeft, ownFieldType, i + 1);
    }
  }

  /** The run length with free space is at least the strict run length. */
  lemma {:induction false} FreeSpaceWidens(stones: seq<int>, centerIndex: nat, ownFieldType: int)
    requires 2 * centerIndex < |stones|
    ensures RunLength(stones, centerIndex, ownFieldType, false) <= RunLength(stones, centerIndex, ownFieldType, true)
  {
    SideRunWidens(stones, centerIndex, true, ownFieldType, 1);
    SideRunWidens(stones, centerIndex, false, ownFieldType, 1);
  }

  /** The fields of one Row object. */
  datatype RowState = RowState(stones: seq<int>, score: real, ownScore: real, opponentScore: real, isBlocked: bool)

  /** A window of 2 * centerIndex + 1 slots. */
  predicate RowFits(r: RowState, centerIndex: nat) {
    |r.stones| == 2 * centerIndex + 1
  }

  /** calculateScore: the score of the two run lengths (strict, then with free space). */
  function CalculateScore(stones: seq<int>, centerIndex: nat, ownFieldType: int, runScore: (nat, nat) -> real): real
    requires 2 * centerIndex < |stones|
  {
    runScore(RunLength(stones, centerIndex, ownFieldType, false), RunLength(stones, centerIndex, ownFieldType, true))
  }

  /**
   * Row.recalculateScore: a blocked row scores BLOCKED_SCORE; a row whose
   * centre is taken becomes blocked but keeps its old scores until the next
   * recalculation; otherwise the own and the opponent score are computed.
   */
  function RowRecalc(r: RowState, centerIndex: nat, runScore: (nat, nat) -> real): (s: RowState)
    requires RowFits(r, centerIndex)
    ensures s.stones == r.stones && RowFits(s, centerIndex)
  {
    if r.isBlocked then
      r.(score := BLOCKED_SCORE, ownScore := BLOCKED_SCORE, opponentScore := BLOCKED_SCORE)
    else if r.stones[centerIndex] != FREE_FIELD then
      r.(isBlocked := true)
    else
      var own := CalculateScore(r.stones, centerIndex, OWN_FIELD, runScore);
      var opponent := CalculateScore(r.stones, centerIndex, OPPONENT_FIELD, runScore);
      r.(ownScore := own, opponentScore := opponent, score := own + opponent * OPPONENT_FACTOR)
  }

  /**
   * What a recalculation does to the blocked flag and the scores: a row is
   * blocked from the first recalculation that sees its centre taken; a
   * blocked row scores BLOCKED_SCORE three times; the recalculation that
   * blocks a row changes nothing else; an open row's score is its own score
   * plus its opponent score times OPPONENT_FACTOR.
   */
  lemma {:induction false} RecalcBlocks(r: RowState, centerIndex: nat, runScore: (nat, nat) -> real)
    requires RowFits(r, centerIndex)
    ensures var s := RowRecalc(r, centerIndex, runScore);
              (s.isBlocked <==> r.isBlocked || r.stones[centerIndex] != FREE_FIELD) &&
              (r.isBlocked ==> s.score == BLOCKED_SCORE && s.ownScore == BLOCKED_SCORE && s.opponentScore == BLOCKED_SCORE) &&
              (!r.isBlocked && r.stones[centerIndex] != FREE_FIELD ==> s == r.(isBlocked := true)) &&
              (!s.isBlocked ==> s.score == s.ownScore + s.opponentScore * OPPONENT_FACTOR)
  {
  }

  /** Row.setFieldType / setCenterFieldType: write one slot, then recalculate. */
  function RowWrite(r: RowState, slot: nat, code: int, centerIndex: nat, runScore: (nat, nat) -> real): (s: RowState)
    requires RowFits(r, centerIndex) && slot < |r.stones|
    ensures RowFits(s, centerIndex) && s.stones == r.stones[slot := code]
  {
    RowRecalc(r.(stones := r.stones[slot := code]), centerIndex, runScore)
  }

  /**
   * The blocked ratchet: once a row is blocked, every later write leaves it
   * blocked with all three scores at BLOCKED_SCORE; a write of a taken centre
   * blocks an unblocked row.
   */
  lemma {:induction false} BlockedRatchet(r: RowState, slot: nat, code: int, centerIndex: nat, runScore: (nat, nat) -> real)
    requires RowFits(r, centerIndex) && slot < |r.stones|
    ensures r.isBlocked ==> var s := RowWrite(r, slot, code, centerIndex, runScore);
              s.isBlocked && s.score == BLOCKED_SCORE && s.ownScore == BLOCKED_SCORE && s.opponentScore == BLOCKED_SCORE
    ensures slot == centerIndex && code != FREE_FIELD ==> RowWrite(r, slot, code, centerIndex, runScore).isBlocked
  {
  }

  /** The four windows of a field. */
  datatype Direction = LeftTopRightBottom | RightTopLeftBottom | Vertical | Horizontal

  /** The fields of one Field object (ownMiddleBonusFactor is `bonus`). */
  datatype FieldState = FieldState(
    fieldType: int,
    leftTopRightBottom: RowState,
    rightTopLeftBottom: RowState,
    vertical: RowState,
    horizontal: RowState,
    scoreSum: real,
    fieldNeedsRecalculation: bool,
    bonus: real)
  {
    function RowOf(d: Direction): RowState {
      match d
      case LeftTopRightBottom => leftTopRightBottom
      case RightTopLeftBottom => rightTopLeftBottom
      case Vertical => vertical
      case Horizontal => horizontal
    }
  }

  /** All four windows have 2 * centerIndex + 1 slots. */
  predicate FieldFits(f: FieldState, centerIndex: nat) {
    RowFits(f.leftTopRightBottom, centerIndex) && RowFits(f.rightTopLeftBottom, centerIndex) &&
    RowFits(f.vertical, centerIndex) && RowFits(f.horizontal, centerIndex)
  }

  /**
   * Field.recalculateScore: only a field marked for recalculation recomputes
   * the sum of its four window scores plus the middle bonus, and clears the mark.
   */
  function FieldRecalc(f: FieldState): (g: FieldState)
    ensures !g.fieldNeedsRecalculation
    ensures !f.fieldNeedsRecalculation ==> g == f
    ensures forall d :: g.RowOf(d) == f.RowOf(d)
  {
    if f.fieldNeedsRecalculation then
      var sum := f.leftTopRightBottom.score + f.rightTopLeftBottom.score + f.vertical.score + f.horizontal.score;
      f.(scoreSum := sum + sum * f.bonus, fieldNeedsRecalculation := false)
    else f
  }

  /** Field.getScore: the score after the lazy recalculation. */
  function FieldScore(f: FieldState): real {
    FieldRecalc(f).scoreSum
  }

  /**
   * Two reads with no update in between give the same score: the first read
   * clears the mark, so the second one recomputes nothing.
   */
  lemma {:induction false} ScoreReadIsStable(f: FieldState)
    ensures FieldRecalc(FieldRecalc(f)) == FieldRecalc(f)
    ensures FieldScore(FieldRecalc(f)) == FieldScore(f)
  {
  }

  /**
   * Field.setFieldType: the field type is stored and written to the centre of
   * the vertical, horizontal and both diagonal windows, in that order.
   */
  function FieldSetType(f: FieldState, code: int, centerIndex: nat, runScore: (nat, nat) -> real): (g: FieldState)
    requires FieldFits(f, centerIndex)
    ensures FieldFits(g, centerIndex) && g.fieldType == code && g.fieldNeedsRecalculation
    ensures g.bonus == f.bonus
  {
    f.(fieldType := code,
       vertical := RowWrite(f.vertical, centerIndex, code, centerIndex, runScore),
       horizontal := RowWrite(f.horizontal, centerIndex, code, centerIndex, runScore),
       leftTopRightBottom := RowWrite(f.leftTopRightBottom, centerIndex, code, centerIndex, runScore),
       rightTopLeftBottom := RowWrite(f.rightTopLeftBottom, centerIndex, code, centerIndex, runScore),
       fieldNeedsRecalculation := true)
  }

  /** `field.<window>.setFieldType(offset, code)`: one window slot written, the field marked. */
  function FieldRowWrite(f: FieldState, d: Direction, offset: int, code: int, centerIndex: nat, runScore: (nat, nat) -> real): (g: FieldState)
    requires FieldFits(f, centerIndex) && -(centerIndex as int) <= offset <= centerIndex
    ensures FieldFits(g, centerIndex) && g.fieldNeedsRecalculation
    ensures g.RowOf(d).stones == f.RowOf(d).stones[offset + centerIndex := code]
    ensures forall e :: e != d ==> g.RowOf(e) == f.RowOf(e)
    ensures g.fieldType == f.fieldType && g.bonus == f.bonus
  {
    var r := RowWrite(f.RowOf(d), offset + centerIndex, code, centerIndex, runScore);
    match d
    case LeftTopRightBottom => f.(leftTopRightBottom := r, fieldNeedsRecalculation := true)
    case RightTopLeftBottom => f.(rightTopLeftBottom := r, fieldNeedsRecalculation := true)
    case Vertical => f.(vertical := r, fieldNeedsRecalculation := true)
    case Horizontal => f.(horizontal := r, fieldNeedsRecalculation := true)
  }

  /** One update setStoneType makes to the field at (column, row). */
  datatype Write =
    | SetType(column: int, row: int, code: int)                               // Field.setFieldType
    | SetRow(column: int, row: int, dir: Direction, offset: int, code: int)   // Row.setFieldType

  /** A grid of fields of the given size, every window of the given width. */
  predicate CellsFit(cells: seq<seq<FieldState>>, columns: nat, rows: nat, centerIndex: nat) {
    |cells| == columns &&
    (forall i :: 0 <= i < columns ==> |cells[i]| == rows) &&
    (forall i, j {:trigger FieldFits(cells[i][j], centerIndex)} :: 0 <= i < columns && 0 <= j < rows ==>
       FieldFits(cells[i][j], centerIndex))
  }

  /** The write addresses a field of the grid, and a window slot within it. */
  predicate WriteFits(w: Write, columns: nat, rows: nat, centerIndex: nat) {
    0 <= w.column < columns && 0 <= w.row < rows &&
    (w.SetRow? ==> -(centerIndex as int) <= w.offset <= centerIndex)
  }

  /**
   * The write on the grid; a write addressing no field or slot of it changes
   * nothing. Field.setFieldType stores the code, then writes it to the centre
   * (offset 0) of the vertical, horizontal, leftTopRightBottom and
   * rightTopLeftBottom windows, as the writes CentreWrites lists.
   */
  function ApplyWrite(cells: seq<seq<FieldState>>, w: Write, columns: nat, rows: nat,
                      centerIndex: nat, runScore: (nat, nat) -> real): (out: seq<seq<FieldState>>)
    requires CellsFit(cells, columns, rows, centerIndex)
    ensures CellsFit(out, columns, rows, centerIndex)
    decreases if w.SetType? then 1 else 0, 0
  {
    if !WriteFits(w, columns, rows, centerIndex) then cells
    else
      var f := cells[w.column][w.row];
      match w
      case SetType(column, row, code) =>
        assert FieldFits(f, centerIndex);
        ReplaceFits(cells, column, row, f.(fieldType := code), columns, rows, centerIndex);
        ApplyWrites(cells[column := cells[column][row := f.(fieldType := code)]], CentreWrites(column, row, code),
                    columns, rows, centerIndex, runScore)
      case SetRow(column, row, d, offset, code) =>
        cells[column := cells[column][row := FieldRowWrite(f, d, offset, code, centerIndex, runScore)]]
  }

  /** Replacing one field by a field of the same window width keeps the grid's shape. */
  lemma {:induction false} ReplaceFits(cells: seq<seq<FieldState>>, column: int, row: int, g: FieldState, columns: nat, rows: nat, centerIndex: nat)
    requires CellsFit(cells, columns, rows, centerIndex) && 0 <= column < columns && 0 <= row < rows
    requires FieldFits(g, centerIndex)
    ensures CellsFit(cells[column := cells[column][row := g]], columns, rows, centerIndex)
  {
    var out := cells[column := cells[column][row := g]];
    forall i, j | 0 <= i < columns && 0 <= j < rows
      ensures FieldFits(out[i][j], centerIndex)
    {
      if i != column || j != row {
        assert out[i][j] == cells[i][j];
      }
    }
  }

  /** The window writes of Field.setFieldType, in its order. */
  function CentreWrites(column: int, row: int, code: int): (ws: seq<Write>) {
    [SetRow(column, row, Vertical, 0, code)] + [SetRow(column, row, Horizontal, 0, code)] +
    [SetRow(column, row, LeftTopRightBottom, 0, code)] + [SetRow(column, row, RightTopLeftBottom, 0, code)]
  }

  /** The writes applied in list order. */
  function ApplyWrites(cells: seq<seq<FieldState>>, ws: seq<Write>, columns: nat, rows: nat,
                       centerIndex: nat, runScore: (nat, nat) -> real): (out: seq<seq<FieldState>>)
    requires CellsFit(cells, columns, rows, centerIndex)
    ensures CellsFit(out, columns, rows, centerIndex)
    decreases if forall k | 0 <= k < |ws| :: ws[k].SetRow? then 0 else 1, |ws|
  {
    if ws == [] then cells
    else
      ApplyWrite(ApplyWrites(cells, ws[..|ws| - 1], columns, rows, centerIndex, runScore),
                 ws[|ws| - 1], columns, rows, centerIndex, runScore)
  }

  /** A write that fits replaces the state of its field, and nothing else: a centre write by FieldSetType's. */
  lemma {:induction false} SetTypeWriteAt(cells: seq<seq<FieldState>>, column: int, row: int, code: int, columns: nat, rows: nat,
                       centerIndex: nat, runScore: (nat, nat) -> real)
    requires CellsFit(cells, columns, rows, centerIndex) && 0 <= column < columns && 0 <= row < rows
    ensures ApplyWrite(cells, SetType(column, row, code), columns, rows, centerIndex, runScore) ==
            cells[column := cells[column][row := FieldSetType(cells[column][row], code, centerIndex, runScore)]]
  {
    var f := cells[column][row];
    assert FieldFits(f, centerIndex);
    var f0 := f.(fieldType := code);
    var f1 := FieldRowWrite(f0, Vertical, 0, code, centerIndex, runScore);
    var f2 := FieldRowWrite(f1, Horizontal, 0, code, centerIndex, runScore);
    var f3 := FieldRowWrite(f2, LeftTopRightBottom, 0, code, centerIndex, runScore);
    var f4 := FieldRowWrite(f3, RightTopLeftBottom, 0, code, centerIndex, runScore);
    var c0 := cells[column := cells[column][row := f0]];
    var c1 := cells[column := cells[column][row := f1]];
    var c2 := cells[column := cells[column][row := f2]];
    var c3 := cells[column := cells[column][row := f3]];
    ReplaceFits(cells, column, row, f0, columns, rows, centerIndex);
    ReplaceFits(cells, column, row, f1, columns, rows, centerIndex);
    ReplaceFits(cells, column, row, f2, columns, rows, centerIndex);
    ReplaceFits(cells, column, row, f3, columns, rows, centerIndex);
    CentreWritesInOrder(c0, column, row, code, columns, rows, centerIndex, runScore);
    WindowWriteStep(cells, c0, SetRow(column, row, Vertical, 0, code), f0, columns, rows, centerIndex, runScore);
    WindowWriteStep(cells, c1, SetRow(column, row, Horizontal, 0, code), f1, columns, rows, centerIndex, runScore);
    WindowWriteStep(cells, c2, SetRow(column, row, LeftTopRightBottom, 0, code), f2, columns, rows, centerIndex, runScore);
    WindowWriteStep(cells, c3, SetRow(column, row, RightTopLeftBottom, 0, code), f3, columns, rows, centerIndex, runScore);
    assert f4 == FieldSetType(f, code, centerIndex, runScore);
  }

  /** The centre writes are the four window writes one after the other. */
  lemma {:induction false} CentreWritesInOrder(cells: seq<seq<FieldState>>, column: int, row: int, code: int, columns: nat, rows: nat,
                            centerIndex: nat, runScore: (nat, nat) -> real)
    requires CellsFit(cells, columns, rows, centerIndex)
    ensures ApplyWrites(cells, CentreWrites(column, row, code), columns, rows, centerIndex, runScore) ==
            ApplyWrite(ApplyWrite(ApplyWrite(ApplyWrite(cells,
              SetRow(column, row, Vertical, 0, code), columns, rows, centerIndex, runScore),
              SetRow(column, row, Horizontal, 0, code), columns, rows, centerIndex, runScore),
              SetRow(column, row, LeftTopRightBottom, 0, code), columns, rows, centerIndex, runScore),
              SetRow(column, row, RightTopLeftBottom, 0, code), columns, rows, centerIndex, runScore)
  {
    var a, b := SetRow(column, row, Vertical, 0, code), SetRow(column, row, Horizontal, 0, code);
    var x, y := SetRow(column, row, LeftTopRightBottom, 0, code), SetRow(column, row, RightTopLeftBottom, 0, code);
    assert [a][..0] == [];
    ApplyWritesSnoc(cells, [a], b, columns, rows, centerIndex, runScore);
    ApplyWritesSnoc(cells, [a] + [b], x, columns, rows, centerIndex, runScore);
    ApplyWritesSnoc(cells, [a] + [b] + [x], y, columns, rows, centerIndex, runScore);
  }

  /** A window write on a grid whose addressed field is g. */
  lemma {:induction false} WindowWriteStep(cells: seq<seq<FieldState>>, before: seq<seq<FieldState>>, w: Write, g: FieldState, columns: nat, rows: nat,
                        centerIndex: nat, runScore: (nat, nat) -> real)
    requires CellsFit(cells, columns, rows, centerIndex) && w.SetRow? && WriteFits(w, columns, rows, centerIndex)
    requires FieldFits(g, centerIndex) && CellsFit(before, columns, rows, centerIndex)
    requires before == cells[w.column := cells[w.column][w.row := g]]
    ensures ApplyWrite(before, w, columns, rows, centerIndex, runScore) ==
            cells[w.column := cells[w.column][w.row := FieldRowWrite(g, w.dir, w.offset, w.code, centerIndex, runScore)]]
  {
    var h := FieldRowWrite(g, w.dir, w.offset, w.code, centerIndex, runScore);
    assert before[w.column][w.row := h] == cells[w.column][w.row := h];
  }

  /** A window write that fits replaces the state of its field by FieldRowWrite's, and nothing else. */
  lemma {:induction false} SetRowWriteAt(cells: seq<seq<FieldState>>, w: Write, columns: nat, rows: nat,
                      centerIndex: nat, runScore: (nat, nat) -> real)
    requires CellsFit(cells, columns, rows, centerIndex) && w.SetRow? && WriteFits(w, columns, rows, centerIndex)
    ensures ApplyWrite(cells, w, columns, rows, centerIndex, runScore) ==
            cells[w.column := cells[w.column][w.row := FieldRowWrite(cells[w.column][w.row], w.dir, w.offset, w.code, centerIndex, runScore)]]
  {
  }

  /** Applying two lists one after the other is applying their concatenation. */
  lemma {:induction false} ApplyWritesAppend(cells: seq<seq<FieldState>>, a: seq<Write>, b: seq<Write>,
                                             columns: nat, rows: nat, centerIndex: nat, runScore: (nat, nat) -> real)
    requires CellsFit(cells, columns, rows, centerIndex)
    ensures ApplyWrites(cells, a + b, columns, rows, centerIndex, runScore) ==
            ApplyWrites(ApplyWrites(cells, a, columns, rows, centerIndex, runScore), b, columns, rows, centerIndex, runScore)
    decreases |b|
  {
    if b != [] {
      assert (a + b)[..|a + b| - 1] == a + b[..|b| - 1];
      assert (a + b)[|a + b| - 1] == b[|b| - 1];
      ApplyWritesAppend(cells, a, b[..|b| - 1], columns, rows, centerIndex, runScore);
    } else {
      assert a + b == a;
    }
  }

  /** One more write at the end of the list. */
  lemma {:induction false} ApplyWritesSnoc(cells: seq<seq<FieldState>>, ws: seq<Write>, w: Write, columns: nat, rows: nat,
                        centerIndex: nat, runScore: (nat, nat) -> real)
    requires CellsFit(cells, columns, rows, centerIndex)
    ensures ApplyWrites(cells, ws + [w], columns, rows, centerIndex, runScore) ==
            ApplyWrite(ApplyWrites(cells, ws, columns, rows, centerIndex, runScore), w, columns, rows, centerIndex, runScore)
  {
    assert (ws + [w])[..|ws|] == ws;
  }

  /** A list of one write applies that write. */
  lemma {:induction false} ApplyWritesSingle(cells: seq<seq<FieldState>>, w: Write, columns: nat, rows: nat,
                          centerIndex: nat, runScore: (nat, nat) -> real)
    requires CellsFit(cells, columns, rows, centerIndex)
    ensures ApplyWrites(cells, [w], columns, rows, centerIndex, runScore) == ApplyWrite(cells, w, columns, rows, centerIndex, runScore)
  {
    assert [w][..0] == [];
  }

  /** A field no write in the list addresses keeps its state. */
  lemma {:induction false} UntouchedFieldKept(cells: seq<seq<FieldState>>, ws: seq<Write>, columns: nat, rows: nat,
                                              centerIndex: nat, runScore: (nat, nat) -> real, i: int, j: int)
    requires CellsFit(cells, columns, rows, centerIndex)
    requires 0 <= i < columns && 0 <= j < rows
    requires forall k :: 0 <= k < |ws| ==> ws[k].column != i || ws[k].row != j
    ensures ApplyWrites(cells, ws, columns, rows, centerIndex, runScore)[i][j] == cells[i][j]
    decreases if forall k | 0 <= k < |ws| :: ws[k].SetRow? then 0 else 1, |ws|
  {
    if ws != [] {
      var prefix := ws[..|ws| - 1];
      UntouchedFieldKept(cells, prefix, columns, rows, centerIndex, runScore, i, j);
      UntouchedFieldUnwritten(ApplyWrites(cells, prefix, columns, rows, centerIndex, runScore), ws[|ws| - 1],
                              columns, rows, centerIndex, runScore, i, j);
    }
  }

  /** A field a write does not address keeps its state. */
  lemma {:induction false} UntouchedFieldUnwritten(cells: seq<seq<FieldState>>, w: Write, columns: nat, rows: nat,
                                                   centerIndex: nat, runScore: (nat, nat) -> real, i: int, j: int)
    requires CellsFit(cells, columns, rows, centerIndex)
    requires 0 <= i < columns && 0 <= j < rows && (w.column != i || w.row != j)
    ensures ApplyWrite(cells, w, columns, rows, centerIndex, runScore)[i][j] == cells[i][j]
    decreases if w.SetType? then 1 else 0, 0
  {
    if WriteFits(w, columns, rows, centerIndex) && w.SetType? {
      var f := cells[w.column][w.row];
      assert FieldFits(f, centerIndex);
      ReplaceFits(cells, w.column, w.row, f.(fieldType := w.code), columns, rows, centerIndex);
      UntouchedFieldKept(cells[w.column := cells[w.column][w.row := f.(fieldType := w.code)]], CentreWrites(w.column, w.row, w.code),
                         columns, rows, centerIndex, runScore, i, j);
    }
  }

  /** The four loops of setStoneType after the centre write. */
  datatype Loop = VerticalLoop | HorizontalLoop | DiagonalLoop | AntiDiagonalLoop

  /** What setStoneType is called for: the grid size, the position and the type code. */
  datatype Target = Target(column: int, row: int, columns: int, rows: int, code: int)

  /**
   * Step i of one loop. Vertical: the field i rows up (never row 0), then the
   * field i rows down. Horizontal: the field i columns right (the leftward
   * branch is out of range whenever taken, see SetStoneTypeWrites).
   * Diagonal: fieldArr[row + i][column + i]; anti-diagonal:
   * fieldArr[row - i][column + i]; each only when in range.
   */
  function Step(loop: Loop, t: Target, i: int): seq<Write> {
    match loop
    case VerticalLoop =>
      (if t.row - i > 0 then [SetRow(t.column, t.row - i, Vertical, -i, t.code)] else []) +
      (if t.row + i < t.rows then [SetRow(t.column, t.row + i, Vertical, i, t.code)] else [])
    case HorizontalLoop =>
      if t.column + i < t.columns then [SetRow(t.column + i, t.row, Horizontal, i, t.code)] else []
    case DiagonalLoop =>
      var curRow, curColumn := t.column + i, t.row + i;
      if curColumn < t.columns && curRow < t.rows && curColumn >= 0 && curRow >= 0
      then [SetRow(curColumn, curRow, LeftTopRightBottom, i, t.code)] else []
    case AntiDiagonalLoop =>
      var curRow, curColumn := t.column + i, t.row - i;
      if curColumn < t.columns && curRow < t.rows && curColumn >= 0 && curRow >= 0
      then [SetRow(curColumn, curRow, RightTopLeftBottom, i, t.code)] else []
  }

  /** The steps lo, lo + 1, ..., hi - 1 of one loop, in order. */
  function Steps(loop: Loop, t: Target, lo: int, hi: int): seq<Write>
    decreases hi - lo
  {
    if hi <= lo then [] else Steps(loop, t, lo, hi - 1) + Step(loop, t, hi - 1)
  }

  /** The grid after iterations lo, lo + 1, ..., hi - 1 of one loop, each applying its step's writes. */
  function LoopState(cells: seq<seq<FieldState>>, loop: Loop, t: Target, lo: int, hi: int, columns: nat, rows: nat,
                     centerIndex: nat, runScore: (nat, nat) -> real): (out: seq<seq<FieldState>>)
    requires CellsFit(cells, columns, rows, centerIndex)
    ensures CellsFit(out, columns, rows, centerIndex)
    decreases hi - lo
  {
    if hi <= lo then cells
    else ApplyWrites(LoopState(cells, loop, t, lo, hi - 1, columns, rows, centerIndex, runScore), Step(loop, t, hi - 1),
                     columns, rows, centerIndex, runScore)
  }

  /** Running the loop from lo to hi applies the writes of Steps(loop, t, lo, hi). */
  lemma {:induction false} LoopStateIsSteps(cells: seq<seq<FieldState>>, loop: Loop, t: Target, lo: int, hi: int, columns: nat, rows: nat,
                                            centerIndex: nat, runScore: (nat, nat) -> real)
    requires CellsFit(cells, columns, rows, centerIndex)
    ensures LoopState(cells, loop, t, lo, hi, columns, rows, centerIndex, runScore) ==
            ApplyWrites(cells, Steps(loop, t, lo, hi), columns, rows, centerIndex, runScore)
    decreases hi - lo
  {
    if hi > lo {
      LoopStateIsSteps(cells, loop, t, lo, hi - 1, columns, rows, centerIndex, runScore);
      ApplyWritesAppend(cells, Steps(loop, t, lo, hi - 1), Step(loop, t, hi - 1), columns, rows, centerIndex, runScore);
    }
  }

  /**
   * setStoneType(position, type) on a columns-by-rows grid with win length
   * stonesToWin: the field's own centre first, then the vertical, horizontal,
   * diagonal and anti-diagonal loops. When stonesToWin - 1 > columns the
   * horizontal loop indexes out of range at i = columns + 1; the second
   * component is then true and the list stops there.
   */
  function SetStoneTypeWrites(t: Target, stonesToWin: int): (seq<Write>, bool) {
    var prefix := [SetType(t.column, t.row, t.code)] + Steps(VerticalLoop, t, 0, stonesToWin);
    if stonesToWin - 1 > t.columns then
      (prefix + Steps(HorizontalLoop, t, 0, t.columns + 1), true)
    else
      (prefix + Steps(HorizontalLoop, t, 0, stonesToWin)
         + Steps(DiagonalLoop, t, -stonesToWin + 1, stonesToWin)
         + Steps(AntiDiagonalLoop, t, -(stonesToWin - 1), stonesToWin), false)
  }

  /**
   * The grid after setStoneType: the centre write, then the vertical and
   * horizontal loops; when the horizontal loop fails (stonesToWin - 1 >
   * columns) the grid as it stood at the failure, otherwise after the
   * diagonal and anti-diagonal loops as well.
   */
  function SetStoneTypeState(cells: seq<seq<FieldState>>, t: Target, stonesToWin: int, columns: nat, rows: nat,
                             centerIndex: nat, runScore: (nat, nat) -> real): (out: seq<seq<FieldState>>)
    requires CellsFit(cells, columns, rows, centerIndex)
    ensures CellsFit(out, columns, rows, centerIndex)
  {
    var centre := ApplyWrites(cells, [SetType(t.column, t.row, t.code)], columns, rows, centerIndex, runScore);
    var vertical := LoopState(centre, VerticalLoop, t, 0, stonesToWin, columns, rows, centerIndex, runScore);
    if stonesToWin - 1 > t.columns then
      LoopState(vertical, HorizontalLoop, t, 0, t.columns + 1, columns, rows, centerIndex, runScore)
    else
      var horizontal := LoopState(vertical, HorizontalLoop, t, 0, stonesToWin, columns, rows, centerIndex, runScore);
      var diagonal := LoopState(horizontal, DiagonalLoop, t, -stonesToWin + 1, stonesToWin, columns, rows, centerIndex, runScore);
      LoopState(diagonal, AntiDiagonalLoop, t, -(stonesToWin - 1), stonesToWin, columns, rows, centerIndex, runScore)
  }

  /** The grid after setStoneType is the old grid with SetStoneTypeWrites applied in list order. */
  lemma {:induction false} SetStoneTypeStateIsWrites(cells: seq<seq<FieldState>>, t: Target, stonesToWin: int, columns: nat, rows: nat,
                                                     centerIndex: nat, runScore: (nat, nat) -> real)
    requires CellsFit(cells, columns, rows, centerIndex)
    ensures SetStoneTypeState(cells, t, stonesToWin, columns, rows, centerIndex, runScore) ==
            ApplyWrites(cells, SetStoneTypeWrites(t, stonesToWin).0, columns, rows, centerIndex, runScore)
  {
    var centre := ApplyWrites(cells, [SetType(t.column, t.row, t.code)], columns, rows, centerIndex, runScore);
    var vertical := LoopState(centre, VerticalLoop, t, 0, stonesToWin, columns, rows, centerIndex, runScore);
    if stonesToWin - 1 > t.columns {
      var horizontal := LoopState(vertical, HorizontalLoop, t, 0, t.columns + 1, columns, rows, centerIndex, runScore);
      SetStoneTypeFailsInOrder(cells, t, stonesToWin, columns, rows, centerIndex, runScore, centre, vertical, horizontal);
    } else {
      var horizontal := LoopState(vertical, HorizontalLoop, t, 0, stonesToWin, columns, rows, centerIndex, runScore);
      var diagonal := LoopState(horizontal, DiagonalLoop, t, -stonesToWin + 1, stonesToWin, columns, rows, centerIndex, runScore);
      var anti := LoopState(diagonal, AntiDiagonalLoop, t, -(stonesToWin - 1), stonesToWin, columns, rows, centerIndex, runScore);
      SetStoneTypeInOrder(cells, t, stonesToWin, columns, rows, centerIndex, runScore, centre, vertical, horizontal, diagonal, anti);
    }
  }

  /** One of setStoneType's loops, run over the iterations lo, lo + 1, ..., hi - 1. */
  datatype LoopRange = LoopRange(loop: Loop, lo: int, hi: int)

  /** The writes ws followed by the steps of each loop range in turn. */
  function ThenSteps(ws: seq<Write>, ranges: seq<LoopRange>, t: Target): seq<Write> {
    if ranges == [] then ws
    else
      var last := ranges[|ranges| - 1];
      ThenSteps(ws, ranges[..|ranges| - 1], t) + Steps(last.loop, t, last.lo, last.hi)
  }

  /** One more loop range adds that loop's steps at the end. */
  lemma {:induction false} ThenStepsSnoc(ws: seq<Write>, ranges: seq<LoopRange>, r: LoopRange, t: Target)
    ensures ThenSteps(ws, ranges + [r], t) == ThenSteps(ws, ranges, t) + Steps(r.loop, t, r.lo, r.hi)
  {
    assert (ranges + [r])[..|ranges|] == ranges;
  }

  /**
   * Running loops one after the other, after the writes ws, applies ws and
   * then each loop's steps: states[k] is the grid before the k-th loop.
   */
  lemma {:induction false} LoopsInOrder(cells: seq<seq<FieldState>>, ws: seq<Write>, t: Target, ranges: seq<LoopRange>,
                                        states: seq<seq<seq<FieldState>>>,
                                        columns: nat, rows: nat, centerIndex: nat, runScore: (nat, nat) -> real)
    requires CellsFit(cells, columns, rows, centerIndex)
    requires |states| == |ranges| + 1 && states[0] == ApplyWrites(cells, ws, columns, rows, centerIndex, runScore)
    requires forall k :: 0 <= k < |ranges| ==>
               CellsFit(states[k], columns, rows, centerIndex) &&
               states[k + 1] == LoopState(states[k], ranges[k].loop, t, ranges[k].lo, ranges[k].hi, columns, rows, centerIndex, runScore)
    ensures states[|ranges|] == ApplyWrites(cells, ThenSteps(ws, ranges, t), columns, rows, centerIndex, runScore)
  {
    if ranges != [] {
      var n := |ranges| - 1;
      LoopsInOrder(cells, ws, t, ranges[..n], states[..n + 1], columns, rows, centerIndex, runScore);
      LoopStateIsSteps(states[n], ranges[n].loop, t, ranges[n].lo, ranges[n].hi, columns, rows, centerIndex, runScore);
      ApplyWritesAppend(cells, ThenSteps(ws, ranges[..n], t), Steps(ranges[n].loop, t, ranges[n].lo, ranges[n].hi),
                        columns, rows, centerIndex, runScore);
    }
  }

  /**
   * setStoneType's writes, applied in list order, are the centre write
   * followed by the four loops, each run over its own range.
   */
  lemma {:induction false} SetStoneTypeInOrder(cells: seq<seq<FieldState>>, t: Target, stonesToWin: int, columns: nat, rows: nat,
                            centerIndex: nat, runScore: (nat, nat) -> real,
                            centre: seq<seq<FieldState>>, vertical: seq<seq<FieldState>>, horizontal: seq<seq<FieldState>>,
                            diagonal: seq<seq<FieldState>>, anti: seq<seq<FieldState>>)
    requires stonesToWin - 1 <= t.columns
    requires CellsFit(cells, columns, rows, centerIndex) && CellsFit(centre, columns, rows, centerIndex)
    requires CellsFit(vertical, columns, rows, centerIndex) && CellsFit(horizontal, columns, rows, centerIndex)
    requires CellsFit(diagonal, columns, rows, centerIndex)
    requires centre == ApplyWrites(cells, [SetType(t.column, t.row, t.code)], columns, rows, centerIndex, runScore)
    requires vertical == LoopState(centre, VerticalLoop, t, 0, stonesToWin, columns, rows, centerIndex, runScore)
    requires horizontal == LoopState(vertical, HorizontalLoop, t, 0, stonesToWin, columns, rows, centerIndex, runScore)
    requires diagonal == LoopState(horizontal, DiagonalLoop, t, -stonesToWin + 1, stonesToWin, columns, rows, centerIndex, runScore)
    requires anti == LoopState(diagonal, AntiDiagonalLoop, t, -(stonesToWin - 1), stonesToWin, columns, rows, centerIndex, runScore)
    ensures anti == ApplyWrites(cells, SetStoneTypeWrites(t, stonesToWin).0, columns, rows, centerIndex, runScore)
  {
    var c := [SetType(t.column, t.row, t.code)];
    var ranges := [LoopRange(VerticalLoop, 0, stonesToWin), LoopRange(HorizontalLoop, 0, stonesToWin),
                   LoopRange(DiagonalLoop, -stonesToWin + 1, stonesToWin), LoopRange(AntiDiagonalLoop, -(stonesToWin - 1), stonesToWin)];
    LoopsInOrder(cells, c, t, ranges, [centre, vertical, horizontal, diagonal, anti], columns, rows, centerIndex, runScore);
    var r1, r2, r3, r4 := ranges[0], ranges[1], ranges[2], ranges[3];
    assert ranges == [] + [r1] + [r2] + [r3] + [r4];
    ThenStepsSnoc(c, [], r1, t);
    ThenStepsSnoc(c, [] + [r1], r2, t);
    ThenStepsSnoc(c, [] + [r1] + [r2], r3, t);
    ThenStepsSnoc(c, [] + [r1] + [r2] + [r3], r4, t);
  }

  /** When the horizontal loop fails, setStoneType's writes are the centre write and the loops before the failure. */
  lemma {:induction false} SetStoneTypeFailsInOrder(cells: seq<seq<FieldState>>, t: Target, stonesToWin: int, columns: nat, rows: nat,
                                 centerIndex: nat, runScore: (nat, nat) -> real,
                                 centre: seq<seq<FieldState>>, vertical: seq<seq<FieldState>>, horizontal: seq<seq<FieldState>>)
    requires stonesToWin - 1 > t.columns
    requires CellsFit(cells, columns, rows, centerIndex) && CellsFit(centre, columns, rows, centerIndex)
    requires CellsFit(vertical, columns, rows, centerIndex)
    requires centre == ApplyWrites(cells, [SetType(t.column, t.row, t.code)], columns, rows, centerIndex, runScore)
    requires vertical == LoopState(centre, VerticalLoop, t, 0, stonesToWin, columns, rows, centerIndex, runScore)
    requires horizontal == LoopState(vertical, HorizontalLoop, t, 0, t.columns + 1, columns, rows, centerIndex, runScore)
    ensures horizontal == ApplyWrites(cells, SetStoneTypeWrites(t, stonesToWin).0, columns, rows, centerIndex, runScore)
  {
    var c := [SetType(t.column, t.row, t.code)];
    var ranges := [LoopRange(VerticalLoop, 0, stonesToWin), LoopRange(HorizontalLoop, 0, t.columns + 1)];
    LoopsInOrder(cells, c, t, ranges, [centre, vertical, horizontal], columns, rows, centerIndex, runScore);
    assert ranges == [] + [ranges[0]] + [ranges[1]];
    ThenStepsSnoc(c, [], ranges[0], t);
    ThenStepsSnoc(c, [] + [ranges[0]], ranges[1], t);
  }

  /**
   * Where setStoneType writes: every write addresses a grid field and a
   * window slot; the centre write is at the position itself; vertical writes
   * stay in the position's column, within stonesToWin - 1 rows, and an upward
   * write never reaches row 0; horizontal writes only go right; the diagonal
   * writes address fieldArr[row + i][column + i] and fieldArr[row - i][column + i].
   */
  predicate WriteReach(w: Write, column: int, row: int, stonesToWin: int) {
    match w
    case SetType(c, r, _) => c == column && r == row
    case SetRow(c, r, d, offset, _) =>
      -stonesToWin < offset < stonesToWin &&
      match d
      case Vertical => c == column && r == row + offset && (offset < 0 ==> r >= 1)
      case Horizontal => r == row && c == column + offset && offset >= 0
      case LeftTopRightBottom => c == row + offset && r == column + offset
      case RightTopLeftBottom => c == row - offset && r == column + offset
  }

  /** The write fits the grid and stays where WriteReach allows. */
  predicate Reaches(w: Write, t: Target, stonesToWin: int) {
    t.columns >= 0 && t.rows >= 0 && stonesToWin >= 1 &&
    WriteFits(w, t.columns, t.rows, stonesToWin - 1) && WriteReach(w, t.column, t.row, stonesToWin)
  }

  /** Every write of step i reaches as allowed, for i within the loop's range. */
  lemma {:induction false} StepReach(loop: Loop, t: Target, stonesToWin: int, i: int)
    requires 0 <= t.column < t.columns && 0 <= t.row < t.rows && stonesToWin >= 1
    requires -stonesToWin < i < stonesToWin && (loop.VerticalLoop? || loop.HorizontalLoop? ==> i >= 0)
    ensures forall m :: 0 <= m < |Step(loop, t, i)| ==> Reaches(Step(loop, t, i)[m], t, stonesToWin)
  {
  }

  /** Every write of steps lo, ..., hi - 1 reaches as allowed. */
  lemma {:induction false} StepsReach(loop: Loop, t: Target, stonesToWin: int, lo: int, hi: int)
    requires 0 <= t.column < t.columns && 0 <= t.row < t.rows && stonesToWin >= 1
    requires -stonesToWin < lo && hi <= stonesToWin && (loop.VerticalLoop? || loop.HorizontalLoop? ==> lo >= 0)
    ensures forall k :: 0 <= k < |Steps(loop, t, lo, hi)| ==> Reaches(Steps(loop, t, lo, hi)[k], t, stonesToWin)
    decreases hi - lo
  {
    if hi > lo {
      StepsReach(loop, t, stonesToWin, lo, hi - 1);
      StepReach(loop, t, stonesToWin, hi - 1);
      AllAppend(Steps(loop, t, lo, hi - 1), Step(loop, t, hi - 1), t, stonesToWin);
    }
  }

  lemma {:induction false} SetStoneTypeReach(t: Target, stonesToWin: int)
    requires 0 <= t.column < t.columns && 0 <= t.row < t.rows && stonesToWin >= 1
    ensures var ws := SetStoneTypeWrites(t, stonesToWin).0;
              forall k :: 0 <= k < |ws| ==>
                WriteFits(ws[k], t.columns, t.rows, stonesToWin - 1) && WriteReach(ws[k], t.column, t.row, stonesToWin)
  {
    var hto := if stonesToWin - 1 > t.columns then t.columns + 1 else stonesToWin;
    var centre := [SetType(t.column, t.row, t.code)];
    var v := Steps(VerticalLoop, t, 0, stonesToWin);
    var h := Steps(HorizontalLoop, t, 0, hto);
    var d := Steps(DiagonalLoop, t, -stonesToWin + 1, stonesToWin);
    var a := Steps(AntiDiagonalLoop, t, -(stonesToWin - 1), stonesToWin);
    assert Reaches(centre[0], t, stonesToWin);
    StepsReach(VerticalLoop, t, stonesToWin, 0, stonesToWin);
    StepsReach(HorizontalLoop, t, stonesToWin, 0, hto);
    AllAppend(centre, v, t, stonesToWin);
    AllAppend(centre + v, h, t, stonesToWin);
    if stonesToWin - 1 <= t.columns {
      StepsReach(DiagonalLoop, t, stonesToWin, -stonesToWin + 1, stonesToWin);
      StepsReach(AntiDiagonalLoop, t, stonesToWin, -(stonesToWin - 1), stonesToWin);
      AllAppend(centre + v + h, d, t, stonesToWin);
      AllAppend(centre + v + h + d, a, t, stonesToWin);
    }
  }

  lemma {:induction false} AllAppend(a: seq<Write>, b: seq<Write>, t: Target, stonesToWin: int)
    requires forall k :: 0 <= k < |a| ==> Reaches(a[k], t, stonesToWin)
    requires forall k :: 0 <= k < |b| ==> Reaches(b[k], t, stonesToWin)
    ensures forall k :: 0 <= k < |a + b| ==> Reaches((a + b)[k], t, stonesToWin)
  {
  }

  /** A window as the Row constructor leaves it: 2 * stonesToWin - 1 free slots, no score. */
  function EmptyRow(stonesToWin: nat): (r: RowState)
    requires stonesToWin >= 1
    ensures RowFits(r, stonesToWin - 1)
  {
    RowState(seq(2 * stonesToWin - 1, _ => FREE_FIELD), 0.0, 0.0, 0.0, false)
  }

  /**
   * A field as the Field constructor leaves it: the given type code, four
   * empty windows whatever the code, and the middle bonus as its score.
   */
  function InitialField(code: int, stonesToWin: nat, bonus: real): (f: FieldState)
    requires stonesToWin >= 1
    ensures FieldFits(f, stonesToWin - 1)
  {
    var empty := EmptyRow(stonesToWin);
    FieldState(code, empty, empty, empty, empty, bonus, false, bonus)
  }

  /**
   * A fresh field scores its middle bonus until its first update, even when
   * its type code says a stone is already there: none of its windows is
   * blocked, and every window slot is free.
   */
  lemma {:induction false} InitialFieldIgnoresCode(code: int, stonesToWin: nat, bonus: real)
    requires stonesToWin >= 1
    ensures FieldScore(InitialField(code, stonesToWin, bonus)) == bonus
    ensures forall d, k :: 0 <= k < 2 * stonesToWin - 1 ==>
              !InitialField(code, stonesToWin, bonus).RowOf(d).isBlocked &&
              InitialField(code, stonesToWin, bonus).RowOf(d).stones[k] == FREE_FIELD
  {
  }

  /** The score every field of the grid reports. */
  function Scores(cells: seq<seq<FieldState>>): (s: seq<seq<real>>)
    ensures |s| == |cells|
    ensures forall i {:trigger s[i]} :: 0 <= i < |cells| ==> |s[i]| == |cells[i]|
    ensures forall i, j {:trigger s[i][j]} :: 0 <= i < |cells| && 0 <= j < |cells[i]| ==> s[i][j] == FieldScore(cells[i][j])
  {
    seq(|cells|, i requires 0 <= i < |cells| =>
      seq(|cells[i]|, j requires 0 <= j < |cells[i]| => FieldScore(cells[i][j])))
  }

  /** The grid after reading the score of every field before (i, j) in column-major order. */
  function ReadBefore(cells: seq<seq<FieldState>>, i: int, j: int): (out: seq<seq<FieldState>>)
    ensures |out| == |cells|
    ensures forall k {:trigger out[k]} :: 0 <= k < |cells| ==> |out[k]| == |cells[k]|
    ensures forall k, l {:trigger out[k][l]} :: 0 <= k < |cells| && 0 <= l < |cells[k]| ==>
              out[k][l] == if Before(k, l, i, j) then FieldRecalc(cells[k][l]) else cells[k][l]
  {
    seq(|cells|, k requires 0 <= k < |cells| =>
      seq(|cells[k]|, l requires 0 <= l < |cells[k]| =>
        if Before(k, l, i, j) then FieldRecalc(cells[k][l]) else cells[k][l]))
  }

  /** Before the first read the grid is as it was. */
  lemma {:induction false} NothingReadYet(cells: seq<seq<FieldState>>)
    ensures ReadBefore(cells, 0, 0) == cells
  {
    var read := ReadBefore(cells, 0, 0);
    forall k | 0 <= k < |cells|
      ensures read[k] == cells[k]
    {
    }
  }

  /** Reading the score of field (i, j) moves the read frontier one field on. */
  lemma {:induction false} ReadOneMore(cells: seq<seq<FieldState>>, i: int, j: int)
    requires 0 <= i < |cells| && 0 <= j < |cells[i]|
    ensures var read := ReadBefore(cells, i, j);
              read[i := read[i][j := FieldRecalc(read[i][j])]] == ReadBefore(cells, i, j + 1)
  {
    var read := ReadBefore(cells, i, j);
    var next := read[i := read[i][j := FieldRecalc(read[i][j])]];
    forall k | 0 <= k < |cells|
      ensures next[k] == ReadBefore(cells, i, j + 1)[k]
    {
    }
  }

  /** Reading field (i, j) again right after its first read changes nothing. */
  lemma {:induction false} ReadAgain(cells: seq<seq<FieldState>>, i: int, j: int)
    requires 0 <= i < |cells| && 0 <= j < |cells[i]|
    ensures var read := ReadBefore(cells, i, j + 1);
              read[i][j] == FieldRecalc(cells[i][j]) &&
              read[i := read[i][j := FieldRecalc(read[i][j])]] == read
  {
    var read := ReadBefore(cells, i, j + 1);
    ScoreReadIsStable(cells[i][j]);
    assert read[i][j := FieldRecalc(read[i][j])] == read[i];
  }

  /**
   * One iteration of the inner loop of examineBestPosition on field (i, j):
   * the first read sees the field's own score and moves the frontier on; a
   * second read sees the same score and changes nothing.
   */
  lemma {:induction false} ReadStep(cells: seq<seq<FieldState>>, i: int, j: int)
    requires 0 <= i < |cells| && 0 <= j < |cells[i]|
    ensures var read := ReadBefore(cells, i, j);
              FieldScore(read[i][j]) == Scores(cells)[i][j] &&
              read[i := read[i][j := FieldRecalc(read[i][j])]] == ReadBefore(cells, i, j + 1)
    ensures var next := ReadBefore(cells, i, j + 1);
              FieldScore(next[i][j]) == Scores(cells)[i][j] &&
              next[i := next[i][j := FieldRecalc(next[i][j])]] == next
  {
    ReadOneMore(cells, i, j);
    ReadAgain(cells, i, j);
    ScoreReadIsStable(cells[i][j]);
  }

  /** After the last field of column i, the frontier is at the top of column i + 1. */
  lemma {:induction false} ReadColumnDone(cells: seq<seq<FieldState>>, i: int, rows: nat)
    requires 0 <= i < |cells| && forall k :: 0 <= k < |cells| ==> |cells[k]| == rows
    ensures ReadBefore(cells, i, rows) == ReadBefore(cells, i + 1, 0)
  {
    forall k | 0 <= k < |cells|
      ensures ReadBefore(cells, i, rows)[k] == ReadBefore(cells, i + 1, 0)[k]
    {
    }
  }

  /** Reading scores changes no score. */
  lemma {:induction false} ReadingKeepsScores(cells: seq<seq<FieldState>>, i: int, j: int)
    ensures Scores(ReadBefore(cells, i, j)) == Scores(cells)
  {
    var read := ReadBefore(cells, i, j);
    forall k | 0 <= k < |cells|
      ensures Scores(read)[k] == Scores(cells)[k]
    {
      forall l | 0 <= l < |cells[k]|
        ensures Scores(read)[k][l] == Scores(cells)[k][l]
      {
        ScoreReadIsStable(cells[k][l]);
      }
    }
  }

  /** The running maximum of examineBestPosition: its score and the cell holding it. */
  datatype Best = Best(score: real, column: int, row: int)

  /** The inner loop over column `i` of the score grid, after its first `j` cells. */
  function ScanColumn(scores: seq<real>, i: int, j: nat, acc: Best): (b: Best)
    requires j <= |scores|
    ensures b.score >= acc.score
    ensures forall l :: 0 <= l < j ==> scores[l] <= b.score
  {
    if j == 0 then acc
    else
      var prev := ScanColumn(scores, i, j - 1, acc);
      if scores[j - 1] > prev.score then Best(scores[j - 1], i, j - 1) else prev
  }

  /** The outer loop over the first `i` columns of the score grid. */
  function ScanGrid(scores: seq<seq<real>>, i: nat, init: Best): (b: Best)
    requires i <= |scores|
    ensures b.score >= init.score
    ensures forall k, l :: 0 <= k < i && 0 <= l < |scores[k]| ==> scores[k][l] <= b.score
  {
    if i == 0 then init
    else ScanColumn(scores[i - 1], i - 1, |scores[i - 1]|, ScanGrid(scores, i - 1, init))
  }

  /**
   * The chosen cell holds the maximum, and every cell before it in
   * column-major order scores strictly less: the first maximum wins. When no
   * cell beats the starting score, the starting cell is kept.
   */
  lemma {:induction false} ScanColumnIsFirstMax(scores: seq<real>, i: int, j: nat, acc: Best)
    requires j <= |scores|
    ensures var b := ScanColumn(scores, i, j, acc);
              (b == acc && forall l :: 0 <= l < j ==> scores[l] <= acc.score) ||
              (b.column == i && 0 <= b.row < j && b.score == scores[b.row] && b.score > acc.score &&
               forall l :: 0 <= l < b.row ==> scores[l] < b.score)
  {
    if j > 0 {
      ScanColumnIsFirstMax(scores, i, j - 1, acc);
    }
  }

  lemma {:induction false} ScanGridIsFirstMax(scores: seq<seq<real>>, i: nat, init: Best)
    requires i <= |scores|
    ensures var b := ScanGrid(scores, i, init);
              (b == init && forall k, l :: 0 <= k < i && 0 <= l < |scores[k]| ==> scores[k][l] <= init.score) ||
              (0 <= b.column < i && 0 <= b.row < |scores[b.column]| && b.score == scores[b.column][b.row] &&
               b.score > init.score &&
               forall k, l :: 0 <= k < i && 0 <= l < |scores[k]| && Before(k, l, b.column, b.row) ==> scores[k][l] < b.score)
  {
    if i > 0 {
      var prev := ScanGrid(scores, i - 1, init);
      ScanGridIsFirstMax(scores, i - 1, init);
      ScanColumnIsFirstMax(scores[i - 1], i - 1, |scores[i - 1]|, prev);
    }
  }
}

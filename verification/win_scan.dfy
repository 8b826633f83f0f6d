/**
 * The occupancy view of Board's win detection: a grid is a sequence of lines,
 * a line a sequence of cells, `true` where a stone is set. The board scans
 * its own lines, a per-line rotation of them (getDiagonals), the transposed
 * grid and a rotation of the transposed grid.
 */
module WinScan {
  import opened Wrappers

  /** Raised by an array access out of range (ArrayIndexOutOfBoundsException). */
  datatype RuntimeError = ArrayIndexOutOfBounds

  type Grid = seq<seq<bool>>

  /** Every line has `width` cells. */
  predicate IsRect(g: Grid, width: nat) {
    forall i :: 0 <= i < |g| ==> |g[i]| == width
  }

  /**
   * The running variables of checkForWinningRow after a prefix of the line:
   * (max_stone_row_length, stone_row_length). A run is recorded into the
   * maximum only when an empty cell ends it.
   */
  function ScanState(s: seq<bool>): (nat, nat) {
    if s == [] then (0, 0)
    else
      var prev := ScanState(s[..|s| - 1]);
      if s[|s| - 1] then (prev.0, prev.1 + 1)
      else (if prev.1 > prev.0 then prev.1 else prev.0, 0)
  }

  /** The longest run the scan records for a whole line. */
  function RecordedRun(s: seq<bool>): nat {
    ScanState(s).0
  }

  /** checkForWinningRow(Stone[]). */
  predicate LineWins(s: seq<bool>, stonesToWin: int) {
    RecordedRun(s) >= stonesToWin
  }

  /** An unbroken run of `k` stones ends right before the empty cell `j`. */
  predicate RunClosedAt(s: seq<bool>, j: int, k: int) {
    0 <= j < |s| && k <= j && !s[j] && forall t :: j - k <= t < j ==> s[t]
  }

  /** checkForWinningRow(Stone[][]): some line of the grid wins. */
  predicate AnyLineWins(g: Grid, stonesToWin: int) {
    exists i :: 0 <= i < |g| && LineWins(g[i], stonesToWin)
  }

  /** The current run is the number of trailing stones. */
  lemma {:induction false} CurrentRunIsTrailing(s: seq<bool>, k: nat)
    ensures ScanState(s).1 >= k <==> (k <= |s| && forall t :: |s| - k <= t < |s| ==> s[t])
  {
    if s != [] && k > 0 {
      var p := s[..|s| - 1];
      if s[|s| - 1] {
        CurrentRunIsTrailing(p, k - 1);
        if k <= |s| {
          assert (forall t :: |p| - (k - 1) <= t < |p| ==> p[t]) <==>
                 (forall t :: |s| - k <= t < |s| - 1 ==> s[t]);
        }
      } else if k <= |s| {
        assert !s[|s| - 1];
      }
    }
  }

  /** The recorded maximum reaches k exactly when some run of k is closed by an empty cell. */
  lemma {:induction false} RecordedRunIsClosedRun(s: seq<bool>, k: nat)
    requires k > 0
    ensures RecordedRun(s) >= k <==> exists j :: 0 <= j < |s| && !s[j] && ScanState(s[..j]).1 >= k
  {
    if s != [] {
      var p := s[..|s| - 1];
      RecordedRunIsClosedRun(p, k);
      forall j | 0 <= j < |p| ensures s[..j] == p[..j] && s[j] == p[j] { }
      assert s[..|p|] == p;
    }
  }

  /**
   * checkForWinningRow(Stone[]) holds exactly when the win length is at most
   * zero or some run of that many stones is immediately followed by an empty
   * cell; a run that reaches the end of the line is never recorded.
   */
  lemma {:induction false} LineWinsIff(s: seq<bool>, k: int)
    ensures LineWins(s, k) <==> (k <= 0 || exists j :: RunClosedAt(s, j, k))
  {
    if k > 0 {
      RecordedRunIsClosedRun(s, k);
      if LineWins(s, k) {
        var j :| 0 <= j < |s| && !s[j] && ScanState(s[..j]).1 >= k;
        CurrentRunIsTrailing(s[..j], k);
        assert RunClosedAt(s, j, k);
      }
      if j :| RunClosedAt(s, j, k) {
        CurrentRunIsTrailing(s[..j], k);
        assert !s[j] && ScanState(s[..j]).1 >= k;
      }
    }
  }

  /** Stones appended to the end of a line never change what the scan records. */
  lemma {:induction false} TrailingStonesNotRecorded(s: seq<bool>, n: nat)
    ensures RecordedRun(s + seq(n, _ => true)) == RecordedRun(s)
  {
    if n > 0 {
      var t := s + seq(n, _ => true);
      assert t[..|t| - 1] == s + seq(n - 1, _ => true);
      assert t[|t| - 1];
      assert ScanState(t).0 == ScanState(t[..|t| - 1]).0;
      TrailingStonesNotRecorded(s, n - 1);
    } else {
      assert s + seq(n, _ => true) == s;
    }
  }

  /** The transposed grid: line j holds cell j of every line. */
  function Transpose(g: Grid, width: nat): (t: Grid)
    requires IsRect(g, width)
    ensures |t| == width && IsRect(t, |g|)
    ensures forall j, i :: 0 <= j < width && 0 <= i < |g| ==> t[j][i] == g[i][j]
  {
    seq(width, j requires 0 <= j < width => seq(|g|, i requires 0 <= i < |g| => g[i][j]))
  }

  /**
   * The value getDiagonals leaves in cell k of result line r after writing
   * input lines 0..n-1: input line c writes its cell r to result cell
   * (c + r) mod columns, and a later line overwrites an earlier one.
   */
  function LastWritten(g: Grid, width: nat, r: nat, k: nat, columns: nat, n: nat): bool
    requires n <= |g| && IsRect(g, width) && columns > 0
  {
    if n == 0 || r >= width then false
    else if (n - 1 + r) % columns == k then g[n - 1][r]
    else LastWritten(g, width, r, k, columns, n - 1)
  }

  /**
   * getDiagonals on a grid with |g| lines of `width` cells into a result of
   * `rows` lines of `columns` cells: out of range as soon as a cell index
   * reaches `rows`.
   */
  function Diagonals(g: Grid, width: nat, rows: nat, columns: nat): Result<Grid, RuntimeError>
    requires IsRect(g, width)
    requires |g| > 0 && width > 0 ==> columns > 0
  {
    if |g| > 0 && width > rows then Failure(ArrayIndexOutOfBounds)
    else Success(seq(rows, r requires 0 <= r < rows =>
                   seq(columns, k requires 0 <= k < columns => LastWritten(g, width, r, k, columns, |g|))))
  }

  /**
   * When at most `columns` lines are written, none overwrites another, so
   * input cell (c, r) lands at result cell (r, (c + r) mod columns).
   */
  lemma {:induction false} RotationWithoutCollision(g: Grid, width: nat, columns: nat, n: nat, c: nat, r: nat)
    requires IsRect(g, width) && columns > 0 && n <= |g| && n <= columns
    requires c < n && r < width
    ensures LastWritten(g, width, r, (c + r) % columns, columns, n) == g[c][r]
  {
    if c < n - 1 {
      var k := (c + r) % columns;
      ModuloDistinct(c, n - 1, r, columns);
      RotationWithoutCollision(g, width, columns, n - 1, c, r);
    }
  }

  lemma {:induction false} ModuloDistinct(c: nat, d: nat, r: nat, columns: nat)
    requires c < d < columns
    ensures (d + r) % columns != (c + r) % columns
  {
    var a, b := c + r, d + r;
    var qa, qb := a / columns, b / columns;
    assert a == qa * columns + a % columns;
    assert b == qb * columns + b % columns;
    if a % columns == b % columns {
      assert (qb - qa) * columns == b - a;
      if qb - qa >= 1 { MulAtLeast(qb - qa, columns); } else { MulAtMost(qb - qa, columns); }
    }
  }

  lemma {:induction false} MulAtLeast(x: int, m: int)
    requires x >= 1 && m > 0
    ensures x * m >= m
  {
    if x > 1 {
      MulAtLeast(x - 1, m);
      assert x * m == (x - 1) * m + m;
    }
  }

  lemma {:induction false} MulAtMost(x: int, m: int)
    requires x <= 0 && m > 0
    ensures x * m <= 0
    decreases -x
  {
    if x < 0 {
      MulAtMost(x + 1, m);
      assert x * m == (x + 1) * m - m;
    }
  }

  /**
   * doesPlayerWin on a board of `columns` lines of `rows` cells: the lines,
   * their rotation, the transposed grid, and the rotation of the transposed
   * grid, in that order; the last rotation indexes out of range on boards
   * with more columns than rows.
   */
  function PlayerWins(g: Grid, columns: nat, rows: nat, stonesToWin: int): Result<bool, RuntimeError>
    requires |g| == columns && IsRect(g, rows)
  {
    if AnyLineWins(g, stonesToWin) then Success(true)
    else
      var d := Diagonals(g, rows, rows, columns);
      if d.Success? && AnyLineWins(d.value, stonesToWin) then Success(true)
      else
        var t := Transpose(g, rows);
        if AnyLineWins(t, stonesToWin) then Success(true)
        else
          match Diagonals(t, columns, rows, columns)
          case Failure(e) => Failure(e)
          case Success(d2) => Success(AnyLineWins(d2, stonesToWin))
  }

  /** The first rotation never fails: its input cells stay below `rows`. */
  lemma {:induction false} FirstRotationSucceeds(g: Grid, columns: nat, rows: nat)
    requires |g| == columns && IsRect(g, rows)
    ensures Diagonals(g, rows, rows, columns).Success?
  {
  }

  /**
   * A run of at least stonesToWin stones along one column line, closed by an
   * empty cell, makes the player win, whatever the shape of the board.
   */
  lemma {:induction false} ClosedColumnRunWins(g: Grid, columns: nat, rows: nat, stonesToWin: int, c: nat, j: int)
    requires |g| == columns && IsRect(g, rows)
    requires c < columns && RunClosedAt(g[c], j, stonesToWin)
    ensures PlayerWins(g, columns, rows, stonesToWin) == Success(true)
  {
    LineWinsIff(g[c], stonesToWin);
  }

  /**
   * On a board with more columns than rows (and at least one row), a board
   * that does not win by the first three scans makes doesPlayerWin index out
   * of range in the second rotation, whatever its stones.
   */
  lemma {:induction false} WideBoardFails(g: Grid, columns: nat, rows: nat, stonesToWin: int)
    requires |g| == columns && IsRect(g, rows)
    requires 0 < rows < columns
    requires !AnyLineWins(g, stonesToWin)
    requires Diagonals(g, rows, rows, columns).Success? ==> !AnyLineWins(Diagonals(g, rows, rows, columns).value, stonesToWin)
    requires !AnyLineWins(Transpose(g, rows), stonesToWin)
    ensures PlayerWins(g, columns, rows, stonesToWin) == Failure(ArrayIndexOutOfBounds)
  {
    assert |Transpose(g, rows)| == rows;
  }

  /** In particular an empty board with more columns than rows makes doesPlayerWin fail. */
  lemma {:induction false} EmptyWideBoardFails(g: Grid, columns: nat, rows: nat, stonesToWin: int)
    requires |g| == columns && IsRect(g, rows)
    requires 0 < rows < columns && stonesToWin > 0
    requires forall c, r :: 0 <= c < columns && 0 <= r < rows ==> !g[c][r]
    ensures PlayerWins(g, columns, rows, stonesToWin) == Failure(ArrayIndexOutOfBounds)
  {
    forall s: seq<bool> | forall t :: 0 <= t < |s| ==> !s[t]
      ensures !LineWins(s, stonesToWin)
    {
      EmptyLineScan(s);
    }
    var d := Diagonals(g, rows, rows, columns).value;
    forall r, k | 0 <= r < rows && 0 <= k < columns
      ensures !LastWritten(g, rows, r, k, columns, columns)
    {
      EmptyNeverWritten(g, rows, r, k, columns, columns);
    }
    assert forall i :: 0 <= i < |d| ==> forall t :: 0 <= t < |d[i]| ==> !d[i][t];
    var t := Transpose(g, rows);
    assert forall i :: 0 <= i < |t| ==> forall u :: 0 <= u < |t[i]| ==> !t[i][u];
    WideBoardFails(g, columns, rows, stonesToWin);
  }

  /** A line without stones records no run. */
  lemma {:induction false} EmptyLineScan(s: seq<bool>)
    requires forall t :: 0 <= t < |s| ==> !s[t]
    ensures ScanState(s) == (0, 0)
  {
    if s != [] {
      EmptyLineScan(s[..|s| - 1]);
    }
  }

  lemma {:induction false} EmptyNeverWritten(g: Grid, width: nat, r: nat, k: nat, columns: nat, n: nat)
    requires n <= |g| && IsRect(g, width) && columns > 0
    requires forall c, q :: 0 <= c < |g| && 0 <= q < width ==> !g[c][q]
    ensures !LastWritten(g, width, r, k, columns, n)
  {
    if n > 0 && r < width && (n - 1 + r) % columns != k {
      EmptyNeverWritten(g, width, r, k, columns, n - 1);
    }
  }
}

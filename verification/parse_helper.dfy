/**
 * The text formats of positions: `NxM` (column, "x", row, both decimal) and a
 * comma-separated list of them, with spaces ignored in lists.
 */
module ParseHelper {
  import opened Wrappers
  import opened Text
  import opened Stones

  /** Why a NumberFormatException was thrown. */
  datatype NumberFormatError =
    | WrongFormat   // the string does not match the expected pattern
    | OutOfRange    // Integer.parseInt: a number does not fit a Java int

  /** The regular expression `\d+x\d+`, matched against the whole string. */
  predicate PairFormat(s: string) {
    var k := IndexOf(s, 'x');
    k < |s| && IsDigits(s[..k]) && IsDigits(s[k + 1..])
  }

  /** Any two digit strings joined by "x" have the pair format, split at that "x". */
  lemma {:induction false} PairFormatOf(a: string, b: string)
    requires IsDigits(a) && IsDigits(b)
    ensures var s := a + "x" + b;
              IndexOf(s, 'x') == |a| && s[..|a|] == a && s[|a| + 1..] == b && PairFormat(s)
  {
    var s := a + "x" + b;
    DigitsHaveNo(a, 'x');
    IndexOfAfterPrefix(a, 'x', b);
    assert s[..|a|] == a;
    assert s[|a| + 1..] == b;
  }

  /** A digit string holds no "x" and no ",". */
  lemma {:induction false} DigitsHaveNo(s: string, c: char)
    requires IsDigits(s) && !IsDigit(c)
    ensures c !in s
  {
    forall i | 0 <= i < |s| ensures s[i] != c {
      assert IsDigit(s[i]);
    }
  }

  /** Splitting a pair-format string on "x" gives the two digit strings. */
  lemma {:induction false} SplitPair(s: string)
    requires PairFormat(s)
    ensures var k := IndexOf(s, 'x'); Split(s, 'x') == [s[..k], s[k + 1..]]
  {
    var k := IndexOf(s, 'x');
    DigitsHaveNo(s[k + 1..], 'x');
    IndexOfAbsent(s[k + 1..], 'x');
  }

  /** parseStringAsIntegerValuePair; what it computes is stated by PairParseMeaning. */
  function ParseStringAsIntegerValuePair(s: string): Result<(Int32, Int32), NumberFormatError> {
    if PairFormat(s) then
      SplitPair(s);
      var arr := Split(s, 'x');
      match (ParseInt(arr[0]), ParseInt(arr[1]))
      case (Some(column), Some(row)) => Success((column, row))
      case _ => Failure(OutOfRange)
    else
      Failure(WrongFormat)
  }

  /**
   * parseStringAsIntegerValuePair returns the two decimal numbers of an `NxM`
   * string, in order; WrongFormat for any other string; OutOfRange when one
   * of the numbers does not fit an int.
   */
  lemma {:induction false} PairParseMeaning(s: string)
    ensures var r := ParseStringAsIntegerValuePair(s);
      && (!PairFormat(s) <==> r == Failure(WrongFormat))
      && (r.Failure? ==> PairFormat(s) == (r.error == OutOfRange))
      && (PairFormat(s) ==>
            var k := IndexOf(s, 'x');
            && (r.Success? <==> DecimalValue(s[..k]) <= MAX_INT && DecimalValue(s[k + 1..]) <= MAX_INT)
            && (r.Success? ==> r.value == (DecimalValue(s[..k]), DecimalValue(s[k + 1..]))))
  {
    if PairFormat(s) {
      SplitPair(s);
    }
  }

  /** parseStringAsPosition: a new Position holding the two numbers. */
  method ParseStringAsPosition(s: string) returns (r: Result<Position, NumberFormatError>)
    ensures r.Success? <==> ParseStringAsIntegerValuePair(s).Success?
    ensures r.Success? ==> (fresh(r.value) &&
              (r.value.COLUMN, r.value.ROW) == ParseStringAsIntegerValuePair(s).value)
    ensures r.Failure? ==> r.error == ParseStringAsIntegerValuePair(s).error
  {
    var pair := ParseStringAsIntegerValuePair(s);
    match pair
    case Failure(e) =>
      return Failure(e);
    case Success(arr) =>
      var position := new Position(arr.0, arr.1);
      return Success(position);
  }

  /** Position.toString of a position with non-negative coordinates parses back to them. */
  lemma {:induction false} PositionRoundTrip(column: Int32, row: Int32)
    requires column >= 0 && row >= 0
    ensures ParseStringAsIntegerValuePair(IntToString(column) + "x" + IntToString(row)) == Success((column, row))
  {
    var a, b := NatToString(column), NatToString(row);
    PairFormatOf(a, b);
    PairParseMeaning(a + "x" + b);
    DecimalRoundTrip(column);
    DecimalRoundTrip(row);
  }

  /** The same round trip, stated on a Position object. */
  lemma {:induction false} PositionToStringRoundTrip(p: Position)
    requires p.COLUMN >= 0 && p.ROW >= 0
    ensures ParseStringAsIntegerValuePair(p.ToString()) == Success((p.COLUMN, p.ROW))
  {
    PositionRoundTrip(p.COLUMN, p.ROW);
  }

  /** A position with a negative coordinate prints with a minus sign, which does not parse. */
  lemma {:induction false} NegativePositionRejected(column: Int32, row: Int32)
    requires column < 0 || row < 0
    ensures ParseStringAsIntegerValuePair(IntToString(column) + "x" + IntToString(row)) == Failure(WrongFormat)
  {
    var a, b := IntToString(column), IntToString(row);
    var s := a + "x" + b;
    IntStringShape(column);
    IntStringShape(row);
    IndexOfAfterPrefix(a, 'x', b);
    assert s[..|a|] == a;
    assert s[|a| + 1..] == b;
    if column < 0 {
      assert !IsDigit(s[..|a|][0]);
    } else {
      assert !IsDigit(s[|a| + 1..][0]);
    }
  }

  /** The rendering of an int is non-empty, holds no "x", and starts with "-" exactly for negatives. */
  lemma {:induction false} IntStringShape(n: int)
    ensures |IntToString(n)| > 0 && 'x' !in IntToString(n)
    ensures n < 0 ==> IntToString(n)[0] == '-'
  {
    if n < 0 {
      DigitsHaveNo(NatToString(-n), 'x');
    } else {
      DigitsHaveNo(NatToString(n), 'x');
    }
  }

  /** Parses every piece in order; OutOfRange when any of them overflows. */
  function ParsePairs(pieces: seq<string>): (r: Result<seq<(Int32, Int32)>, NumberFormatError>)
    requires forall i :: 0 <= i < |pieces| ==> PairFormat(pieces[i])
    ensures r.Success? <==> forall i :: 0 <= i < |pieces| ==> ParseStringAsIntegerValuePair(pieces[i]).Success?
    ensures r.Success? ==> (|r.value| == |pieces| &&
              forall i :: 0 <= i < |pieces| ==> ParseStringAsIntegerValuePair(pieces[i]) == Success(r.value[i]))
    ensures r.Failure? ==> r.error == OutOfRange
  {
    if pieces == [] then Success([])
    else
      var prev := ParsePairs(pieces[..|pieces| - 1]);
      var last := ParseStringAsIntegerValuePair(pieces[|pieces| - 1]);
      if prev.Failure? then prev
      else if last.Failure? then Failure(last.error)
      else Success(prev.value + [last.value])
  }

  /** The regular expression `(\d+x\d+,)*\d+x\d+`: every comma-separated piece has the pair format. */
  predicate ListFormat(s: string) {
    var pieces := Split(s, ',');
    forall i :: 0 <= i < |pieces| ==> PairFormat(pieces[i])
  }

  /**
   * The list format is the regular expression's language: every string
   * joined by commas from well-formed pairs has it, and a string that has
   * it is the comma-join of its pieces.
   */
  lemma {:induction false} ListFormatOfJoin(pieces: seq<string>)
    requires |pieces| > 0 && forall i :: 0 <= i < |pieces| ==> PairFormat(pieces[i])
    ensures ListFormat(Join(pieces, ',')) && Split(Join(pieces, ','), ',') == pieces
  {
    forall i | 0 <= i < |pieces| ensures ',' !in pieces[i] {
      var k := IndexOf(pieces[i], 'x');
      DigitsHaveNo(pieces[i][..k], ',');
      DigitsHaveNo(pieces[i][k + 1..], ',');
      assert pieces[i] == pieces[i][..k] + "x" + pieces[i][k + 1..];
    }
    SplitJoin(pieces, ',');
  }

  lemma {:induction false} ListFormatIsJoin(s: string)
    requires ListFormat(s)
    ensures var pieces := Split(s, ',');
              |pieces| > 0 && s == Join(pieces, ',') && forall i :: 0 <= i < |pieces| ==> PairFormat(pieces[i])
  {
    JoinSplit(s, ',');
  }

  /**
   * parseStringAsPositionArray as values: no positions for a missing or
   * empty string; otherwise spaces are removed and the list is parsed.
   */
  function ParsePositionList(str: Option<string>): (r: Result<seq<(Int32, Int32)>, NumberFormatError>)
    ensures str.None? || str.value == "" ==> r == Success([])
    ensures str.Some? && str.value != "" && !ListFormat(RemoveSpaces(str.value)) ==> r == Failure(WrongFormat)
    ensures str.Some? && str.value != "" && r.Success? ==> |r.value| == |Split(RemoveSpaces(str.value), ',')|
  {
    if str.None? || str.value == "" then Success([])
    else
      var s := RemoveSpaces(str.value);
      if !ListFormat(s) then Failure(WrongFormat)
      else ParsePairs(Split(s, ','))
  }

  /**
   * parseStringAsPositionArray: one new Position per comma-separated item,
   * in input order, or the exception the format check or a number raised.
   */
  method ParseStringAsPositionArray(str: Option<string>) returns (r: Result<array<Position?>, NumberFormatError>)
    ensures r.Success? <==> ParsePositionList(str).Success?
    ensures r.Failure? ==> r.error == ParsePositionList(str).error
    ensures r.Success? ==> (fresh(r.value) && r.value.Length == |ParsePositionList(str).value| &&
              forall i :: 0 <= i < r.value.Length ==>
                r.value[i] != null && fresh(r.value[i]) &&
                (r.value[i].COLUMN, r.value[i].ROW) == ParsePositionList(str).value[i])
  {
    if str.Some? && str.value != "" {
      var s := RemoveSpaces(str.value);
      var pieces := Split(s, ',');
      if !(forall i :: 0 <= i < |pieces| ==> PairFormat(pieces[i])) {
        return Failure(WrongFormat);
      }
      r := ParsePieces(pieces);
      return;
    }
    var empty := new Position?[0];
    return Success(empty);
  }

  /** The loop of parseStringAsPositionArray over the pieces of a well-formed list. */
  method ParsePieces(pieces: seq<string>) returns (r: Result<array<Position?>, NumberFormatError>)
    requires forall i :: 0 <= i < |pieces| ==> PairFormat(pieces[i])
    ensures r.Success? <==> ParsePairs(pieces).Success?
    ensures r.Failure? ==> r.error == OutOfRange
    ensures r.Success? ==> (fresh(r.value) && r.value.Length == |pieces| &&
              forall i :: 0 <= i < r.value.Length ==>
                r.value[i] != null && fresh(r.value[i]) &&
                (r.value[i].COLUMN, r.value[i].ROW) == ParsePairs(pieces).value[i])
  {
    var arr := new Position?[|pieces|](_ => null);
    var i := 0;
    while i < |pieces|
      invariant 0 <= i <= |pieces|
      invariant forall k :: 0 <= k < i ==> ParseStringAsIntegerValuePair(pieces[k]).Success?
      invariant forall k :: 0 <= k < i ==>
                  arr[k] != null && fresh(arr[k]) && (arr[k].COLUMN, arr[k].ROW) == ParseStringAsIntegerValuePair(pieces[k]).value
    {
      var position := ParseStringAsPosition(pieces[i]);
      if position.Failure? {
        assert !ParseStringAsIntegerValuePair(pieces[i]).Success?;
        return Failure(position.error);
      }
      arr[i] := position.value;
      i := i + 1;
    }
    ghost var spec := ParsePairs(pieces);
    assert spec.Success?;
    assert forall k :: 0 <= k < |pieces| ==> spec.value[k] == ParseStringAsIntegerValuePair(pieces[k]).value;
    return Success(arr);
  }

  /** Only space characters are removed: a non-empty string of spaces is a format error, not an empty list. */
  lemma {:induction false} AllSpacesRejected(s: string)
    requires |s| > 0 && forall i :: 0 <= i < |s| ==> s[i] == ' '
    ensures ParsePositionList(Some(s)) == Failure(WrongFormat)
  {
    SpacesRemoveToEmpty(s);
    assert Split("", ',') == [""];
  }

  /** A space anywhere in a non-empty list changes nothing: `3x4, 5x6` reads as `3x4,5x6`. */
  lemma {:induction false} SpaceInsertionIgnored(a: string, b: string)
    requires a + b != ""
    ensures ParsePositionList(Some(a + " " + b)) == ParsePositionList(Some(a + b))
  {
    RemoveSpacesAppend(a + " ", b);
    RemoveSpacesAppend(a, " ");
    RemoveSpacesChar(' ');
    RemoveSpacesAppend(a, b);
    assert RemoveSpaces(a + " " + b) == RemoveSpaces(a + b);
  }

  lemma {:induction false} SpacesRemoveToEmpty(s: string)
    requires forall i :: 0 <= i < |s| ==> s[i] == ' '
    ensures RemoveSpaces(s) == ""
  {
    if s != [] {
      SpacesRemoveToEmpty(s[1..]);
    }
  }

  lemma {:induction false} RemoveSpacesKeepsSpaceless(s: string)
    requires ' ' !in s
    ensures RemoveSpaces(s) == s
  {
    if s != [] {
      assert s[0] != ' ';
      assert ' ' !in s[1..];
      RemoveSpacesKeepsSpaceless(s[1..]);
      assert s == [s[0]] + s[1..];
    }
  }

  lemma {:induction false} JoinAvoids(pieces: seq<string>, c: char, d: char)
    requires |pieces| > 0 && c != d
    requires forall i :: 0 <= i < |pieces| ==> d !in pieces[i]
    ensures d !in Join(pieces, c)
    ensures |Join(pieces, c)| >= |pieces[0]|
  {
    if |pieces| > 1 {
      JoinAvoids(pieces[1..], c, d);
    }
  }

  /** Position.toString of a coordinate pair. */
  function Render(pair: (Int32, Int32)): string {
    IntToString(pair.0) + "x" + IntToString(pair.1)
  }

  /** A rendered non-negative position is a well-formed piece that parses back to itself. */
  lemma {:induction false} RenderedPiece(pair: (Int32, Int32))
    requires pair.0 >= 0 && pair.1 >= 0
    ensures PairFormat(Render(pair)) && ',' !in Render(pair) && ' ' !in Render(pair)
    ensures ParseStringAsIntegerValuePair(Render(pair)) == Success(pair)
  {
    var a, b := NatToString(pair.0), NatToString(pair.1);
    PairFormatOf(a, b);
    PositionRoundTrip(pair.0, pair.1);
    DigitsHaveNo(a, ',');
    DigitsHaveNo(b, ',');
    DigitsHaveNo(a, ' ');
    DigitsHaveNo(b, ' ');
  }

  /**
   * A list of non-negative positions printed with toString and joined by
   * commas parses back to the same positions, in order.
   */
  lemma {:induction false} ListRoundTrip(pairs: seq<(Int32, Int32)>)
    requires |pairs| > 0
    requires forall i :: 0 <= i < |pairs| ==> pairs[i].0 >= 0 && pairs[i].1 >= 0
    ensures ParsePositionList(Some(Join(seq(|pairs|, i requires 0 <= i < |pairs| => Render(pairs[i])), ','))) == Success(pairs)
  {
    var pieces := seq(|pairs|, i requires 0 <= i < |pairs| => Render(pairs[i]));
    forall i | 0 <= i < |pieces|
      ensures PairFormat(pieces[i]) && ',' !in pieces[i] && ' ' !in pieces[i]
      ensures ParseStringAsIntegerValuePair(pieces[i]) == Success(pairs[i])
    {
      RenderedPiece(pairs[i]);
    }
    var s := Join(pieces, ',');
    JoinAvoids(pieces, ',', ' ');
    RemoveSpacesKeepsSpaceless(s);
    SplitJoin(pieces, ',');
    var r := ParsePairs(pieces);
    assert r.value == pairs;
  }
}

/**
 * The cell helpers of the report base class (a_model/reports/base.py): building range
 * strings such as "A5:C5", the cells such a range covers, turning a cell into a number or a
 * month-end date, and month arithmetic relative to "now".
 *
 * The calendar helpers of the repository's utils module (end_of_month, the bookkeeping
 * export's date parser) and Python's float() and strptime() are not part of this model:
 * they are passed in as functions. "Now" is passed in as a day number.
 */
module ReportCells {
  import opened Wrappers
  import opened Worksheet
  import opened Decimal
  import opened Columns

  // ---------------------------------------------------------------------------------------
  // Range strings

  /** `_row_cell_range`: '%(min_col)s%(row)d:%(max_col)s%(row)d' */
  function RowCellRange(row: int, minCol: string, maxCol: string): string {
    minCol + IntToString(row) + ":" + maxCol + IntToString(row)
  }

  /** `_col_cell_range`: '%(col)s%(min_row)d:%(col)s%(max_row)d' */
  function ColCellRange(col: string, minRow: int, maxRow: int): string {
    col + IntToString(minRow) + ":" + col + IntToString(maxRow)
  }

  /** The corners of a rectangular range, as column and row numbers. */
  datatype Bounds = Bounds(minCol: int, minRow: int, maxCol: int, maxRow: int)

  /** The length of the longest prefix of s made of capital letters. */
  function LetterPrefix(s: string): (n: nat)
    ensures n <= |s| && IsLetters(s[..n]) && (n < |s| ==> !IsLetter(s[n]))
  {
    if s == [] || !IsLetter(s[0]) then 0
    else
      var n := 1 + LetterPrefix(s[1..]);
      assert s[..n] == [s[0]] + s[1..][..n - 1];
      n
  }

  /** The position of the first c in s, or |s| when there is none. */
  function Find(s: string, c: char): (i: nat)
    ensures i <= |s| && (i < |s| ==> s[i] == c)
    ensures forall j :: 0 <= j < i ==> s[j] != c
  {
    if s == [] then 0 else if s[0] == c then 0 else 1 + Find(s[1..], c)
  }

  /** A cell reference such as "C5": a column name, then a row numeral; (column, row). */
  function ParseCellRef(s: string): Result<(int, int)> {
    var n := LetterPrefix(s);
    if n == 0 || n == |s| || !IsDigits(s[n..]) then Err(ValueError)
    else Ok((ColumnIndex(s[..n]), StringToNat(s[n..])))
  }

  /** The corners of a range "A5:C7", read the way the spreadsheet library reads them. */
  function RangeBoundaries(range: string): Result<Bounds> {
    var i := Find(range, ':');
    if i == |range| then Err(ValueError)
    else
      match (ParseCellRef(range[..i]), ParseCellRef(range[i + 1..]))
      case (Ok(a), Ok(b)) => Ok(Bounds(a.0, a.1, b.0, b.1))
      case _ => Err(ValueError)
  }

  /** The cells (row, column) of one row between two columns, left to right. */
  function RowCells(row: int, minCol: int, maxCol: int): seq<(int, int)> {
    seq(if minCol <= maxCol then maxCol - minCol + 1 else 0, i => (row, minCol + i))
  }

  /** The cells of a rectangle, row by row, as the worksheet's row iterator yields them. */
  function RectCells(b: Bounds): seq<(int, int)>
    decreases b.maxRow - b.minRow
  {
    if b.minRow > b.maxRow then []
    else RowCells(b.minRow, b.minCol, b.maxCol) + RectCells(b.(minRow := b.minRow + 1))
  }

  /** `iter_cells_in_range`: the cells the iteration visits, in order. */
  function IterCellsInRange(range: string): Result<seq<(int, int)>> {
    match RangeBoundaries(range)
    case Ok(b) => Ok(RectCells(b))
    case Err(e) => Err(e)
  }

  /** `iter_cells_in_row` */
  function IterCellsInRow(row: int, minCol: string, maxCol: string): Result<seq<(int, int)>> {
    IterCellsInRange(RowCellRange(row, minCol, maxCol))
  }

  /** `iter_cells_in_column` */
  function IterCellsInColumn(col: string, minRow: int, maxRow: int): Result<seq<(int, int)>> {
    IterCellsInRange(ColCellRange(col, minRow, maxRow))
  }

  /** A column name followed by a numeral reads back as that column and row. */
  lemma CellRefRoundTrip(col: string, row: nat)
    requires IsColumnName(col)
    ensures ParseCellRef(col + NatToString(row)) == Ok((ColumnIndex(col), row))
  {
    var d := NatToString(row);
    var s := col + d;
    assert s[|col|] == d[0];
    assert LetterPrefix(s) == |col| by {
      assert forall i :: 0 <= i < |col| ==> s[i] == col[i];
    }
    assert s[..|col|] == col && s[|col|..] == d;
    StringToNatOfNatToString(row);
  }

  /** A range written from two column names and two row numerals reads back as its corners. */
  lemma RangeRoundTrip(minCol: string, minRow: nat, maxCol: string, maxRow: nat)
    requires IsColumnName(minCol) && IsColumnName(maxCol)
    ensures RangeBoundaries(minCol + NatToString(minRow) + ":" + maxCol + NatToString(maxRow)) ==
            Ok(Bounds(ColumnIndex(minCol), minRow, ColumnIndex(maxCol), maxRow))
  {
    var first, second := minCol + NatToString(minRow), maxCol + NatToString(maxRow);
    var s := minCol + NatToString(minRow) + ":" + maxCol + NatToString(maxRow);
    assert s == first + ":" + second;
    var d := NatToString(minRow);
    assert s[|first|] == ':';
    assert forall j :: 0 <= j < |minCol| ==> s[j] == minCol[j];
    assert forall j :: |minCol| <= j < |first| ==> s[j] == d[j - |minCol|];
    assert Find(s, ':') == |first|;
    assert s[..|first|] == first && s[|first| + 1..] == second;
    CellRefRoundTrip(minCol, minRow);
    CellRefRoundTrip(maxCol, maxRow);
  }

  /** `_row_cell_range` names exactly the given row between the two given columns. */
  lemma RowCellRangeBoundaries(row: int, minCol: string, maxCol: string)
    requires row >= 0 && IsColumnName(minCol) && IsColumnName(maxCol)
    ensures RangeBoundaries(RowCellRange(row, minCol, maxCol)) ==
            Ok(Bounds(ColumnIndex(minCol), row, ColumnIndex(maxCol), row))
  {
    RangeRoundTrip(minCol, row, maxCol, row);
  }

  /** `_col_cell_range` names exactly the given column between the two given rows. */
  lemma ColCellRangeBoundaries(col: string, minRow: int, maxRow: int)
    requires minRow >= 0 && maxRow >= 0 && IsColumnName(col)
    ensures RangeBoundaries(ColCellRange(col, minRow, maxRow)) ==
            Ok(Bounds(ColumnIndex(col), minRow, ColumnIndex(col), maxRow))
  {
    RangeRoundTrip(col, minRow, col, maxRow);
  }

  /** One column of a rectangle is its cells from top to bottom. */
  lemma {:induction false} SingleColumnCells(col: int, minRow: int, maxRow: int)
    ensures RectCells(Bounds(col, minRow, col, maxRow)) ==
            seq(if minRow <= maxRow then maxRow - minRow + 1 else 0, i => (minRow + i, col))
    decreases maxRow - minRow
  {
    if minRow <= maxRow {
      SingleColumnCells(col, minRow + 1, maxRow);
      var rest := RectCells(Bounds(col, minRow + 1, col, maxRow));
      assert RectCells(Bounds(col, minRow, col, maxRow)) == [(minRow, col)] + rest;
    }
  }

  /** One row of a rectangle is its cells from left to right. */
  lemma SingleRowCells(row: int, minCol: int, maxCol: int)
    ensures RectCells(Bounds(minCol, row, maxCol, row)) == RowCells(row, minCol, maxCol)
  {
    var b := Bounds(minCol, row, maxCol, row);
    assert RectCells(b.(minRow := row + 1)) == [];
    assert RectCells(b) == RowCells(row, minCol, maxCol) + [];
  }

  /** `iter_cells_in_row` visits the cells of that row from the first column to the last. */
  lemma IterCellsInRowVisits(row: int, minCol: string, maxCol: string)
    requires row >= 0 && IsColumnName(minCol) && IsColumnName(maxCol)
    ensures IterCellsInRow(row, minCol, maxCol) == Ok(RowCells(row, ColumnIndex(minCol), ColumnIndex(maxCol)))
  {
    RowCellRangeBoundaries(row, minCol, maxCol);
    SingleRowCells(row, ColumnIndex(minCol), ColumnIndex(maxCol));
  }

  /** `iter_cells_in_column` visits the cells of that column from the first row to the last. */
  lemma IterCellsInColumnVisits(col: string, minRow: int, maxRow: int)
    requires minRow >= 0 && maxRow >= 0 && IsColumnName(col)
    ensures IterCellsInColumn(col, minRow, maxRow) ==
            Ok(seq(if minRow <= maxRow then maxRow - minRow + 1 else 0, i => (minRow + i, ColumnIndex(col))))
  {
    ColCellRangeBoundaries(col, minRow, maxRow);
    SingleColumnCells(ColumnIndex(col), minRow, maxRow);
  }

  // ---------------------------------------------------------------------------------------
  // Numbers in cells

  /** The number of leading characters c of s. */
  function LeadingCount(s: string, c: char): (n: nat)
    ensures n <= |s| && (forall i :: 0 <= i < n ==> s[i] == c) && (n < |s| ==> s[n] != c)
  {
    if s == [] || s[0] != c then 0 else 1 + LeadingCount(s[1..], c)
  }

  /** The number of trailing characters c of s. */
  function TrailingCount(s: string, c: char): (n: nat)
    ensures n <= |s| && (forall i :: |s| - n <= i < |s| ==> s[i] == c) && (n < |s| ==> s[|s| - 1 - n] != c)
  {
    if s == [] || s[|s| - 1] != c then 0 else 1 + TrailingCount(s[..|s| - 1], c)
  }

  /** Python's str.strip(c): drop every leading and every trailing c. */
  function Strip(s: string, c: char): string {
    var rest := s[LeadingCount(s, c)..];
    rest[..|rest| - TrailingCount(rest, c)]
  }

  function Repeat(c: char, n: nat): (s: string)
    ensures |s| == n && forall i :: 0 <= i < n ==> s[i] == c
  {
    seq(n, _ => c)
  }

  /**
   * Strip keeps a contiguous middle part of s: everything before and after it is c, and
   * it neither starts nor ends with c.
   */
  lemma StripKeepsMiddle(s: string, c: char)
    ensures var lead, r := LeadingCount(s, c), Strip(s, c);
            && lead + |r| <= |s|
            && r == s[lead..lead + |r|]
            && (forall i :: 0 <= i < lead ==> s[i] == c)
            && (forall i :: lead + |r| <= i < |s| ==> s[i] == c)
            && (|r| > 0 ==> r[0] != c && r[|r| - 1] != c)
  {
    var lead := LeadingCount(s, c);
    var rest := s[lead..];
    var t := TrailingCount(rest, c);
    var r := rest[..|rest| - t];
    assert Strip(s, c) == r;
    assert r == s[lead..lead + |r|];
    forall i | lead + |r| <= i < |s|
      ensures s[i] == c
    {
      assert s[i] == rest[i - lead];
    }
    if |r| > 0 {
      assert r[0] == rest[0] && r[|r| - 1] == rest[|rest| - 1 - t];
    }
  }

  /** Padding a core that neither starts nor ends with c by any number of c's strips back to it. */
  lemma StripPadding(pre: nat, core: string, post: nat, c: char)
    requires core == [] || (core[0] != c && core[|core| - 1] != c)
    ensures Strip(Repeat(c, pre) + core + Repeat(c, post), c) == core
  {
    var s := Repeat(c, pre) + core + Repeat(c, post);
    if core == [] {
      assert LeadingCount(s, c) == |s|;
    } else {
      assert s[pre] == core[0];
      assert LeadingCount(s, c) == pre;
      var rest := s[pre..];
      assert rest == core + Repeat(c, post);
      assert rest[|core| - 1] == core[|core| - 1];
      assert TrailingCount(rest, c) == post;
      assert rest[..|core|] == core;
    }
  }

  /**
   * `get_float_from_cell`: an empty cell is 0, a number is itself, a string is parsed by
   * float() once its leading and trailing '=' are stripped; any other value has no strip().
   */
  function GetFloatFromCell(cell: CellValue, parseFloat: string -> Option<real>): Result<real> {
    match cell
    case Empty => Ok(0.0)
    case Number(x) => Ok(x)
    case Text(s) =>
      (match parseFloat(Strip(s, '='))
       case Some(v) => Ok(v)
       case None => Err(ValueError))
    case Date(_) => Err(AttributeError)
  }

  /** The three ways a cell becomes a number, and the one way it fails without a string. */
  lemma GetFloatFromCellCases(cell: CellValue, parseFloat: string -> Option<real>)
    ensures cell == Empty ==> GetFloatFromCell(cell, parseFloat) == Ok(0.0)
    ensures cell.Number? ==> GetFloatFromCell(cell, parseFloat) == Ok(cell.n)
    ensures cell.Date? ==> GetFloatFromCell(cell, parseFloat) == Err(AttributeError)
    ensures cell.Text? ==>
              GetFloatFromCell(cell, parseFloat) ==
              (if parseFloat(Strip(cell.s, '=')).Some? then Ok(parseFloat(Strip(cell.s, '=')).value) else Err(ValueError))
  {
  }

  /**
   * A formula-looking string such as "==12.5=" is parsed as its core "12.5": only the '='
   * characters at either end are removed, the interior is passed to float() untouched.
   */
  lemma GetFloatFromCellStripsEquals(pre: nat, core: string, post: nat, parseFloat: string -> Option<real>)
    requires core == [] || (core[0] != '=' && core[|core| - 1] != '=')
    ensures GetFloatFromCell(Text(Repeat('=', pre) + core + Repeat('=', post)), parseFloat) ==
            (if parseFloat(core).Some? then Ok(parseFloat(core).value) else Err(ValueError))
  {
    StripPadding(pre, core, post, '=');
  }

  // ---------------------------------------------------------------------------------------
  // Dates

  /** `get_months_from_now`: floor of the day difference over 30, as a float division. */
  function MonthsFromNow(now: Day, date: Day): int {
    ((date - now) as real / 30.0).Floor
  }

  /** The month count is the floored division of the day difference by 30. */
  lemma MonthsFromNowBounds(now: Day, date: Day)
    ensures 30 * MonthsFromNow(now, date) <= date - now < 30 * MonthsFromNow(now, date) + 30
    ensures MonthsFromNow(now, date) == (date - now) / 30
  {
    var x := (date - now) as real / 30.0;
    var m := x.Floor;
    assert m as real <= x < m as real + 1.0;
    assert (30 * m) as real <= (date - now) as real < (30 * m + 30) as real;
  }

  /** Zero for now itself, negative exactly before now, and never decreasing as the date moves on. */
  lemma MonthsFromNowOrder(now: Day, date: Day, later: Day)
    requires date <= later
    ensures MonthsFromNow(now, now) == 0
    ensures MonthsFromNow(now, date) < 0 <==> date < now
    ensures MonthsFromNow(now, date) <= MonthsFromNow(now, later)
  {
    MonthsFromNowBounds(now, now);
    MonthsFromNowBounds(now, date);
    MonthsFromNowBounds(now, later);
  }

  /** The date reached by n steps of "the day after, then the end of its month". */
  function AdvanceMonths(t: Day, n: nat, endOfMonth: Day -> Day): Day {
    if n == 0 then t else endOfMonth(AdvanceMonths(t, n - 1, endOfMonth) + 1)
  }

  /** `get_date_in_n_months`: range(n_months) is empty for a count at or below zero. */
  method GetDateInNMonths(now: Day, nMonths: int, endOfMonth: Day -> Day) returns (t: Day)
    ensures t == AdvanceMonths(now, if nMonths < 0 then 0 else nMonths, endOfMonth)
    ensures nMonths <= 0 ==> t == now
  {
    t := now;
    var month := 0;
    while month < nMonths
      invariant 0 <= month <= (if nMonths < 0 then 0 else nMonths)
      invariant t == AdvanceMonths(now, month, endOfMonth)
    {
      t := t + 1;
      t := endOfMonth(t);
      month := month + 1;
    }
  }

  /** Advancing a months and then b months is advancing a + b months. */
  lemma {:induction false} AdvanceMonthsAdditive(t: Day, a: nat, b: nat, endOfMonth: Day -> Day)
    ensures AdvanceMonths(AdvanceMonths(t, a, endOfMonth), b, endOfMonth) == AdvanceMonths(t, a + b, endOfMonth)
    decreases b
  {
    if b > 0 {
      AdvanceMonthsAdditive(t, a, b - 1, endOfMonth);
    }
  }

  /** When end_of_month is idempotent, every step lands on a month end. */
  lemma AdvanceMonthsEndsMonth(t: Day, n: nat, endOfMonth: Day -> Day)
    requires forall d :: endOfMonth(endOfMonth(d)) == endOfMonth(d)
    requires n >= 1
    ensures endOfMonth(AdvanceMonths(t, n, endOfMonth)) == AdvanceMonths(t, n, endOfMonth)
  {
  }

  /** When end_of_month never moves a date back, each step moves at least one day forward. */
  lemma {:induction false} AdvanceMonthsIncreases(t: Day, n: nat, endOfMonth: Day -> Day)
    requires forall d :: endOfMonth(d) >= d
    ensures AdvanceMonths(t, n, endOfMonth) >= t + n
    ensures n > 0 ==> AdvanceMonths(t, n, endOfMonth) > AdvanceMonths(t, n - 1, endOfMonth)
    decreases n
  {
    if n > 0 {
      AdvanceMonthsIncreases(t, n - 1, endOfMonth);
    }
  }

  /**
   * The date a cell stands for: a datetime as it is; a string first as "%b %Y", and when
   * that raises ValueError with the export's own date parser; any other value makes strptime
   * raise TypeError, which is not caught.
   */
  function ParseCellDate(cell: CellValue, strptimeMonthYear: string -> Option<Day>,
                         qboDate: string -> Option<Day>): Result<Day> {
    match cell
    case Date(d) => Ok(d)
    case Text(s) =>
      (match strptimeMonthYear(s)
       case Some(d) => Ok(d)
       case None =>
         match qboDate(s)
         case Some(d) => Ok(d)
         case None => Err(DateParseError))
    case _ => Err(TypeError)
  }

  /** `get_date_from_cell`: the end of the month of the parsed date. */
  function GetDateFromCell(cell: CellValue, endOfMonth: Day -> Day, strptimeMonthYear: string -> Option<Day>,
                           qboDate: string -> Option<Day>): Result<Day> {
    match ParseCellDate(cell, strptimeMonthYear, qboDate)
    case Ok(d) => Ok(endOfMonth(d))
    case Err(e) => Err(e)
  }

  /**
   * Whichever parse path succeeds, the result is the end of the month of the date it
   * produced; the export's parser is consulted only when "%b %Y" fails.
   */
  lemma GetDateFromCellDispatch(cell: CellValue, endOfMonth: Day -> Day, strptimeMonthYear: string -> Option<Day>,
                                qboDate: string -> Option<Day>)
    ensures cell.Date? ==> GetDateFromCell(cell, endOfMonth, strptimeMonthYear, qboDate) == Ok(endOfMonth(cell.d))
    ensures cell.Text? && strptimeMonthYear(cell.s).Some? ==>
              GetDateFromCell(cell, endOfMonth, strptimeMonthYear, qboDate) ==
              Ok(endOfMonth(strptimeMonthYear(cell.s).value))
    ensures cell.Text? && strptimeMonthYear(cell.s).None? ==>
              GetDateFromCell(cell, endOfMonth, strptimeMonthYear, qboDate) ==
              (if qboDate(cell.s).Some? then Ok(endOfMonth(qboDate(cell.s).value)) else Err(DateParseError))
    ensures cell.Empty? || cell.Number? ==> GetDateFromCell(cell, endOfMonth, strptimeMonthYear, qboDate) == Err(TypeError)
  {
  }

  /** With an idempotent end_of_month, every date read from a cell is already a month end. */
  lemma GetDateFromCellIsMonthEnd(cell: CellValue, endOfMonth: Day -> Day, strptimeMonthYear: string -> Option<Day>,
                                  qboDate: string -> Option<Day>)
    requires forall d :: endOfMonth(endOfMonth(d)) == endOfMonth(d)
    ensures GetDateFromCell(cell, endOfMonth, strptimeMonthYear, qboDate).Ok? ==>
              endOfMonth(GetDateFromCell(cell, endOfMonth, strptimeMonthYear, qboDate).value) ==
              GetDateFromCell(cell, endOfMonth, strptimeMonthYear, qboDate).value
  {
  }
}

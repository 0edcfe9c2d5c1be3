/** Cells and worksheets as the spreadsheet helpers see them. */
module Worksheet {

  /** A calendar date, as the proleptic Gregorian day number of Python's date.toordinal(). */
  type Day = int

  /** The value held by one spreadsheet cell. */
  datatype CellValue =
    | Empty               // None
    | Number(n: real)     // an int or a float
    | Text(s: string)     // a string, formulas included
    | Date(d: Day)        // a datetime

  /** A worksheet: the cells at (row, column) that have been written; both count from 1. */
  type Sheet = map<(int, int), CellValue>
}

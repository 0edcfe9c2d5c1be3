/**
 * Spreadsheet column names: column 1 is "A", 26 is "Z", 27 is "AA" (bijective base 26 over
 * the capital letters), as openpyxl.utils.get_column_letter writes them, and the inverse map.
 */
module Columns {

  predicate IsLetter(c: char) {
    'A' <= c <= 'Z'
  }

  predicate IsLetters(s: string) {
    forall i :: 0 <= i < |s| ==> IsLetter(s[i])
  }

  /** A column name: one or more capital letters. */
  predicate IsColumnName(s: string) {
    |s| > 0 && IsLetters(s)
  }

  function LetterChar(r: nat): (c: char)
    requires r < 26
    ensures IsLetter(c)
  {
    (r + 'A' as int) as char
  }

  /** The name of column n. */
  function ColumnLetter(n: int): (s: string)
    requires n >= 1
    ensures IsColumnName(s)
    decreases n
  {
    var q := (n - 1) / 26;
    (if q == 0 then "" else ColumnLetter(q)) + [LetterChar((n - 1) % 26)]
  }

  /** The number of the column with name s (0 for the empty name). */
  function ColumnIndex(s: string): (n: int)
    requires IsLetters(s)
    ensures n >= 0 && (|s| > 0 ==> n >= 1)
  {
    if s == [] then 0
    else ColumnIndex(s[..|s| - 1]) * 26 + (s[|s| - 1] as int - 'A' as int + 1)
  }

  /** Reading back the name of column n gives n. */
  lemma {:induction false} ColumnIndexOfLetter(n: int)
    requires n >= 1
    ensures ColumnIndex(ColumnLetter(n)) == n
    decreases n
  {
    var q := (n - 1) / 26;
    var s := ColumnLetter(n);
    if q == 0 {
      assert s == [LetterChar(n - 1)];
    } else {
      assert s[..|s| - 1] == ColumnLetter(q);
      ColumnIndexOfLetter(q);
    }
  }

  /** Every column name is the name of the column it denotes. */
  lemma {:induction false} ColumnLetterOfIndex(s: string)
    requires IsColumnName(s)
    ensures ColumnLetter(ColumnIndex(s)) == s
    decreases |s|
  {
    var p := s[..|s| - 1];
    var v := s[|s| - 1] as int - 'A' as int;
    var a := ColumnIndex(p);
    assert ColumnIndex(s) - 1 == a * 26 + v;
    ColumnLetterUnfold(ColumnIndex(s), a, v);
    if |p| > 0 {
      ColumnLetterOfIndex(p);
    }
    assert LetterChar(v) == s[|s| - 1];
    SplitLast(s);
  }

  /** The name of column a * 26 + v + 1 is the name of column a followed by letter v. */
  lemma ColumnLetterUnfold(n: int, a: int, v: int)
    requires a >= 0 && 0 <= v < 26 && n - 1 == a * 26 + v
    ensures ColumnLetter(n) == (if a == 0 then "" else ColumnLetter(a)) + [LetterChar(v)]
  {
    DivModDigit(n - 1, a, v);
  }

  /** A non-empty name is its prefix followed by its last letter. */
  lemma SplitLast(s: string)
    requires |s| > 0
    ensures s[..|s| - 1] + [s[|s| - 1]] == s
  {
  }

  /** The last base-26 digit and the rest of a number. */
  lemma DivModDigit(m: int, a: int, v: int)
    requires a >= 0 && 0 <= v < 26 && m == a * 26 + v
    ensures m / 26 == a && m % 26 == v
  {
  }

  /** Distinct columns have distinct names. */
  lemma ColumnLetterInjective(m: int, n: int)
    requires m >= 1 && n >= 1
    ensures ColumnLetter(m) == ColumnLetter(n) ==> m == n
  {
    ColumnIndexOfLetter(m);
    ColumnIndexOfLetter(n);
  }
}

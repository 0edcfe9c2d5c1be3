# a-model: compensation rules, report cell helpers and the accounts-receivable grid, in Dafny

This project models three parts of the a-model budgeting scripts and proves properties of them.

- **Compensation of one person** (`Compensation`, compensation.dfy). A `Person` reads company
  figures from its Datascope and two configuration sections, `ownership` and `take home pay`.
  From them it derives:
  - its ownership and whether it is a partner;
  - its monthly take-home-pay target and whether it is active;
  - its dividend fraction, bonus fraction and net fraction of the profits;
  - its after-tax salary;
  - the before-tax bonus and dividends, grossed up by `1 / (1 - tax rate)`.

  Every derivation is a pure function over `real`, and one that can raise returns a `Result`.
  Roster lemmas add up the fractions over people who share one Datascope.
- **Report cell helpers** (`ReportCells`, report_cells.dfy). These model the helpers of the
  report base class:
  - range strings such as `A5:C5`;
  - the cells a row or column range covers;
  - turning a cell into a number, with `=` stripping;
  - turning a cell into a month end;
  - the 30-day month distance;
  - the month-by-month advance loop, a method with a loop invariant.

  Two shared modules support this: `Columns` (columns.dfy) holds spreadsheet column names
  (`get_column_letter` and its inverse), and `Decimal` (decimal.dfy) holds the `%d` numerals.
- **The accounts-receivable grid** (`AccountsReceivable`, accounts_receivable.dfy; properties in
  `AccountsReceivableProperties`, accounts_receivable_properties.dfy). This is
  `unpaid_invoices2accounts_receivable`, written as one top-level method that calls four phase
  methods, each with loops:
  - the scan of due dates and their maximum;
  - the month header (row 1) and the month→column map;
  - the client loop, which gives each new client the next row from row 3 and writes every balance at (client row, due-month column);
  - the total row (row 2): `TOTAL` and one `=SUM(X3:Xn)` per month column.

  The worksheet is a map from (row, column) to the cell value. The two dictionaries are maps
  that the loops extend. The result is proved to satisfy `IsAccountsReceivable`, a
  declarative description of the finished grid. The properties module shows what the
  functions in that description mean:
  - the client order lists each client once, in first-appearance order;
  - a balance cell holds the last matching invoice;
  - the loop fails at the first faulty row.

Shared types: `Wrappers` (wrappers.dfy) holds Option, Result and the Python exceptions that
can escape. `Worksheet` (worksheet.dfy) holds day numbers, cell values and sheets.

`Compensation.WorkedExample` works one example through the model: base salary 5000, one
bonus month, a dividend fraction f = 0.4, five people, ownership 0.1, tax rate 0.3 and target
profit 20000. The dividends come to 800 and the bonus to 2400. `after_tax_salary`
(a_model/person.py:67-72) adds these two to the base `after_tax_salary`, giving 8200. It does
not add them to the take-home-pay target.

## Model

| member | source | states |
|---|---|---|
| Compensation.OwnershipCases | a_model/person.py:20-25 | A missing ownership entry reads as 0, so the person is not a partner and the dividend fraction is 0. A number reads as itself. A malformed entry raises ValueError, and so do is_partner and fraction_dividends. |
| Compensation.PartnerIffPositiveOwnership | a_model/person.py:16-18 | is_partner holds exactly when the ownership is defined and positive, and it fails exactly when the ownership does. |
| Compensation.TargetSalaryCases | a_model/person.py:27-41 | A numeric take-home-pay entry is the target. A missing or malformed one gives after_tax_salary × (1 + n_months_after_tax_bonus / 12). |
| Compensation.ActivityFollowsTarget | a_model/person.py:12-14 | With an explicit take-home pay, a person is active iff that pay is positive, whatever the default. Without one it is the default that decides. |
| Compensation.NetFractionIsSum | a_model/person.py:52-54 | The net fraction is defined iff both parts are, and then it is dividends plus bonus. A dividend error is what the net fraction raises. |
| Compensation.FractionBonusIsPerHead | a_model/person.py:47-50 | Two people with the same Datascope have the same bonus fraction. It is defined iff n_people ≠ 0, and then bonus × n_people = 1 − fraction_profit_for_dividends. |
| Compensation.AfterTaxSalaryDecomposition | a_model/person.py:59-72 | after_tax_salary = base + net fraction × after_tax_target_profit, and it fails iff the net fraction fails. No people means ZeroDivisionError. When both causes are present, the net fraction raises ValueError. |
| Compensation.TargetFromBonusDividends | a_model/person.py:56-57 | The bonus-and-dividends target plus the base is the target. With no take-home-pay entry it is base × n_months_after_tax_bonus / 12. |
| Compensation.BeforeTaxGrossUp | a_model/person.py:74-79 | The result is bonus / (1 − tax rate) + dividends. It fails, with ZeroDivisionError, exactly when the tax rate is 1. |
| Compensation.BeforeTaxAtLeastAfterTax | a_model/person.py:74-79 | For a tax rate in [0, 1) and a non-negative bonus, the result is at least bonus plus dividends. Equality holds iff the tax rate or the bonus is 0. |
| Compensation.BeforeTaxIncreasesWithTaxRate | a_model/person.py:74-79 | With a positive after-tax bonus, raising the tax rate while keeping it below 1 strictly raises the before-tax figure. |
| Compensation.WorkedExample | a_model/person.py:43-72 | The worked example's figures: dividends 0.04, bonus 0.12, 800 and 2400 after tax, after-tax salary 8200, grossed-up 29600/7. |
| Compensation.NetFractionOfMember | a_model/person.py:43-54 | With a defined ownership and people, the dividend fraction is fraction_profit_for_dividends × ownership, and the net fraction is that plus the bonus. |
| Compensation.TotalBonusFractionIsShares | a_model/person.py:47-50 | The bonus fractions of k people sharing a Datascope add up to k × (1 − f) / n_people. |
| Compensation.BonusPoolIsDistributed | a_model/person.py:47-50 | Over n_people people, the bonus fractions add up to 1 − fraction_profit_for_dividends. |
| Compensation.TotalNetFractionSplit | a_model/person.py:43-54 | The net fractions of a roster add up to f × (total ownership) plus the roster's bonus fractions. |
| Compensation.ProfitIsConservedForFullOwnership | a_model/person.py:43-54 | Over a full roster whose ownerships add up to 1, the net fractions add up to exactly 1. |
| Columns.ColumnLetter | src/update_budget_spreadsheet.py:228 | get_column_letter gives a non-empty string of capital letters for every column from 1 on. |
| Columns.ColumnIndexOfLetter | src/update_budget_spreadsheet.py:228 | Reading back the letters of column n gives n. |
| Columns.ColumnLetterOfIndex | src/update_budget_spreadsheet.py:228 | Every column name is the letters of the column it denotes. |
| Columns.ColumnLetterInjective | src/update_budget_spreadsheet.py:228 | Distinct columns get distinct letters. |
| Decimal.StringToNatOfNatToString | a_model/reports/base.py:192-196 | The `%d` numeral of a number reads back as that number. |
| Decimal.NatToStringInjective | a_model/reports/base.py:192-196 | Distinct numbers have distinct numerals. |
| Decimal.IntToStringOfNat | a_model/reports/base.py:192-196 | `%d` of a non-negative int is a digit string that reads back as the int. |
| ReportCells.CellRefRoundTrip | a_model/reports/base.py:192-196 | A column name followed by a row numeral parses back as (that column, that row). |
| ReportCells.RangeRoundTrip | a_model/reports/base.py:192-196 | `A<r1>:B<r2>` parses back as its four corners. |
| ReportCells.RowCellRangeBoundaries | a_model/reports/base.py:192-193 | _row_cell_range names exactly that row, from min_col to max_col. |
| ReportCells.ColCellRangeBoundaries | a_model/reports/base.py:195-196 | _col_cell_range names exactly that column, from min_row to max_row. |
| ReportCells.SingleColumnCells | a_model/reports/base.py:198-201 | The cells of a one-column range are its rows from top to bottom. |
| ReportCells.SingleRowCells | a_model/reports/base.py:198-201 | The cells of a one-row range are its columns from left to right. |
| ReportCells.IterCellsInRowVisits | a_model/reports/base.py:203-205 | iter_cells_in_row visits (row, c) for c from min_col to max_col, in order. |
| ReportCells.IterCellsInColumnVisits | a_model/reports/base.py:207-209 | iter_cells_in_column visits (r, col) for r from min_row to max_row, in order, and nothing for an empty range. |
| ReportCells.LeadingCount | a_model/reports/base.py:242 | The leading run of a character: every position before it holds the character and the next does not. |
| ReportCells.TrailingCount | a_model/reports/base.py:242 | The trailing run of a character, likewise. |
| ReportCells.StripKeepsMiddle | a_model/reports/base.py:241-242 | strip('=') keeps a contiguous middle of the string. Everything before and after it is '=', and the kept part neither starts nor ends with '='. |
| ReportCells.StripPadding | a_model/reports/base.py:241-242 | A core that neither starts nor ends with c, padded with any number of c's on each side, strips back to the core. |
| ReportCells.GetFloatFromCellCases | a_model/reports/base.py:236-242 | An empty cell gives 0.0 and a number gives itself. A string is passed to float() after stripping '=', and float()'s failure is ValueError. Any other value raises AttributeError. |
| ReportCells.GetFloatFromCellStripsEquals | a_model/reports/base.py:241-242 | A padded string such as "==12.5=" is parsed as exactly its interior. |
| ReportCells.MonthsFromNowBounds | a_model/reports/base.py:224-227 | The month count m is floor((date − now) / 30): 30m ≤ date − now < 30m + 30. |
| ReportCells.MonthsFromNowOrder | a_model/reports/base.py:224-227 | The count is 0 at now, negative exactly before now, and non-decreasing in the date. |
| ReportCells.GetDateInNMonths | a_model/reports/base.py:229-234 | The loop applies t := end_of_month(t + 1 day) exactly n_months times. A count at or below 0 returns now unchanged. |
| ReportCells.AdvanceMonthsAdditive | a_model/reports/base.py:229-234 | Advancing a months and then b months is advancing a + b months. |
| ReportCells.AdvanceMonthsEndsMonth | a_model/reports/base.py:229-234 | For an idempotent end_of_month, the date after one or more steps is a month end. |
| ReportCells.AdvanceMonthsIncreases | a_model/reports/base.py:229-234 | If end_of_month never moves a date back, n steps move at least n days forward, and each step moves strictly forward. |
| ReportCells.GetDateFromCellDispatch | a_model/reports/base.py:211-219 | The result is the month end of whichever parse succeeds: a datetime as is, else "%b %Y", else the export's date parser. A non-string cell raises TypeError. |
| ReportCells.GetDateFromCellIsMonthEnd | a_model/reports/base.py:211-219 | For an idempotent end_of_month, every date read from a cell is a month end. |
| AccountsReceivable.Max | src/update_budget_spreadsheet.py:190 | max() of a non-empty list is one of its elements and at least every element. |
| AccountsReceivable.DueMonthsMembership | src/update_budget_spreadsheet.py:184-189 | The dates list holds exactly the month ends of the rows whose due date is present. |
| AccountsReceivable.MaxDueMonth | src/update_budget_spreadsheet.py:182-190 | It fails with ValueError iff no due date is present, and otherwise gives the maximum of the due months. |
| AccountsReceivable.LastOccurrenceUnique | src/update_budget_spreadsheet.py:195-197 | A month has at most one last position in the range. |
| AccountsReceivable.MonthColumnOfPosition | src/update_budget_spreadsheet.py:195-197 | Every month of the range is a key of month2column. Its column is i + 2 iff position i is the month's last occurrence. |
| AccountsReceivable.WriteMonthHeader | src/update_budget_spreadsheet.py:192-200 | Row 1 column i + 2 holds month i, and nothing else is written. month2column maps each month to 2 + its last position. |
| AccountsReceivable.HeaderAboveClients | src/update_budget_spreadsheet.py:192-204 | The header touches no row from 3 on. |
| AccountsReceivable.ScanLength | src/update_budget_spreadsheet.py:206-209 | The client loop reads the rows before the first row without a client name, and no further. |
| AccountsReceivable.ScanLengthBound | src/update_budget_spreadsheet.py:206-209 | If every row before n has a client, n is at most the scan length. If row n is also empty or the last, the scan length is n. |
| AccountsReceivable.ClientOrderStep | src/update_budget_spreadsheet.py:213-218 | A row with a new client appends the client to the order. Any other row leaves the order unchanged. |
| AccountsReceivable.PlacedInitially | src/update_budget_spreadsheet.py:204-205 | Before the first row, no client is placed and the sheet is the header. |
| AccountsReceivable.AddClient | src/update_budget_spreadsheet.py:213-218 | A new client in column 1 of row 3 + (clients so far), mapped to that row, keeps the loop state. |
| AccountsReceivable.LastBalanceHasClient | src/update_budget_spreadsheet.py:213-223 | A client with a balance has a row. |
| AccountsReceivable.FirstFaultStep | src/update_budget_spreadsheet.py:210-221 | One more row keeps an earlier fault, and otherwise adds the row's own. |
| AccountsReceivable.FirstFaultPersists | src/update_budget_spreadsheet.py:210-221 | A fault within the first n rows is the fault of the whole scan. |
| AccountsReceivable.LastBalanceStep | src/update_budget_spreadsheet.py:219-223 | After a row, a (client, month) cell holds that row's balance if the row matches, and otherwise what it held. |
| AccountsReceivable.ClientRowPosition | src/update_budget_spreadsheet.py:213-218 | A placed client's row is 3 + its position in the order. |
| AccountsReceivable.PlaceBalanceCells | src/update_budget_spreadsheet.py:219-223 | Writing a balance at (client row, month column) updates exactly that client's cell for that month. |
| AccountsReceivable.PlaceKeys | src/update_budget_spreadsheet.py:219-223 | Every written cell is still the header, a client name, or a balance cell that some row has. |
| AccountsReceivable.WriteKeepsNames | src/update_budget_spreadsheet.py:219-223 | A balance write in a month column keeps the names in column 1. |
| AccountsReceivable.PlaceStep | src/update_budget_spreadsheet.py:219-223 | One balance write keeps the loop state, now with one more row. A later invoice of the same client and month overwrites the earlier balance. |
| AccountsReceivable.PlaceRow | src/update_budget_spreadsheet.py:206-223 | One loop pass either raises or keeps the state for one more row. With no due date it raises DateParseError before placing the client. With a month missing from month2column it raises KeyError after placing it. |
| AccountsReceivable.PlaceInvoices | src/update_budget_spreadsheet.py:202-223 | It fails iff some scanned row is faulty, with the first fault. Otherwise the header stays, each client appears once in first-seen order from row 3, each cell holds the last matching balance, and row_index is one past the last client row. |
| AccountsReceivable.SumFormulaCoversClients | src/update_budget_spreadsheet.py:232 | The formula of column c is `=SUM(` + _col_cell_range(letter(c), 3, 2 + clients) + `)`. With one or more clients, iter_cells_in_column reads that range as exactly the client rows of the column. |
| AccountsReceivable.TotalsStep | src/update_budget_spreadsheet.py:227-233 | Writing one more column's formula keeps the total-row state. |
| AccountsReceivable.TotalsLoopStep | src/update_budget_spreadsheet.py:227-233 | Visiting one more month of month2column keeps the loop state. |
| AccountsReceivable.AnyMonth | src/update_budget_spreadsheet.py:227 | The next key of the dictionary iteration is a key not yet visited. |
| AccountsReceivable.WrittenColumns | src/update_budget_spreadsheet.py:227-233 | The columns written are exactly the columns of the last occurrences of the months. |
| AccountsReceivable.TotalsWritten | src/update_budget_spreadsheet.py:226-233 | With every month-column written, row 2 is complete and nothing else has changed. |
| AccountsReceivable.TotalsDone | src/update_budget_spreadsheet.py:226-233 | When no month remains, the loop state is the finished total row. |
| AccountsReceivable.WriteTotals | src/update_budget_spreadsheet.py:225-233 | Row 2 holds TOTAL in column 1 and `=SUM(X3:Xn)` in every month column, with n = row_index − 1. Every other cell is unchanged. |
| AccountsReceivable.AssembleReport | src/update_budget_spreadsheet.py:192-233 | Header, client loop and total row together give the finished grid. |
| AccountsReceivable.UnpaidInvoicesToAccountsReceivable | src/update_budget_spreadsheet.py:173-236 | No due date gives ValueError. Otherwise the month range runs from the start date to the latest due month, and the call fails iff a scanned row is faulty, with the first fault. On success the sheet is exactly the accounts-receivable grid of the scanned rows. |
| AccountsReceivableProperties.ClientOrderDistinct | src/update_budget_spreadsheet.py:213-218 | No client gets two rows. |
| AccountsReceivableProperties.ClientOrderMembership | src/update_budget_spreadsheet.py:206-218 | A client has a row iff some scanned row names it. |
| AccountsReceivableProperties.ClientOrderFirstSeen | src/update_budget_spreadsheet.py:213-218 | If client k1 is above client k2, every row naming k2 has a row naming k1 above it: the order is the first-appearance order. |
| AccountsReceivableProperties.LastBalanceIsLastMatch | src/update_budget_spreadsheet.py:219-223 | A cell is empty iff no row matches its client and month. Otherwise it holds the balance of the last matching row. |
| AccountsReceivableProperties.FirstFaultIsFirst | src/update_budget_spreadsheet.py:206-223 | The loop fails iff some scanned row is faulty, and then with the fault of the first such row. |

## Left out

- Datascope and after_tax_target_profit(): not part of this model. The figures Person reads are fields of a record, and the target profit is given as a value.
- ConfigParser: not modelled beyond one lookup per section. A section is a map from name to Missing, Invalid or Value. Option-name lowercasing, the DEFAULT section and NoSectionError are left out, and a missing section is treated as a section with no entries.
- n_months_after_tax_bonus / 12 is real division. Under Python 2 an int count would truncate; the model assumes a float.
- Floating point: not modelled. All arithmetic is on exact reals, so rounding is not captured.
- Cells: openpyxl cells are left out. A cell is its value (empty, number, string or datetime), and the worksheet is a map from (row, column) to the value written.
- openpyxl's cell(value=None) keeps the old value. The model writes an empty balance as Empty.
- get_column_letter is modelled for every column from 1 on. openpyxl's upper limit on columns is not.
- iter_cells_in_range is modelled as the sequence of (row, column) positions it visits, read from the range string. The generator, the cell objects and open_worksheet's `self.worksheet` are left out. Range forms other than `A1:B2` are not parsed.
- end_of_month, iter_end_of_months, the export's date parser (utils.qbo_date), strptime("%b %Y") and float() are not part of this model. They are function parameters of the members that call them. get_now() is the parameter `now`.
- Invoice.due is pre-parsed: an Invoice holds a present, parsed due date or none. A due-date string that the date parser rejects in the first loop is therefore not modelled. A missing due date in the client loop is DateParseError.
- AccountsReceivable.AnyMonth: the iteration order of month2column.itervalues() is left open, so the model visits the keys in an unspecified order. Each key's column is written once, and the order does not change the result.
- AccountsReceivable.PlaceRow: one pass of the client loop, factored out of the loop body of the source to keep the proof small. It is not a separate function in the source.
- The spreadsheet files (load_workbook, save), the Selenium browser automation, the Google Sheets and OAuth calls, URL construction and the argparse configuration are I/O: not part of this model.
- The script's module-level code and main block, including the commented-out call to unpaid_invoices2accounts_receivable and the early exit(), are I/O scripting: not part of this model.
- Formula evaluation: not modelled. The total cells hold the formula text only. With no clients the formulas are `=SUM(X3:X2)`. A spreadsheet reads this as the rectangle X2:X3, so each total cell then refers to itself and to row 3. The model does not capture that.

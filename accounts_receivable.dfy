/**
 * The accounts-receivable grid built from the unpaid-invoices export
 * (unpaid_invoices2accounts_receivable in src/update_budget_spreadsheet.py).
 *
 * Row 1 holds the month ends from the start date to the latest due month, from column 2 on;
 * row 2 holds "TOTAL" and one SUM formula per month column; from row 3 on, each client has
 * one row, in the order clients first appear, with its name in column 1 and each invoice's
 * open balance in the column of the month it is due.
 *
 * The worksheet is a map from (row, column) to the value written there. The spreadsheet
 * files, end_of_month and iter_end_of_months are not part of this model: the invoices come
 * in as a sequence of rows and the two calendar helpers as functions.
 */
module AccountsReceivable {
  import opened Wrappers
  import opened Worksheet
  import opened Decimal
  import opened Columns
  import ReportCells

  /** The script's start_date, 1 January 2014, as a day number. */
  const StartDate: Day := 735234

  /** One row of the export, from row 6 on: client (column E), due date (G), open balance (I). */
  datatype Invoice = Invoice(client: Option<string>, due: Option<Day>, balance: CellValue)

  // ---------------------------------------------------------------------------------------
  // The latest due month

  /** The month ends of the non-empty due dates, in row order: the `dates` list. */
  function DueMonths(invoices: seq<Invoice>, endOfMonth: Day -> Day): seq<Day> {
    if invoices == [] then []
    else
      var last := invoices[|invoices| - 1];
      DueMonths(invoices[..|invoices| - 1], endOfMonth) + (if last.due.Some? then [endOfMonth(last.due.value)] else [])
  }

  /** Python's max() of a non-empty list. */
  function Max(s: seq<int>): (m: int)
    requires |s| > 0
    ensures m in s && forall i :: 0 <= i < |s| ==> s[i] <= m
  {
    if |s| == 1 then s[0]
    else
      var m := Max(s[..|s| - 1]);
      assert m in s[..|s| - 1];
      if s[|s| - 1] > m then s[|s| - 1] else m
  }

  /** The due months are exactly the month ends of the due dates present. */
  lemma {:induction false} DueMonthsMembership(invoices: seq<Invoice>, endOfMonth: Day -> Day, d: Day)
    ensures d in DueMonths(invoices, endOfMonth) <==>
            exists i :: 0 <= i < |invoices| && invoices[i].due.Some? && endOfMonth(invoices[i].due.value) == d
  {
    if invoices != [] {
      var prefix := invoices[..|invoices| - 1];
      DueMonthsMembership(prefix, endOfMonth, d);
      if d in DueMonths(prefix, endOfMonth) {
        var i :| 0 <= i < |prefix| && prefix[i].due.Some? && endOfMonth(prefix[i].due.value) == d;
        assert invoices[i] == prefix[i];
      }
      if exists i :: 0 <= i < |invoices| && invoices[i].due.Some? && endOfMonth(invoices[i].due.value) == d {
        var i :| 0 <= i < |invoices| && invoices[i].due.Some? && endOfMonth(invoices[i].due.value) == d;
        if i < |prefix| {
          assert prefix[i] == invoices[i];
        }
      }
    }
  }

  /** The scan of the due-date column and max(dates), which raises on an empty list. */
  method MaxDueMonth(invoices: seq<Invoice>, endOfMonth: Day -> Day) returns (r: Result<Day>)
    ensures r.Err? <==> DueMonths(invoices, endOfMonth) == []
    ensures r.Err? ==> r.error == ValueError
    ensures r.Ok? ==> r.value == Max(DueMonths(invoices, endOfMonth))
  {
    var dates: seq<Day> := [];
    var i := 0;
    while i < |invoices|
      invariant i <= |invoices|
      invariant dates == DueMonths(invoices[..i], endOfMonth)
    {
      assert invoices[..i + 1][..i] == invoices[..i];
      if invoices[i].due.Some? {
        dates := dates + [endOfMonth(invoices[i].due.value)];
      }
      i := i + 1;
    }
    assert invoices[..i] == invoices;
    if dates == [] {
      return Err(ValueError);
    }
    return Ok(Max(dates));
  }

  // ---------------------------------------------------------------------------------------
  // The month header

  /** No later position of months holds the same month as position j. */
  ghost predicate IsLastOccurrence(months: seq<Day>, j: int)
    requires 0 <= j < |months|
  {
    forall k :: j < k < |months| ==> months[k] != months[j]
  }

  /** `month2column`: every month of the range maps to the column of its last occurrence. */
  ghost predicate IsMonthColumns(monthColumn: map<Day, int>, months: seq<Day>) {
    && (forall j {:trigger months[j] in monthColumn} :: 0 <= j < |months| ==> months[j] in monthColumn)
    && (forall m :: m in monthColumn ==>
          && 2 <= monthColumn[m] < |months| + 2
          && months[monthColumn[m] - 2] == m
          && IsLastOccurrence(months, monthColumn[m] - 2))
  }

  /** Row 1 holds month c - 2 of the range in column c, from column 2 on. */
  ghost predicate HeaderRow(sheet: Sheet, months: seq<Day>) {
    forall c :: 2 <= c < |months| + 2 ==> (1, c) in sheet && sheet[(1, c)] == Date(months[c - 2])
  }

  ghost predicate InHeaderRow(key: (int, int), months: seq<Day>) {
    key.0 == 1 && 2 <= key.1 < |months| + 2
  }

  /** The column of a month is its last position plus 2, and every position that is last has it. */
  lemma MonthColumnOfPosition(monthColumn: map<Day, int>, months: seq<Day>, j: int)
    requires IsMonthColumns(monthColumn, months) && 0 <= j < |months|
    ensures months[j] in monthColumn
    ensures monthColumn[months[j]] == j + 2 <==> IsLastOccurrence(months, j)
  {
    var m := months[j];
    assert m in monthColumn;
    var k := monthColumn[m] - 2;
    assert 0 <= k < |months| && months[k] == m && IsLastOccurrence(months, k);
    if IsLastOccurrence(months, j) {
      LastOccurrenceUnique(months, j, k);
    }
  }

  /** The header loop of the source: one cell per month and the month-to-column map. */
  method WriteMonthHeader(months: seq<Day>) returns (sheet: Sheet, monthColumn: map<Day, int>)
    ensures HeaderRow(sheet, months)
    ensures forall key :: key in sheet ==> InHeaderRow(key, months)
    ensures IsMonthColumns(monthColumn, months)
  {
    sheet := map[];
    monthColumn := map[];
    var i := 0;
    while i < |months|
      invariant i <= |months|
      invariant HeaderRow(sheet, months[..i])
      invariant forall key :: key in sheet ==> InHeaderRow(key, months[..i])
      invariant IsMonthColumns(monthColumn, months[..i])
    {
      var column := i + 2;
      ghost var done := months[..i + 1];
      assert done[..i] == months[..i];
      monthColumn := monthColumn[months[i] := column];
      sheet := sheet[(1, column) := Date(months[i])];
      forall m | m in monthColumn
        ensures 2 <= monthColumn[m] < |done| + 2 && done[monthColumn[m] - 2] == m
        ensures IsLastOccurrence(done, monthColumn[m] - 2)
      {
      }
      forall k | 0 <= k < |done|
        ensures done[k] in monthColumn
      {
        if k < i {
          assert done[k] == months[..i][k];
        }
      }
      i := i + 1;
    }
    assert months[..i] == months;
  }

  // ---------------------------------------------------------------------------------------
  // Client rows and balances

  /** The number of rows read before the first row without a client name (the `break`). */
  function ScanLength(invoices: seq<Invoice>): (n: nat)
    ensures n <= |invoices|
    ensures forall i :: 0 <= i < n ==> invoices[i].client.Some?
    ensures n < |invoices| ==> invoices[n].client.None?
  {
    if invoices == [] || invoices[0].client.None? then 0 else 1 + ScanLength(invoices[1..])
  }

  /** Every row before n has a client exactly when n is at most the scan length. */
  lemma {:induction false} ScanLengthBound(invoices: seq<Invoice>, n: nat)
    requires n <= |invoices| && forall k :: 0 <= k < n ==> invoices[k].client.Some?
    ensures n <= ScanLength(invoices)
    ensures n == |invoices| || invoices[n].client.None? ==> ScanLength(invoices) == n
  {
    if n > 0 {
      ScanLengthBound(invoices[1..], n - 1);
    }
  }

  /** Taking one more row of a prefix appends that row. */
  lemma PrefixStep(rows: seq<Invoice>, i: nat, n: nat)
    requires i < n <= |rows|
    ensures rows[..i + 1] == rows[..i] + [rows[i]]
    ensures rows[..n][..i + 1] == rows[..i + 1]
  {
  }

  /** The rows the client loop processes. */
  function Scanned(invoices: seq<Invoice>): seq<Invoice> {
    invoices[..ScanLength(invoices)]
  }

  /** The client names of rows, each once, in the order of their first appearance. */
  function ClientOrder(rows: seq<Invoice>): seq<string> {
    if rows == [] then []
    else
      var prev := ClientOrder(rows[..|rows| - 1]);
      var client := rows[|rows| - 1].client;
      if client.None? || client.value in prev then prev else prev + [client.value]
  }

  /** An invoice of this client due in this month. */
  predicate Matches(inv: Invoice, client: string, month: Day, endOfMonth: Day -> Day) {
    inv.client == Some(client) && inv.due.Some? && endOfMonth(inv.due.value) == month
  }

  /** The balance of the last of rows that matches the client and the month, if any. */
  function LastBalance(rows: seq<Invoice>, client: string, month: Day, endOfMonth: Day -> Day): Option<CellValue> {
    if rows == [] then None
    else if Matches(rows[|rows| - 1], client, month, endOfMonth) then Some(rows[|rows| - 1].balance)
    else LastBalance(rows[..|rows| - 1], client, month, endOfMonth)
  }

  /** What makes the client loop raise at one invoice: no due date, or a due month outside the header. */
  function Fault(inv: Invoice, endOfMonth: Day -> Day, months: seq<Day>): Option<Error> {
    if inv.due.None? then Some(DateParseError)
    else if endOfMonth(inv.due.value) !in months then Some(KeyError)
    else None
  }

  /** The fault of the first faulty row, if any. */
  function FirstFault(rows: seq<Invoice>, endOfMonth: Day -> Day, months: seq<Day>): Option<Error> {
    if rows == [] then None
    else
      var prev := FirstFault(rows[..|rows| - 1], endOfMonth, months);
      if prev.Some? then prev else Fault(rows[|rows| - 1], endOfMonth, months)
  }

  /** Every cell of the sheet lies above the client rows, which start at row 3. */
  ghost predicate AboveClientRows(sheet: Sheet) {
    forall r, c :: (r, c) in sheet ==> r < 3
  }

  /** Column 1 of row r, from row 3 on, holds client r - 3 of the order. */
  ghost predicate ClientColumn(sheet: Sheet, order: seq<string>) {
    forall r :: 3 <= r < 3 + |order| ==> (r, 1) in sheet && sheet[(r, 1)] == Text(order[r - 3])
  }

  /** A client's cell in a month column holds the balance of that client's last invoice due that month. */
  ghost predicate BalanceCells(sheet: Sheet, rows: seq<Invoice>, order: seq<string>, months: seq<Day>,
                               endOfMonth: Day -> Day) {
    forall k, j {:trigger LastBalance(rows, order[k], months[j], endOfMonth)} ::
      0 <= k < |order| && 0 <= j < |months| && IsLastOccurrence(months, j) ==>
      && ((3 + k, j + 2) in sheet <==> LastBalance(rows, order[k], months[j], endOfMonth).Some?)
      && ((3 + k, j + 2) in sheet ==> sheet[(3 + k, j + 2)] == LastBalance(rows, order[k], months[j], endOfMonth).value)
  }

  /** The cells the client loop may write: a client's name, or a balance it actually has. */
  ghost predicate InClientArea(key: (int, int), rows: seq<Invoice>, order: seq<string>, months: seq<Day>,
                               endOfMonth: Day -> Day) {
    && 3 <= key.0 < 3 + |order|
    && (|| key.1 == 1
        || (&& 2 <= key.1 < |months| + 2
            && IsLastOccurrence(months, key.1 - 2)
            && LastBalance(rows, order[key.0 - 3], months[key.1 - 2], endOfMonth).Some?))
  }

  /** A client with a balance in rows is one of the clients of rows. */
  lemma {:induction false} LastBalanceHasClient(rows: seq<Invoice>, client: string, month: Day, endOfMonth: Day -> Day)
    ensures LastBalance(rows, client, month, endOfMonth).Some? ==> client in ClientOrder(rows)
  {
    if rows != [] {
      LastBalanceHasClient(rows[..|rows| - 1], client, month, endOfMonth);
    }
  }

  /** Appending a row keeps an earlier fault, and otherwise adds the row's own. */
  lemma FirstFaultStep(prefix: seq<Invoice>, invoice: Invoice, endOfMonth: Day -> Day, months: seq<Day>)
    ensures FirstFault(prefix + [invoice], endOfMonth, months) ==
            if FirstFault(prefix, endOfMonth, months).Some? then FirstFault(prefix, endOfMonth, months)
            else Fault(invoice, endOfMonth, months)
  {
    assert (prefix + [invoice])[..|prefix|] == prefix;
  }

  /** Once a row is faulty, so is every longer run of rows, with the same fault. */
  lemma {:induction false} FirstFaultPersists(rows: seq<Invoice>, n: nat, endOfMonth: Day -> Day, months: seq<Day>)
    requires n <= |rows|
    requires FirstFault(rows[..n], endOfMonth, months).Some?
    ensures FirstFault(rows, endOfMonth, months) == FirstFault(rows[..n], endOfMonth, months)
    decreases |rows| - n
  {
    if n < |rows| {
      assert rows[..n + 1][..n] == rows[..n];
      FirstFaultPersists(rows, n + 1, endOfMonth, months);
    } else {
      assert rows[..n] == rows;
    }
  }

  /** The sheet after the client loop has read rows: sheet0 kept, the names, the balances, nothing else. */
  ghost predicate Filled(sheet: Sheet, rows: seq<Invoice>, order: seq<string>, months: seq<Day>,
                         endOfMonth: Day -> Day, sheet0: Sheet) {
    && (forall key :: key in sheet0 ==> key in sheet && sheet[key] == sheet0[key])
    && ClientColumn(sheet, order)
    && BalanceCells(sheet, rows, order, months, endOfMonth)
    && (forall key :: key in sheet ==> key in sheet0 || InClientArea(key, rows, order, months, endOfMonth))
  }

  /** `client2row`: the clients placed so far, each mapped to its row. */
  ghost predicate ClientRows(clientRow: map<string, int>, order: seq<string>) {
    && (forall c :: c in clientRow <==> c in order)
    && (forall k :: 0 <= k < |order| ==> order[k] in clientRow && clientRow[order[k]] == 3 + k)
  }

  /** The state of the client loop after some rows. */
  ghost predicate Placed(sheet: Sheet, clientRow: map<string, int>, order: seq<string>, rows: seq<Invoice>,
                         months: seq<Day>, endOfMonth: Day -> Day, sheet0: Sheet) {
    ClientRows(clientRow, order) && Filled(sheet, rows, order, months, endOfMonth, sheet0)
  }

  /** A row whose client is new appends that client to the order; any other row leaves it alone. */
  lemma ClientOrderStep(prefix: seq<Invoice>, invoice: Invoice)
    requires invoice.client.Some?
    ensures ClientOrder(prefix + [invoice]) ==
            if invoice.client.value in ClientOrder(prefix) then ClientOrder(prefix)
            else ClientOrder(prefix) + [invoice.client.value]
  {
    assert (prefix + [invoice])[..|prefix|] == prefix;
  }

  /** Before the first row nothing is placed. */
  lemma PlacedInitially(sheet0: Sheet, rows: seq<Invoice>, months: seq<Day>, endOfMonth: Day -> Day)
    requires rows == []
    ensures Placed(sheet0, map[], [], rows, months, endOfMonth, sheet0)
  {
  }

  /** Giving a new client the next row keeps the loop state. */
  lemma AddClient(sheet: Sheet, clientRow: map<string, int>, order: seq<string>, rows: seq<Invoice>,
                  months: seq<Day>, endOfMonth: Day -> Day, sheet0: Sheet, client: string)
    requires AboveClientRows(sheet0)
    requires order == ClientOrder(rows) && client !in clientRow
    requires Placed(sheet, clientRow, order, rows, months, endOfMonth, sheet0)
    ensures Placed(sheet[(3 + |order|, 1) := Text(client)], clientRow[client := 3 + |order|], order + [client],
                   rows, months, endOfMonth, sheet0)
  {
    var sheet', order' := sheet[(3 + |order|, 1) := Text(client)], order + [client];
    assert client !in order;
    forall k, j | 0 <= k < |order'| && 0 <= j < |months| && IsLastOccurrence(months, j)
      ensures && ((3 + k, j + 2) in sheet' <==> LastBalance(rows, order'[k], months[j], endOfMonth).Some?)
              && ((3 + k, j + 2) in sheet' ==> sheet'[(3 + k, j + 2)] == LastBalance(rows, order'[k], months[j], endOfMonth).value)
    {
      if k == |order| {
        LastBalanceHasClient(rows, client, months[j], endOfMonth);
        assert (3 + k, j + 2) !in sheet;
      } else {
        assert order'[k] == order[k];
      }
    }
    forall key | key in sheet'
      ensures key in sheet0 || InClientArea(key, rows, order', months, endOfMonth)
    {
      if key != (3 + |order|, 1) && key !in sheet0 {
        assert InClientArea(key, rows, order, months, endOfMonth);
        assert order'[key.0 - 3] == order[key.0 - 3];
      }
    }
  }

  /** One pass of the client loop: place the row's client if new, then its balance, or raise. */
  method PlaceRow(invoice: Invoice, endOfMonth: Day -> Day, monthColumn: map<Day, int>, ghost months: seq<Day>,
                  sheet: Sheet, clientRow: map<string, int>, rowIndex: int,
                  ghost rows: seq<Invoice>, ghost order: seq<string>, ghost sheet0: Sheet)
    returns (r: Result<(Sheet, map<string, int>, int)>)
    requires IsMonthColumns(monthColumn, months)
    requires AboveClientRows(sheet0)
    requires invoice.client.Some?
    requires order == ClientOrder(rows) && rowIndex == 3 + |order|
    requires Placed(sheet, clientRow, order, rows, months, endOfMonth, sheet0)
    ensures r.Err? <==> Fault(invoice, endOfMonth, months).Some?
    ensures r.Err? ==> r.error == Fault(invoice, endOfMonth, months).value
    ensures r.Ok? ==>
              var order' := ClientOrder(rows + [invoice]);
              r.value.2 == 3 + |order'| &&
              Placed(r.value.0, r.value.1, order', rows + [invoice], months, endOfMonth, sheet0)
  {
    var client := invoice.client.value;
    ClientOrderStep(rows, invoice);
    if invoice.due.None? {
      return Err(DateParseError);
    }
    var monthDue := endOfMonth(invoice.due.value);
    var sheet, clientRow, rowIndex := sheet, clientRow, rowIndex;
    ghost var order := order;
    if client !in clientRow {
      AddClient(sheet, clientRow, order, rows, months, endOfMonth, sheet0, client);
      clientRow := clientRow[client := rowIndex];
      sheet := sheet[(rowIndex, 1) := Text(client)];
      rowIndex := rowIndex + 1;
      order := order + [client];
    }
    if monthDue !in monthColumn {
      assert monthDue !in months;
      return Err(KeyError);
    }
    PlaceStep(sheet, clientRow, monthColumn, months, rows, order, invoice, endOfMonth, sheet0);
    sheet := sheet[(clientRow[client], monthColumn[monthDue]) := invoice.balance];
    return Ok((sheet, clientRow, rowIndex));
  }

  /** The client loop: breaks at the first row without a client; raises at the first faulty row. */
  method PlaceInvoices(invoices: seq<Invoice>, endOfMonth: Day -> Day, monthColumn: map<Day, int>,
                       ghost months: seq<Day>, sheet0: Sheet)
    returns (r: Result<(Sheet, int)>)
    requires IsMonthColumns(monthColumn, months)
    requires AboveClientRows(sheet0)
    ensures var rows := Scanned(invoices);
            && (r.Err? <==> FirstFault(rows, endOfMonth, months).Some?)
            && (r.Err? ==> r.error == FirstFault(rows, endOfMonth, months).value)
    ensures r.Ok? ==>
              var rows := Scanned(invoices);
              var order := ClientOrder(rows);
              r.value.1 == 3 + |order| && Filled(r.value.0, rows, order, months, endOfMonth, sheet0)
  {
    var sheet := sheet0;
    var clientRow: map<string, int> := map[];
    var rowIndex := 3;
    ghost var order: seq<string> := [];
    ghost var rows: seq<Invoice> := [];
    var i := 0;
    PlacedInitially(sheet0, rows, months, endOfMonth);
    while i < |invoices| && invoices[i].client.Some?
      invariant i <= |invoices| && forall k :: 0 <= k < i ==> invoices[k].client.Some?
      invariant rows == invoices[..i]
      invariant FirstFault(rows, endOfMonth, months).None?
      invariant order == ClientOrder(rows)
      invariant rowIndex == 3 + |order|
      invariant Placed(sheet, clientRow, order, rows, months, endOfMonth, sheet0)
    {
      ScanLengthBound(invoices, i + 1);
      ghost var scanned := Scanned(invoices);
      PrefixStep(invoices, i, |scanned|);
      FirstFaultStep(rows, invoices[i], endOfMonth, months);
      var step := PlaceRow(invoices[i], endOfMonth, monthColumn, months, sheet, clientRow, rowIndex, rows, order, sheet0);
      if step.Err? {
        FirstFaultPersists(scanned, i + 1, endOfMonth, months);
        return Err(step.error);
      }
      sheet, clientRow, rowIndex := step.value.0, step.value.1, step.value.2;
      order := ClientOrder(rows + [invoices[i]]);
      rows := rows + [invoices[i]];
      i := i + 1;
    }
    ScanLengthBound(invoices, i);
    return Ok((sheet, rowIndex));
  }

  /** A month has at most one last position. */
  lemma LastOccurrenceUnique(months: seq<Day>, j1: int, j2: int)
    requires 0 <= j1 < |months| && 0 <= j2 < |months| && months[j1] == months[j2]
    requires IsLastOccurrence(months, j1) && IsLastOccurrence(months, j2)
    ensures j1 == j2
  {
    assert !(j1 < j2);
    assert !(j2 < j1);
  }

  /** Appending a row changes the last balance only of the client and month it matches. */
  lemma LastBalanceStep(prefix: seq<Invoice>, invoice: Invoice, client: string, month: Day, endOfMonth: Day -> Day)
    ensures LastBalance(prefix + [invoice], client, month, endOfMonth) ==
            if Matches(invoice, client, month, endOfMonth) then Some(invoice.balance)
            else LastBalance(prefix, client, month, endOfMonth)
  {
    assert (prefix + [invoice])[..|prefix|] == prefix;
  }

  /** Writing the balance of a row into the cell of its client and month keeps BalanceCells. */
  lemma PlaceBalanceCells(sheet: Sheet, prefix: seq<Invoice>, order: seq<string>, months: seq<Day>,
                          endOfMonth: Day -> Day, invoice: Invoice, k0: int, j0: int)
    requires 0 <= k0 < |order| && 0 <= j0 < |months| && IsLastOccurrence(months, j0)
    requires Matches(invoice, order[k0], months[j0], endOfMonth)
    requires forall k :: 0 <= k < |order| && order[k] == order[k0] ==> k == k0
    requires BalanceCells(sheet, prefix, order, months, endOfMonth)
    ensures BalanceCells(sheet[(3 + k0, j0 + 2) := invoice.balance], prefix + [invoice], order, months, endOfMonth)
  {
    var rows, sheet' := prefix + [invoice], sheet[(3 + k0, j0 + 2) := invoice.balance];
    forall k, j | 0 <= k < |order| && 0 <= j < |months| && IsLastOccurrence(months, j)
      ensures && ((3 + k, j + 2) in sheet' <==> LastBalance(rows, order[k], months[j], endOfMonth).Some?)
              && ((3 + k, j + 2) in sheet' ==> sheet'[(3 + k, j + 2)] == LastBalance(rows, order[k], months[j], endOfMonth).value)
    {
      LastBalanceStep(prefix, invoice, order[k], months[j], endOfMonth);
      if (k, j) != (k0, j0) {
        if Matches(invoice, order[k], months[j], endOfMonth) {
          if k == k0 {
            LastOccurrenceUnique(months, j, j0);
          }
          assert false;
        }
      }
    }
  }

  /** The same write keeps every key of the sheet in sheet0 or in the client area. */
  lemma PlaceKeys(sheet: Sheet, prefix: seq<Invoice>, order: seq<string>, months: seq<Day>,
                  endOfMonth: Day -> Day, invoice: Invoice, k0: int, j0: int, sheet0: Sheet)
    requires 0 <= k0 < |order| && 0 <= j0 < |months| && IsLastOccurrence(months, j0)
    requires Matches(invoice, order[k0], months[j0], endOfMonth)
    requires forall key :: key in sheet ==> key in sheet0 || InClientArea(key, prefix, order, months, endOfMonth)
    ensures var sheet' := sheet[(3 + k0, j0 + 2) := invoice.balance];
            forall key :: key in sheet' ==> key in sheet0 || InClientArea(key, prefix + [invoice], order, months, endOfMonth)
  {
    var rows, sheet' := prefix + [invoice], sheet[(3 + k0, j0 + 2) := invoice.balance];
    forall key | key in sheet'
      ensures key in sheet0 || InClientArea(key, rows, order, months, endOfMonth)
    {
      if key == (3 + k0, j0 + 2) {
        LastBalanceStep(prefix, invoice, order[k0], months[j0], endOfMonth);
      } else if key !in sheet0 {
        assert InClientArea(key, prefix, order, months, endOfMonth);
        if key.1 != 1 {
          LastBalanceStep(prefix, invoice, order[key.0 - 3], months[key.1 - 2], endOfMonth);
        }
      }
    }
  }

  /** The row of a client already placed is 3 plus its unique position in the order. */
  lemma ClientRowPosition(clientRow: map<string, int>, order: seq<string>, client: string)
    requires forall c :: c in clientRow <==> c in order
    requires forall k :: 0 <= k < |order| ==> order[k] in clientRow && clientRow[order[k]] == 3 + k
    requires client in clientRow
    ensures 0 <= clientRow[client] - 3 < |order| && order[clientRow[client] - 3] == client
    ensures forall k :: 0 <= k < |order| && order[k] == client ==> k == clientRow[client] - 3
  {
    assert client in order;
    var kc :| 0 <= kc < |order| && order[kc] == client;
    assert clientRow[order[kc]] == 3 + kc;
  }

  /** A write below row 2 and right of column 1 keeps sheet0 and the client names. */
  lemma WriteKeepsNames(sheet: Sheet, order: seq<string>, sheet0: Sheet, key: (int, int), value: CellValue)
    requires AboveClientRows(sheet0)
    requires key.0 >= 3 && key.1 >= 2
    requires forall key :: key in sheet0 ==> key in sheet && sheet[key] == sheet0[key]
    requires ClientColumn(sheet, order)
    ensures forall k :: k in sheet0 ==> k in sheet[key := value] && sheet[key := value][k] == sheet0[k]
    ensures ClientColumn(sheet[key := value], order)
  {
  }

  /** One balance write of the client loop keeps the loop state, now with one more row. */
  lemma PlaceStep(sheet: Sheet, clientRow: map<string, int>, monthColumn: map<Day, int>, months: seq<Day>,
                  prefix: seq<Invoice>, order: seq<string>, invoice: Invoice, endOfMonth: Day -> Day, sheet0: Sheet)
    requires IsMonthColumns(monthColumn, months)
    requires AboveClientRows(sheet0)
    requires invoice.client.Some? && invoice.due.Some? && endOfMonth(invoice.due.value) in monthColumn
    requires invoice.client.value in clientRow
    requires Placed(sheet, clientRow, order, prefix, months, endOfMonth, sheet0)
    ensures Placed(sheet[(clientRow[invoice.client.value], monthColumn[endOfMonth(invoice.due.value)]) := invoice.balance],
                   clientRow, order, prefix + [invoice], months, endOfMonth, sheet0)
  {
    var client, month := invoice.client.value, endOfMonth(invoice.due.value);
    var row, column := clientRow[client], monthColumn[month];
    var k0, j0 := row - 3, column - 2;
    ClientRowPosition(clientRow, order, client);
    assert months[j0] == month && IsLastOccurrence(months, j0);
    PlaceBalanceCells(sheet, prefix, order, months, endOfMonth, invoice, k0, j0);
    PlaceKeys(sheet, prefix, order, months, endOfMonth, invoice, k0, j0, sheet0);
    WriteKeepsNames(sheet, order, sheet0, (row, column), invoice.balance);
  }

  // ---------------------------------------------------------------------------------------
  // The total row

  /** The formula of a month column: the sum of the client rows, 3 to lastRow, of that column. */
  function SumFormula(column: int, lastRow: int): string
    requires column >= 1
  {
    var col := ColumnLetter(column);
    "=SUM(" + col + "3:" + col + IntToString(lastRow) + ")"
  }

  /** The range inside the formula is the column range of the client rows; iter_cells_in_column reads it as exactly them. */
  lemma SumFormulaCoversClients(column: int, nClients: nat)
    requires column >= 1
    ensures var col := ColumnLetter(column);
            && SumFormula(column, 2 + nClients) == "=SUM(" + ReportCells.ColCellRange(col, 3, 2 + nClients) + ")"
            && ReportCells.IterCellsInColumn(col, 3, 2 + nClients) == Ok(seq(nClients, i => (3 + i, column)))
  {
    var col, last := ColumnLetter(column), IntToString(2 + nClients);
    ColumnIndexOfLetter(column);
    ReportCells.IterCellsInColumnVisits(col, 3, 2 + nClients);
    assert (if 3 <= 2 + nClients then 2 + nClients - 3 + 1 else 0) == nClients;
    assert seq(nClients, i => (3 + i, ColumnIndex(col))) == seq(nClients, i => (3 + i, column));
    assert IntToString(3) == "3";
    assert ReportCells.ColCellRange(col, 3, 2 + nClients) == col + "3" + ":" + col + last;
    FormulaText(col, last);
  }

  /** Regrouping the pieces of the formula text. */
  lemma FormulaText(col: string, last: string)
    ensures "=SUM(" + col + "3:" + col + last + ")" == "=SUM(" + (col + "3" + ":" + col + last) + ")"
  {
    assert "3:" == "3" + ":";
    var inner := col + "3" + ":" + col + last;
    assert "=SUM(" + col + "3:" + col + last == "=SUM(" + inner;
  }

  /** Row 2: "TOTAL" in column 1 and, in the column of each month, the sum down to lastRow. */
  ghost predicate TotalRow(sheet: Sheet, months: seq<Day>, lastRow: int) {
    && (2, 1) in sheet && sheet[(2, 1)] == Text("TOTAL")
    && forall c :: 2 <= c < |months| + 2 && IsLastOccurrence(months, c - 2) ==>
         (2, c) in sheet && sheet[(2, c)] == Text(SumFormula(c, lastRow))
  }

  ghost predicate InTotalRow(key: (int, int), months: seq<Day>) {
    key.0 == 2 && (key.1 == 1 || (2 <= key.1 < |months| + 2 && IsLastOccurrence(months, key.1 - 2)))
  }

  /** The total row after the loop has written the columns in written. */
  ghost predicate TotalsSoFar(sheet: Sheet, sheet0: Sheet, written: set<int>, lastRow: int) {
    && (2, 1) in sheet && sheet[(2, 1)] == Text("TOTAL")
    && (forall c {:trigger c in written} ::
          c in written ==> c >= 2 && (2, c) in sheet && sheet[(2, c)] == Text(SumFormula(c, lastRow)))
    && (forall key {:trigger key in sheet} {:trigger key in sheet0} ::
          key in sheet <==> key in sheet0 || key == (2, 1) || (key.0 == 2 && key.1 in written))
    && (forall key {:trigger key in sheet0} ::
          key in sheet0 && key != (2, 1) && !(key.0 == 2 && key.1 in written) ==> sheet[key] == sheet0[key])
  }

  /** Writing the formula of one more column keeps TotalsSoFar. */
  lemma TotalsStep(sheet: Sheet, sheet0: Sheet, written: set<int>, lastRow: int, column: int)
    requires TotalsSoFar(sheet, sheet0, written, lastRow) && column >= 2
    ensures TotalsSoFar(sheet[(2, column) := Text(SumFormula(column, lastRow))], sheet0, written + {column}, lastRow)
  {
  }

  /** The state of the total-row loop: the months still to visit, those done, the columns written. */
  ghost predicate TotalsLoop(sheet: Sheet, sheet0: Sheet, monthColumn: map<Day, int>, months: seq<Day>,
                             remaining: set<Day>, done: set<Day>, written: set<int>, lastRow: int) {
    && remaining + done == monthColumn.Keys && remaining !! done
    && (forall m :: m in done ==> monthColumn[m] in written)
    && (forall c :: c in written ==> 2 <= c < |months| + 2 && IsLastOccurrence(months, c - 2))
    && TotalsSoFar(sheet, sheet0, written, lastRow)
  }

  /** Visiting one more month of month2column keeps the loop state. */
  lemma TotalsLoopStep(sheet: Sheet, sheet0: Sheet, monthColumn: map<Day, int>, months: seq<Day>,
                       remaining: set<Day>, done: set<Day>, written: set<int>, lastRow: int, month: Day)
    requires IsMonthColumns(monthColumn, months)
    requires TotalsLoop(sheet, sheet0, monthColumn, months, remaining, done, written, lastRow)
    requires month in remaining
    ensures month in monthColumn && monthColumn[month] >= 2
    ensures var column := monthColumn[month];
            TotalsLoop(sheet[(2, column) := Text(SumFormula(column, lastRow))], sheet0, monthColumn, months,
                       remaining - {month}, done + {month}, written + {column}, lastRow)
  {
    var column := monthColumn[month];
    assert 2 <= column < |months| + 2 && IsLastOccurrence(months, column - 2);
    TotalsStep(sheet, sheet0, written, lastRow, column);
  }

  /** Some month of a non-empty set: the next key of the dictionary iteration, in an order left open. */
  method AnyMonth(months: set<Day>) returns (month: Day)
    requires months != {}
    ensures month in months
  {
    MemberOfNonEmpty(months);
    month :| month in months;
  }

  /** A set of months with no member is empty. */
  lemma MemberOfNonEmpty(months: set<Day>)
    ensures months == {} || exists month :: month in months
  {
    if forall month: Day :: month !in months {
      assert months == {};
    }
  }

  /** The total-row loop of the source: month2column.itervalues(), the column of each month in turn. */
  method WriteTotals(sheet0: Sheet, monthColumn: map<Day, int>, ghost months: seq<Day>, rowIndex: int)
    returns (sheet: Sheet)
    requires IsMonthColumns(monthColumn, months)
    ensures TotalRow(sheet, months, rowIndex - 1)
    ensures forall key :: key in sheet <==> key in sheet0 || InTotalRow(key, months)
    ensures forall key :: key in sheet0 && !InTotalRow(key, months) ==> sheet[key] == sheet0[key]
  {
    sheet := sheet0[(2, 1) := Text("TOTAL")];
    var remaining := monthColumn.Keys;
    ghost var done: set<Day> := {};
    ghost var written: set<int> := {};
    while remaining != {}
      invariant TotalsLoop(sheet, sheet0, monthColumn, months, remaining, done, written, rowIndex - 1)
    {
      var month := AnyMonth(remaining);
      TotalsLoopStep(sheet, sheet0, monthColumn, months, remaining, done, written, rowIndex - 1, month);
      var column := monthColumn[month];
      sheet := sheet[(2, column) := Text(SumFormula(column, rowIndex - 1))];
      remaining := remaining - {month};
      done := done + {month};
      written := written + {column};
    }
    TotalsDone(sheet, sheet0, monthColumn, months, remaining, done, written, rowIndex - 1);
  }

  /** When no month remains, the loop state is the finished total row. */
  lemma TotalsDone(sheet: Sheet, sheet0: Sheet, monthColumn: map<Day, int>, months: seq<Day>,
                   remaining: set<Day>, done: set<Day>, written: set<int>, lastRow: int)
    requires IsMonthColumns(monthColumn, months)
    requires TotalsLoop(sheet, sheet0, monthColumn, months, remaining, done, written, lastRow) && remaining == {}
    ensures TotalRow(sheet, months, lastRow)
    ensures forall key :: key in sheet <==> key in sheet0 || InTotalRow(key, months)
    ensures forall key :: key in sheet0 && !InTotalRow(key, months) ==> sheet[key] == sheet0[key]
  {
    WrittenColumns(monthColumn, months, written);
    TotalsWritten(sheet0, sheet, months, written, lastRow);
  }

  /** After the loop every column of month2column is written: the total row is complete. */
  lemma TotalsWritten(sheet0: Sheet, sheet: Sheet, months: seq<Day>, written: set<int>, lastRow: int)
    requires forall c :: c in written <==> 2 <= c < |months| + 2 && IsLastOccurrence(months, c - 2)
    requires TotalsSoFar(sheet, sheet0, written, lastRow)
    ensures TotalRow(sheet, months, lastRow)
    ensures forall key :: key in sheet <==> key in sheet0 || InTotalRow(key, months)
    ensures forall key :: key in sheet0 && !InTotalRow(key, months) ==> sheet[key] == sheet0[key]
  {
    forall c | 2 <= c < |months| + 2 && IsLastOccurrence(months, c - 2)
      ensures (2, c) in sheet && sheet[(2, c)] == Text(SumFormula(c, lastRow))
    {
      assert c in written;
    }
    forall key: (int, int) | key.0 == 2
      ensures InTotalRow(key, months) <==> key == (2, 1) || key.1 in written
    {
    }
  }

  /** The columns the loop wrote are exactly the columns of the last occurrences. */
  lemma WrittenColumns(monthColumn: map<Day, int>, months: seq<Day>, written: set<int>)
    requires IsMonthColumns(monthColumn, months)
    requires forall m :: m in monthColumn ==> monthColumn[m] in written
    requires forall c :: c in written ==> 2 <= c < |months| + 2 && IsLastOccurrence(months, c - 2)
    ensures forall c :: c in written <==> 2 <= c < |months| + 2 && IsLastOccurrence(months, c - 2)
  {
    forall c | 2 <= c < |months| + 2 && IsLastOccurrence(months, c - 2)
      ensures c in written
    {
      MonthColumnOfPosition(monthColumn, months, c - 2);
    }
  }

  // ---------------------------------------------------------------------------------------
  // The whole report

  /** The finished accounts-receivable sheet for the scanned rows and the month range. */
  ghost predicate IsAccountsReceivable(sheet: Sheet, rows: seq<Invoice>, months: seq<Day>, endOfMonth: Day -> Day) {
    var order := ClientOrder(rows);
    && HeaderRow(sheet, months)
    && TotalRow(sheet, months, 2 + |order|)
    && ClientColumn(sheet, order)
    && BalanceCells(sheet, rows, order, months, endOfMonth)
    && forall key :: key in sheet ==>
         InHeaderRow(key, months) || InTotalRow(key, months) || InClientArea(key, rows, order, months, endOfMonth)
  }

  /** The header sheet has nothing in the client rows. */
  lemma HeaderAboveClients(header: Sheet, months: seq<Day>)
    requires forall key :: key in header ==> InHeaderRow(key, months)
    ensures AboveClientRows(header)
  {
    forall r, c | (r, c) in header
      ensures r < 3
    {
      assert InHeaderRow((r, c), months);
    }
  }

  /** The three phases together give the finished sheet. */
  lemma AssembleReport(header: Sheet, placed: Sheet, sheet: Sheet, rows: seq<Invoice>, months: seq<Day>,
                       endOfMonth: Day -> Day)
    requires HeaderRow(header, months) && forall key :: key in header ==> InHeaderRow(key, months)
    requires Filled(placed, rows, ClientOrder(rows), months, endOfMonth, header)
    requires TotalRow(sheet, months, 2 + |ClientOrder(rows)|)
    requires forall key :: key in sheet <==> key in placed || InTotalRow(key, months)
    requires forall key :: key in placed && !InTotalRow(key, months) ==> sheet[key] == placed[key]
    ensures IsAccountsReceivable(sheet, rows, months, endOfMonth)
  {
    var order := ClientOrder(rows);
    forall c | 2 <= c < |months| + 2
      ensures (1, c) in sheet && sheet[(1, c)] == Date(months[c - 2])
    {
      assert (1, c) in header;
    }
    forall r | 3 <= r < 3 + |order|
      ensures (r, 1) in sheet && sheet[(r, 1)] == Text(order[r - 3])
    {
      assert (r, 1) in placed;
    }
    forall k, j | 0 <= k < |order| && 0 <= j < |months| && IsLastOccurrence(months, j)
      ensures && ((3 + k, j + 2) in sheet <==> LastBalance(rows, order[k], months[j], endOfMonth).Some?)
              && ((3 + k, j + 2) in sheet ==> sheet[(3 + k, j + 2)] == LastBalance(rows, order[k], months[j], endOfMonth).value)
    {
      assert !InTotalRow((3 + k, j + 2), months);
    }
    forall key | key in sheet
      ensures InHeaderRow(key, months) || InTotalRow(key, months) || InClientArea(key, rows, order, months, endOfMonth)
    {
      if !InTotalRow(key, months) && key !in header {
        assert key in placed;
      }
    }
  }

  /** `unpaid_invoices2accounts_receivable`: the four loops of the source, then the finished sheet. */
  method UnpaidInvoicesToAccountsReceivable(invoices: seq<Invoice>, endOfMonth: Day -> Day,
                                            iterEndOfMonths: (Day, Day) -> seq<Day>)
    returns (r: Result<Sheet>)
    ensures DueMonths(invoices, endOfMonth) == [] ==> r == Err(ValueError)
    ensures DueMonths(invoices, endOfMonth) != [] ==>
              var months := iterEndOfMonths(StartDate, Max(DueMonths(invoices, endOfMonth)));
              var rows := Scanned(invoices);
              && (r.Err? <==> FirstFault(rows, endOfMonth, months).Some?)
              && (r.Err? ==> r.error == FirstFault(rows, endOfMonth, months).value)
              && (r.Ok? ==> IsAccountsReceivable(r.value, rows, months, endOfMonth))
  {
    var maxDate := MaxDueMonth(invoices, endOfMonth);
    if maxDate.Err? {
      return Err(maxDate.error);
    }
    var months := iterEndOfMonths(StartDate, maxDate.value);
    var header, monthColumn := WriteMonthHeader(months);
    HeaderAboveClients(header, months);
    var placed := PlaceInvoices(invoices, endOfMonth, monthColumn, months, header);
    if placed.Err? {
      return Err(placed.error);
    }
    var sheet := WriteTotals(placed.value.0, monthColumn, months, placed.value.1);
    AssembleReport(header, placed.value.0, sheet, Scanned(invoices), months, endOfMonth);
    return Ok(sheet);
  }
}

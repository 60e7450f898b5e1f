/** The docket spreadsheet as services/google_requests.py uses it, held in memory.

    The "Pending Cases" region is a sequence of rows, the first of which is sheet row
    `dataStartRow`; column 0 is column A. Each of the two case logs is the sequence of
    rows that starts at the top-left cell named by its configured range. The two
    counter cells hold the last available case numbers, and the judge table is the
    block that starts at `Data!A3`.

    A cell holds what was written to it (a formula is kept as its text). A read returns,
    for each row, the cells inside the requested columns with trailing empty cells
    dropped, and drops trailing empty rows: that is what the Sheets API returns, and the
    scans below depend on it. Read with formulas (the `FORMULA` render option) a cell is
    its text; read for display (the default) a HYPERLINK formula is its caption. */
module CaseStore {
  import opened Text
  import opened Cells

  type Row = seq<string>

  /** A Python exception, with the text `str(e)` would give. */
  datatype Outcome<T> = Ok(value: T) | Raised(error: string)

  /** The `{"success": ..., "message": ...}` dict most store functions return. */
  datatype Reply = Reply(success: bool, message: string)

  // ---------------------------------------------------------------- what a read returns

  /** A row without its trailing empty cells. */
  function TrimRow(row: Row): (r: Row)
    ensures |r| <= |row| && r == row[..|r|]
    ensures r != [] ==> r[|r| - 1] != ""
  {
    if row != [] && row[|row| - 1] == "" then TrimRow(row[..|row| - 1]) else row
  }

  /** What the trim drops are empty cells. */
  lemma {:induction false} TrimRowDropsEmpty(row: Row)
    ensures forall i :: |TrimRow(row)| <= i < |row| ==> row[i] == ""
  {
    if row != [] && row[|row| - 1] == "" {
      TrimRowDropsEmpty(row[..|row| - 1]);
      assert forall i :: |TrimRow(row)| <= i < |row| - 1 ==> row[i] == row[..|row| - 1][i];
    }
  }

  /** The first `width` cells of a row. */
  function Clip(row: Row, width: nat): (r: Row)
    ensures |r| <= width && |r| <= |row| && r == row[..|r|]
    ensures |row| <= width ==> r == row
    ensures |row| > width ==> |r| == width
  {
    if |row| <= width then row else row[..width]
  }

  /** What a cell shows: the caption of a HYPERLINK formula, otherwise its text.
      (Other formulas are not evaluated.) */
  function Displayed(cell: string): (d: string)
    ensures d == [] <==> cell == []
  {
    if StartsWith(cell, "=") then VisibleText(cell) else cell
  }

  /** A row as a read in the given render option returns its cells. */
  function Render(row: Row, formulas: bool): (r: Row)
    ensures |r| == |row|
    ensures formulas ==> r == row
    ensures !formulas ==> forall i {:trigger r[i]} :: 0 <= i < |row| ==> r[i] == Displayed(row[i])
  {
    if formulas then row else seq(|row|, i requires 0 <= i < |row| => Displayed(row[i]))
  }

  /** No cell among the first `width` holds anything. */
  predicate Blank(row: Row, width: nat) {
    forall i :: 0 <= i < |row| && i < width ==> row[i] == ""
  }

  /** One row of a read of the first `width` columns. */
  function Window(row: Row, width: nat, formulas: bool): (r: Row)
    ensures |r| <= width && |r| <= |row|
    ensures r == [] <==> Blank(row, width)
    ensures formulas ==> forall i {:trigger r[i]} :: 0 <= i < |r| ==> r[i] == row[i]
    ensures !formulas ==> forall i {:trigger r[i]} :: 0 <= i < |r| ==> r[i] == Displayed(row[i])
  {
    var c := Render(Clip(row, width), formulas);
    if Blank(row, width) then
      TrimBlank(c);
      TrimRow(c)
    else
      var i :| 0 <= i < |row| && i < width && row[i] != "";
      assert c[i] != "";
      TrimRowDropsEmpty(c);
      TrimRow(c)
  }

  /** A row of empty cells reads as no cells. */
  lemma {:induction false} TrimBlank(row: Row)
    requires forall i :: 0 <= i < |row| ==> row[i] == ""
    ensures TrimRow(row) == []
  {
    if row != [] {
      TrimBlank(row[..|row| - 1]);
    }
  }

  /** The number of rows a read returns: up to the last row that is not blank. */
  function Extent(rows: seq<Row>, width: nat): (n: nat)
    ensures n <= |rows|
    ensures n > 0 ==> !Blank(rows[n - 1], width)
    ensures forall i :: n <= i < |rows| ==> Blank(rows[i], width)
  {
    FullPrefix(rows, width)
  }

  /** The rows up to the last one that is not blank, counted. */
  function FullPrefix(rows: seq<Row>, width: nat): (n: nat)
    ensures n <= |rows|
    ensures n > 0 ==> !Blank(rows[n - 1], width)
    ensures forall i :: n <= i < |rows| ==> Blank(rows[i], width)
  {
    if rows == [] then 0
    else if Blank(rows[|rows| - 1], width) then FullPrefix(rows[..|rows| - 1], width)
    else |rows|
  }

  /** The extent is the one position after which every row is blank and before which
      the row is not. */
  lemma {:induction false} ExtentIs(rows: seq<Row>, width: nat, n: nat)
    requires n <= |rows|
    requires n > 0 ==> !Blank(rows[n - 1], width)
    requires forall i :: n <= i < |rows| ==> Blank(rows[i], width)
    ensures Extent(rows, width) == n
  {
    if n < |rows| {
      var p := rows[..|rows| - 1];
      ExtentIs(p, width, n);
    }
  }

  /** A read of the first `width` columns of a region. */
  function View(rows: seq<Row>, width: nat, formulas: bool): (v: seq<Row>)
    ensures |v| == Extent(rows, width)
    ensures forall i {:trigger v[i]} :: 0 <= i < |v| ==> v[i] == Window(rows[i], width, formulas)
  {
    var n := Extent(rows, width);
    seq(n, i requires 0 <= i < n => Window(rows[i], width, formulas))
  }

  /** A row a read returns is never empty at its end. */
  lemma ViewRowsEndFull(rows: seq<Row>, width: nat, formulas: bool)
    requires Extent(rows, width) > 0
    ensures View(rows, width, formulas)[Extent(rows, width) - 1] != []
  {
  }

  // ---------------------------------------------------------------- writing rows

  /** A stored row after `vals` is written over its first cells. */
  function Write(stored: Row, vals: Row): (r: Row)
    ensures |r| == if |vals| >= |stored| then |vals| else |stored|
    ensures forall i :: 0 <= i < |r| ==> r[i] == if i < |vals| then vals[i] else stored[i]
  {
    vals + (if |vals| < |stored| then stored[|vals|..] else [])
  }

  /** A region after `vals` is written at its row `k`. */
  function PutRow(rows: seq<Row>, k: nat, vals: Row): (r: seq<Row>)
    requires k <= |rows|
    ensures |r| == if k < |rows| then |rows| else |rows| + 1
    ensures r[k] == if k < |rows| then Write(rows[k], vals) else vals
    ensures forall i :: 0 <= i < |r| && i != k ==> r[i] == rows[i]
  {
    if k < |rows| then rows[k := Write(rows[k], vals)] else rows + [vals]
  }

  /** `values.append`: the row goes just after the last row that is not blank. */
  function Append(rows: seq<Row>, vals: Row): seq<Row> {
    PutRow(rows, Extent(rows, 6), vals)
  }

  /** Editing the number of a row just appended, which no earlier row carries, rewrites
      that row with the overlay of the changes on what was read of it. */
  lemma EditAppended(rows: seq<Row>, row: Row, number: string, changes: seq<(string, string)>, u: Row)
    requires |row| == 6 && !Blank(row, 6) && |u| == 6
    requires NumberHit(number)(Window(row, 6, false))
    requires NoHitBefore(View(rows, 6, false), NumberHit(number), Extent(rows, 6))
    requires Overlay(Window(row, 6, false), changes) == Some(u)
    ensures EditResult(Append(rows, row), number, changes)
         == (Reply(true, "Case '" + number + "' successfully updated."), Append(rows, u))
  {
    ViewAfterAppend(rows, row, false);
    FirstHitAfter(View(rows, 6, false), Window(row, 6, false), NumberHit(number), Extent(rows, 6));
    RewriteAppended(rows, row, u);
  }

  /** Writing a row of the same width over an appended row is appending that row instead. */
  lemma RewriteAppended(rows: seq<Row>, a: Row, b: Row)
    requires |a| == |b|
    ensures Append(rows, a)[Extent(rows, 6) := Write(Append(rows, a)[Extent(rows, 6)], b)] == Append(rows, b)
  {
    if Extent(rows, 6) < |rows| {
      WriteTwice(rows[Extent(rows, 6)], a, b);
    } else {
      assert Append(rows, a) == rows + [a];
      WriteTwice([], a, b);
    }
  }

  /** A second write of the same width replaces the first. */
  lemma WriteTwice(stored: Row, a: Row, b: Row)
    requires |a| == |b|
    ensures Write(Write(stored, a), b) == Write(stored, b)
    ensures Write(a, b) == b
  {
    assert forall i :: 0 <= i < |Write(stored, b)| ==> Write(Write(stored, a), b)[i] == Write(stored, b)[i];
  }

  /** A region after its row `k` is deleted and the rows below move up. */
  function RemoveRow(rows: seq<Row>, k: nat): (r: seq<Row>)
    requires k < |rows|
    ensures |r| == |rows| - 1
    ensures forall i :: 0 <= i < |r| ==> r[i] == if i < k then rows[i] else rows[i + 1]
  {
    rows[..k] + rows[k + 1..]
  }

  /** Writing six cells with something in them is seen by the next read as one more row. */
  lemma ViewAfterAppend(rows: seq<Row>, vals: Row, formulas: bool)
    requires |vals| == 6 && !Blank(vals, 6)
    ensures View(Append(rows, vals), 6, formulas) == View(rows, 6, formulas) + [Window(vals, 6, formulas)]
  {
    var k := Extent(rows, 6);
    var r := Append(rows, vals);
    var w := r[k];
    assert Clip(w, 6) == vals by {
      if k < |rows| { assert w == Write(rows[k], vals); }
    }
    assert !Blank(w, 6) by {
      var i :| 0 <= i < |vals| && i < 6 && vals[i] != "";
      assert w[i] == vals[i];
    }
    ExtentIs(r, 6, k + 1);
    assert Window(w, 6, formulas) == Window(vals, 6, formulas);
  }

  // ---------------------------------------------------------------- finding a row

  /** edit_docket's test: the number cell equals the number after `strip().lower()`;
      rows of three cells or fewer are skipped. */
  function NumberHit(number: string): Row -> bool {
    row => |row| > 3 && EditKey(row[3]) == EditKey(number)
  }

  /** get_case_info_from_number's test: the visible text of the number cell and the
      number are equal once normalised. */
  function LabelHit(number: string): Row -> bool {
    row => |row| > 3 && Normalize(VisibleText(row[3])) == Normalize(number)
  }

  /** delete_case_row's test: the name and the number cells both match after `strip().lower()`. */
  function NameNumberHit(name: string, number: string): Row -> bool {
    row => |row| > 3 && EditKey(row[2]) == EditKey(name) && EditKey(row[3]) == EditKey(number)
  }

  /** Which rows the scan stops at. */
  function Marks(rows: seq<Row>, hit: Row -> bool): (m: seq<bool>)
    ensures |m| == |rows|
    ensures forall i :: 0 <= i < |rows| ==> m[i] == hit(rows[i])
  {
    seq(|rows|, i requires 0 <= i < |rows| => hit(rows[i]))
  }

  /** The first position that is marked. */
  function FirstTrue(m: seq<bool>): (r: Option<nat>)
    ensures r.Some? ==> r.value < |m| && m[r.value]
    ensures r.Some? ==> forall j :: 0 <= j < r.value ==> !m[j]
    ensures r.None? <==> forall j :: 0 <= j < |m| ==> !m[j]
  {
    if m == [] then None
    else if m[0] then Some(0)
    else match FirstTrue(m[1..])
      case Some(k) => Some(k + 1)
      case None => None
  }

  /** The first marked position is the one before which nothing is marked. */
  /** No position before `k` is marked. */
  predicate NoneBefore(m: seq<bool>, k: nat) {
    forall j :: 0 <= j < k && j < |m| ==> !m[j]
  }

  lemma {:induction false} FirstTrueAt(m: seq<bool>, k: nat)
    requires k < |m| && m[k]
    requires NoneBefore(m, k)
    ensures FirstTrue(m) == Some(k)
  {
    if k > 0 {
      assert !m[0];
      FirstTrueAt(m[1..], k - 1);
    }
  }

  /** The index of the first row the scan stops at. */
  function FirstHit(rows: seq<Row>, hit: Row -> bool): (r: Option<nat>)
    ensures r.Some? ==> r.value < |rows| && hit(rows[r.value])
    ensures r.Some? ==> forall j :: 0 <= j < r.value ==> !hit(rows[j])
    ensures r.None? <==> forall j :: 0 <= j < |rows| ==> !hit(rows[j])
  {
    var m := Marks(rows, hit);
    assert forall j :: 0 <= j < |rows| ==> m[j] == hit(rows[j]);
    FirstTrue(m)
  }

  /** The scan stops at the row before which no row matches. */
  /** No row before position `k` matches. */
  predicate NoHitBefore(rows: seq<Row>, hit: Row -> bool, k: nat) {
    forall j :: 0 <= j < k && j < |rows| ==> !hit(rows[j])
  }

  lemma FirstHitAt(rows: seq<Row>, hit: Row -> bool, k: nat)
    requires k < |rows| && hit(rows[k])
    requires NoHitBefore(rows, hit, k)
    ensures FirstHit(rows, hit) == Some(k)
  {
    FirstTrueAt(Marks(rows, hit), k);
  }

  /** The `for offset, row in enumerate(values)` loop that breaks at the first match. */
  method FindRow(rows: seq<Row>, hit: Row -> bool) returns (r: Option<nat>)
    ensures r == FirstHit(rows, hit)
  {
    var offset := 0;
    while offset < |rows|
      invariant 0 <= offset <= |rows|
      invariant forall j :: 0 <= j < offset ==> !hit(rows[j])
    {
      if hit(rows[offset]) {
        FirstHitAt(rows, hit, offset);
        return Some(offset);
      }
      offset := offset + 1;
    }
    return None;
  }

  // ---------------------------------------------------------------- the docket row

  /** The case fields add_to_docket takes. */
  datatype CaseRecord = CaseRecord(judge: string, caseStatus: string, caseName: string,
                                   caseNumber: string, filingDate: string, filingLink: string)

  function RecordRow(c: CaseRecord): Row {
    DocketRow(c.judge, c.caseStatus, c.caseName, c.caseNumber, c.filingDate, c.filingLink)
  }

  /** What get_case_info_from_number reports about a found row. */
  datatype CaseInfo = CaseInfo(rowNumber: nat, caseName: string, caseStatus: string,
                               filingDate: Option<string>, link: Option<string>, judge: string)

  datatype Lookup = Found(info: CaseInfo) | Missing(message: string)

  /** A cell of a row, "" past its end. */
  function CellOr(row: Row, i: nat): string {
    if i < |row| then row[i] else ""
  }

  /** The fields of a found row (the tests that find a row need four cells). */
  function InfoOf(row: Row, rowNumber: nat): CaseInfo {
    CaseInfo(rowNumber, CellOr(row, 2), CellOr(row, 1),
             if |row| > 4 then Some(row[4]) else None,
             if |row| > 5 && row[5] != "" then ExtractUrl(row[5]) else None,
             CellOr(row, 0))
  }

  /** get_case_info_from_number over the rows of its read, stopping at the first row
      `hit` accepts. */
  function LookupAmong(rows: seq<Row>, start: nat, hit: Row -> bool, number: string): (r: Lookup)
    ensures r.Found? ==> exists k :: 0 <= k < |rows| && hit(rows[k]) && r.info == InfoOf(rows[k], start + k)
    ensures r.Found? <==> exists k :: 0 <= k < |rows| && hit(rows[k])
    ensures rows == [] ==> r == Missing("Sheet is empty or no values returned.")
  {
    if rows == [] then Missing("Sheet is empty or no values returned.")
    else match FirstHit(rows, hit)
      case Some(k) => Found(InfoOf(rows[k], start + k))
      case None => Missing("Case number '" + number + "' not found.")
  }

  /** The lookup reports the row the scan stops at, under its sheet row number. */
  lemma LookupAmongAt(rows: seq<Row>, start: nat, hit: Row -> bool, number: string, k: nat, rowNumber: nat, row: Row)
    requires FirstHit(rows, hit) == Some(k) && rowNumber == start + k
    requires k < |rows| && rows[k] == row
    ensures LookupAmong(rows, start, hit, number) == Found(InfoOf(row, rowNumber))
  {
  }

  /** get_case_info_from_number over the rows of a formula read. */
  function LookupIn(rows: seq<Row>, start: nat, number: string): Lookup {
    LookupAmong(rows, start, LabelHit(number), number)
  }

  /** The scan of get_case_info_from_number. */
  method LookupRows(rows: seq<Row>, start: nat, hit: Row -> bool, number: string) returns (r: Lookup)
    ensures r == LookupAmong(rows, start, hit, number)
  {
    if rows == [] {
      return Missing("Sheet is empty or no values returned.");
    }
    var found := FindRow(rows, hit);
    if found.None? {
      return Missing("Case number '" + number + "' not found.");
    }
    r := Found(InfoOf(rows[found.value], start + found.value));
  }

  /** A case just appended is found by its own number, on the row after the last one,
      with the fields it was written with and its filing link read back out of the formula. */
  lemma {:induction false} AppendThenLookup(rows: seq<Row>, start: nat, c: CaseRecord)
    requires NoKeyword(c.caseNumber)
    requires IsHttp(c.filingLink) && '"' !in c.filingLink && !IsSpace(c.filingLink[|c.filingLink| - 1])
    requires NoHitBefore(View(rows, 6, true), LabelHit(c.caseNumber), Extent(rows, 6))
    ensures LookupIn(View(Append(rows, RecordRow(c)), 6, true), start, c.caseNumber)
         == Found(CaseInfo(start + Extent(rows, 6), c.caseName, c.caseStatus, Some(c.filingDate),
                           Some(c.filingLink), c.judge))
  {
    AppendedRecordReads(rows, c);
    RecordFoundByNumber(c);
    RecordInfo(c, start + Extent(rows, 6));
    FoundAfter(View(rows, 6, true), View(Append(rows, RecordRow(c)), 6, true), RecordRow(c), start,
               LabelHit(c.caseNumber), c.caseNumber, Extent(rows, 6), start + Extent(rows, 6),
               CaseInfo(start + Extent(rows, 6), c.caseName, c.caseStatus, Some(c.filingDate),
                        Some(c.filingLink), c.judge));
  }

  /** A lookup over rows none of which match followed by one that does reports that one. */
  lemma FoundAfter(before: seq<Row>, after: seq<Row>, vals: Row, start: nat, hit: Row -> bool,
                   number: string, k: nat, rowNumber: nat, info: CaseInfo)
    requires after == before + [vals] && k == |before| && rowNumber == start + k
    requires hit(vals) && NoHitBefore(before, hit, k)
    requires InfoOf(vals, rowNumber) == info
    ensures LookupAmong(after, start, hit, number) == Found(info)
  {
    FirstHitAfter(before, vals, hit, k);
    LookupAmongAt(after, start, hit, number, k, rowNumber, vals);
  }

  /** A scan over rows none of which match, and then one that does, stops at that one. */
  lemma FirstHitAfter(before: seq<Row>, vals: Row, hit: Row -> bool, k: nat)
    requires k == |before| && hit(vals) && NoHitBefore(before, hit, k)
    ensures (before + [vals])[k] == vals
    ensures FirstHit(before + [vals], hit) == Some(k)
  {
    var v := before + [vals];
    assert NoHitBefore(v, hit, k) by {
      assert forall j :: 0 <= j < k ==> v[j] == before[j];
    }
    FirstHitAt(v, hit, k);
  }

  /** The appended record reads back as one more row, cell for cell. */
  lemma AppendedRecordReads(rows: seq<Row>, c: CaseRecord)
    requires IsHttp(c.filingLink)
    ensures View(Append(rows, RecordRow(c)), 6, true) == View(rows, 6, true) + [RecordRow(c)]
  {
    var vals := RecordRow(c);
    assert vals[5] != "" by {
      assert vals[5] == LinkFormula(c.filingLink);
      FormulaLayout(c.filingLink, "Link");
    }
    assert !Blank(vals, 6);
    ViewAfterAppend(rows, vals, true);
    assert TrimRow(vals) == vals;
  }

  /** A record's row is found by the record's own number. */
  lemma RecordFoundByNumber(c: CaseRecord)
    requires NoKeyword(c.caseNumber)
    ensures LabelHit(c.caseNumber)(RecordRow(c))
  {
    VisibleTextPlain(c.caseNumber);
  }

  /** What the lookup reports about a record's row. */
  lemma RecordInfo(c: CaseRecord, rowNumber: nat)
    requires IsHttp(c.filingLink) && '"' !in c.filingLink && !IsSpace(c.filingLink[|c.filingLink| - 1])
    ensures InfoOf(RecordRow(c), rowNumber)
         == CaseInfo(rowNumber, c.caseName, c.caseStatus, Some(c.filingDate), Some(c.filingLink), c.judge)
  {
    assert RecordRow(c)[5] == LinkFormula(c.filingLink);
    assert LinkFormula(c.filingLink) != "" by { FormulaLayout(c.filingLink, "Link"); }
    ExtractLinkFormula(c.filingLink);
  }

  // ---------------------------------------------------------------- editing a row

  /** edit_docket's column map, on lower-cased keys. */
  function ColumnOf(key: string): (r: Option<nat>)
    ensures r.Some? ==> r.value < 6
  {
    if key == "judge" then Some(0)
    else if key == "case_status" then Some(1)
    else if key == "case_name" then Some(2)
    else if key == "case_number" then Some(3)
    else if key == "filing_date" then Some(4)
    else if key == "filing_link" then Some(5)
    else None
  }

  /** The column a change names, by its lower-cased key. */
  function NamedColumn(change: (string, string)): Option<nat> {
    ColumnOf(Lower(change.0))
  }

  /** The value of the last change that names `col`: the one the lower-cased dict keeps. */
  function LastValueFor(changes: seq<(string, string)>, col: nat): (r: Option<string>)
  {
    if changes == [] then None
    else
      var last := changes[|changes| - 1];
      if NamedColumn(last) == Some(col) then Some(last.1)
      else LastValueFor(changes[..|changes| - 1], col)
  }

  /** The cell a change writes: a non-empty filing link becomes its HYPERLINK formula. */
  function Encode(col: nat, value: string): string {
    if col == 5 && value != "" then LinkFormula(value) else value
  }

  /** Every column the changes name exists in the row read back (otherwise the
      assignment raises IndexError). */
  predicate Fits(row: Row, changes: seq<(string, string)>) {
    forall i :: 0 <= i < |changes| && NamedColumn(changes[i]).Some? ==> NamedColumn(changes[i]).value < |row|
  }

  /** The row edit_docket writes back: each named column holds the encoded value of the
      last change naming it, every other cell is the one read. */
  function Overlay(row: Row, changes: seq<(string, string)>): (r: Option<Row>)
    ensures r.Some? <==> Fits(row, changes)
    ensures r.Some? ==> |r.value| == |row|
  {
    if !Fits(row, changes) then None
    else Some(seq(|row|, i requires 0 <= i < |row| =>
      match LastValueFor(changes, i)
      case Some(v) => Encode(i, v)
      case None => row[i]))
  }

  /** Each cell of the overlay: the encoded last value of the changes naming its column,
      or the cell read when none names it. */
  lemma OverlayCells(row: Row, changes: seq<(string, string)>)
    requires Fits(row, changes)
    ensures forall i :: 0 <= i < |row| && LastValueFor(changes, i).None? ==> Overlay(row, changes).value[i] == row[i]
    ensures forall i :: 0 <= i < |row| && LastValueFor(changes, i).Some? ==>
      Overlay(row, changes).value[i] == Encode(i, LastValueFor(changes, i).value)
  {
  }

  /** The loop of edit_docket that overwrites the copied row cell by cell. Key
      lower-casing keeps the last value of each key, and assigning in the order of the
      changes leaves the same last value in each cell. */
  method ApplyChanges(row: Row, changes: seq<(string, string)>) returns (r: Option<Row>)
    ensures r == Overlay(row, changes)
  {
    var updated := row;
    var i := 0;
    while i < |changes|
      invariant 0 <= i <= |changes|
      invariant |updated| == |row|
      invariant Fits(row, changes[..i])
      invariant forall c :: 0 <= c < |row| ==> updated[c] == Overlaid(row, changes[..i], c)
    {
      var col := NamedColumn(changes[i]);
      if col.Some? && col.value >= |updated| {
        assert !Fits(row, changes) by { assert NamedColumn(changes[i]).value >= |row|; }
        assert Overlay(row, changes).None?;
        return None;
      }
      LastValueStep(changes, i);
      if col.Some? {
        updated := updated[col.value := Encode(col.value, changes[i].1)];
      }
      i := i + 1;
    }
    assert changes[..i] == changes;
    var o := Overlay(row, changes);
    assert o.Some? && |o.value| == |updated|;
    assert forall c :: 0 <= c < |row| ==> updated[c] == o.value[c];
    assert updated == o.value;
    r := Some(updated);
  }

  /** Cell `c` of the overlay, defined for every column of the row. */
  function Overlaid(row: Row, changes: seq<(string, string)>, c: nat): string
    requires c < |row|
  {
    match LastValueFor(changes, c) case Some(v) => Encode(c, v) case None => row[c]
  }

  /** One more change decides the last value of the column it names and no other. */
  lemma LastValueStep(changes: seq<(string, string)>, i: nat)
    requires i < |changes|
    ensures forall c: nat :: LastValueFor(changes[..i + 1], c) ==
              if NamedColumn(changes[i]) == Some(c) then Some(changes[i].1) else LastValueFor(changes[..i], c)
    ensures forall row: Row :: Fits(row, changes[..i]) && (NamedColumn(changes[i]).Some? ==> NamedColumn(changes[i]).value < |row|)
                               ==> Fits(row, changes[..i + 1])
  {
    assert changes[..i + 1] == changes[..i] + [changes[i]];
    LastValueSnoc(changes[..i], changes[i]);
    assert forall j :: 0 <= j < i ==> changes[..i + 1][j] == changes[..i][j];
  }

  /** One more change decides the last value of the column it names and no other. */
  lemma LastValueSnoc(changes: seq<(string, string)>, x: (string, string))
    ensures forall c: nat {:trigger LastValueFor(changes + [x], c)} :: LastValueFor(changes + [x], c) ==
              if NamedColumn(x) == Some(c) then Some(x.1) else LastValueFor(changes, c)
  {
    assert (changes + [x])[..|changes|] == changes;
  }

  /** Naming an unknown key changes nothing. */
  lemma UnknownKeysIgnored(row: Row, changes: seq<(string, string)>, key: string, value: string)
    requires ColumnOf(Lower(key)) == None
    ensures Overlay(row, changes + [(key, value)]) == Overlay(row, changes)
  {
    var more := changes + [(key, value)];
    assert more[..|changes|] == changes;
    forall c: nat ensures LastValueFor(more, c) == LastValueFor(changes, c) {
      assert more[|more| - 1] == (key, value) && more[..|more| - 1] == changes;
    }
    assert Fits(row, more) == Fits(row, changes) by {
      assert forall i :: 0 <= i < |changes| ==> more[i] == changes[i];
    }
    if Fits(row, changes) {
      var a, b := Overlay(row, more).value, Overlay(row, changes).value;
      assert forall c :: 0 <= c < |row| ==> a[c] == b[c];
      assert a == b;
    }
  }

  // ---------------------------------------------------------------- listing and judges

  /** One case of get_all_cases. */
  datatype ListedCase = ListedCase(judge: string, caseStatus: string, caseName: string,
                                   caseNumber: string, filingDate: string,
                                   filingLink: Option<string>, rowNumber: nat)

  function ListedOf(row: Row, rowNumber: nat): ListedCase {
    ListedCase(CellOr(row, 0), CellOr(row, 1), CellOr(row, 2), CellOr(row, 3), CellOr(row, 4),
               if |row| > 5 then ListedLink(row[5]) else None, rowNumber)
  }

  /** The loop of get_all_cases that builds one case per row read. */
  method ListCases(rows: seq<Row>, start: nat) returns (cases: seq<ListedCase>)
    ensures |cases| == |rows|
    ensures forall i {:trigger cases[i]} :: 0 <= i < |rows| ==> cases[i] == ListedOf(rows[i], start + i)
  {
    cases := [];
    var offset := 0;
    while offset < |rows|
      invariant 0 <= offset <= |rows| && |cases| == offset
      invariant forall i {:trigger cases[i]} :: 0 <= i < offset ==> cases[i] == ListedOf(rows[i], start + i)
    {
      cases := cases + [ListedOf(rows[offset], start + offset)];
      offset := offset + 1;
    }
  }

  /** One judge of get_judges: name, status, availability (columns A to C) and Discord id (K). */
  datatype Judge = Judge(name: string, status: string, availability: string, discordId: string)

  function JudgeOf(row: Row): Judge {
    Judge(CellOr(row, 0), CellOr(row, 1), CellOr(row, 2), CellOr(row, 10))
  }

  predicate IsValid(j: Judge) {
    Lower(Strip(j.status)) == "valid"
  }

  /** The judges of the rows that pass `keep`, in order. */
  function KeepJudges(rows: seq<Row>, keep: Judge -> bool): (r: seq<Judge>)
    ensures |r| <= |rows|
    ensures forall j :: j in r ==> keep(j)
    ensures forall i {:trigger JudgeOf(rows[i])} :: 0 <= i < |rows| && keep(JudgeOf(rows[i])) ==> JudgeOf(rows[i]) in r
    ensures forall j :: j in r ==> exists i :: 0 <= i < |rows| && JudgeOf(rows[i]) == j
  {
    if rows == [] then []
    else
      var p := rows[..|rows| - 1];
      var j := JudgeOf(rows[|rows| - 1]);
      assert forall i :: 0 <= i < |p| ==> JudgeOf(rows[i]) == JudgeOf(p[i]);
      KeepJudges(p, keep) + (if keep(j) then [j] else [])
  }

  /** Keeping judges distributes over concatenation: the judges kept keep the order of
      their rows. */
  lemma {:induction false} KeepJudgesAppend(a: seq<Row>, b: seq<Row>, keep: Judge -> bool)
    ensures KeepJudges(a + b, keep) == KeepJudges(a, keep) + KeepJudges(b, keep)
    decreases |b|
  {
    if b == [] {
      assert a + b == a;
    } else {
      var b0 := b[..|b| - 1];
      assert (a + b)[..|a + b| - 1] == a + b0;
      assert (a + b)[|a + b| - 1] == b[|b| - 1];
      KeepJudgesAppend(a, b0, keep);
    }
  }

  /** The judges of the rows whose status is "valid" after trimming and lower-casing, in order. */
  function ValidJudges(rows: seq<Row>): (r: seq<Judge>)
    ensures |r| <= |rows|
    ensures forall j :: j in r ==> IsValid(j)
    ensures forall i {:trigger JudgeOf(rows[i])} :: 0 <= i < |rows| && IsValid(JudgeOf(rows[i])) ==> JudgeOf(rows[i]) in r
    ensures forall j :: j in r ==> exists i :: 0 <= i < |rows| && JudgeOf(rows[i]) == j
  {
    KeepJudges(rows, IsValid)
  }

  /** The valid judges of two row ranges are those of the first, then those of the second. */
  lemma ValidJudgesAppend(a: seq<Row>, b: seq<Row>)
    ensures ValidJudges(a + b) == ValidJudges(a) + ValidJudges(b)
  {
    KeepJudgesAppend(a, b, IsValid);
  }

  /** One row gives its judge when it is valid, and no judge otherwise. */
  lemma ValidJudgesOne(row: Row)
    ensures ValidJudges([row]) == if IsValid(JudgeOf(row)) then [JudgeOf(row)] else []
  {
    assert [row][..0] == [];
  }

  /** The loop of get_judges that keeps the valid judges. */
  method FilterJudges(rows: seq<Row>) returns (judges: seq<Judge>)
    ensures judges == ValidJudges(rows)
  {
    judges := [];
    var i := 0;
    while i < |rows|
      invariant 0 <= i <= |rows|
      invariant judges == KeepJudges(rows[..i], IsValid)
    {
      assert rows[..i + 1][..i] == rows[..i];
      var j := JudgeOf(rows[i]);
      if IsValid(j) {
        judges := judges + [j];
      }
      i := i + 1;
    }
    assert rows[..i] == rows;
  }

  /** The ids get_judges saves as `judges_ids`: the non-empty Discord ids, in order. */
  function JudgeIds(judges: seq<Judge>): (ids: seq<string>)
    ensures forall x :: x in ids ==> x != ""
    ensures forall j :: j in judges && j.discordId != "" ==> j.discordId in ids
    ensures forall x :: x in ids ==> exists j :: j in judges && j.discordId == x
  {
    if judges == [] then []
    else
      var rest := JudgeIds(judges[1..]);
      assert forall j :: j in judges[1..] ==> j in judges;
      (if judges[0].discordId != "" then [judges[0].discordId] else []) + rest
  }

  // ---------------------------------------------------------------- counters

  /** The prefix of a case type and whether it is criminal. */
  function CounterKind(caseType: string): (r: Option<(string, bool)>)
    ensures r.Some? ==> r.value == ("Crim", true) || r.value == ("Civ", false)
  {
    if caseType == "criminal" || caseType == "crim" then Some(("Crim", true))
    else if caseType == "civil" || caseType == "civ" then Some(("Civ", false))
    else None
  }

  /** The configuration the store reads at import time. */
  datatype Config = Config(pendingTab: string, dataStartRow: nat,
                           crimCounterRef: string, civCounterRef: string,
                           crimLogRange: Option<string>, civLogRange: Option<string>)

  /** The tab and first data row of the configured pending range: the tab is the text
      before the first `!` and the row is the first run of digits after it (2 when there
      is none). Without a `!` the module fails to import. */
  function PendingLayout(range: string): (r: Option<(string, nat)>)
    ensures r.None? <==> '!' !in range
  {
    match SplitFirst(range, '!')
    case None => None
    case Some((tab, rest)) =>
      Some((tab, match FirstDigitRun(rest) case Some(d) => DigitsValue(d) case None => 2))
  }

  /** The counter cell of a kind (`_normalize_range_ref(...) or 'Data!O3'`). */
  function CounterRef(configured: Option<string>, fallback: string): (r: string)
    ensures configured.Some? && configured.value != [] && '!' in configured.value ==> r == configured.value
    ensures configured.None? || configured.value == [] ==> r == fallback
  {
    NormalizeRangeRef(configured).GetOr(fallback)
  }

  /** The configuration built from the values of config.yaml. */
  function MakeConfig(pendingRange: string, crimCounter: Option<string>, civCounter: Option<string>,
                      crimLog: Option<string>, civLog: Option<string>): (c: Config)
    requires '!' in pendingRange
    ensures (c.pendingTab, c.dataStartRow) == PendingLayout(pendingRange).value
  {
    var (tab, start) := PendingLayout(pendingRange).value;
    Config(tab, start, CounterRef(crimCounter, "Data!O3"), CounterRef(civCounter, "Data!O4"), crimLog, civLog)
  }

  /** The single cell a read of a counter reference returns; a missing or empty cell
      makes `values[0][0]` raise. */
  function ReadCell(cells: map<string, string>, ref: string): (r: Outcome<string>)
    ensures r.Ok? <==> ref in cells && cells[ref] != ""
  {
    if ref in cells && cells[ref] != "" then Ok(Displayed(cells[ref])) else Raised("list index out of range")
  }

  /** What get_available_case_number puts before the text of every error. */
  const AvailableError := "Error getting available case number: "

  /** The counter cell of the criminal or the civil kind. */
  function KindRef(cfg: Config, criminal: bool): string {
    if criminal then cfg.crimCounterRef else cfg.civCounterRef
  }

  /** get_available_case_number: the prefix of the type and the first digit run of its
      counter cell (the whole cell when it has none). */
  function Available(cfg: Config, cells: map<string, string>, fault: Option<string>, caseType: string): (r: Outcome<string>)
    ensures CounterKind(Lower(caseType)).None? ==>
      r == Raised(AvailableError + "Invalid case type. Must be 'criminal' or 'civil'.")
    ensures r.Ok? ==> fault.None? && CounterKind(Lower(caseType)).Some?
  {
    match CounterKind(Lower(caseType))
    case None => Raised(AvailableError + "Invalid case type. Must be 'criminal' or 'civil'.")
    case Some((p, criminal)) =>
      if fault.Some? then Raised(AvailableError + fault.value)
      else match ReadCell(cells, KindRef(cfg, criminal))
        case Raised(e) => Raised(AvailableError + e)
        case Ok(v) => Ok(AvailableNumber(p, v))
  }

  /** The text the increment writes after reading `n`. */
  function Bump(n: nat): string {
    Pad3(n + 1)
  }

  /** increment_available_case_number up to its write: the cell to write and its new text. */
  function NextCounter(cfg: Config, cells: map<string, string>, fault: Option<string>, caseType: string): (r: Outcome<(string, string)>)
    ensures r.Ok? ==> var kind := CounterKind(Lower(Strip(caseType)));
      && kind.Some?
      && r.value.0 == KindRef(cfg, kind.value.1)
      && AllDigits(r.value.1) && |r.value.1| >= 3
  {
    var key := Lower(Strip(caseType));
    match CounterKind(key)
    case None => Raised("Invalid case type. Must be 'criminal'/'crim' or 'civil'/'civ'.")
    case Some((p, criminal)) =>
      match Available(cfg, cells, fault, key)
      case Raised(e) => Raised("Error reading current available case number: " + e)
      case Ok(s) =>
        match ParseCounter(Strip(s))
        case None => Raised("Could not parse numeric suffix from '" + s + "'")
        case Some(n) => Ok((KindRef(cfg, criminal), Bump(n)))
  }

  /** The kinds are already lower case, so the second lower-casing of the increment
      changes nothing. */
  lemma LowerOfLowerKind(key: string)
    requires CounterKind(key).Some?
    ensures Lower(key) == key
  {
    assert forall i :: 0 <= i < |key| ==> !IsUpper(key[i]);
    LowerOfLower(key);
  }

  /** The prefixes are words of letters. */
  lemma KindPrefixLetters(key: string)
    requires CounterKind(key).Some?
    ensures var p := CounterKind(key).value.0;
      p != [] && forall i :: 0 <= i < |p| ==> IsAsciiLetter(p[i])
  {
  }

  /** With a plain, non-empty counter cell the available number is the prefix and the
      cell's number. */
  lemma AvailableReads(cfg: Config, cells: map<string, string>, key: string)
    requires CounterKind(key).Some?
    requires var ref := KindRef(cfg, CounterKind(key).value.1);
      ref in cells && cells[ref] != "" && !StartsWith(cells[ref], "=")
    ensures Available(cfg, cells, None, key)
         == Ok(AvailableNumber(CounterKind(key).value.0, cells[KindRef(cfg, CounterKind(key).value.1)]))
  {
    LowerOfLowerKind(key);
  }

  /** The counter cell the increment reads and writes for a case type. */
  function TypeRef(cfg: Config, caseType: string): string
    requires CounterKind(Lower(Strip(caseType))).Some?
  {
    KindRef(cfg, CounterKind(Lower(Strip(caseType))).value.1)
  }

  /** The increment reads the counter's first digit run and writes that number plus one,
      zero-padded and without a prefix. */
  lemma IncrementReadsDigits(cfg: Config, cells: map<string, string>, caseType: string, d: string, n: nat)
    requires CounterKind(Lower(Strip(caseType))).Some?
    requires TypeRef(cfg, caseType) in cells
    requires !StartsWith(cells[TypeRef(cfg, caseType)], "=") && FirstDigitRun(cells[TypeRef(cfg, caseType)]) == Some(d)
    requires DigitsValue(d) == n
    ensures NextCounter(cfg, cells, None, caseType) == Ok((TypeRef(cfg, caseType), Pad3(n + 1)))
  {
    var key := Lower(Strip(caseType));
    ReadsThenParses(cfg, cells, key);
    NextCounterSteps(cfg, cells, caseType, Available(cfg, cells, None, key).value, n);
  }

  /** The available number read from a plain counter cell parses back to the cell's number. */
  lemma ReadsThenParses(cfg: Config, cells: map<string, string>, key: string)
    requires CounterKind(key).Some?
    requires KindRef(cfg, CounterKind(key).value.1) in cells
    requires var cell := cells[KindRef(cfg, CounterKind(key).value.1)];
      !StartsWith(cell, "=") && FirstDigitRun(cell).Some?
    ensures Available(cfg, cells, None, key).Ok?
    ensures ParseCounter(Strip(Available(cfg, cells, None, key).value))
         == Some(DigitsValue(FirstDigitRun(cells[KindRef(cfg, CounterKind(key).value.1)]).value))
  {
    var p := CounterKind(key).value.0;
    var cell := cells[KindRef(cfg, CounterKind(key).value.1)];
    assert cell != [];
    AvailableReads(cfg, cells, key);
    KindPrefixLetters(key);
    ParseAvailableNumber(p, cell);
  }

  /** The increment writes one more than the number it parses out of the available number. */
  lemma NextCounterSteps(cfg: Config, cells: map<string, string>, caseType: string, s: string, n: nat)
    requires CounterKind(Lower(Strip(caseType))).Some?
    requires Available(cfg, cells, None, Lower(Strip(caseType))) == Ok(s)
    requires ParseCounter(Strip(s)) == Some(n)
    ensures NextCounter(cfg, cells, None, caseType) == Ok((TypeRef(cfg, caseType), Pad3(n + 1)))
  {
    assert NextCounter(cfg, cells, None, caseType) == Ok((TypeRef(cfg, caseType), Bump(n)));
  }

  /** A counter in the bot's own format advances by exactly one, and the next request
      sees the new number. */
  lemma IncrementAdvances(cfg: Config, cells: map<string, string>, caseType: string, n: nat)
    requires CounterKind(Lower(Strip(caseType))).Some?
    requires TypeRef(cfg, caseType) in cells && cells[TypeRef(cfg, caseType)] == Pad3(n)
    ensures NextCounter(cfg, cells, None, caseType) == Ok((TypeRef(cfg, caseType), Pad3(n + 1)))
    ensures Available(cfg, cells[TypeRef(cfg, caseType) := Pad3(n + 1)], None, Lower(Strip(caseType)))
         == Ok(CounterKind(Lower(Strip(caseType))).value.0 + " " + Pad3(n + 1))
  {
    IncrementOwnCounter(cfg, cells, caseType, n);
    CounterAfterWrite(cfg, cells[TypeRef(cfg, caseType) := Pad3(n + 1)], Lower(Strip(caseType)), n + 1);
  }

  /** A counter in the bot's own format is read as its number. */
  lemma IncrementOwnCounter(cfg: Config, cells: map<string, string>, caseType: string, n: nat)
    requires CounterKind(Lower(Strip(caseType))).Some?
    requires TypeRef(cfg, caseType) in cells && cells[TypeRef(cfg, caseType)] == Pad3(n)
    ensures NextCounter(cfg, cells, None, caseType) == Ok((TypeRef(cfg, caseType), Pad3(n + 1)))
  {
    assert FirstDigitRun(Pad3(n)) == Some(Pad3(n)) by { CounterNumberOfDigits(Pad3(n)); }
    assert !StartsWith(Pad3(n), "=") by { PlainCounter(n); }
    IncrementReadsDigits(cfg, cells, caseType, Pad3(n), n);
  }

  /** The next read of a counter the increment wrote sees the prefix and the new number. */
  lemma CounterAfterWrite(cfg: Config, cells: map<string, string>, key: string, n: nat)
    requires CounterKind(key).Some?
    requires KindRef(cfg, CounterKind(key).value.1) in cells
    requires cells[KindRef(cfg, CounterKind(key).value.1)] == Pad3(n)
    ensures Available(cfg, cells, None, key) == Ok(CounterKind(key).value.0 + " " + Pad3(n))
  {
    PlainCounter(n);
    AvailableReads(cfg, cells, key);
    KindPrefixLetters(key);
    CounterRoundTrip(CounterKind(key).value.0, n);
  }

  /** A counter the increment wrote is a plain cell that starts with a digit. */
  lemma PlainCounter(n: nat)
    ensures Pad3(n) != "" && IsDigit(Pad3(n)[0]) && !StartsWith(Pad3(n), "=")
  {
    assert IsDigit(Pad3(n)[0]);
  }

  /** A counter without digits is refused before anything is written. */
  lemma IncrementNeedsDigits(cfg: Config, cells: map<string, string>, caseType: string)
    requires CounterKind(Lower(Strip(caseType))).Some?
    requires var ref := KindRef(cfg, CounterKind(Lower(Strip(caseType))).value.1);
      ref in cells && cells[ref] != "" && !StartsWith(cells[ref], "=") && FirstDigitRun(cells[ref]).None?
    ensures NextCounter(cfg, cells, None, caseType).Raised?
  {
    var key := Lower(Strip(caseType));
    var (p, criminal) := CounterKind(key).value;
    var cell := cells[KindRef(cfg, criminal)];
    AvailableReads(cfg, cells, key);
    var s := AvailableNumber(p, cell);
    assert forall i :: 0 <= i < |s| ==> !IsDigit(s[i]) by {
      NoDigitsInAvailable(p, cell);
    }
    NoDigitsNoCounter(s);
  }

  /** Without a digit in the cell there is none in the available number either. */
  lemma NoDigitsInAvailable(p: string, cell: string)
    requires p == "Crim" || p == "Civ"
    requires FirstDigitRun(cell).None?
    ensures var s := AvailableNumber(p, cell); forall i :: 0 <= i < |s| ==> !IsDigit(s[i])
  {
    var s := AvailableNumber(p, cell);
    assert s == p + " " + cell;
    forall i | 0 <= i < |s| ensures !IsDigit(s[i]) {
      if i > |p| { assert s[i] == cell[i - |p| - 1]; }
    }
  }

  /** A text without digits has no numeric suffix to parse. */
  lemma NoDigitsNoCounter(s: string)
    requires forall i :: 0 <= i < |s| ==> !IsDigit(s[i])
    ensures ParseCounter(Strip(s)).None?
  {
    var t := Strip(s);
    StripChars(s);
  }

  lemma StripChars(s: string)
    ensures forall c :: c in Strip(s) ==> c in s
  {
    var a := TrimLeft(s);
    var b := TrimRight(a);
    assert forall c :: c in b ==> c in a;
    assert forall c :: c in a ==> c in s;
  }

  // ---------------------------------------------------------------- finishing a case

  /** The case_info dict finish_case takes; a missing key is None. */
  datatype FinishRequest = FinishRequest(caseNumber: Option<string>, caseName: Option<string>,
                                         filingDate: Option<string>, filingLink: Option<string>,
                                         endingType: Option<string>, endingLink: Option<string>)

  /** Python's `a or b` for an optional string. */
  function Or(a: Option<string>, b: string): (r: string)
    ensures a.Some? && a.value != [] ==> r == a.value
    ensures a.None? || a.value == [] ==> r == b
  {
    if a.Some? && a.value != [] then a.value else b
  }

  /** The log row finish_case builds, with the tab it goes to. */
  datatype Plan = Plan(criminal: bool, caseName: string, caseNumber: string, row: Row)

  /** The error finish_case raises for the configured range of a case log, if any: the
      range must be set, hold a `!`, and its first cell reference must be letters followed
      by digits. */
  function LogRangeError(range: Option<string>): (r: Option<string>)
    ensures r.None? ==> range.Some? && range.value != [] && '!' in range.value
    ensures range.None? ==> r == Some("Case log range for the case type is not configured in config.yaml.")
  {
    if range.None? || range.value == [] then
      Some("Case log range for the case type is not configured in config.yaml.")
    else match SplitFirst(range.value, '!')
      case None => Some("Failed to parse case log range: not enough values to unpack (expected 2, got 1)")
      case Some((_, part)) =>
        var l := SkipWhile(part, 0, Letter);
        if l == 0 || SkipWhile(part, l, Digit) == l then Some("Invalid case log range format.") else None
  }

  /** The log row of finish_case: the lookup's name, filing date and link are preferred
      to the ones given, the ending defaults to "Other". */
  function PlanRow(info: FinishRequest, lookup: Lookup, number: string, verdictDate: string): (row: Row)
    ensures |row| == 6 && row[1] == number && row[4] == verdictDate
    ensures row[0] == if lookup.Found? then Or(Some(lookup.info.caseName), Or(info.caseName, "")) else Or(info.caseName, "")
  {
    var name := if lookup.Found? then Or(Some(lookup.info.caseName), Or(info.caseName, "")) else Or(info.caseName, "");
    var date := if lookup.Found? then Or(lookup.info.filingDate, Or(info.filingDate, "")) else Or(info.filingDate, "");
    var link := if lookup.Found? then Or(lookup.info.link, Or(info.filingLink, "")) else Or(info.filingLink, "");
    LogRow(name, number, date, link, verdictDate, Or(info.endingType, "Other"), Or(info.endingLink, ""))
  }

  /** finish_case up to its read of the case log: the required number, the values the
      lookup supplies, the choice of log and the checks of its range. */
  function FinishPlan(cfg: Config, info: FinishRequest, lookup: Lookup, verdictDate: string): (r: Outcome<Plan>)
    ensures Strip(Or(info.caseNumber, "")) == [] ==> r == Raised("Missing case_number in case_info.")
    ensures r.Ok? ==> r.value.caseNumber == Strip(Or(info.caseNumber, "")) && r.value.caseNumber != []
    ensures r.Ok? ==> r.value.criminal == IsCriminal(r.value.caseNumber)
    ensures r.Ok? ==> var range := if r.value.criminal then cfg.crimLogRange else cfg.civLogRange;
      LogRangeError(range).None?
    ensures r.Ok? ==> r.value.row == PlanRow(info, lookup, r.value.caseNumber, verdictDate)
    ensures r.Ok? ==> r.value.caseName == r.value.row[0]
  {
    var number := Strip(Or(info.caseNumber, ""));
    if number == [] then Raised("Missing case_number in case_info.")
    else
      var criminal := IsCriminal(number);
      var range := if criminal then cfg.crimLogRange else cfg.civLogRange;
      match LogRangeError(range)
      case Some(e) => Raised(e)
      case None =>
        var row := PlanRow(info, lookup, number, verdictDate);
        Ok(Plan(criminal, row[0], number, row))
  }

  /** The row a plan appends to its log reads back its ending: the ending type, or
      "Other" when none is given, as text or as the caption of the ending link. */
  lemma FinishEnding(cfg: Config, info: FinishRequest, lookup: Lookup, verdictDate: string)
    requires FinishPlan(cfg, info, lookup, verdictDate).Ok?
    requires '"' !in Or(info.endingLink, "") && '"' !in Or(info.endingType, "Other")
    requires !StartsWith(Or(info.endingType, "Other"), "=")
    ensures var row := FinishPlan(cfg, info, lookup, verdictDate).value.row;
      Displayed(row[5]) == Or(info.endingType, "Other") && row[4] == verdictDate
  {
    var p := FinishPlan(cfg, info, lookup, verdictDate).value;
    var ending := Or(info.endingType, "Other");
    var endingLink := Or(info.endingLink, "");
    assert p.row == PlanRow(info, lookup, p.caseNumber, verdictDate);
    assert p.row[5] == EndingCell(ending, endingLink);
    EndingShown(ending, endingLink);
  }

  /** The ending cell shows the ending, whether it is plain text or a link's caption. */
  lemma EndingShown(ending: string, link: string)
    requires ending != [] && '"' !in link && '"' !in ending && !StartsWith(ending, "=")
    ensures Displayed(EndingCell(ending, link)) == ending
  {
    if link != [] {
      var f := HyperlinkFormula(link, ending);
      assert f[0] == '=' by { FormulaLayout(link, ending); }
      assert StartsWith(f, "=");
      VisibleLabel(link, ending);
    }
  }

  // ---------------------------------------------------------------- results of the store functions

  /** edit_docket given what its read returned: the first row `hit` accepts is overlaid
      with the changes and written back; the reply and the new rows. */
  function EditAmong(rows: seq<Row>, values: seq<Row>, hit: Row -> bool, number: string,
                     changes: seq<(string, string)>): (Reply, seq<Row>)
    requires |values| <= |rows|
  {
    if values == [] then (Reply(false, "No data found in the sheet."), rows)
    else match FirstHit(values, hit)
      case None => (Reply(false, "Case with number '" + number + "' not found."), rows)
      case Some(k) =>
        match Overlay(values[k], changes)
        case None => (Reply(false, "Error updating docket: list assignment index out of range"), rows)
        case Some(u) => (Reply(true, "Case '" + number + "' successfully updated."), rows[k := Write(rows[k], u)])
  }

  /** edit_docket on the pending rows, when the API answers. */
  function EditResult(rows: seq<Row>, number: string, changes: seq<(string, string)>): (Reply, seq<Row>) {
    EditAmong(rows, View(rows, 6, false), NumberHit(number), number, changes)
  }

  /** The scan and the write of edit_docket (the re-read of the found row's own range
      returns the row the scan saw). */
  method EditRows(rows: seq<Row>, values: seq<Row>, hit: Row -> bool, number: string,
                  changes: seq<(string, string)>) returns (r: Reply, after: seq<Row>)
    requires |values| <= |rows|
    ensures (r, after) == EditAmong(rows, values, hit, number, changes)
  {
    if values == [] {
      return Reply(false, "No data found in the sheet."), rows;
    }
    var found := FindRow(values, hit);
    if found.None? {
      return Reply(false, "Case with number '" + number + "' not found."), rows;
    }
    var k := found.value;
    var updated := ApplyChanges(values[k], changes);
    if updated.None? {
      return Reply(false, "Error updating docket: list assignment index out of range"), rows;
    }
    r, after := Reply(true, "Case '" + number + "' successfully updated."), rows[k := Write(rows[k], updated.value)];
  }

  /** delete_case_row given what its read returned: the first row `hit` accepts is
      deleted when the tab exists; the reply and the new rows. */
  function DeleteAmong(rows: seq<Row>, values: seq<Row>, hit: Row -> bool, tabs: set<string>, tab: string,
                       name: string, number: string): (Reply, seq<Row>)
    requires |values| <= |rows|
  {
    if values == [] then (Reply(false, "No data found in the sheet."), rows)
    else match FirstHit(values, hit)
      case None => (Reply(false, "Case with name '" + name + "' and number '" + number + "' not found."), rows)
      case Some(k) =>
        if tab !in tabs then (Reply(false, "Sheet '" + tab + "' not found."), rows)
        else (Reply(true, "Deleted case with name '" + name + "' and number '" + number + "'."), RemoveRow(rows, k))
  }

  /** delete_case_row on the pending rows, when the API answers. */
  function DeleteResult(rows: seq<Row>, tabs: set<string>, tab: string, name: string, number: string): (Reply, seq<Row>) {
    DeleteAmong(rows, View(rows, 6, false), NameNumberHit(name, number), tabs, tab, name, number)
  }

  /** The scan and the deletion of delete_case_row. */
  method DeleteRows(rows: seq<Row>, values: seq<Row>, hit: Row -> bool, tabs: set<string>, tab: string,
                    name: string, number: string) returns (r: Reply, after: seq<Row>)
    requires |values| <= |rows|
    ensures (r, after) == DeleteAmong(rows, values, hit, tabs, tab, name, number)
  {
    if values == [] {
      return Reply(false, "No data found in the sheet."), rows;
    }
    var found := FindRow(values, hit);
    if found.None? {
      return Reply(false, "Case with name '" + name + "' and number '" + number + "' not found."), rows;
    }
    if tab !in tabs {
      return Reply(false, "Sheet '" + tab + "' not found."), rows;
    }
    r, after := Reply(true, "Deleted case with name '" + name + "' and number '" + number + "'."), RemoveRow(rows, found.value);
  }

  /** A failed edit changes nothing, and the edit succeeds exactly when a row is
      accepted and every column the changes name exists in the row read. */
  lemma EditSucceedsWhenFits(rows: seq<Row>, values: seq<Row>, hit: Row -> bool, number: string,
                             changes: seq<(string, string)>)
    requires |values| <= |rows|
    ensures var (reply, after) := EditAmong(rows, values, hit, number, changes);
      && (!reply.success ==> after == rows)
      && (reply.success <==> FirstHit(values, hit).Some? && Fits(values[FirstHit(values, hit).value], changes))
  {
  }

  /** An edit changes one row: in the first row `hit` accepts, each named column holds its
      encoded new value, every other column read holds what the read showed, and the cells
      further right are kept. */
  lemma EditChangesOneRow(rows: seq<Row>, values: seq<Row>, hit: Row -> bool, number: string,
                          changes: seq<(string, string)>, k: nat)
    requires |values| <= |rows|
    requires FirstHit(values, hit) == Some(k)
    requires Fits(values[k], changes)
    ensures var after := EditAmong(rows, values, hit, number, changes).1;
      && |after| == |rows| && |after[k]| >= |values[k]|
      && (forall j :: 0 <= j < |rows| && j != k ==> after[j] == rows[j])
      && (forall c :: 0 <= c < |values[k]| && LastValueFor(changes, c).Some? ==>
            after[k][c] == Encode(c, LastValueFor(changes, c).value))
      && (forall c :: 0 <= c < |values[k]| && LastValueFor(changes, c).None? ==> after[k][c] == values[k][c])
      && (forall c :: |values[k]| <= c < |rows[k]| ==> after[k][c] == rows[k][c])
  {
  }

  /** What the lookup reports about a cell that is the caption "Link" left by a plain-text
      write: no link (the caption holds no URL). */
  lemma CaptionHasNoUrl()
    ensures ExtractUrl("Link") == None
  {
    var s := "Link";
    assert Strip(s) == s by { StripKeeps(s); }
    forall i: nat ensures MatchAt(Target('"', true), s, i).None? && MatchAt(Target('\'', true), s, i).None?
                       && MatchAt(PlainUrl(true), s, i).None? {
    }
  }

  /** A row whose filing link is a link formula is read for display with the caption in
      its place. */
  lemma ShownWithCaption(row: Row, url: string)
    requires |row| >= 6 && row[5] == LinkFormula(url)
    requires url != [] && '"' !in url
    ensures |Window(row, 6, false)| == 6 && Window(row, 6, false)[5] == "Link"
  {
    LinkShowsCaption(url);
    var c := Render(Clip(row, 6), false);
    assert c[5] == "Link";
    assert TrimRow(c) == c;
  }

  /** A link formula is shown as its caption. */
  lemma LinkShowsCaption(url: string)
    requires url != [] && '"' !in url
    ensures Displayed(LinkFormula(url)) == "Link"
  {
    VisibleLabel(url, "Link");
    FormulaLayout(url, "Link");
  }

  /** A formula read of a row whose sixth cell holds something is its first six cells. */
  lemma WindowOfFullRow(row: Row)
    requires |row| >= 6 && row[5] != ""
    ensures Window(row, 6, true) == row[..6]
  {
    var c := Clip(row, 6);
    assert c == row[..6];
    assert !Blank(row, 6) by { assert row[5] != ""; }
    assert TrimRow(c) == c;
  }

  /** A row whose filing-link cell holds the text "Link" has no link. */
  lemma CaptionReadsNoLink(row: Row)
    requires |row| >= 6 && row[5] == "Link"
    ensures InfoOf(Window(row, 6, true), 0).link == None
  {
    WindowOfFullRow(row);
    assert Window(row, 6, true)[5] == "Link";
    CaptionHasNoUrl();
  }

  /** A row whose filing-link cell holds a link formula has that link. */
  lemma FormulaReadsLink(row: Row, url: string)
    requires |row| >= 6 && row[5] == LinkFormula(url)
    requires IsHttp(url) && '"' !in url && !IsSpace(url[|url| - 1])
    ensures InfoOf(Window(row, 6, true), 0).link == Some(url)
  {
    assert row[5] != "" by { FormulaLayout(url, "Link"); }
    WindowOfFullRow(row);
    assert Window(row, 6, true)[5] == LinkFormula(url);
    ExtractLinkFormula(url);
  }

  /** The filing link of an edited row when the edit does not name it: the read showed the
      caption of the link formula, the caption is written back as text, and the row no
      longer has a link. */
  lemma EditDropsLink(rows: seq<Row>, number: string, changes: seq<(string, string)>, k: nat, url: string)
    requires FirstHit(View(rows, 6, false), NumberHit(number)) == Some(k)
    requires EditResult(rows, number, changes).0.success
    requires LastValueFor(changes, 5).None?
    requires url != [] && '"' !in url
    requires |rows[k]| >= 6 && rows[k][5] == LinkFormula(url)
    ensures var after := EditResult(rows, number, changes).1;
      |after| == |rows| && |after[k]| >= 6 && after[k][5] == "Link" && InfoOf(Window(after[k], 6, true), 0).link == None
  {
    var values := View(rows, 6, false);
    var after := EditResult(rows, number, changes).1;
    assert |values[k]| == 6 && values[k][5] == "Link" by { ShownWithCaption(rows[k], url); }
    EditSucceedsWhenFits(rows, values, NumberHit(number), number, changes);
    EditChangesOneRow(rows, values, NumberHit(number), number, changes, k);
    assert after[k][5] == "Link";
    CaptionReadsNoLink(after[k]);
  }

  /** ... while an edit that names the link writes its formula again, and the row keeps it. */
  lemma EditKeepsGivenLink(rows: seq<Row>, number: string, changes: seq<(string, string)>, k: nat, url: string)
    requires FirstHit(View(rows, 6, false), NumberHit(number)) == Some(k)
    requires EditResult(rows, number, changes).0.success
    requires LastValueFor(changes, 5) == Some(url)
    requires IsHttp(url) && '"' !in url && !IsSpace(url[|url| - 1])
    requires |Window(rows[k], 6, false)| == 6
    ensures var after := EditResult(rows, number, changes).1;
      |after| == |rows| && |after[k]| >= 6 && after[k][5] == LinkFormula(url)
      && InfoOf(Window(after[k], 6, true), 0).link == Some(url)
  {
    assert |View(rows, 6, false)[k]| == 6;
    EditSucceedsWhenFits(rows, View(rows, 6, false), NumberHit(number), number, changes);
    EditChangesOneRow(rows, View(rows, 6, false), NumberHit(number), number, changes, k);
    assert EditResult(rows, number, changes).1[k][5] == Encode(5, url);
    assert url != [];
    FormulaReadsLink(EditResult(rows, number, changes).1[k], url);
  }

  /** At most a region's extent is read. */
  lemma ExtentAtMost(rows: seq<Row>, width: nat, n: nat)
    requires forall i :: n <= i < |rows| ==> Blank(rows[i], width)
    ensures Extent(rows, width) <= n
  {
  }

  /** After a row that was read is deleted, the read returns the other rows read, in
      order, up to the last one that is not blank. */
  lemma ViewAfterRemove(rows: seq<Row>, k: nat, formulas: bool)
    requires k < Extent(rows, 6)
    ensures var v := View(RemoveRow(rows, k), 6, formulas);
      && |v| < Extent(rows, 6)
      && forall j :: 0 <= j < |v| ==> v[j] == View(rows, 6, formulas)[if j < k then j else j + 1]
  {
    assert forall i :: Extent(rows, 6) - 1 <= i < |RemoveRow(rows, k)| ==> Blank(RemoveRow(rows, k)[i], 6) by {
      assert forall i :: Extent(rows, 6) - 1 <= i < |RemoveRow(rows, k)| ==> RemoveRow(rows, k)[i] == rows[i + 1];
    }
    ExtentAtMost(RemoveRow(rows, k), 6, Extent(rows, 6) - 1);
    forall j | 0 <= j < |View(RemoveRow(rows, k), 6, formulas)|
      ensures View(RemoveRow(rows, k), 6, formulas)[j] == View(rows, 6, formulas)[if j < k then j else j + 1]
    {
      assert RemoveRow(rows, k)[j] == rows[if j < k then j else j + 1];
    }
  }

  /** When no two rows read both match, the first match is the only one. */
  lemma OnlyMatch(values: seq<Row>, hit: Row -> bool, k: nat)
    requires FirstHit(values, hit) == Some(k)
    requires forall i, j :: 0 <= i < j < |values| && hit(values[i]) ==> !hit(values[j])
    ensures forall m :: 0 <= m < |values| && m != k ==> !hit(values[m])
  {
  }

  /** A deletion removes exactly the first row whose name and number match, and only when
      the pending tab exists; once it is gone no other row matches when the match was unique. */
  lemma DeleteRemovesMatch(rows: seq<Row>, tabs: set<string>, tab: string, name: string, number: string)
    requires var values := View(rows, 6, false);
      forall i, j :: 0 <= i < j < |values| && NameNumberHit(name, number)(values[i]) ==>
        !NameNumberHit(name, number)(values[j])
    ensures var (reply, after) := DeleteResult(rows, tabs, tab, name, number);
      && (reply.success <==> FirstHit(View(rows, 6, false), NameNumberHit(name, number)).Some? && tab in tabs)
      && (!reply.success ==> after == rows)
      && (reply.success ==>
            |after| == |rows| - 1 && FirstHit(View(after, 6, false), NameNumberHit(name, number)).None?)
  {
    var values := View(rows, 6, false);
    var hit := NameNumberHit(name, number);
    DeleteOutcome(rows, values, hit, tabs, tab, name, number);
    var (reply, after) := DeleteResult(rows, tabs, tab, name, number);
    if reply.success {
      NoMatchAfterRemove(rows, hit, FirstHit(values, hit).value);
    }
  }

  /** The reply of a deletion and the rows it leaves. */
  lemma DeleteOutcome(rows: seq<Row>, values: seq<Row>, hit: Row -> bool, tabs: set<string>, tab: string,
                      name: string, number: string)
    requires |values| <= |rows|
    ensures var (reply, after) := DeleteAmong(rows, values, hit, tabs, tab, name, number);
      && (reply.success <==> FirstHit(values, hit).Some? && tab in tabs)
      && (!reply.success ==> after == rows)
      && (reply.success ==> after == RemoveRow(rows, FirstHit(values, hit).value))
  {
  }

  /** Once the only matching row read is deleted, no row read matches. */
  lemma NoMatchAfterRemove(rows: seq<Row>, hit: Row -> bool, k: nat)
    requires FirstHit(View(rows, 6, false), hit) == Some(k)
    requires var values := View(rows, 6, false);
      forall i, j :: 0 <= i < j < |values| && hit(values[i]) ==> !hit(values[j])
    ensures FirstHit(View(RemoveRow(rows, k), 6, false), hit).None?
  {
    var values := View(rows, 6, false);
    OnlyMatch(values, hit, k);
    ViewAfterRemove(rows, k, false);
    var v := View(RemoveRow(rows, k), 6, false);
    assert forall j :: 0 <= j < |v| ==> !hit(v[j]) by {
      assert forall j :: 0 <= j < |v| ==> v[j] == values[if j < k then j else j + 1];
    }
  }

  /** The object the store functions reply with for listing and judges. */
  datatype CasesReply = CasesReply(success: bool, cases: seq<ListedCase>, message: string)
  datatype JudgesReply = JudgesReply(success: bool, judges: seq<Judge>, judgeIds: seq<string>, message: string)
  datatype FinishReply = FinishReply(success: bool, message: string, appendedRow: Option<Row>)

  /** The outcome of finish_case for the plan it made, over the store's values before
      (`pending0`, `crimLog0`, `civLog0`) and after. */
  predicate FinishedAs(plan: Outcome<Plan>, r: FinishReply, fault: Option<string>, tabs: set<string>, tab: string,
                       pending0: seq<Row>, crimLog0: seq<Row>, civLog0: seq<Row>,
                       pending: seq<Row>, crimLog: seq<Row>, civLog: seq<Row>)
  {
    match plan
    case Raised(e) =>
      r == FinishReply(false, e, None) && pending == pending0 && crimLog == crimLog0 && civLog == civLog0
    case Ok(p) =>
      if fault.Some? then
        r == FinishReply(false, "Failed to find first column in case log tab: " + fault.value, None)
        && pending == pending0 && crimLog == crimLog0 && civLog == civLog0
      else
        && r == FinishReply(true, "Case finished and appended to case log.", Some(p.row))
        && (p.criminal ==> crimLog == PutRow(crimLog0, Extent(crimLog0, 1), p.row) && civLog == civLog0)
        && (!p.criminal ==> civLog == PutRow(civLog0, Extent(civLog0, 1), p.row) && crimLog == crimLog0)
        && pending == DeleteResult(pending0, tabs, tab, p.caseName, p.caseNumber).1
  }

  // ---------------------------------------------------------------- the spreadsheet

  /** The spreadsheet behind the store. While `fault` holds an error text, every call the
      store makes to the Sheets API raises with that text. */
  class Spreadsheet {
    const cfg: Config
    var pending: seq<Row>
    const tabs: set<string>
    var counters: map<string, string>
    var crimLog: seq<Row>
    var civLog: seq<Row>
    const judgeRows: seq<Row>
    const fault: Option<string>

    constructor(cfg: Config, pending: seq<Row>, tabs: set<string>, counters: map<string, string>,
                crimLog: seq<Row>, civLog: seq<Row>, judgeRows: seq<Row>, fault: Option<string>)
      ensures this.cfg == cfg && this.pending == pending && this.tabs == tabs && this.counters == counters
      ensures this.crimLog == crimLog && this.civLog == civLog && this.judgeRows == judgeRows && this.fault == fault
    {
      this.cfg := cfg;
      this.pending := pending;
      this.tabs := tabs;
      this.counters := counters;
      this.crimLog := crimLog;
      this.civLog := civLog;
      this.judgeRows := judgeRows;
      this.fault := fault;
    }

    /** add_to_docket: the six-cell row goes after the last pending row. */
    method AddToDocket(c: CaseRecord) returns (r: Reply)
      modifies this`pending
      ensures fault.Some? ==> r == Reply(false, "Error adding to docket: " + fault.value) && pending == old(pending)
      ensures fault.None? ==> r == Reply(true, "Case '" + c.caseName + "' added to docket.")
      ensures fault.None? ==> pending == Append(old(pending), RecordRow(c))
    {
      if fault.Some? {
        return Reply(false, "Error adding to docket: " + fault.value);
      }
      pending := Append(pending, RecordRow(c));
      r := Reply(true, "Case '" + c.caseName + "' added to docket.");
    }

    /** edit_docket: find the row by number, overlay the named columns on what was read
      and write the row back. */
    method EditDocket(number: string, changes: seq<(string, string)>) returns (r: Reply)
      modifies this`pending
      ensures fault.Some? ==> r == Reply(false, "Error updating docket: " + fault.value) && pending == old(pending)
      ensures fault.None? ==> (r, pending) == EditResult(old(pending), number, changes)
    {
      if fault.Some? {
        return Reply(false, "Error updating docket: " + fault.value);
      }
      r, pending := EditRows(pending, View(pending, 6, false), NumberHit(number), number, changes);
    }

    /** What get_case_info_from_number reports in the current state. */
    function LookupNow(number: string): Lookup
      reads this
    {
      if fault.Some? then Missing("Error reading sheet: " + fault.value)
      else LookupIn(View(pending, 6, true), cfg.dataStartRow, number)
    }

    /** get_case_info_from_number: the first row whose visible number matches, read with formulas. */
    method GetCaseInfoFromNumber(number: string) returns (r: Lookup)
      ensures r == LookupNow(number)
    {
      if fault.Some? {
        return Missing("Error reading sheet: " + fault.value);
      }
      r := LookupRows(View(pending, 6, true), cfg.dataStartRow, LabelHit(number), number);
    }

    /** get_all_cases: one case per row read with formulas; an empty sheet is a success. */
    method GetAllCases() returns (r: CasesReply)
      ensures fault.Some? ==> r == CasesReply(false, [], "Error retrieving cases: " + fault.value)
      ensures fault.None? ==> r.success && |r.cases| == Extent(pending, 6)
      ensures fault.None? ==> forall i :: 0 <= i < |r.cases| ==>
        r.cases[i] == ListedOf(View(pending, 6, true)[i], cfg.dataStartRow + i)
    {
      if fault.Some? {
        return CasesReply(false, [], "Error retrieving cases: " + fault.value);
      }
      var values := View(pending, 6, true);
      if values == [] {
        return CasesReply(true, [], "No data found in the sheet.");
      }
      var cases := ListCases(values, cfg.dataStartRow);
      r := CasesReply(true, cases, "");
    }

    /** delete_case_row: remove the first row whose name and number both match. */
    method DeleteCaseRow(name: string, number: string) returns (r: Reply)
      modifies this`pending
      ensures fault.Some? ==> r == Reply(false, "Error deleting case: " + fault.value) && pending == old(pending)
      ensures fault.None? ==> r == DeleteResult(old(pending), tabs, cfg.pendingTab, name, number).0
      ensures fault.None? ==> pending == DeleteResult(old(pending), tabs, cfg.pendingTab, name, number).1
    {
      if fault.Some? {
        return Reply(false, "Error deleting case: " + fault.value);
      }
      r, pending := DeleteRows(pending, View(pending, 6, false), NameNumberHit(name, number), tabs, cfg.pendingTab, name, number);
    }

    /** get_available_case_number. */
    method AvailableCaseNumber(caseType: string) returns (r: Outcome<string>)
      ensures r == Available(cfg, counters, fault, caseType)
    {
      r := Available(cfg, counters, fault, caseType);
    }

    /** increment_available_case_number: write the next number to the type's counter cell. */
    method IncrementAvailableCaseNumber(caseType: string) returns (r: Outcome<bool>)
      modifies this`counters
      ensures match NextCounter(cfg, old(counters), fault, caseType)
        case Ok((ref, text)) => r == Ok(true) && counters == old(counters)[ref := text]
        case Raised(e) => r == Raised(e) && counters == old(counters)
    {
      match NextCounter(cfg, counters, fault, caseType)
      case Raised(e) => r := Raised(e);
      case Ok((ref, text)) =>
        counters := counters[ref := text];
        r := Ok(true);
    }

    /** finish_case: append the log row to the case's log at its first empty row, then try
      to delete the pending row, whose outcome is not looked at. */
    method FinishCase(info: FinishRequest, verdictDate: string) returns (r: FinishReply)
      modifies this`pending, this`crimLog, this`civLog
      ensures Finished(FinishPlan(cfg, info, old(LookupNow(Strip(Or(info.caseNumber, "")))), verdictDate), r,
                       old(pending), old(crimLog), old(civLog))
    {
      var number := Strip(Or(info.caseNumber, ""));
      var lookup := Missing("");
      if number != [] {
        lookup := GetCaseInfoFromNumber(number);
      }
      var plan := FinishPlan(cfg, info, lookup, verdictDate);
      assert plan == FinishPlan(cfg, info, old(LookupNow(number)), verdictDate);
      r := FinishWith(plan);
    }

    /** The outcome of finish_case for the plan it made, as a relation between its reply
      and the old and the new rows. */
    ghost predicate Finished(plan: Outcome<Plan>, r: FinishReply,
                             pending0: seq<Row>, crimLog0: seq<Row>, civLog0: seq<Row>)
      reads this
    {
      FinishedAs(plan, r, fault, tabs, cfg.pendingTab, pending0, crimLog0, civLog0, pending, crimLog, civLog)
    }

    /** finish_case once its plan is made. */
    method FinishWith(plan: Outcome<Plan>) returns (r: FinishReply)
      modifies this`pending, this`crimLog, this`civLog
      ensures Finished(plan, r, old(pending), old(crimLog), old(civLog))
    {
      match plan
      case Raised(e) =>
        r := FinishReply(false, e, None);
      case Ok(p) =>
        if fault.Some? {
          r := FinishReply(false, "Failed to find first column in case log tab: " + fault.value, None);
        } else {
          r := LogAndRemove(p);
        }
    }

    /** The end of finish_case: write the row at the log's first empty row (the read of
      the log's first column counts its rows), then delete the pending row. */
    method LogAndRemove(p: Plan) returns (r: FinishReply)
      requires fault.None?
      modifies this`pending, this`crimLog, this`civLog
      ensures r == FinishReply(true, "Case finished and appended to case log.", Some(p.row))
      ensures p.criminal ==> crimLog == PutRow(old(crimLog), Extent(old(crimLog), 1), p.row) && civLog == old(civLog)
      ensures !p.criminal ==> civLog == PutRow(old(civLog), Extent(old(civLog), 1), p.row) && crimLog == old(crimLog)
      ensures pending == DeleteResult(old(pending), tabs, cfg.pendingTab, p.caseName, p.caseNumber).1
    {
      WriteLog(p);
      assert pending == old(pending) && fault.None?;
      var _ := DeleteCaseRow(p.caseName, p.caseNumber);
      r := FinishReply(true, "Case finished and appended to case log.", Some(p.row));
    }

    /** The write of finish_case: the row goes to the first row after the log's first column. */
    method WriteLog(p: Plan)
      modifies this`crimLog, this`civLog
      ensures p.criminal ==> crimLog == PutRow(old(crimLog), Extent(old(crimLog), 1), p.row) && civLog == old(civLog)
      ensures !p.criminal ==> civLog == PutRow(old(civLog), Extent(old(civLog), 1), p.row) && crimLog == old(crimLog)
    {
      if p.criminal {
        var n := |View(crimLog, 1, false)|;
        crimLog := PutRow(crimLog, n, p.row);
      } else {
        var n := |View(civLog, 1, false)|;
        civLog := PutRow(civLog, n, p.row);
      }
    }

    /** get_judges: the valid judges of the rows read from `Data!A3:K`, and their ids. */
    method GetJudges() returns (r: JudgesReply)
      ensures fault.Some? ==> r == JudgesReply(false, [], [], "Error retrieving judges: " + fault.value)
      ensures fault.None? ==> r.success && r.judges == ValidJudges(View(judgeRows, 11, false))
      ensures fault.None? ==> r.judgeIds == JudgeIds(r.judges)
    {
      if fault.Some? {
        return JudgesReply(false, [], [], "Error retrieving judges: " + fault.value);
      }
      var values := View(judgeRows, 11, false);
      if values == [] {
        return JudgesReply(true, [], [], "No judge data found in the sheet.");
      }
      var judges := FilterJudges(values);
      r := JudgesReply(true, judges, JudgeIds(judges), "");
    }
  }
}

/** `fill_table_by_ref`: writing the brand ranking into the report table.

    The table has a header row and ten body rows. Body row `i + 1` shows data
    record `i`, one cell per entry of `TableColumns`; every other body cell
    is blanked. A record is a map from column name to cell value. */
module TableFill {
  import opened Values
  import opened Text
  import opened TextFit
  import opened Runs

  /** Data columns, in table order. */
  const TableColumns: seq<string> := ["brand_name", "total_price", "total_count", "unique_user_count"]
  /** Body rows below the header. */
  const TableMaxRows: nat := 10

  type Record = map<string, Value>
  /** A table cell is its paragraphs; a cell always has at least one. */
  type Cell = seq<Paragraph>

  function Unit(col: string): string {
    if col == "total_price" then "円"
    else if col == "total_count" then "件"
    else if col == "unique_user_count" then "人"
    else ""
  }

  /** The value of `col` after the NaN and number rules: a missing column
      and NaN become "", a number outside the brand column becomes its
      grouped integer part, anything else stays as it is. */
  function CellValue(rec: Record, col: string): (v: Value)
    ensures col !in rec || rec[col].NaN? ==> v == Str("")
    ensures col in rec && (rec[col].Int? || rec[col].Float?) && col != "brand_name" ==>
      v == Str(Thousands(IntOf(rec[col]).value))
    ensures col in rec && rec[col].Str? ==> v == rec[col]
    ensures col == "brand_name" && col in rec && !rec[col].NaN? ==> v == rec[col]
  {
    var v := if col in rec then rec[col] else Str("");
    if v.NaN? then Str("")
    else if IsNumber(v) && col != "brand_name" then Str(Thousands(IntOf(v).value))
    else v
  }

  /** The number test `isinstance(val, (int, float))` on a value of a row
      that `pandas.read_csv` produced: an integer column holds numpy.int64,
      which is not a Python `int`, while a float column (one with a missing
      value, say) holds numpy.float64, which is a Python `float`. */
  predicate PassesNumberTest(v: Value) {
    v.Float? || v.NaN?
  }

  /** The value of `col` as the source computes it: only float values are
      grouped, so an integer column is written with plain digits. */
  function CellValueAsWritten(rec: Record, col: string): (v: Value)
    ensures col !in rec || rec[col].NaN? ==> v == Str("")
    ensures col in rec && rec[col].Float? && col != "brand_name" ==> v == Str(Thousands(IntOf(rec[col]).value))
    ensures col in rec && rec[col].Int? ==> v == rec[col]
  {
    var v := if col in rec then rec[col] else Str("");
    if v.NaN? then Str("")
    else if PassesNumberTest(v) && col != "brand_name" then Str(Thousands(IntOf(v).value))
    else v
  }

  function CellTextAsWritten(rec: Record, col: string): string {
    var v := CellValueAsWritten(rec, col);
    if v == Str("") then "" else StrOf(v) + Unit(col)
  }

  /** An integer column of 1000 or more: as written the cell shows the
      plain digits and no comma ("1234567円"), while the grouped text that
      `{:,}` is there to produce has one ("1,234,567円"). */
  lemma IntColumnUngrouped(rec: Record, col: string)
    requires col in rec && rec[col].Int? && rec[col].i >= 1000 && col != "brand_name"
    ensures CellTextAsWritten(rec, col) == DecimalString(rec[col].i) + Unit(col)
    ensures ',' !in CellTextAsWritten(rec, col)
    ensures ',' in CellText(rec, col)
  {
    var n := rec[col].i;
    DigitsAtLeastFour(n);
    var d := Digits(n);
    assert Grouped(d) == Grouped(d[..|d| - 3]) + "," + d[|d| - 3..];
    assert Thousands(n)[|Grouped(d[..|d| - 3])|] == ',';
    assert CellText(rec, col) == Thousands(n) + Unit(col);
    var w := CellTextAsWritten(rec, col);
    assert w == d + Unit(col);
    forall i | 0 <= i < |w| ensures w[i] != ',' {
      if i < |d| { assert IsDigit(d[i]); }
    }
  }

  /** The text written into the cell of `col`: the value followed by the
      column's unit, or nothing when the value is "". */
  function CellText(rec: Record, col: string): string {
    var v := CellValue(rec, col);
    if v == Str("") then "" else StrOf(v) + Unit(col)
  }

  /** The brand column alone is shrunk to stay on one line. */
  function CellSize(j: nat, text: string, brandWidth: int, isWide: char -> bool): Option<nat> {
    if j == 0 && text != "" then ShrunkSize(HalfWidth(text, isWide), brandWidth - 2 * DefaultCellMargin) else None
  }

  /** Cell `j` of a body row showing `rec` (or no record). */
  function FilledCell(cell: Cell, rec: Option<Record>, j: nat, brandWidth: int, isWide: char -> bool): Cell
    requires |cell| >= 1
  {
    if rec.Some? && j < |TableColumns| then
      var text := CellText(rec.value, TableColumns[j]);
      CellTextWritten(cell, text, CellSize(j, text, brandWidth, isWide))
    else CellTextWritten(cell, "", None)
  }

  predicate CellsHaveParagraphs(row: seq<Cell>) {
    forall j :: 0 <= j < |row| ==> |row[j]| >= 1
  }

  function FilledRow(row: seq<Cell>, rec: Option<Record>, brandWidth: int, isWide: char -> bool): (r: seq<Cell>)
    requires CellsHaveParagraphs(row)
    ensures |r| == |row|
  {
    seq(|row|, j requires 0 <= j < |row| && CellsHaveParagraphs(row) => FilledCell(row[j], rec, j, brandWidth, isWide))
  }

  /** The record shown in body row `i` (0-based), if any. */
  function RecordAt(data: seq<Record>, i: nat): Option<Record> {
    if i < |data| then Some(data[i]) else None
  }

  /** Rows of a table: at least the header, all as wide as the header, and
      every cell holding a paragraph. */
  predicate WellFormed(rows: seq<seq<Cell>>) {
    && |rows| >= 1
    && (forall r :: 0 <= r < |rows| ==> |rows[r]| == |rows[0]|)
    && (forall r :: 0 <= r < |rows| ==> CellsHaveParagraphs(rows[r]))
  }

  /** The whole table after `fill_table_by_ref`. */
  function FilledGrid(rows: seq<seq<Cell>>, data: seq<Record>, brandWidth: int, isWide: char -> bool): (g: seq<seq<Cell>>)
    requires WellFormed(rows)
    ensures |g| == |rows|
  {
    seq(|rows|, r requires 0 <= r < |rows| && WellFormed(rows) =>
      if 1 <= r <= TableMaxRows then FilledRow(rows[r], RecordAt(data, r - 1), brandWidth, isWide) else rows[r])
  }

  // ---------------------------------------------------------------------
  // What the fill promises

  /** Only rows 1..10 change: the header and any further rows are kept;
      every cell keeps its number of paragraphs, and a cell that has runs
      keeps exactly its runs (a run-less cell given text gains one). */
  lemma FilledGridFrame(rows: seq<seq<Cell>>, data: seq<Record>, brandWidth: int, isWide: char -> bool)
    requires WellFormed(rows)
    ensures var g := FilledGrid(rows, data, brandWidth, isWide);
      && WellFormed(g)
      && g[0] == rows[0]
      && (forall r :: TableMaxRows < r < |rows| ==> g[r] == rows[r])
      && (forall r, j :: 0 <= r < |rows| && 0 <= j < |rows[r]| ==> |g[r][j]| == |rows[r][j]|)
      && (forall r, j :: 0 <= r < |rows| && 0 <= j < |rows[r]| && FirstWithRuns(rows[r][j]).Some? ==>
            SameStructure(g[r][j], rows[r][j]))
  {
    var g := FilledGrid(rows, data, brandWidth, isWide);
    forall r, j | 0 <= r < |rows| && 0 <= j < |rows[r]|
      ensures |g[r][j]| == |rows[r][j]|
      ensures FirstWithRuns(rows[r][j]).Some? ==> SameStructure(g[r][j], rows[r][j])
    {
      if 1 <= r <= TableMaxRows {
        CellWrittenStructure(rows[r][j], RecordAt(data, r - 1), j, brandWidth, isWide);
      }
    }
  }

  lemma CellWrittenStructure(cell: Cell, rec: Option<Record>, j: nat, brandWidth: int, isWide: char -> bool)
    requires |cell| >= 1
    ensures |FilledCell(cell, rec, j, brandWidth, isWide)| == |cell|
    ensures FirstWithRuns(cell).Some? ==> SameStructure(FilledCell(cell, rec, j, brandWidth, isWide), cell)
  {
    var text := if rec.Some? && j < |TableColumns| then CellText(rec.value, TableColumns[j]) else "";
    var size := if rec.Some? && j < |TableColumns| then CellSize(j, text, brandWidth, isWide) else None;
    FirstRunWrittenSpec(cell, text, size);
  }

  /** Records after the tenth never reach the table. */
  lemma FilledGridIgnoresExtraData(rows: seq<seq<Cell>>, data: seq<Record>, brandWidth: int, isWide: char -> bool)
    requires WellFormed(rows) && |data| > TableMaxRows
    ensures FilledGrid(rows, data, brandWidth, isWide) == FilledGrid(rows, data[..TableMaxRows], brandWidth, isWide)
  {
    var g, h := FilledGrid(rows, data, brandWidth, isWide), FilledGrid(rows, data[..TableMaxRows], brandWidth, isWide);
    forall r | 0 <= r < |rows| ensures g[r] == h[r] {
      if 1 <= r <= TableMaxRows {
        assert RecordAt(data, r - 1) == RecordAt(data[..TableMaxRows], r - 1);
      }
    }
  }

  /** The text a cell shows in its first paragraph that has runs. */
  predicate ShowsText(cell: Cell, text: string) {
    FirstWithRuns(cell).Some? &&
    var p := cell[FirstWithRuns(cell).value];
    p[0].text == text && forall k :: 1 <= k < |p| ==> p[k].text == ""
  }

  /** A cell blanked by the fill shows nothing in any of its runs. */
  predicate Blank(cell: Cell) {
    forall m, k :: 0 <= m < |cell| && 0 <= k < |cell[m]| ==> cell[m][k].text == ""
  }

  /** Body rows without a record, and body cells beyond the data columns,
      are blanked when their first paragraph with runs is their only text. */
  lemma FilledGridBlanks(rows: seq<seq<Cell>>, data: seq<Record>, brandWidth: int, isWide: char -> bool, r: nat, j: nat)
    requires WellFormed(rows) && 1 <= r <= TableMaxRows && r < |rows| && j < |rows[r]|
    requires r - 1 >= |data| || j >= |TableColumns|
    ensures var c := FilledGrid(rows, data, brandWidth, isWide)[r][j];
      && |c| == |rows[r][j]|
      && (FirstWithRuns(rows[r][j]).Some? ==> ShowsText(c, ""))
      && (FirstWithRuns(rows[r][j]).None? ==> c == rows[r][j])
      && (forall m :: 0 <= m < |c| && Some(m) != FirstWithRuns(rows[r][j]) ==> c[m] == rows[r][j][m])
  {
    var cell := rows[r][j];
    FirstRunWrittenSpec(cell, "", None);
    var c := FilledGrid(rows, data, brandWidth, isWide)[r][j];
    assert c == CellTextWritten(cell, "", None);
    if FirstWithRuns(cell).Some? {
      var k := FirstWithRuns(cell).value;
      assert FirstWithRunsFrom(c, 0) == Some(k) by {
        FirstWithRunsSame(cell, c, 0, k);
      }
    }
  }

  /** Blanking a cell whose text sits in one paragraph leaves it blank. */
  lemma BlankedSingleParagraph(cell: Cell)
    requires |cell| == 1
    ensures Blank(CellTextWritten(cell, "", None))
  {
    FirstRunWrittenSpec(cell, "", None);
  }

  lemma {:induction false} FirstWithRunsSame(a: seq<Paragraph>, b: seq<Paragraph>, i: nat, k: nat)
    requires i <= k < |a| == |b| && |a[k]| > 0 && |b[k]| > 0
    requires forall m :: i <= m < k ==> a[m] == [] && b[m] == []
    ensures FirstWithRunsFrom(a, i) == Some(k) && FirstWithRunsFrom(b, i) == Some(k)
    decreases k - i
  {
    if i < k {
      FirstWithRunsSame(a, b, i + 1, k);
    }
  }

  /** A body row showing record `i` (i < 10): the brand column shows the
      brand, shrunk when it does not fit; the numeric columns show the
      grouped integer part with its unit, which reads back as the integer. */
  lemma FilledGridDataRow(rows: seq<seq<Cell>>, data: seq<Record>, brandWidth: int, isWide: char -> bool, i: nat, j: nat)
    requires WellFormed(rows) && i < |data| && i < TableMaxRows && i + 1 < |rows| && j < |rows[i + 1]|
    requires j < |TableColumns| && FirstWithRuns(rows[i + 1][j]).Some?
    ensures var c := FilledGrid(rows, data, brandWidth, isWide)[i + 1][j];
      var text := CellText(data[i], TableColumns[j]);
      && ShowsText(c, text)
      && c[FirstWithRuns(c).value][0].size ==
           (if CellSize(j, text, brandWidth, isWide).Some? then CellSize(j, text, brandWidth, isWide)
            else rows[i + 1][j][FirstWithRuns(c).value][0].size)
  {
    var cell := rows[i + 1][j];
    var text := CellText(data[i], TableColumns[j]);
    var size := CellSize(j, text, brandWidth, isWide);
    FirstRunWrittenSpec(cell, text, size);
    var c := FilledGrid(rows, data, brandWidth, isWide)[i + 1][j];
    assert c == CellTextWritten(cell, text, size);
    var k := FirstWithRuns(cell).value;
    FirstWithRunsSame(cell, c, 0, k);
  }

  /** The cell text rules: NaN and "" give an empty cell; numbers outside
      the brand column give the grouped integer part and the unit; the unit
      never appears alone. */
  lemma CellTextRules(rec: Record, col: string)
    ensures col !in rec || rec[col].NaN? || rec[col] == Str("") ==> CellText(rec, col) == ""
    ensures col in rec && (rec[col].Int? || rec[col].Float?) && col != "brand_name" ==>
      CellText(rec, col) == Thousands(IntOf(rec[col]).value) + Unit(col)
    ensures col in rec && rec[col].Int? && col != "brand_name" ==>
      var t := CellText(rec, col);
      |Unit(col)| <= |t| && ParseThousands(t[..|t| - |Unit(col)|]) == rec[col].i
    ensures CellText(rec, col) != "" ==> CellText(rec, col) == StrOf(CellValue(rec, col)) + Unit(col)
  {
    if col in rec && rec[col].Int? && col != "brand_name" {
      var t := CellText(rec, col);
      var s := Thousands(rec[col].i);
      assert t == s + Unit(col);
      assert t[..|t| - |Unit(col)|] == s;
      ThousandsRoundTrip(rec[col].i);
    }
  }

  // ---------------------------------------------------------------------
  // The loops

  /** One body row: the data columns of a record, then the extra columns
      blanked; a row without a record has every cell blanked. */
  method FillRow(row: seq<Cell>, rec: Option<Record>, brandWidth: int, isWide: char -> bool) returns (out: seq<Cell>)
    requires CellsHaveParagraphs(row)
    ensures out == FilledRow(row, rec, brandWidth, isWide)
  {
    out := row;
    var nCols := |row|;
    if rec.Some? {
      var j := 0;
      while j < |TableColumns|
        invariant 0 <= j <= |TableColumns| && |out| == nCols
        invariant forall m :: 0 <= m < j && m < nCols ==> out[m] == FilledCell(row[m], rec, m, brandWidth, isWide)
        invariant forall m :: j <= m < nCols ==> out[m] == row[m]
      {
        if j >= nCols {
          break;
        }
        var text := CellText(rec.value, TableColumns[j]);
        var size: Option<nat> := None;
        if j == 0 && text != "" {
          size := CalcFontSize(text, brandWidth, isWide);
        }
        var cell := SetCellText(out[j], text, size);
        out := out[j := cell];
        j := j + 1;
      }
      j := |TableColumns|;
      while j < nCols
        invariant |TableColumns| <= j && |out| == nCols
        invariant forall m :: 0 <= m < j && m < nCols ==> out[m] == FilledCell(row[m], rec, m, brandWidth, isWide)
        invariant forall m :: j <= m < nCols ==> out[m] == row[m]
      {
        var cell := SetCellText(out[j], "", None);
        out := out[j := cell];
        j := j + 1;
      }
    } else {
      var j := 0;
      while j < nCols
        invariant 0 <= j <= nCols && |out| == nCols
        invariant forall m :: 0 <= m < j ==> out[m] == FilledCell(row[m], rec, m, brandWidth, isWide)
        invariant forall m :: j <= m < nCols ==> out[m] == row[m]
      {
        var cell := SetCellText(out[j], "", None);
        out := out[j := cell];
        j := j + 1;
      }
    }
  }

  /** A report table whose cells the generator rewrites in place. */
  class Table {
    var rows: seq<seq<Cell>>
    /** Widths of the grid columns, in EMU. */
    const colWidths: seq<int>

    ghost predicate Valid()
      reads this
    {
      WellFormed(rows) && |colWidths| >= 1
    }

    constructor (rows: seq<seq<Cell>>, colWidths: seq<int>)
      requires WellFormed(rows) && |colWidths| >= 1
      ensures Valid() && this.rows == rows && this.colWidths == colWidths
    {
      this.rows := rows;
      this.colWidths := colWidths;
    }

    /** `fill_table_by_ref`. Body rows are filled from the top; a table with
        fewer than ten body rows has the rows it holds filled and then the
        access to the next row raises IndexError. */
    method FillByRef(data: seq<Record>, isWide: char -> bool) returns (error: Option<string>)
      requires Valid()
      modifies this
      ensures Valid()
      ensures rows == FilledGrid(old(rows), data, colWidths[0], isWide)
      ensures error.Some? <==> |old(rows)| <= TableMaxRows
    {
      FilledGridFrame(rows, data, colWidths[0], isWide);
      ghost var start := rows;
      var brandWidth := colWidths[0];
      ghost var target := FilledGrid(start, data, brandWidth, isWide);
      error := None;
      var i := 0;
      while i < TableMaxRows
        invariant 0 <= i <= TableMaxRows && i < |rows| && |rows| == |start|
        invariant forall r :: 0 <= r < |rows| && !(1 <= r <= i) ==> rows[r] == start[r]
        invariant forall r :: 1 <= r <= i ==> rows[r] == target[r]
        invariant error == None
      {
        if i + 1 >= |rows| {
          error := Some("list index out of range");
          break;
        }
        assert target[i + 1] == FilledRow(start[i + 1], RecordAt(data, i), brandWidth, isWide);
        var row := FillRow(rows[i + 1], RecordAt(data, i), brandWidth, isWide);
        rows := rows[i + 1 := row];
        i := i + 1;
      }
      assert forall r :: 0 <= r < |rows| ==> rows[r] == target[r];
      assert rows == target;
    }
  }
}

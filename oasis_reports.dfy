/** The two monthly workbooks: the campaign promotion-cost report (a raw
    campaign sheet, a raw discount-rate sheet and the calculation sheet
    with its formulas) and the point-usage report (a raw sheet and the
    result sheet with its sum row). Each sheet is cleared below its header
    and refilled from the data rows in order; row `idx` of the data is the
    `idx`-th row read from the file. */
module OasisReports {
  import opened Values
  import opened Text
  import opened Sheets
  import opened OasisInputs

  // ---------------------------------------------------------------------
  // Column layouts

  const Zero := Int(0)
  const Blank := Str("")

  /** Columns 1..11 of the raw campaign sheet and of the calculation
      sheet: source column and the value used when it is missing. */
  const CampaignFields: seq<(string, Value)> := [
    ("brand_name", Blank), ("item_name", Blank), ("item_code", Blank),
    ("discount_rate", Zero), ("issue_count", Zero), ("item_price", Zero),
    ("total_item_price", Zero), ("purchase_price", Zero), ("total_purchase_amount", Zero),
    ("discount_amount", Zero), ("total_discount_amount", Zero)]

  /** Columns 1..14 of the raw discount-rate sheet. */
  const DiscountColumns: seq<string> := [
    "ブランド", "商品", "gx_item_type", "gx_item_code", "等価価格", "割引率",
    "割引価格", "おすすめ度", "掲載状況", "案件個別_掲載可", "マスタ_掲載可",
    "更新日", "project_id", "client_id"]

  /** Columns 1..10 of the raw point sheet. */
  const PointRawColumns: seq<string> := [
    "client_id", "company_name", "month", "granted_points", "used_points",
    "remaining_points", "avg_user_usage", "point_usage_rate_percent",
    "monthly_point_users", "point_consumption_rate_percent"]

  /** Columns 1..5 of the point result sheet. */
  const ResultColumns: seq<string> := ["client_id", "company_name", "month", "granted_points", "used_points"]

  /** A missing point count reads as 0, any other missing value as ''. */
  function ResultDefault(column: string): Value {
    if column in ["granted_points", "used_points"] then Zero else Blank
  }

  /** The values of one data row, each with its default. */
  function Defaulted(row: Row, fields: seq<(string, Value)>): (vals: seq<Option<Value>>)
    ensures |vals| == |fields|
  {
    seq(|fields|, j requires 0 <= j < |fields| => GetValue(row, fields[j].0, Some(fields[j].1)))
  }

  /** The values of one data row, None where missing or NaN. */
  function Optional(row: Row, columns: seq<string>): (vals: seq<Option<Value>>)
    ensures |vals| == |columns|
  {
    seq(|columns|, j requires 0 <= j < |columns| => GetValue(row, columns[j], None))
  }

  // ---------------------------------------------------------------------
  // Formula texts and the row numbers they refer to

  /** The calculation sheet's formula in column `c` (12..20) of sheet row
      `r`; `d` is the last row of the discount-rate sheet. */
  function CalcFormula(c: int, r: nat, d: nat): string
    requires 12 <= c <= 20
  {
    var R := Digits(r);
    if c == 12 then "=VLOOKUP(キャンペーン費用集計!$C" + R + ",'(元データ)基本割引率一覧'!D$2:L$" + Digits(d) + ",3,)"
    else if c == 13 then "=VLOOKUP(キャンペーン費用集計!$C" + R + ",'(元データ)基本割引率一覧'!D$2:N$" + Digits(d) + ",4,)"
    else if c == 14 then "=M" + R + "*E" + R
    else if c == 15 then "=ROUNDDOWN(F" + R + "*L" + R + ",0)"
    else if c == 16 then "=O" + R + "*E" + R
    else if c == 17 then "=G" + R + "-N" + R
    else if c == 18 then "=IF(Q" + R + "=P" + R + ",\"OK\",\"\")"
    else if c == 19 then "=K" + R + "-P" + R
    else "=IF($D" + R + "=$L" + R + ",\"通常\",\"キャンペーン\")"
  }

  /** `=SUM(<col><first>:<col><last>)` */
  function SumText(col: char, first: nat, last: nat): string {
    "=SUM(" + [col] + Digits(first) + ":" + [col] + Digits(last) + ")"
  }

  /** The longest run of digits that ends `s`. */
  function DigitRun(s: string): (d: string)
    ensures AllDigits(d) && |d| <= |s|
  {
    if s == [] || !IsDigit(s[|s| - 1]) then [] else DigitRun(s[..|s| - 1]) + [s[|s| - 1]]
  }

  /** The row number a formula ends with, once its last `tail` characters
      are dropped. */
  function EndRow(s: string, tail: nat): nat
    requires tail <= |s|
  {
    ParseDigits(DigitRun(s[..|s| - tail]))
  }

  /** Digits written after a non-digit are read back whole. */
  lemma {:induction false} DigitRunAfter(p: string, d: string)
    requires AllDigits(d) && p != [] && !IsDigit(p[|p| - 1])
    ensures DigitRun(p + d) == d
    decreases |d|
  {
    if d == [] {
      assert p + d == p;
    } else {
      DigitRunAfter(p, d[..|d| - 1]);
      assert (p + d)[..|p + d| - 1] == p + d[..|d| - 1];
      assert d == d[..|d| - 1] + [d[|d| - 1]];
    }
  }

  lemma NumberBeforeTail(head: string, n: nat, tail: string)
    requires head != [] && !IsDigit(head[|head| - 1])
    ensures |tail| <= |head + Digits(n) + tail|
    ensures EndRow(head + Digits(n) + tail, |tail|) == n
  {
    var s := head + Digits(n) + tail;
    assert s[..|s| - |tail|] == head + Digits(n);
    DigitRunAfter(head, Digits(n));
    ParseDigitsOfDigits(n);
  }

  /** How many characters follow the row number a formula ends with. */
  function TailLength(c: int): nat {
    if c == 12 || c == 13 then 4
    else if c == 15 then 3
    else if c == 18 then 9
    else if c == 20 then 15
    else 0
  }

  /** Both VLOOKUP ranges end at the discount sheet's last row `d`, and
      every other formula of the row refers to its own row `r`. */
  lemma CalcFormulaRows(c: int, r: nat, d: nat)
    requires 12 <= c <= 20
    ensures TailLength(c) <= |CalcFormula(c, r, d)|
    ensures EndRow(CalcFormula(c, r, d), TailLength(c)) == if c <= 13 then d else r
  {
    if c <= 13 {
      LookupFormulaRows(c, r, d);
    } else if c == 15 || c == 18 || c == 20 {
      CheckFormulaRows(c, r, d);
    } else {
      ArithmeticFormulaRows(c, r, d);
    }
  }

  lemma LookupFormulaRows(c: int, r: nat, d: nat)
    requires c == 12 || c == 13
    ensures TailLength(c) <= |CalcFormula(c, r, d)|
    ensures EndRow(CalcFormula(c, r, d), TailLength(c)) == d
  {
    var R := Digits(r);
    if c == 12 {
      NumberBeforeTail("=VLOOKUP(キャンペーン費用集計!$C" + R + ",'(元データ)基本割引率一覧'!D$2:L$", d, ",3,)");
    } else {
      NumberBeforeTail("=VLOOKUP(キャンペーン費用集計!$C" + R + ",'(元データ)基本割引率一覧'!D$2:N$", d, ",4,)");
    }
  }

  lemma CheckFormulaRows(c: int, r: nat, d: nat)
    requires c == 15 || c == 18 || c == 20
    ensures TailLength(c) <= |CalcFormula(c, r, d)|
    ensures EndRow(CalcFormula(c, r, d), TailLength(c)) == r
  {
    if c == 15 {
      RoundDownRows(r, d);
    } else if c == 18 {
      OkCheckRows(r, d);
    } else {
      KindRows(r, d);
    }
  }

  lemma RoundDownRows(r: nat, d: nat)
    ensures TailLength(15) <= |CalcFormula(15, r, d)|
    ensures EndRow(CalcFormula(15, r, d), TailLength(15)) == r
  {
    NumberBeforeTail("=ROUNDDOWN(F" + Digits(r) + "*L", r, ",0)");
  }

  lemma OkCheckRows(r: nat, d: nat)
    ensures TailLength(18) <= |CalcFormula(18, r, d)|
    ensures EndRow(CalcFormula(18, r, d), TailLength(18)) == r
  {
    NumberBeforeTail("=IF(Q" + Digits(r) + "=P", r, ",\"OK\",\"\")");
  }

  lemma KindRows(r: nat, d: nat)
    ensures TailLength(20) <= |CalcFormula(20, r, d)|
    ensures EndRow(CalcFormula(20, r, d), TailLength(20)) == r
  {
    NumberBeforeTail("=IF($D" + Digits(r) + "=$L", r, ",\"通常\",\"キャンペーン\")");
  }

  lemma ArithmeticFormulaRows(c: int, r: nat, d: nat)
    requires c == 14 || c == 16 || c == 17 || c == 19
    ensures TailLength(c) == 0
    ensures EndRow(CalcFormula(c, r, d), 0) == r
  {
    var R := Digits(r);
    var head := if c == 14 then "=M" + R + "*E" else if c == 16 then "=O" + R + "*E" else if c == 17 then "=G" + R + "-N" else "=K" + R + "-P";
    assert CalcFormula(c, r, d) == head + Digits(r) + "";
    NumberBeforeTail(head, r, "");
  }

  /** A SUM range ends where it was asked to. */
  lemma SumTextEnd(col: char, first: nat, last: nat)
    requires !IsDigit(col)
    ensures 1 <= |SumText(col, first, last)|
    ensures EndRow(SumText(col, first, last), 1) == last
  {
    NumberBeforeTail("=SUM(" + [col] + Digits(first) + ":" + [col], last, ")");
  }

  /** The rows a range covers once a spreadsheet puts its ends in order
      (`K4:K3` is the area `K3:K4`). */
  predicate RangeCovers(first: int, last: int, row: int) {
    (first <= row <= last) || (last <= row <= first)
  }

  /** The row-3 total of a calculation-sheet column exactly as the
      generator writes it: `=SUM(X4:X<n+3>)` for `n` campaign rows. */
  function CampaignTotalAsWritten(col: char, n: nat): Value {
    Str(SumText(col, 4, n + 3))
  }

  /** With no campaign rows the written range `X4:X3` covers row 3, the
      total's own cell: a circular reference. */
  lemma CampaignTotalCircular(col: char, n: nat)
    requires !IsDigit(col)
    ensures CampaignTotalAsWritten(col, n) == Str(SumText(col, 4, n + 3))
    ensures RangeCovers(4, EndRow(SumText(col, 4, n + 3), 1), 3) <==> n == 0
  {
    SumTextEnd(col, 4, n + 3);
  }

  /** The total as intended: the sum of the data rows 4..`n+3`, and 0 when
      there are none. */
  function CampaignTotal(col: char, n: nat): Value {
    if n == 0 then Zero else Str(SumText(col, 4, n + 3))
  }

  /** The intended total covers exactly the data rows, never its own. */
  lemma CampaignTotalSpec(col: char, n: nat)
    requires !IsDigit(col)
    ensures n == 0 <==> CampaignTotal(col, n) == Zero
    ensures CampaignTotal(col, n).Str? ==>
      EndRow(CampaignTotal(col, n).s, 1) == n + 3 && !RangeCovers(4, n + 3, 3)
      && 4 <= n + 3
  {
    SumTextEnd(col, 4, n + 3);
  }

  /** The point result's sum cell exactly as the generator writes it:
      `=SUM(E2:E<n+1>)` in row `n+2`. */
  function PointSumAsWritten(n: nat): Value {
    Str(SumText('E', 2, n + 1))
  }

  /** With no point rows the sum row is row 2 and the written range
      `E2:E1` covers it: a circular reference. */
  lemma PointSumCircular(n: nat)
    ensures PointSumAsWritten(n) == Str(SumText('E', 2, n + 1))
    ensures RangeCovers(2, EndRow(SumText('E', 2, n + 1), 1), n + 2) <==> n == 0
  {
    SumTextEnd('E', 2, n + 1);
  }

  /** The sum as intended: over the data rows 2..`n+1`, 0 when there are
      none. */
  function PointSum(n: nat): Value {
    if n == 0 then Zero else Str(SumText('E', 2, n + 1))
  }

  lemma PointSumSpec(n: nat)
    ensures n == 0 <==> PointSum(n) == Zero
    ensures PointSum(n).Str? ==>
      EndRow(PointSum(n).s, 1) == n + 1 && !RangeCovers(2, n + 1, n + 2)
      && 2 <= n + 1
  {
    SumTextEnd('E', 2, n + 1);
  }

  // ---------------------------------------------------------------------
  // Clearing and refilling a block of rows

  /** The value of cell (`r`, `c`) once columns 1..`width` of rows
      `top`..`maxRow0` are cleared and data row `i` is written to sheet row
      `top + i`, its None entries skipped. `g` and `maxRow0` are the sheet
      before. */
  function Rewritten(g: Grid, maxRow0: int, top: int, width: int, data: seq<seq<Option<Value>>>, r: int, c: int): Option<Value> {
    if top <= r < top + |data| && 1 <= c <= |data[r - top]| && data[r - top][c - 1].Some? then data[r - top][c - 1]
    else if InBlock(r, c, top, maxRow0, 1, width) then None
    else CellAt(g, r, c).value
  }

  /** Data row `i` lands on sheet row `top + i`. */
  lemma RewrittenPlacesRow(g: Grid, maxRow0: int, top: int, width: int, data: seq<seq<Option<Value>>>, i: int, c: int)
    requires 0 <= i < |data| && 1 <= c <= |data[i]| && data[i][c - 1].Some?
    ensures Rewritten(g, maxRow0, top, width, data, top + i, c) == data[i][c - 1]
  {
  }

  /** A cell of the block with nothing to write is empty afterwards: rows
      below the data are cleared up to the old `max_row`, and a skipped
      value leaves the cleared cell empty, even past the old `max_row`. */
  lemma RewrittenEmpty(g: Grid, maxRow0: nat, top: int, width: int, data: seq<seq<Option<Value>>>, r: int, c: int)
    requires WithinRows(g, maxRow0) && top <= r && 1 <= c <= width
    requires !(r < top + |data| && c <= |data[r - top]| && data[r - top][c - 1].Some?)
    ensures Rewritten(g, maxRow0, top, width, data, r, c) == None
  {
    if r > maxRow0 {
      PastMaxRowEmpty(g, maxRow0, r, c);
    }
  }

  /** Rows above the block and columns right of it keep their values. */
  lemma RewrittenOutside(g: Grid, maxRow0: int, top: int, width: int, data: seq<seq<Option<Value>>>, r: int, c: int)
    requires r < top || (c > width && forall i :: 0 <= i < |data| ==> |data[i]| <= width)
    ensures Rewritten(g, maxRow0, top, width, data, r, c) == CellAt(g, r, c).value
  {
  }

  /** One more data row changes only the sheet row it lands on. */
  lemma RewrittenExtend(g: Grid, maxRow0: int, top: int, width: int, data: seq<seq<Option<Value>>>, i: int, r: int, c: int)
    requires 0 <= i < |data|
    ensures Rewritten(g, maxRow0, top, width, data[..i + 1], r, c) ==
      if r == top + i && 1 <= c <= |data[i]| && data[i][c - 1].Some? then data[i][c - 1]
      else Rewritten(g, maxRow0, top, width, data[..i], r, c)
  {
    if top <= r < top + i {
      assert data[..i + 1][r - top] == data[..i][r - top];
    }
  }

  /** The clearing loop followed by the row-writing loop. */
  method RewriteBlock(ws: Sheet, top: int, width: int, data: seq<seq<Option<Value>>>)
    requires ws.Valid() && 1 <= top
    modifies ws
    ensures ws.Valid()
    ensures old(ws.maxRow) <= ws.maxRow <= Max(old(ws.maxRow), top + |data| - 1)
    ensures forall r, c :: ws.At(r, c) == old(ws.At(r, c)).(value := Rewritten(old(ws.cells), old(ws.maxRow), top, width, data, r, c))
  {
    ws.ClearValues(top, ws.maxRow, width);
    var i := 0;
    while i < |data|
      invariant 0 <= i <= |data| && ws.Valid()
      invariant old(ws.maxRow) <= ws.maxRow <= Max(old(ws.maxRow), top + i - 1)
      invariant forall r, c :: ws.At(r, c) == old(ws.At(r, c)).(value := Rewritten(old(ws.cells), old(ws.maxRow), top, width, data[..i], r, c))
    {
      ws.WritePresent(top + i, data[i]);
      forall r, c
        ensures Rewritten(old(ws.cells), old(ws.maxRow), top, width, data[..i + 1], r, c) ==
          if r == top + i && 1 <= c <= |data[i]| && data[i][c - 1].Some? then data[i][c - 1]
          else Rewritten(old(ws.cells), old(ws.maxRow), top, width, data[..i], r, c)
      {
        RewrittenExtend(old(ws.cells), old(ws.maxRow), top, width, data, i, r, c);
      }
      i := i + 1;
    }
    assert data[..i] == data;
  }

  // ---------------------------------------------------------------------
  // The campaign promotion-cost workbook

  function CampaignData(df: seq<Row>): (data: seq<seq<Option<Value>>>)
    ensures |data| == |df|
  {
    seq(|df|, i requires 0 <= i < |df| => Defaulted(df[i], CampaignFields))
  }

  function DiscountData(df: seq<Row>): (data: seq<seq<Option<Value>>>)
    ensures |data| == |df|
  {
    seq(|df|, i requires 0 <= i < |df| => Optional(df[i], DiscountColumns))
  }

  /** Columns 12..20 of calculation-sheet row `r`. */
  function Formulas(r: nat, d: nat): (f: seq<Option<Value>>)
    ensures |f| == 9
  {
    seq(9, j requires 0 <= j < 9 => Some(Str(CalcFormula(12 + j, r, d))))
  }

  /** A calculation-sheet data row: the campaign values, then the nine
      formulas of sheet row `idx + 4` with the VLOOKUP ranges ending at
      row `discountRows + 1`. */
  function CalcData(df: seq<Row>, discountRows: nat): (data: seq<seq<Option<Value>>>)
    ensures |data| == |df|
  {
    seq(|df|, i requires 0 <= i < |df| => Defaulted(df[i], CampaignFields) + Formulas(i + 4, discountRows + 1))
  }

  /** The four row-3 totals: columns K, P, Q and S. */
  function TotalLetter(c: int): char {
    if c == 11 then 'K' else if c == 16 then 'P' else if c == 17 then 'Q' else 'S'
  }

  predicate IsTotalColumn(c: int) {
    c == 11 || c == 16 || c == 17 || c == 19
  }

  /** The value of calculation-sheet cell (`r`, `c`) after the report. */
  function CalcValue(g: Grid, maxRow0: int, df: seq<Row>, discountRows: nat, r: int, c: int): Option<Value> {
    if r == 3 && IsTotalColumn(c) then Some(CampaignTotal(TotalLetter(c), |df|))
    else Rewritten(g, maxRow0, 4, 20, CalcData(df, discountRows), r, c)
  }

  /** Each total sums its own column: K is column 11, P 16, Q 17, S 19. */
  lemma TotalLettersAreOwnColumns(c: int)
    requires IsTotalColumn(c)
    ensures TotalLetter(c) as int - 'A' as int + 1 == c
  {
  }

  /** Campaign row `idx` lands on raw-sheet row `idx + 2` and on
      calculation-sheet row `idx + 4`, with the same eleven values (the
      default where a value is missing or NaN); the calculation row then
      holds the formulas of its own row, the VLOOKUPs ending at the last
      discount row. */
  lemma CampaignRowPlacement(g: Grid, m: int, cg: Grid, cm: int, df: seq<Row>, discountRows: nat, i: int, c: int)
    requires 0 <= i < |df| && 1 <= c <= 20
    ensures c <= 11 ==> Rewritten(g, m, 2, 11, CampaignData(df), i + 2, c)
                          == Some(GetValue(df[i], CampaignFields[c - 1].0, Some(CampaignFields[c - 1].1)).value)
    ensures c <= 11 ==> CalcValue(cg, cm, df, discountRows, i + 4, c) == Rewritten(g, m, 2, 11, CampaignData(df), i + 2, c)
    ensures c >= 12 ==> CalcValue(cg, cm, df, discountRows, i + 4, c) == Some(Str(CalcFormula(c, i + 4, discountRows + 1)))
    ensures c >= 12 ==> EndRow(CalcFormula(c, i + 4, discountRows + 1), TailLength(c)) == if c <= 13 then discountRows + 1 else i + 4
  {
    if c <= 11 {
      CampaignValuePlacement(g, m, cg, cm, df, discountRows, i, c);
    } else {
      CampaignFormulaPlacement(cg, cm, df, discountRows, i, c);
      CalcFormulaRows(c, i + 4, discountRows + 1);
    }
  }

  lemma CampaignValuePlacement(g: Grid, m: int, cg: Grid, cm: int, df: seq<Row>, discountRows: nat, i: int, c: int)
    requires 0 <= i < |df| && 1 <= c <= 11
    ensures Rewritten(g, m, 2, 11, CampaignData(df), i + 2, c)
              == Some(GetValue(df[i], CampaignFields[c - 1].0, Some(CampaignFields[c - 1].1)).value)
    ensures CalcValue(cg, cm, df, discountRows, i + 4, c) == Rewritten(g, m, 2, 11, CampaignData(df), i + 2, c)
  {
    var vals := Defaulted(df[i], CampaignFields);
    var v := GetValue(df[i], CampaignFields[c - 1].0, Some(CampaignFields[c - 1].1));
    assert vals[c - 1] == v && v.Some?;
    assert CampaignData(df)[i] == vals;
    assert CalcData(df, discountRows)[i] == vals + Formulas(i + 4, discountRows + 1);
    assert CalcData(df, discountRows)[i][c - 1] == v;
    RewrittenPlacesRow(g, m, 2, 11, CampaignData(df), i, c);
    RewrittenPlacesRow(cg, cm, 4, 20, CalcData(df, discountRows), i, c);
  }

  lemma CampaignFormulaPlacement(cg: Grid, cm: int, df: seq<Row>, discountRows: nat, i: int, c: int)
    requires 0 <= i < |df| && 12 <= c <= 20
    ensures CalcValue(cg, cm, df, discountRows, i + 4, c) == Some(Str(CalcFormula(c, i + 4, discountRows + 1)))
  {
    var f := Formulas(i + 4, discountRows + 1);
    assert f[c - 12] == Some(Str(CalcFormula(c, i + 4, discountRows + 1)));
    assert CalcData(df, discountRows)[i] == Defaulted(df[i], CampaignFields) + f;
    assert CalcData(df, discountRows)[i][c - 1] == f[c - 12];
    RewrittenPlacesRow(cg, cm, 4, 20, CalcData(df, discountRows), i, c);
  }

  /** A discount value that is missing or NaN leaves its cell empty. */
  lemma DiscountMissingEmpty(g: Grid, m: nat, df: seq<Row>, i: int, c: int)
    requires WithinRows(g, m) && 0 <= i < |df| && 1 <= c <= 14
    requires DiscountColumns[c - 1] !in df[i] || df[i][DiscountColumns[c - 1]].NaN?
    ensures Rewritten(g, m, 2, 14, DiscountData(df), i + 2, c) == None
  {
    assert DiscountData(df)[i][c - 1] == GetValue(df[i], DiscountColumns[c - 1], None);
    RewrittenEmpty(g, m, 2, 14, DiscountData(df), i + 2, c);
  }

  /** Writes the four row-3 totals. */
  method WriteTotals(summary: Sheet, n: nat)
    requires summary.Valid()
    modifies summary
    ensures summary.Valid() && summary.maxRow == Max(old(summary.maxRow), 3)
    ensures forall r, c :: (summary.At(r, c) ==
      if r == 3 && IsTotalColumn(c) then old(summary.At(r, c)).(value := Some(CampaignTotal(TotalLetter(c), n))) else old(summary.At(r, c)))
  {
    summary.SetValue(3, 11, Some(CampaignTotal('K', n)));
    summary.SetValue(3, 16, Some(CampaignTotal('P', n)));
    summary.SetValue(3, 17, Some(CampaignTotal('Q', n)));
    summary.SetValue(3, 19, Some(CampaignTotal('S', n)));
  }

  /** `generate_campaign_report` on the three sheets of the copied
      template, given the campaign rows and the discount-rate rows. */
  method CampaignReport(raw: Sheet, discount: Sheet, summary: Sheet, campaignRows: seq<Row>, discountRows: seq<Row>)
    requires raw != discount && raw != summary && discount != summary
    requires raw.Valid() && discount.Valid() && summary.Valid()
    modifies raw, discount, summary
    ensures raw.Valid() && discount.Valid() && summary.Valid()
    ensures forall r, c :: (raw.At(r, c) ==
      old(raw.At(r, c)).(value := Rewritten(old(raw.cells), old(raw.maxRow), 2, 11, CampaignData(campaignRows), r, c)))
    ensures forall r, c :: (discount.At(r, c) ==
      old(discount.At(r, c)).(value := Rewritten(old(discount.cells), old(discount.maxRow), 2, 14, DiscountData(discountRows), r, c)))
    ensures forall r, c :: (summary.At(r, c) ==
      old(summary.At(r, c)).(value := CalcValue(old(summary.cells), old(summary.maxRow), campaignRows, |discountRows|, r, c)))
  {
    RewriteBlock(raw, 2, 11, CampaignData(campaignRows));
    RewriteBlock(discount, 2, 14, DiscountData(discountRows));
    RewriteBlock(summary, 4, 20, CalcData(campaignRows, |discountRows|));
    WriteTotals(summary, |campaignRows|);
  }

  // ---------------------------------------------------------------------
  // The point-usage workbook

  function PointRawData(df: seq<Row>): (data: seq<seq<Option<Value>>>)
    ensures |data| == |df|
  {
    seq(|df|, i requires 0 <= i < |df| => Optional(df[i], PointRawColumns))
  }

  function ResultData(df: seq<Row>): (data: seq<seq<Option<Value>>>)
    ensures |data| == |df|
  {
    seq(|df|, i requires 0 <= i < |df| =>
      seq(5, j requires 0 <= j < 5 => GetValue(df[i], ResultColumns[j], Some(ResultDefault(ResultColumns[j])))))
  }

  const Medium := Some("medium")

  /** The sum row's borders: a medium line below columns 1..5, closed on
      the left of column 1 and on the right of column 5. */
  function SumBorder(c: int): Border {
    if c == 1 then Border(Medium, None, None, Medium)
    else if c == 5 then Border(None, Medium, None, Medium)
    else Border(None, None, None, Medium)
  }

  const SumLabel := Str("合計利用pt")
  const Yellow := Solid("FFFF00")

  /** Result-sheet cell (`r`, `c`) after the report, for `n` data rows: the
      refilled block, the sum row `n + 2`, F28 emptied, and when the sum
      row is not row 28 the rows after it up to row 28 wiped. */
  function ResultCell(g: Grid, maxRow0: int, df: seq<Row>, r: int, c: int): Cell {
    var n := |df|;
    var before := CellAt(g, r, c);
    var v := Rewritten(g, maxRow0, 2, 5, ResultData(df), r, c);
    if n + 2 != 28 && InBlock(r, c, n + 3, 28, 1, 5) then EmptyCell
    else if r == 28 && c == 6 then before.(value := None)
    else if r == n + 2 && 1 <= c <= 5 then
      Cell(if c == 2 then Some(SumLabel) else if c == 5 then Some(PointSum(n)) else v,
           if c == 5 then Yellow else before.fill,
           SumBorder(c))
    else before.(value := v)
  }

  /** Writes the sum row `n + 2` of the result sheet. */
  method WriteSumRow(ws: Sheet, n: nat)
    requires ws.Valid()
    modifies ws
    ensures ws.Valid() && ws.maxRow == Max(old(ws.maxRow), n + 2)
    ensures forall r, c :: (ws.At(r, c) ==
      if r == n + 2 && 1 <= c <= 5 then
        Cell(if c == 2 then Some(SumLabel) else if c == 5 then Some(PointSum(n)) else old(ws.At(r, c)).value,
             if c == 5 then Yellow else old(ws.At(r, c)).fill,
             SumBorder(c))
      else old(ws.At(r, c)))
  {
    var sumRow := n + 2;
    ws.SetValue(sumRow, 2, Some(SumLabel));
    ws.SetValue(sumRow, 5, Some(PointSum(n)));
    ws.SetFill(sumRow, 5, Yellow);
    BorderSumRow(ws, sumRow);
  }

  /** Draws the sum row's borders on columns 1..5 of row `row`. */
  method BorderSumRow(ws: Sheet, row: int)
    requires ws.Valid() && 1 <= row
    modifies ws
    ensures ws.Valid() && ws.maxRow == Max(old(ws.maxRow), row)
    ensures forall r, c :: (ws.At(r, c) ==
      if r == row && 1 <= c <= 5 then old(ws.At(r, c)).(border := SumBorder(c)) else old(ws.At(r, c)))
  {
    ws.SetBorder(row, 1, SumBorder(1));
    ws.SetBorder(row, 2, SumBorder(2));
    ws.SetBorder(row, 3, SumBorder(3));
    ws.SetBorder(row, 4, SumBorder(4));
    ws.SetBorder(row, 5, SumBorder(5));
    forall r, c ensures ws.At(r, c) ==
      if r == row && 1 <= c <= 5 then old(ws.At(r, c)).(border := SumBorder(c)) else old(ws.At(r, c))
    {
      if r == row && 1 <= c <= 5 {
        assert c == 1 || c == 2 || c == 3 || c == 4 || c == 5;
      }
    }
  }

  /** Empties F28 and, unless the sum row is row 28, wipes columns 1..5 of
      the rows after the sum row up to row 28. */
  method ClearTemplateTail(ws: Sheet, sumRow: int)
    requires ws.Valid() && 2 <= sumRow
    modifies ws
    ensures ws.Valid() && ws.maxRow == Max(old(ws.maxRow), 28)
    ensures forall r, c :: (ws.At(r, c) ==
      if sumRow != 28 && InBlock(r, c, sumRow + 1, 28, 1, 5) then EmptyCell
      else if r == 28 && c == 6 then old(ws.At(r, c)).(value := None)
      else old(ws.At(r, c)))
  {
    ws.SetValue(28, 6, None);
    if sumRow != 28 {
      ws.ResetBlock(sumRow + 1, 28, 5);
    }
  }

  /** `generate_point_report` on the two sheets of the copied template. */
  method PointReport(raw: Sheet, result: Sheet, df: seq<Row>)
    requires raw != result && raw.Valid() && result.Valid()
    modifies raw, result
    ensures raw.Valid() && result.Valid()
    ensures forall r, c :: (raw.At(r, c) ==
      old(raw.At(r, c)).(value := Rewritten(old(raw.cells), old(raw.maxRow), 2, 10, PointRawData(df), r, c)))
    ensures forall r, c :: result.At(r, c) == ResultCell(old(result.cells), old(result.maxRow), df, r, c)
  {
    RewriteBlock(raw, 2, 10, PointRawData(df));
    RewriteBlock(result, 2, 5, ResultData(df));
    WriteSumRow(result, |df|);
    ClearTemplateTail(result, |df| + 2);
  }

  /** Point row `idx` lands on row `idx + 2` of both sheets; on the result
      sheet a missing point count reads 0 and any other missing value ''. */
  lemma PointRowPlacement(g: Grid, m: int, res: Grid, rm: int, df: seq<Row>, i: int, c: int)
    requires 0 <= i < |df| && 1 <= c <= 5
    requires |df| + 2 != 28 ==> i + 2 < |df| + 3
    ensures ResultCell(res, rm, df, i + 2, c).value
         == Some(GetValue(df[i], ResultColumns[c - 1], Some(ResultDefault(ResultColumns[c - 1]))).value)
    ensures ResultColumns[c - 1] !in df[i] ==> ResultCell(res, rm, df, i + 2, c).value == Some(if c >= 4 then Zero else Blank)
    ensures GetValue(df[i], PointRawColumns[c - 1], None).Some? ==>
      Rewritten(g, m, 2, 10, PointRawData(df), i + 2, c) == GetValue(df[i], PointRawColumns[c - 1], None)
  {
    assert ResultData(df)[i][c - 1] == GetValue(df[i], ResultColumns[c - 1], Some(ResultDefault(ResultColumns[c - 1])));
    assert PointRawData(df)[i][c - 1] == GetValue(df[i], PointRawColumns[c - 1], None);
  }

  /** The sum row sits right after the data: "合計利用pt" in column 2, the
      sum in column 5 on a yellow fill, a medium line along its bottom. */
  lemma PointSumRow(g: Grid, m: int, df: seq<Row>, c: int)
    requires 1 <= c <= 5
    ensures ResultCell(g, m, df, |df| + 2, 2).value == Some(SumLabel)
    ensures ResultCell(g, m, df, |df| + 2, 5) == Cell(Some(PointSum(|df|)), Yellow, Border(None, Medium, None, Medium))
    ensures ResultCell(g, m, df, |df| + 2, c).border.bottom == Medium
  {
  }

  /** F28 always ends up empty; below a sum row above row 28 every cell of
      columns 1..5 through row 28 is wiped, and above it nothing past the
      sum row is touched. */
  lemma PointTemplateTail(g: Grid, m: int, df: seq<Row>, r: int, c: int)
    ensures ResultCell(g, m, df, 28, 6).value == None
    ensures |df| + 2 < r <= 28 && 1 <= c <= 5 ==> ResultCell(g, m, df, r, c) == EmptyCell
    ensures r > 28 && r > |df| + 2 && c != 6 ==> ResultCell(g, m, df, r, c) == CellAt(g, r, c).(value := Rewritten(g, m, 2, 5, ResultData(df), r, c))
  {
  }
}

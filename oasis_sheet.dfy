/** A worksheet as the monthly report generator sees it: cells addressed by
    1-based row and column, each with a value, a fill and a border, and the
    sheet's `max_row`. Touching a cell through `ws.cell(row, column)`
    creates it, which can raise `max_row`. */
module Sheets {
  import opened Values

  /** A border side's style name, None for no line. */
  datatype Border = Border(left: Option<string>, right: Option<string>, top: Option<string>, bottom: Option<string>)

  /** `Border()`: no line on any side. */
  const NoBorder := Border(None, None, None, None)

  datatype Fill = NoFill | Solid(color: string) | OtherFill(pattern: string)

  /** A cell: its value (None when empty), fill and border. */
  datatype Cell = Cell(value: Option<Value>, fill: Fill, border: Border)

  /** What a cell that was never created looks like. */
  const EmptyCell := Cell(None, NoFill, NoBorder)

  type Grid = map<(int, int), Cell>

  function CellAt(g: Grid, r: int, c: int): Cell {
    if (r, c) in g then g[(r, c)] else EmptyCell
  }

  /** Every created cell lies in rows 1..`maxRow`, columns from 1. */
  predicate WithinRows(g: Grid, maxRow: nat) {
    forall p :: p in g ==> 1 <= p.0 <= maxRow && 1 <= p.1
  }

  /** Past `max_row` every cell is empty. */
  lemma PastMaxRowEmpty(g: Grid, maxRow: nat, r: int, c: int)
    requires WithinRows(g, maxRow) && r > maxRow
    ensures CellAt(g, r, c) == EmptyCell
  {
  }

  function Max(a: nat, b: int): nat {
    if a >= b then a else b
  }

  /** Rows `lo`..`hi` and columns `cLo`..`cHi`, both ends included. */
  predicate InBlock(r: int, c: int, lo: int, hi: int, cLo: int, cHi: int) {
    lo <= r <= hi && cLo <= c <= cHi
  }

  class Sheet {
    var cells: Grid
    var maxRow: nat

    ghost predicate Valid()
      reads this
    {
      WithinRows(cells, maxRow)
    }

    constructor(cells0: Grid, maxRow0: nat)
      requires WithinRows(cells0, maxRow0)
      ensures Valid() && cells == cells0 && maxRow == maxRow0
    {
      cells := cells0;
      maxRow := maxRow0;
    }

    function At(r: int, c: int): Cell
      reads this
    {
      CellAt(cells, r, c)
    }

    /** `ws.cell(row=r, column=c).value = v` */
    method SetValue(r: int, c: int, v: Option<Value>)
      requires Valid() && 1 <= r && 1 <= c
      modifies this
      ensures Valid()
      ensures maxRow == Max(old(maxRow), r)
      ensures forall r', c' :: At(r', c') == if r' == r && c' == c then old(At(r, c)).(value := v) else old(At(r', c'))
    {
      cells := cells[(r, c) := At(r, c).(value := v)];
      maxRow := Max(maxRow, r);
    }

    /** `ws.cell(row=r, column=c).fill = f` */
    method SetFill(r: int, c: int, f: Fill)
      requires Valid() && 1 <= r && 1 <= c
      modifies this
      ensures Valid()
      ensures maxRow == Max(old(maxRow), r)
      ensures forall r', c' :: At(r', c') == if r' == r && c' == c then old(At(r, c)).(fill := f) else old(At(r', c'))
    {
      cells := cells[(r, c) := At(r, c).(fill := f)];
      maxRow := Max(maxRow, r);
    }

    /** `ws.cell(row=r, column=c).border = b` */
    method SetBorder(r: int, c: int, b: Border)
      requires Valid() && 1 <= r && 1 <= c
      modifies this
      ensures Valid()
      ensures maxRow == Max(old(maxRow), r)
      ensures forall r', c' :: At(r', c') == if r' == r && c' == c then old(At(r, c)).(border := b) else old(At(r', c'))
    {
      cells := cells[(r, c) := At(r, c).(border := b)];
      maxRow := Max(maxRow, r);
    }

    /** The value-clearing double loop over rows `lo`..`hi` and columns
        1..`width`. */
    method ClearValues(lo: int, hi: int, width: int)
      requires Valid() && 1 <= lo
      modifies this
      ensures Valid()
      ensures maxRow == if lo <= hi && 1 <= width then Max(old(maxRow), hi) else old(maxRow)
      ensures forall r, c :: At(r, c) == if InBlock(r, c, lo, hi, 1, width) then old(At(r, c)).(value := None) else old(At(r, c))
    {
      var row := lo;
      while row <= hi
        invariant Valid() && lo <= row <= if lo <= hi then hi + 1 else lo
        invariant maxRow == if lo < row && 1 <= width then Max(old(maxRow), row - 1) else old(maxRow)
        invariant forall r, c :: At(r, c) == if InBlock(r, c, lo, row - 1, 1, width) then old(At(r, c)).(value := None) else old(At(r, c))
        decreases hi - row
      {
        var col := 1;
        while col <= width
          invariant Valid() && 1 <= col <= if width < 1 then 1 else width + 1
          invariant col == 1 ==> maxRow == if lo < row && 1 <= width then Max(old(maxRow), row - 1) else old(maxRow)
          invariant col > 1 ==> maxRow == Max(old(maxRow), row)
          invariant forall r, c :: (At(r, c) ==
            if InBlock(r, c, lo, row - 1, 1, width) || InBlock(r, c, row, row, 1, col - 1) then old(At(r, c)).(value := None) else old(At(r, c)))
          decreases width - col
        {
          SetValue(row, col, None);
          col := col + 1;
        }
        row := row + 1;
      }
    }

    /** The style-and-value reset double loop over rows `lo`..`hi` and
        columns 1..`width`: value, fill and border all cleared. */
    method ResetBlock(lo: int, hi: int, width: int)
      requires Valid() && 1 <= lo
      modifies this
      ensures Valid()
      ensures maxRow == if lo <= hi && 1 <= width then Max(old(maxRow), hi) else old(maxRow)
      ensures forall r, c :: At(r, c) == if InBlock(r, c, lo, hi, 1, width) then Cell(None, NoFill, NoBorder) else old(At(r, c))
    {
      var row := lo;
      while row <= hi
        invariant Valid() && lo <= row <= if lo <= hi then hi + 1 else lo
        invariant maxRow == if lo < row && 1 <= width then Max(old(maxRow), row - 1) else old(maxRow)
        invariant forall r, c :: At(r, c) == if InBlock(r, c, lo, row - 1, 1, width) then Cell(None, NoFill, NoBorder) else old(At(r, c))
        decreases hi - row
      {
        var col := 1;
        while col <= width
          invariant Valid() && 1 <= col <= if width < 1 then 1 else width + 1
          invariant col == 1 ==> maxRow == if lo < row && 1 <= width then Max(old(maxRow), row - 1) else old(maxRow)
          invariant col > 1 ==> maxRow == Max(old(maxRow), row)
          invariant forall r, c :: (At(r, c) ==
            if InBlock(r, c, lo, row - 1, 1, width) || InBlock(r, c, row, row, 1, col - 1) then Cell(None, NoFill, NoBorder) else old(At(r, c)))
          decreases width - col
        {
          SetValue(row, col, None);
          SetFill(row, col, NoFill);
          SetBorder(row, col, NoBorder);
          col := col + 1;
        }
        row := row + 1;
      }
    }

    /** One row written from column 1 on, skipping the values that are
        None (`if val is not None: ws.cell(...).value = val`). */
    method WritePresent(row: int, vals: seq<Option<Value>>)
      requires Valid() && 1 <= row
      modifies this
      ensures Valid()
      ensures maxRow == if exists k :: 0 <= k < |vals| && vals[k].Some? then Max(old(maxRow), row) else old(maxRow)
      ensures forall r, c :: (At(r, c) ==
        if r == row && 1 <= c <= |vals| && vals[c - 1].Some? then old(At(r, c)).(value := vals[c - 1]) else old(At(r, c)))
    {
      var col := 1;
      while col <= |vals|
        invariant Valid() && 1 <= col <= |vals| + 1
        invariant maxRow == if exists k :: 0 <= k < col - 1 && vals[k].Some? then Max(old(maxRow), row) else old(maxRow)
        invariant forall r, c :: (At(r, c) ==
          if r == row && 1 <= c < col && vals[c - 1].Some? then old(At(r, c)).(value := vals[c - 1]) else old(At(r, c)))
      {
        if vals[col - 1].Some? {
          SetValue(row, col, vals[col - 1]);
        }
        col := col + 1;
      }
    }
  }
}

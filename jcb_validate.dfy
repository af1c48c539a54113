/** The structural validator: compares the table of every generated slide
    with the template's table and classifies what differs as errors or
    warnings (`_get_table_metrics`, `validate` and the exit status of `main`). */
module Validate {
  import opened Values
  import TableFill

  // ---------------------------------------------------------------------
  // What the validator reads from a slide

  /** A table row: its `h` attribute, if any, and the paragraph count of each cell. */
  datatype RowXml = RowXml(h: Option<int>, cellParagraphs: seq<nat>)

  /** A table: its rows and the widths of its grid columns. */
  datatype TableXml = TableXml(rows: seq<RowXml>, gridCols: seq<int>)

  /** A slide shape, with its table when it has one. */
  datatype ShapeGeom = ShapeGeom(table: Option<TableXml>, top: int, left: int, width: int, height: int)

  /** The metrics record of `_get_table_metrics`. */
  datatype Metrics = Metrics(
    top: int, left: int, width: int, height: int,
    nRows: nat, nCols: nat,
    rowHeights: seq<int>, colWidths: seq<int>, paraCounts: seq<seq<nat>>)

  /** A missing `h` attribute reads as 0. */
  function HeightOf(r: RowXml): int {
    match r.h
    case None => 0
    case Some(h) => h
  }

  function MetricsOf(s: ShapeGeom): (m: Metrics)
    requires s.table.Some?
  {
    var t := s.table.value;
    Metrics(s.top, s.left, s.width, s.height, |t.rows|, |t.gridCols|,
      seq(|t.rows|, i requires 0 <= i < |t.rows| => HeightOf(t.rows[i])),
      t.gridCols,
      seq(|t.rows|, i requires 0 <= i < |t.rows| => t.rows[i].cellParagraphs))
  }

  /** The metrics of the first table on the slide, None without a table. */
  function TableMetrics(shapes: seq<ShapeGeom>): (m: Option<Metrics>)
    ensures m.None? <==> forall i :: 0 <= i < |shapes| ==> shapes[i].table.None?
    ensures m.Some? ==> exists i :: (0 <= i < |shapes| && shapes[i].table.Some? && m.value == MetricsOf(shapes[i]) &&
      forall j :: 0 <= j < i ==> shapes[j].table.None?)
    decreases |shapes|
  {
    if shapes == [] then None
    else if shapes[0].table.Some? then Some(MetricsOf(shapes[0]))
    else
      var m := TableMetrics(shapes[1..]);
      assert forall i :: 1 <= i < |shapes| ==> shapes[1..][i - 1] == shapes[i];
      m
  }

  /** The metrics describe the table they come from: one height and one
      paragraph-count row per table row, one width per grid column. */
  lemma MetricsOfSpec(s: ShapeGeom)
    requires s.table.Some?
    ensures var m := MetricsOf(s);
      && m.nRows == |m.rowHeights| == |m.paraCounts| == |s.table.value.rows|
      && m.nCols == |m.colWidths|
      && forall i :: 0 <= i < m.nRows ==>
           m.rowHeights[i] == (if s.table.value.rows[i].h.Some? then s.table.value.rows[i].h.value else 0)
  {
  }

  // ---------------------------------------------------------------------
  // Issues

  datatype Severity = Error | Warning

  /** What an issue reports; the message text itself is not modelled. */
  datatype IssueKind =
    | NoTable
    | RowCount(tmplRows: nat, genRows: nat)
    | ColCount(tmplCols: nat, genCols: nat)
    | RowHeight(row: nat, tmplHeight: int, genHeight: int)
    | ColWidth(col: nat, tmplWidth: int, genWidth: int)
    | Position
    | Size
    | Paragraphs(prow: nat, pcol: nat, count: nat)

  datatype Issue = Issue(slide: nat, severity: Severity, kind: IssueKind)

  /** The severity the validator gives each kind of difference. */
  function SeverityOf(k: IssueKind): Severity {
    if k.RowHeight? || k.Position? then Warning else Error
  }

  function Min(a: nat, b: nat): nat {
    if a <= b then a else b
  }

  /** The row-height warnings for the first `n` zipped pairs. */
  function HeightIssues(s: nat, th: seq<int>, gh: seq<int>, n: nat): (r: seq<Issue>)
    requires n <= |th| && n <= |gh|
    ensures forall k :: 0 <= k < |r| ==>
      r[k].slide == s && r[k].severity == Warning && r[k].kind.RowHeight? && r[k].kind.row < n
    decreases n
  {
    if n == 0 then []
    else HeightIssues(s, th, gh, n - 1) + (if th[n - 1] != gh[n - 1] then [Issue(s, Warning, RowHeight(n - 1, th[n - 1], gh[n - 1]))] else [])
  }

  /** The column-width errors for the first `n` zipped pairs. */
  function WidthIssues(s: nat, tw: seq<int>, gw: seq<int>, n: nat): (r: seq<Issue>)
    requires n <= |tw| && n <= |gw|
    ensures forall k :: 0 <= k < |r| ==>
      r[k].slide == s && r[k].severity == Error && r[k].kind.ColWidth? && r[k].kind.col < n
    decreases n
  {
    if n == 0 then []
    else WidthIssues(s, tw, gw, n - 1) + (if tw[n - 1] != gw[n - 1] then [Issue(s, Error, ColWidth(n - 1, tw[n - 1], gw[n - 1]))] else [])
  }

  /** The paragraph errors for the first `n` cells of row `i`. */
  function RowParagraphIssues(s: nat, i: nat, counts: seq<nat>, n: nat): (r: seq<Issue>)
    requires n <= |counts|
    ensures forall k :: 0 <= k < |r| ==>
      r[k].slide == s && r[k].severity == Error && r[k].kind.Paragraphs? && r[k].kind.prow == i && r[k].kind.pcol < n
    decreases n
  {
    if n == 0 then []
    else RowParagraphIssues(s, i, counts, n - 1) + (if counts[n - 1] > 1 then [Issue(s, Error, Paragraphs(i, n - 1, counts[n - 1]))] else [])
  }

  /** The paragraph errors of the first `n` rows, row by row. */
  function ParagraphIssues(s: nat, pc: seq<seq<nat>>, n: nat): (r: seq<Issue>)
    requires n <= |pc|
    ensures forall k :: 0 <= k < |r| ==>
      r[k].slide == s && r[k].severity == Error && r[k].kind.Paragraphs? && r[k].kind.prow < n
    decreases n
  {
    if n == 0 then []
    else ParagraphIssues(s, pc, n - 1) + RowParagraphIssues(s, n - 1, pc[n - 1], |pc[n - 1]|)
  }

  /** The row- and column-count errors. */
  function CountIssues(t: Metrics, s: nat, m: Metrics): (r: seq<Issue>)
    ensures forall k :: 0 <= k < |r| ==> r[k].slide == s && r[k].severity == Error && (r[k].kind.RowCount? || r[k].kind.ColCount?)
  {
    (if m.nRows != t.nRows then [Issue(s, Error, RowCount(t.nRows, m.nRows))] else [])
    + (if m.nCols != t.nCols then [Issue(s, Error, ColCount(t.nCols, m.nCols))] else [])
  }

  /** The row-height warnings and column-width errors, over the zip. */
  function GridIssues(t: Metrics, s: nat, m: Metrics): (r: seq<Issue>)
    ensures forall k :: 0 <= k < |r| ==>
      (r[k].slide == s && (r[k].kind.RowHeight? || r[k].kind.ColWidth?) && r[k].severity == SeverityOf(r[k].kind))
  {
    HeightIssues(s, t.rowHeights, m.rowHeights, Min(|t.rowHeights|, |m.rowHeights|))
    + WidthIssues(s, t.colWidths, m.colWidths, Min(|t.colWidths|, |m.colWidths|))
  }

  /** The position warning and the size error. */
  function PlacementIssues(t: Metrics, s: nat, m: Metrics): (r: seq<Issue>)
    ensures forall k :: 0 <= k < |r| ==>
      (r[k].slide == s && (r[k].kind.Position? || r[k].kind.Size?) && r[k].severity == SeverityOf(r[k].kind))
  {
    (if m.top != t.top || m.left != t.left then [Issue(s, Warning, Position)] else [])
    + (if m.width != t.width || m.height != t.height then [Issue(s, Error, Size)] else [])
  }

  /** The issues of one generated slide (numbered from 1). */
  function SlideIssues(t: Metrics, s: nat, g: Option<Metrics>): (r: seq<Issue>)
    ensures forall k :: 0 <= k < |r| ==> r[k].slide == s
  {
    match g
    case None => [Issue(s, Error, NoTable)]
    case Some(m) =>
      CountIssues(t, s, m) + GridIssues(t, s, m) + PlacementIssues(t, s, m)
      + ParagraphIssues(s, m.paraCounts, |m.paraCounts|)
  }

  /** Each generated slide's issues, slide `i + 1` at index `i`. */
  function SlideBlocks(t: Metrics, gens: seq<Option<Metrics>>): (blocks: seq<seq<Issue>>)
    ensures |blocks| == |gens|
  {
    seq(|gens|, i requires 0 <= i < |gens| => SlideIssues(t, i + 1, gens[i]))
  }

  /** The first `n` blocks, one after the other. */
  function Flatten(blocks: seq<seq<Issue>>, n: nat): seq<Issue>
    requires n <= |blocks|
    decreases n
  {
    if n == 0 then [] else Flatten(blocks, n - 1) + blocks[n - 1]
  }

  /** The issues of every generated slide, in slide order. */
  function AllIssues(t: Metrics, gens: seq<Option<Metrics>>): seq<Issue> {
    Flatten(SlideBlocks(t, gens), |gens|)
  }

  // ---------------------------------------------------------------------
  // What each comparison reports

  /** A row-height warning is reported exactly for each zipped pair that
      differs, once, in row order. */
  lemma {:induction false} HeightIssuesSpec(s: nat, th: seq<int>, gh: seq<int>, n: nat)
    requires n <= |th| && n <= |gh|
    ensures forall i: nat, a, b :: Issue(s, Warning, RowHeight(i, a, b)) in HeightIssues(s, th, gh, n) <==>
      i < n && a == th[i] && b == gh[i] && a != b
    ensures forall k, l :: 0 <= k < l < |HeightIssues(s, th, gh, n)| ==>
      HeightIssues(s, th, gh, n)[k].kind.row < HeightIssues(s, th, gh, n)[l].kind.row
    decreases n
  {
    if n > 0 {
      HeightIssuesSpec(s, th, gh, n - 1);
      var a := HeightIssues(s, th, gh, n - 1);
      var r := HeightIssues(s, th, gh, n);
      forall k, l | 0 <= k < l < |r|
        ensures r[k].kind.row < r[l].kind.row
      {
        assert r[k] == a[k];
        if l < |a| {
          assert r[l] == a[l];
          assert a[k].kind.row < a[l].kind.row;
        } else {
          assert a[k].kind.row < n - 1;
          assert r[l].kind.row == n - 1;
        }
      }
    }
  }

  /** A column-width error is reported exactly for each zipped pair that
      differs, once, in column order. */
  lemma {:induction false} WidthIssuesSpec(s: nat, tw: seq<int>, gw: seq<int>, n: nat)
    requires n <= |tw| && n <= |gw|
    ensures forall i: nat, a, b :: Issue(s, Error, ColWidth(i, a, b)) in WidthIssues(s, tw, gw, n) <==>
      i < n && a == tw[i] && b == gw[i] && a != b
    ensures forall k, l :: 0 <= k < l < |WidthIssues(s, tw, gw, n)| ==>
      WidthIssues(s, tw, gw, n)[k].kind.col < WidthIssues(s, tw, gw, n)[l].kind.col
    decreases n
  {
    if n > 0 {
      WidthIssuesSpec(s, tw, gw, n - 1);
      var a := WidthIssues(s, tw, gw, n - 1);
      var r := WidthIssues(s, tw, gw, n);
      forall k, l | 0 <= k < l < |r|
        ensures r[k].kind.col < r[l].kind.col
      {
        assert r[k] == a[k];
        if l < |a| {
          assert r[l] == a[l];
          assert a[k].kind.col < a[l].kind.col;
        } else {
          assert a[k].kind.col < n - 1;
          assert r[l].kind.col == n - 1;
        }
      }
    }
  }

  lemma {:induction false} RowParagraphIssuesSpec(s: nat, i: nat, counts: seq<nat>, n: nat)
    requires n <= |counts|
    ensures forall j: nat, c: nat :: Issue(s, Error, Paragraphs(i, j, c)) in RowParagraphIssues(s, i, counts, n) <==>
      j < n && c == counts[j] && c > 1
    decreases n
  {
    if n > 0 {
      RowParagraphIssuesSpec(s, i, counts, n - 1);
      RowParagraphIssuesStep(s, i, counts, n - 1);
    }
  }

  /** The step of RowParagraphIssuesSpec: cell `m` adds its own error, if any. */
  lemma RowParagraphIssuesStep(s: nat, i: nat, counts: seq<nat>, m: nat)
    requires m < |counts|
    requires forall j: nat, c: nat :: Issue(s, Error, Paragraphs(i, j, c)) in RowParagraphIssues(s, i, counts, m) <==>
      j < m && c == counts[j] && c > 1
    ensures forall j: nat, c: nat :: Issue(s, Error, Paragraphs(i, j, c)) in RowParagraphIssues(s, i, counts, m + 1) <==>
      j <= m && c == counts[j] && c > 1
  {
    var a := RowParagraphIssues(s, i, counts, m);
    var last := if counts[m] > 1 then [Issue(s, Error, Paragraphs(i, m, counts[m]))] else [];
    assert RowParagraphIssues(s, i, counts, m + 1) == a + last;
    forall j: nat, c: nat
      ensures Issue(s, Error, Paragraphs(i, j, c)) in a + last <==> j <= m && c == counts[j] && c > 1
    {
      var x := Issue(s, Error, Paragraphs(i, j, c));
      assert x in a + last <==> x in a || x in last;
    }
  }

  /** The paragraph errors of a row come in column order. */
  lemma {:induction false} RowParagraphIssuesOrdered(s: nat, i: nat, counts: seq<nat>, n: nat)
    requires n <= |counts|
    ensures forall k, l :: 0 <= k < l < |RowParagraphIssues(s, i, counts, n)| ==>
      RowParagraphIssues(s, i, counts, n)[k].kind.pcol < RowParagraphIssues(s, i, counts, n)[l].kind.pcol
    decreases n
  {
    if n > 0 {
      RowParagraphIssuesOrdered(s, i, counts, n - 1);
      var a := RowParagraphIssues(s, i, counts, n - 1);
      var r := RowParagraphIssues(s, i, counts, n);
      var last := if counts[n - 1] > 1 then [Issue(s, Error, Paragraphs(i, n - 1, counts[n - 1]))] else [];
      assert r == a + last;
      forall k, l | 0 <= k < l < |r|
        ensures r[k].kind.pcol < r[l].kind.pcol
      {
        assert r[k] == a[k];
        if l < |a| {
          assert r[l] == a[l];
          assert a[k].kind.pcol < a[l].kind.pcol;
        } else {
          assert a[k].kind.pcol < n - 1;
          assert r[l].kind.pcol == n - 1;
        }
      }
    }
  }

  /** Issues about cells, in row-major order. */
  predicate RowMajor(r: seq<Issue>) {
    forall k, l :: 0 <= k < l < |r| && r[k].kind.Paragraphs? && r[l].kind.Paragraphs? ==>
      r[k].kind.prow < r[l].kind.prow || (r[k].kind.prow == r[l].kind.prow && r[k].kind.pcol < r[l].kind.pcol)
  }

  /** A paragraph error is reported exactly for each cell holding more than
      one paragraph. */
  lemma {:induction false} ParagraphIssuesSpec(s: nat, pc: seq<seq<nat>>, n: nat)
    requires n <= |pc|
    ensures forall i: nat, j: nat, c: nat :: Issue(s, Error, Paragraphs(i, j, c)) in ParagraphIssues(s, pc, n) <==>
      i < n && j < |pc[i]| && c == pc[i][j] && c > 1
    decreases n
  {
    if n > 0 {
      ParagraphIssuesSpec(s, pc, n - 1);
      RowParagraphIssuesSpec(s, n - 1, pc[n - 1], |pc[n - 1]|);
      var a := ParagraphIssues(s, pc, n - 1);
      var b := RowParagraphIssues(s, n - 1, pc[n - 1], |pc[n - 1]|);
      assert ParagraphIssues(s, pc, n) == a + b;
      ParagraphIssuesUnion(s, pc, n - 1, a, b);
    }
  }

  /** The step of ParagraphIssuesSpec: the errors of row `m` join those of
      the rows before it. */
  lemma ParagraphIssuesUnion(s: nat, pc: seq<seq<nat>>, m: nat, a: seq<Issue>, b: seq<Issue>)
    requires m < |pc|
    requires forall i: nat, j: nat, c: nat :: Issue(s, Error, Paragraphs(i, j, c)) in a <==>
      i < m && j < |pc[i]| && c == pc[i][j] && c > 1
    requires forall j: nat, c: nat :: Issue(s, Error, Paragraphs(m, j, c)) in b <==>
      j < |pc[m]| && c == pc[m][j] && c > 1
    requires forall k :: 0 <= k < |b| ==> b[k].kind.Paragraphs? && b[k].kind.prow == m
    ensures forall i: nat, j: nat, c: nat :: Issue(s, Error, Paragraphs(i, j, c)) in a + b <==>
      i <= m && j < |pc[i]| && c == pc[i][j] && c > 1
  {
    forall i: nat, j: nat, c: nat
      ensures Issue(s, Error, Paragraphs(i, j, c)) in a + b <==> i <= m && j < |pc[i]| && c == pc[i][j] && c > 1
    {
      var x := Issue(s, Error, Paragraphs(i, j, c));
      assert x in a + b <==> x in a || x in b;
    }
  }

  /** The paragraph errors come once each, in row-major order. */
  lemma {:induction false} ParagraphIssuesOrdered(s: nat, pc: seq<seq<nat>>, n: nat)
    requires n <= |pc|
    ensures RowMajor(ParagraphIssues(s, pc, n))
    decreases n
  {
    if n > 0 {
      ParagraphIssuesOrdered(s, pc, n - 1);
      RowParagraphIssuesOrdered(s, n - 1, pc[n - 1], |pc[n - 1]|);
      var a := ParagraphIssues(s, pc, n - 1);
      var b := RowParagraphIssues(s, n - 1, pc[n - 1], |pc[n - 1]|);
      assert ParagraphIssues(s, pc, n) == a + b;
      RowMajorAppend(a, b, n - 1);
    }
  }

  /** Appending the errors of row `m`, in column order, to errors of
      earlier rows keeps row-major order. */
  lemma RowMajorAppend(a: seq<Issue>, b: seq<Issue>, m: nat)
    requires RowMajor(a)
    requires forall k :: 0 <= k < |a| ==> a[k].kind.Paragraphs? && a[k].kind.prow < m
    requires forall k :: 0 <= k < |b| ==> b[k].kind.Paragraphs? && b[k].kind.prow == m
    requires forall k, l :: 0 <= k < l < |b| ==> b[k].kind.pcol < b[l].kind.pcol
    ensures RowMajor(a + b)
  {
    var r := a + b;
    forall k, l | 0 <= k < l < |r| && r[k].kind.Paragraphs? && r[l].kind.Paragraphs?
      ensures r[k].kind.prow < r[l].kind.prow || (r[k].kind.prow == r[l].kind.prow && r[k].kind.pcol < r[l].kind.pcol)
    {
      if l < |a| {
        assert r[k] == a[k] && r[l] == a[l];
      } else if k < |a| {
        assert r[k] == a[k] && r[l] == b[l - |a|];
      } else {
        assert r[k] == b[k - |a|] && r[l] == b[l - |a|];
      }
    }
  }

  /** Every issue carries the severity of its kind. */
  lemma SlideIssuesSeverity(t: Metrics, s: nat, g: Option<Metrics>)
    ensures forall k :: 0 <= k < |SlideIssues(t, s, g)| ==> SlideIssues(t, s, g)[k].severity == SeverityOf(SlideIssues(t, s, g)[k].kind)
  {
    if g.Some? {
      var m := g.value;
      var a := CountIssues(t, s, m);
      var b := GridIssues(t, s, m);
      var c := PlacementIssues(t, s, m);
      var d := ParagraphIssues(s, m.paraCounts, |m.paraCounts|);
      assert SlideIssues(t, s, g) == ((a + b) + c) + d;
    }
  }

  // ---------------------------------------------------------------------
  // What validation promises

  /** The issues about one slide, in order. */
  function OfSlide(issues: seq<Issue>, s: nat): seq<Issue>
    decreases |issues|
  {
    if issues == [] then []
    else OfSlide(issues[..|issues| - 1], s) + (if issues[|issues| - 1].slide == s then [issues[|issues| - 1]] else [])
  }

  lemma {:induction false} OfSlideConcat(a: seq<Issue>, b: seq<Issue>, s: nat)
    ensures OfSlide(a + b, s) == OfSlide(a, s) + OfSlide(b, s)
    decreases |b|
  {
    if b == [] {
      assert a + b == a;
    } else {
      assert (a + b)[..|a + b| - 1] == a + b[..|b| - 1];
      OfSlideConcat(a, b[..|b| - 1], s);
    }
  }

  lemma {:induction false} OfSlideAll(issues: seq<Issue>, s: nat)
    requires forall k :: 0 <= k < |issues| ==> issues[k].slide == s
    ensures OfSlide(issues, s) == issues
    decreases |issues|
  {
    if issues != [] {
      OfSlideAll(issues[..|issues| - 1], s);
      assert issues[..|issues| - 1] + [issues[|issues| - 1]] == issues;
    }
  }

  lemma {:induction false} OfSlideNone(issues: seq<Issue>, s: nat)
    requires forall k :: 0 <= k < |issues| ==> issues[k].slide != s
    ensures OfSlide(issues, s) == []
    decreases |issues|
  {
    if issues != [] {
      OfSlideNone(issues[..|issues| - 1], s);
    }
  }

  lemma OfSlideAppendOwn(prev: seq<Issue>, here: seq<Issue>, s: nat)
    requires forall k :: 0 <= k < |prev| ==> prev[k].slide != s
    requires forall k :: 0 <= k < |here| ==> here[k].slide == s
    ensures OfSlide(prev + here, s) == here
  {
    OfSlideConcat(prev, here, s);
    OfSlideNone(prev, s);
    OfSlideAll(here, s);
  }

  lemma OfSlideAppendOther(prev: seq<Issue>, here: seq<Issue>, s: nat)
    requires forall k :: 0 <= k < |here| ==> here[k].slide != s
    ensures OfSlide(prev + here, s) == OfSlide(prev, s)
  {
    OfSlideConcat(prev, here, s);
    OfSlideNone(here, s);
  }

  /** Block `i` speaks only of slide `i + 1`. */
  predicate Numbered(blocks: seq<seq<Issue>>) {
    forall i, k :: 0 <= i < |blocks| && 0 <= k < |blocks[i]| ==> blocks[i][k].slide == i + 1
  }

  lemma {:induction false} FlattenSlides(blocks: seq<seq<Issue>>, n: nat)
    requires n <= |blocks| && Numbered(blocks)
    ensures forall k :: 0 <= k < |Flatten(blocks, n)| ==> 1 <= Flatten(blocks, n)[k].slide <= n
    decreases n
  {
    if n > 0 {
      FlattenSlides(blocks, n - 1);
      var a := Flatten(blocks, n - 1);
      forall k | 0 <= k < |Flatten(blocks, n)|
        ensures 1 <= Flatten(blocks, n)[k].slide <= n
      {
        if k < |a| {
          assert Flatten(blocks, n)[k] == a[k];
        } else {
          assert Flatten(blocks, n)[k] == blocks[n - 1][k - |a|];
        }
      }
    }
  }

  /** Slide `s`'s issues among the first `n` blocks are block `s - 1`. */
  lemma {:induction false} FlattenPerSlide(blocks: seq<seq<Issue>>, n: nat, s: nat)
    requires n <= |blocks| && 1 <= s <= n && Numbered(blocks)
    ensures OfSlide(Flatten(blocks, n), s) == blocks[s - 1]
    decreases n
  {
    if s == n {
      FlattenSlides(blocks, n - 1);
      OfSlideAppendOwn(Flatten(blocks, n - 1), blocks[n - 1], s);
    } else {
      OfSlideAppendOther(Flatten(blocks, n - 1), blocks[n - 1], s);
      FlattenPerSlide(blocks, n - 1, s);
    }
  }

  lemma SlideBlocksNumbered(t: Metrics, gens: seq<Option<Metrics>>)
    ensures Numbered(SlideBlocks(t, gens))
  {
  }

  /** No early exit: the issues reported about slide `s` are exactly that
      slide's own comparison, whatever the other slides hold. */
  lemma AllIssuesPerSlide(t: Metrics, gens: seq<Option<Metrics>>, s: nat)
    requires 1 <= s <= |gens|
    ensures OfSlide(AllIssues(t, gens), s) == SlideIssues(t, s, gens[s - 1])
  {
    var blocks := SlideBlocks(t, gens);
    SlideBlocksNumbered(t, gens);
    FlattenPerSlide(blocks, |gens|, s);
    assert blocks[s - 1] == SlideIssues(t, s, gens[s - 1]);
  }

  /** A slide without a table yields exactly one error and nothing else. */
  lemma NoTableSlide(t: Metrics, gens: seq<Option<Metrics>>, s: nat)
    requires 1 <= s <= |gens| && gens[s - 1].None?
    ensures OfSlide(AllIssues(t, gens), s) == [Issue(s, Error, NoTable)]
  {
    AllIssuesPerSlide(t, gens, s);
  }

  /** How many issues have a kind satisfying `p`. */
  function CountWhere(issues: seq<Issue>, p: IssueKind -> bool): nat
    decreases |issues|
  {
    if issues == [] then 0 else (if p(issues[0].kind) then 1 else 0) + CountWhere(issues[1..], p)
  }

  lemma {:induction false} CountWhereConcat(a: seq<Issue>, b: seq<Issue>, p: IssueKind -> bool)
    ensures CountWhere(a + b, p) == CountWhere(a, p) + CountWhere(b, p)
    decreases |a|
  {
    if a == [] {
      assert a + b == b;
    } else {
      assert (a + b)[1..] == a[1..] + b;
      CountWhereConcat(a[1..], b, p);
    }
  }

  lemma {:induction false} CountWhereNone(a: seq<Issue>, p: IssueKind -> bool)
    requires forall k :: 0 <= k < |a| ==> !p(a[k].kind)
    ensures CountWhere(a, p) == 0
    decreases |a|
  {
    if a != [] {
      CountWhereNone(a[1..], p);
    }
  }

  /** The count of a kind over a whole slide, split by part. */
  lemma SlideCountParts(t: Metrics, s: nat, m: Metrics, p: IssueKind -> bool)
    ensures CountWhere(SlideIssues(t, s, Some(m)), p) ==
      CountWhere(CountIssues(t, s, m), p) + CountWhere(GridIssues(t, s, m), p)
      + CountWhere(PlacementIssues(t, s, m), p) + CountWhere(ParagraphIssues(s, m.paraCounts, |m.paraCounts|), p)
  {
    var a := CountIssues(t, s, m);
    var b := GridIssues(t, s, m);
    var c := PlacementIssues(t, s, m);
    var d := ParagraphIssues(s, m.paraCounts, |m.paraCounts|);
    CountWhereConcat(a + b + c, d, p);
    CountWhereConcat(a + b, c, p);
    CountWhereConcat(a, b, p);
  }

  predicate IsRowCount(k: IssueKind) { k.RowCount? }
  predicate IsColCount(k: IssueKind) { k.ColCount? }
  predicate IsPosition(k: IssueKind) { k.Position? }
  predicate IsSize(k: IssueKind) { k.Size? }

  lemma CountWhereAtMostTwo(a: seq<Issue>, b: seq<Issue>, p: IssueKind -> bool)
    requires |a| <= 1 && |b| <= 1
    ensures CountWhere(a + b, p) ==
      (if a != [] && p(a[0].kind) then 1 else 0) + (if b != [] && p(b[0].kind) then 1 else 0)
  {
    CountWhereConcat(a, b, p);
    if a != [] {
      assert a[1..] == [];
    }
    if b != [] {
      assert b[1..] == [];
    }
  }

  /** A row-count mismatch gives exactly one issue, an error. */
  lemma RowCountOnce(t: Metrics, s: nat, m: Metrics)
    ensures CountWhere(SlideIssues(t, s, Some(m)), IsRowCount) == (if m.nRows != t.nRows then 1 else 0)
  {
    SlideCountParts(t, s, m, IsRowCount);
    var a := if m.nRows != t.nRows then [Issue(s, Error, RowCount(t.nRows, m.nRows))] else [];
    var b := if m.nCols != t.nCols then [Issue(s, Error, ColCount(t.nCols, m.nCols))] else [];
    assert CountIssues(t, s, m) == a + b;
    CountWhereAtMostTwo(a, b, IsRowCount);
    CountWhereNone(GridIssues(t, s, m), IsRowCount);
    CountWhereNone(PlacementIssues(t, s, m), IsRowCount);
    CountWhereNone(ParagraphIssues(s, m.paraCounts, |m.paraCounts|), IsRowCount);
  }

  /** A column-count mismatch gives exactly one issue, an error. */
  lemma ColCountOnce(t: Metrics, s: nat, m: Metrics)
    ensures CountWhere(SlideIssues(t, s, Some(m)), IsColCount) == (if m.nCols != t.nCols then 1 else 0)
  {
    SlideCountParts(t, s, m, IsColCount);
    var a := if m.nRows != t.nRows then [Issue(s, Error, RowCount(t.nRows, m.nRows))] else [];
    var b := if m.nCols != t.nCols then [Issue(s, Error, ColCount(t.nCols, m.nCols))] else [];
    assert CountIssues(t, s, m) == a + b;
    CountWhereAtMostTwo(a, b, IsColCount);
    CountWhereNone(GridIssues(t, s, m), IsColCount);
    CountWhereNone(PlacementIssues(t, s, m), IsColCount);
    CountWhereNone(ParagraphIssues(s, m.paraCounts, |m.paraCounts|), IsColCount);
  }

  /** A moved table gives exactly one warning, whether top, left or both differ. */
  lemma PositionOnce(t: Metrics, s: nat, m: Metrics)
    ensures CountWhere(SlideIssues(t, s, Some(m)), IsPosition) == (if m.top != t.top || m.left != t.left then 1 else 0)
  {
    SlideCountParts(t, s, m, IsPosition);
    var a := if m.top != t.top || m.left != t.left then [Issue(s, Warning, Position)] else [];
    var b := if m.width != t.width || m.height != t.height then [Issue(s, Error, Size)] else [];
    assert PlacementIssues(t, s, m) == a + b;
    CountWhereAtMostTwo(a, b, IsPosition);
    CountWhereNone(CountIssues(t, s, m), IsPosition);
    CountWhereNone(GridIssues(t, s, m), IsPosition);
    CountWhereNone(ParagraphIssues(s, m.paraCounts, |m.paraCounts|), IsPosition);
  }

  /** A resized table gives exactly one error, whether width, height or both differ. */
  lemma SizeOnce(t: Metrics, s: nat, m: Metrics)
    ensures CountWhere(SlideIssues(t, s, Some(m)), IsSize) == (if m.width != t.width || m.height != t.height then 1 else 0)
  {
    SlideCountParts(t, s, m, IsSize);
    var a := if m.top != t.top || m.left != t.left then [Issue(s, Warning, Position)] else [];
    var b := if m.width != t.width || m.height != t.height then [Issue(s, Error, Size)] else [];
    assert PlacementIssues(t, s, m) == a + b;
    CountWhereAtMostTwo(a, b, IsSize);
    CountWhereNone(CountIssues(t, s, m), IsSize);
    CountWhereNone(GridIssues(t, s, m), IsSize);
    CountWhereNone(ParagraphIssues(s, m.paraCounts, |m.paraCounts|), IsSize);
  }

  lemma {:induction false} HeightIssuesEqual(s: nat, th: seq<int>, gh: seq<int>, n: nat)
    requires n <= |th| && n <= |gh|
    requires forall i :: 0 <= i < n ==> th[i] == gh[i]
    ensures HeightIssues(s, th, gh, n) == []
    decreases n
  {
    if n > 0 {
      HeightIssuesEqual(s, th, gh, n - 1);
    }
  }

  lemma {:induction false} WidthIssuesEqual(s: nat, tw: seq<int>, gw: seq<int>, n: nat)
    requires n <= |tw| && n <= |gw|
    requires forall i :: 0 <= i < n ==> tw[i] == gw[i]
    ensures WidthIssues(s, tw, gw, n) == []
    decreases n
  {
    if n > 0 {
      WidthIssuesEqual(s, tw, gw, n - 1);
    }
  }

  /** With every cell holding at most one paragraph there is no paragraph error. */
  lemma ParagraphIssuesSingle(s: nat, pc: seq<seq<nat>>)
    requires forall i, j :: 0 <= i < |pc| && 0 <= j < |pc[i]| ==> pc[i][j] <= 1
    ensures ParagraphIssues(s, pc, |pc|) == []
  {
    ParagraphIssuesSpec(s, pc, |pc|);
    HeadIn(ParagraphIssues(s, pc, |pc|));
  }

  lemma HeadIn(r: seq<Issue>)
    ensures r != [] ==> r[0] in r
  {
  }

  /** A slide whose metrics equal the template's is reported only for the
      template's own multi-paragraph cells, so nothing when every template
      cell holds at most one paragraph. */
  lemma SameMetricsNoIssues(t: Metrics, s: nat)
    ensures SlideIssues(t, s, Some(t)) == ParagraphIssues(s, t.paraCounts, |t.paraCounts|)
    ensures (forall i, j :: 0 <= i < |t.paraCounts| && 0 <= j < |t.paraCounts[i]| ==> t.paraCounts[i][j] <= 1) ==>
      SlideIssues(t, s, Some(t)) == []
  {
    HeightIssuesEqual(s, t.rowHeights, t.rowHeights, Min(|t.rowHeights|, |t.rowHeights|));
    WidthIssuesEqual(s, t.colWidths, t.colWidths, Min(|t.colWidths|, |t.colWidths|));
    assert GridIssues(t, s, t) == [];
    assert CountIssues(t, s, t) == [];
    assert PlacementIssues(t, s, t) == [];
    if forall i, j :: 0 <= i < |t.paraCounts| && 0 <= j < |t.paraCounts[i]| ==> t.paraCounts[i][j] <= 1 {
      ParagraphIssuesSingle(s, t.paraCounts);
    }
  }

  // ---------------------------------------------------------------------
  // Exit status

  predicate HasError(issues: seq<Issue>) {
    exists k :: 0 <= k < |issues| && issues[k].severity == Error
  }

  /** The issues of a severity, in order. */
  function WithSeverity(issues: seq<Issue>, sev: Severity): (r: seq<Issue>)
    ensures forall k :: 0 <= k < |r| ==> r[k].severity == sev && r[k] in issues
    ensures forall k :: 0 <= k < |issues| && issues[k].severity == sev ==> issues[k] in r
    decreases |issues|
  {
    if issues == [] then []
    else (if issues[0].severity == sev then [issues[0]] else []) + WithSeverity(issues[1..], sev)
  }

  /** The exit status after validation: 0 when there is nothing to report,
      otherwise 1 when there is an error and 0 for warnings alone. */
  function ExitCode(issues: seq<Issue>): (code: int)
    ensures code == 1 <==> HasError(issues)
    ensures code == 0 <==> !HasError(issues)
  {
    if issues == [] then 0
    else
      var errors := WithSeverity(issues, Error);
      if errors != [] then
        assert errors[0] in issues;
        1
      else 0
  }

  /** The module-level names of `jcb/config.py`, its `Path` import included. */
  const ConfigNames: set<string> := {"Path", "SCRIPT_DIR", "TEMPLATE_PATH", "TASKS_DIR", "TABLE_COLUMNS",
    "TABLE_MAX_ROWS", "CSV_PATTERNS", "COLUMN_MAP", "BRAND_DONUT_MAX"}

  /** `from config import ...`: the first requested name the module does
      not define raises ImportError; None when every name is there. */
  function ImportFrom(defined: set<string>, wanted: seq<string>): (missing: Option<string>)
    ensures missing.None? <==> forall i :: 0 <= i < |wanted| ==> wanted[i] in defined
    ensures missing.Some? ==> missing.value in wanted && missing.value !in defined
  {
    if wanted == [] then None
    else if wanted[0] !in defined then Some(wanted[0])
    else ImportFrom(defined, wanted[1..])
  }

  /** The names `validate.py` imports from `config`. */
  const ImportedAsWritten: seq<string> := ["TEMPLATE_PATH", "SHAPES"]
  /** The names `validate.py` uses from `config`: `SHAPES` is never used. */
  const Imported: seq<string> := ["TEMPLATE_PATH"]

  /** As written, loading `validate.py` stops with ImportError on `SHAPES`,
      so `main` is never reached. */
  lemma ImportAsWrittenFails()
    ensures ImportFrom(ConfigNames, ImportedAsWritten) == Some("SHAPES")
  {
    assert "TEMPLATE_PATH" in ConfigNames && "SHAPES" !in ConfigNames;
  }

  /** Importing only the name the script uses succeeds; `MainExitCode`
      below is `main` under this import. */
  lemma ImportSucceeds()
    ensures ImportFrom(ConfigNames, Imported) == None
  {
    assert "TEMPLATE_PATH" in ConfigNames;
  }

  /** `main`: a missing argument or file exits 1 before validating. */
  function MainExitCode(hasArgument: bool, fileExists: bool, issues: seq<Issue>): (code: int)
    ensures !hasArgument || !fileExists ==> code == 1
    ensures hasArgument && fileExists ==> (code == 1 <==> HasError(issues))
  {
    if !hasArgument then 1
    else if !fileExists then 1
    else ExitCode(issues)
  }

  // ---------------------------------------------------------------------
  // The loops

  /** The measurements `_get_table_metrics` reads off one table shape. */
  method ReadTable(shape: ShapeGeom) returns (m: Metrics)
    requires shape.table.Some?
    ensures m == MetricsOf(shape)
  {
    var rows := shape.table.value.rows;
    var heights: seq<int> := [];
    var i := 0;
    while i < |rows|
      invariant 0 <= i <= |rows| && |heights| == i
      invariant forall k :: 0 <= k < i ==> heights[k] == HeightOf(rows[k])
    {
      heights := heights + [HeightOf(rows[i])];
      i := i + 1;
    }
    var paraCounts: seq<seq<nat>> := [];
    i := 0;
    while i < |rows|
      invariant 0 <= i <= |rows| && |paraCounts| == i
      invariant forall k :: 0 <= k < i ==> paraCounts[k] == rows[k].cellParagraphs
    {
      var rowParas: seq<nat> := [];
      var j := 0;
      while j < |rows[i].cellParagraphs|
        invariant 0 <= j <= |rows[i].cellParagraphs|
        invariant rowParas == rows[i].cellParagraphs[..j]
      {
        rowParas := rowParas + [rows[i].cellParagraphs[j]];
        j := j + 1;
      }
      assert rowParas == rows[i].cellParagraphs;
      paraCounts := paraCounts + [rowParas];
      i := i + 1;
    }
    var widths := shape.table.value.gridCols;
    m := Metrics(shape.top, shape.left, shape.width, shape.height, |rows|, |widths|, heights, widths, paraCounts);
  }

  /** `_get_table_metrics`. */
  method GetTableMetrics(shapes: seq<ShapeGeom>) returns (m: Option<Metrics>)
    ensures m == TableMetrics(shapes)
  {
    var s := 0;
    while s < |shapes|
      invariant 0 <= s <= |shapes|
      invariant TableMetrics(shapes) == TableMetrics(shapes[s..])
    {
      assert shapes[s..][0] == shapes[s];
      assert shapes[s..][1..] == shapes[s + 1..];
      var shape := shapes[s];
      if shape.table.Some? {
        var metrics := ReadTable(shape);
        return Some(metrics);
      }
      s := s + 1;
    }
    return None;
  }

  /** The row- and column-count checks. */
  method CheckCounts(t: Metrics, s: nat, g: Metrics, issues: seq<Issue>) returns (out: seq<Issue>)
    ensures out == issues + CountIssues(t, s, g)
  {
    out := issues;
    if g.nRows != t.nRows {
      out := out + [Issue(s, Error, RowCount(t.nRows, g.nRows))];
    }
    if g.nCols != t.nCols {
      out := out + [Issue(s, Error, ColCount(t.nCols, g.nCols))];
    }
  }

  /** The zipped row-height and column-width checks. */
  method CheckGrid(t: Metrics, s: nat, g: Metrics, issues: seq<Issue>) returns (out: seq<Issue>)
    ensures out == issues + GridIssues(t, s, g)
  {
    out := issues;
    var i := 0;
    var n := Min(|t.rowHeights|, |g.rowHeights|);
    while i < n
      invariant 0 <= i <= n
      invariant out == issues + HeightIssues(s, t.rowHeights, g.rowHeights, i)
    {
      HeightStep(issues, out, s, t.rowHeights, g.rowHeights, i);
      if t.rowHeights[i] != g.rowHeights[i] {
        out := out + [Issue(s, Warning, RowHeight(i, t.rowHeights[i], g.rowHeights[i]))];
      }
      i := i + 1;
    }
    ghost var heights := out;
    i := 0;
    n := Min(|t.colWidths|, |g.colWidths|);
    while i < n
      invariant 0 <= i <= n
      invariant out == heights + WidthIssues(s, t.colWidths, g.colWidths, i)
    {
      WidthStep(heights, out, s, t.colWidths, g.colWidths, i);
      if t.colWidths[i] != g.colWidths[i] {
        out := out + [Issue(s, Error, ColWidth(i, t.colWidths[i], g.colWidths[i]))];
      }
      i := i + 1;
    }
  }

  lemma HeightStep(base: seq<Issue>, out: seq<Issue>, s: nat, th: seq<int>, gh: seq<int>, i: nat)
    requires i < |th| && i < |gh| && out == base + HeightIssues(s, th, gh, i)
    ensures (if th[i] != gh[i] then out + [Issue(s, Warning, RowHeight(i, th[i], gh[i]))] else out)
      == base + HeightIssues(s, th, gh, i + 1)
  {
  }

  lemma WidthStep(base: seq<Issue>, out: seq<Issue>, s: nat, tw: seq<int>, gw: seq<int>, i: nat)
    requires i < |tw| && i < |gw| && out == base + WidthIssues(s, tw, gw, i)
    ensures (if tw[i] != gw[i] then out + [Issue(s, Error, ColWidth(i, tw[i], gw[i]))] else out)
      == base + WidthIssues(s, tw, gw, i + 1)
  {
  }

  /** The position and size checks. */
  method CheckPlacement(t: Metrics, s: nat, g: Metrics, issues: seq<Issue>) returns (out: seq<Issue>)
    ensures out == issues + PlacementIssues(t, s, g)
  {
    out := issues;
    if g.top != t.top || g.left != t.left {
      out := out + [Issue(s, Warning, Position)];
    }
    if g.width != t.width || g.height != t.height {
      out := out + [Issue(s, Error, Size)];
    }
  }

  /** The per-cell paragraph check. */
  method CheckParagraphs(s: nat, pc: seq<seq<nat>>, issues: seq<Issue>) returns (out: seq<Issue>)
    ensures out == issues + ParagraphIssues(s, pc, |pc|)
  {
    out := issues;
    var i := 0;
    while i < |pc|
      invariant 0 <= i <= |pc|
      invariant out == issues + ParagraphIssues(s, pc, i)
    {
      ghost var before := out;
      out := CheckRowParagraphs(s, i, pc[i], out);
      ParagraphRowStep(issues, before, out, s, pc, i);
      i := i + 1;
    }
  }

  /** The inner loop of the paragraph check: one table row's cells, left to right. */
  method CheckRowParagraphs(s: nat, i: nat, counts: seq<nat>, issues: seq<Issue>) returns (out: seq<Issue>)
    ensures out == issues + RowParagraphIssues(s, i, counts, |counts|)
  {
    out := issues;
    var j := 0;
    while j < |counts|
      invariant 0 <= j <= |counts|
      invariant out == issues + RowParagraphIssues(s, i, counts, j)
    {
      RowParagraphStep(issues, out, s, i, counts, j);
      if counts[j] > 1 {
        out := out + [Issue(s, Error, Paragraphs(i, j, counts[j]))];
      }
      j := j + 1;
    }
  }

  lemma RowParagraphStep(base: seq<Issue>, out: seq<Issue>, s: nat, i: nat, counts: seq<nat>, j: nat)
    requires j < |counts| && out == base + RowParagraphIssues(s, i, counts, j)
    ensures (if counts[j] > 1 then out + [Issue(s, Error, Paragraphs(i, j, counts[j]))] else out)
      == base + RowParagraphIssues(s, i, counts, j + 1)
  {
  }

  lemma ParagraphRowStep(issues: seq<Issue>, before: seq<Issue>, out: seq<Issue>, s: nat, pc: seq<seq<nat>>, i: nat)
    requires i < |pc| && before == issues + ParagraphIssues(s, pc, i)
    requires out == before + RowParagraphIssues(s, i, pc[i], |pc[i]|)
    ensures out == issues + ParagraphIssues(s, pc, i + 1)
  {
  }

  /** The checks of `validate` on a slide that has a table, in order. */
  method CheckSlide(t: Metrics, s: nat, g: Metrics, issues: seq<Issue>) returns (out: seq<Issue>)
    ensures out == issues + SlideIssues(t, s, Some(g))
  {
    out := CheckCounts(t, s, g, issues);
    out := CheckGrid(t, s, g, out);
    out := CheckPlacement(t, s, g, out);
    out := CheckParagraphs(s, g.paraCounts, out);
    AppendFour(issues, CountIssues(t, s, g), GridIssues(t, s, g), PlacementIssues(t, s, g),
      ParagraphIssues(s, g.paraCounts, |g.paraCounts|));
  }

  lemma AppendFour(x: seq<Issue>, a: seq<Issue>, b: seq<Issue>, c: seq<Issue>, d: seq<Issue>)
    ensures x + a + b + c + d == x + (a + b + c + d)
  {
  }

  /** The metrics of every generated slide. */
  function SlideMetrics(slides: seq<seq<ShapeGeom>>): (gens: seq<Option<Metrics>>)
    ensures |gens| == |slides|
  {
    seq(|slides|, i requires 0 <= i < |slides| => TableMetrics(slides[i]))
  }

  /** One iteration of `validate`: the slide's metrics, then its checks. */
  method ValidateSlide(t: Metrics, s: nat, shapes: seq<ShapeGeom>, issues: seq<Issue>) returns (out: seq<Issue>)
    ensures out == issues + SlideIssues(t, s, TableMetrics(shapes))
  {
    var g := GetTableMetrics(shapes);
    if g.None? {
      out := issues + [Issue(s, Error, NoTable)];
    } else {
      out := CheckSlide(t, s, g.value, issues);
    }
  }

  /** `validate`: every generated slide is compared with the template. */
  method ValidateSlides(template: seq<ShapeGeom>, slides: seq<seq<ShapeGeom>>) returns (issues: seq<Issue>)
    requires TableMetrics(template).Some?
    ensures issues == AllIssues(TableMetrics(template).value, SlideMetrics(slides))
  {
    var t := GetTableMetrics(template);
    ghost var blocks := SlideBlocks(t.value, SlideMetrics(slides));
    issues := [];
    var k := 0;
    while k < |slides|
      invariant 0 <= k <= |slides| == |blocks|
      invariant issues == Flatten(blocks, k)
    {
      SlideBlock(t.value, slides, k);
      issues := ValidateSlide(t.value, k + 1, slides[k], issues);
      k := k + 1;
    }
  }

  /** Block `k` is the issues of slide `k + 1`, computed from its shapes. */
  lemma SlideBlock(t: Metrics, slides: seq<seq<ShapeGeom>>, k: nat)
    requires k < |slides|
    ensures var blocks := SlideBlocks(t, SlideMetrics(slides));
      Flatten(blocks, k + 1) == Flatten(blocks, k) + SlideIssues(t, k + 1, TableMetrics(slides[k]))
  {
    var gens := SlideMetrics(slides);
    var blocks := SlideBlocks(t, gens);
    assert gens[k] == TableMetrics(slides[k]);
    assert blocks[k] == SlideIssues(t, k + 1, gens[k]);
    assert Flatten(blocks, k + 1) == Flatten(blocks, k) + blocks[k];
  }

  // ---------------------------------------------------------------------
  // The generator and the validator

  /** The paragraph counts the validator reads from a table grid. */
  function ParagraphCounts(rows: seq<seq<TableFill.Cell>>): seq<seq<nat>> {
    seq(|rows|, i requires 0 <= i < |rows| => seq(|rows[i]|, j requires 0 <= j < |rows[i]| => |rows[i][j]|))
  }

  /** Filling the table never changes a cell's paragraph count, so a table
      filled from a template passes the paragraph check exactly when the
      template does. */
  lemma FilledTableParagraphCounts(rows: seq<seq<TableFill.Cell>>, data: seq<TableFill.Record>, brandWidth: int, isWide: char -> bool)
    requires TableFill.WellFormed(rows)
    ensures ParagraphCounts(TableFill.FilledGrid(rows, data, brandWidth, isWide)) == ParagraphCounts(rows)
  {
    TableFill.FilledGridFrame(rows, data, brandWidth, isWide);
    var g := TableFill.FilledGrid(rows, data, brandWidth, isWide);
    assert forall i :: 0 <= i < |rows| ==> ParagraphCounts(g)[i] == ParagraphCounts(rows)[i];
  }
}

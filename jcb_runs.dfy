/** Formatting-preserving text substitution on slide shapes and table cells
    (`replace_text`, `_set_cell_text` and `replace_chart_label_runs`).

    A paragraph is its sequence of runs; a run is its text and its font size
    (the only run property the generator ever sets). Rewriting a run's text
    keeps the run, and so its formatting. */
module Runs {
  import opened Values
  import opened Text

  /** A text run: its text and its font size in half-points (None: inherited). */
  datatype Run = Run(text: string, size: Option<nat>)

  type Paragraph = seq<Run>

  /** Index of the first paragraph that has at least one run, from `i` on. */
  function FirstWithRunsFrom(paras: seq<Paragraph>, i: nat): (r: Option<nat>)
    requires i <= |paras|
    ensures r.Some? ==> i <= r.value < |paras| && |paras[r.value]| > 0
    ensures r.Some? ==> forall k :: i <= k < r.value ==> paras[k] == []
    ensures r.None? ==> forall k :: i <= k < |paras| ==> paras[k] == []
    decreases |paras| - i
  {
    if i == |paras| then None
    else if |paras[i]| > 0 then Some(i)
    else FirstWithRunsFrom(paras, i + 1)
  }

  function FirstWithRuns(paras: seq<Paragraph>): Option<nat> {
    FirstWithRunsFrom(paras, 0)
  }

  /** Run 0 gets `text` (and `size`, when one is given); every other run is emptied. */
  function Rewritten(p: Paragraph, text: string, size: Option<nat>): Paragraph
    requires |p| > 0
  {
    [Run(text, if size.Some? then size else p[0].size)] + seq(|p| - 1, k requires 0 <= k < |p| - 1 => p[k + 1].(text := ""))
  }

  /** The paragraphs after the substitution loop shared by `replace_text` and
      `_set_cell_text`: only the first paragraph that has runs changes. */
  function FirstRunWritten(paras: seq<Paragraph>, text: string, size: Option<nat>): seq<Paragraph> {
    match FirstWithRuns(paras)
    case None => paras
    case Some(k) => paras[k := Rewritten(paras[k], text, size)]
  }

  /** `_set_cell_text`: as above; a cell without any run gets `text` as the
      whole of its first paragraph (a fresh run, so no font size). */
  function CellTextWritten(paras: seq<Paragraph>, text: string, size: Option<nat>): seq<Paragraph>
    requires |paras| >= 1
  {
    if FirstWithRuns(paras).Some? then FirstRunWritten(paras, text, size)
    else if text != "" then paras[0 := [Run(text, None)]]
    else paras
  }

  /** The shape of a paragraph list: how many runs each paragraph has. */
  predicate SameStructure(a: seq<Paragraph>, b: seq<Paragraph>) {
    |a| == |b| && forall k :: 0 <= k < |a| ==> |a[k]| == |b[k]|
  }

  /** The substitution keeps the paragraph structure and the formatting of
      every run but the first; the first paragraph with runs shows `text` in
      run 0 and nothing in the others; every other paragraph is unchanged. */
  lemma FirstRunWrittenSpec(paras: seq<Paragraph>, text: string, size: Option<nat>)
    ensures var r := FirstRunWritten(paras, text, size);
      && SameStructure(r, paras)
      && (FirstWithRuns(paras).None? ==> r == paras)
      && (FirstWithRuns(paras).Some? ==>
            var k := FirstWithRuns(paras).value;
            && r[k][0].text == text
            && r[k][0].size == (if size.Some? then size else paras[k][0].size)
            && (forall j :: 1 <= j < |r[k]| ==> r[k][j] == Run("", paras[k][j].size))
            && (forall m :: 0 <= m < |r| && m != k ==> r[m] == paras[m]))
  {
    if FirstWithRuns(paras).Some? {
      var k := FirstWithRuns(paras).value;
      RewrittenSpec(paras[k], text, size);
    }
  }

  lemma RewrittenSpec(p: Paragraph, text: string, size: Option<nat>)
    requires |p| > 0
    ensures var q := Rewritten(p, text, size);
      && |q| == |p|
      && q[0] == Run(text, if size.Some? then size else p[0].size)
      && forall j :: 1 <= j < |q| ==> q[j] == Run("", p[j].size)
  {
  }

  /** Cells: the paragraph count never changes, so a one-paragraph cell stays
      one paragraph (what the structural validator checks). */
  lemma CellTextWrittenKeepsParagraphs(paras: seq<Paragraph>, text: string, size: Option<nat>)
    requires |paras| >= 1
    ensures |CellTextWritten(paras, text, size)| == |paras|
    ensures FirstWithRuns(paras).None? && text == "" ==> CellTextWritten(paras, text, size) == paras
    ensures FirstWithRuns(paras).None? && text != "" ==>
      CellTextWritten(paras, text, size)[0] == [Run(text, None)]
  {
  }

  /** Empties the text of every run of a paragraph (`for run in para.runs: run.text = ""`). */
  method ClearRuns(p: Paragraph) returns (q: Paragraph)
    ensures |q| == |p|
    ensures forall k :: 0 <= k < |p| ==> q[k] == p[k].(text := "")
  {
    q := p;
    var j := 0;
    while j < |q|
      invariant 0 <= j <= |q| == |p|
      invariant forall k :: 0 <= k < j ==> q[k] == p[k].(text := "")
      invariant forall k :: j <= k < |q| ==> q[k] == p[k]
    {
      q := q[j := q[j].(text := "")];
      j := j + 1;
    }
  }

  /** The loop of `replace_text` and `_set_cell_text`: clear the runs of each
      paragraph in turn; at the first one that has runs, write run 0 and stop. */
  method WriteFirstRun(paras: seq<Paragraph>, text: string, size: Option<nat>) returns (r: seq<Paragraph>)
    ensures r == FirstRunWritten(paras, text, size)
  {
    r := paras;
    var i := 0;
    while i < |r|
      invariant 0 <= i <= |r| && r == paras
      invariant FirstWithRuns(paras) == FirstWithRunsFrom(paras, i)
    {
      var p := ClearRuns(r[i]);
      if |p| > 0 {
        var first := p[0].(text := text);
        if size.Some? {
          first := first.(size := size);
        }
        p := p[0 := first];
        assert p == Rewritten(paras[i], text, size);
        r := r[i := p];
        return;
      }
      assert p == r[i];
      i := i + 1;
    }
  }

  /** `_set_cell_text` on the paragraphs of a cell. */
  method SetCellText(paras: seq<Paragraph>, text: string, size: Option<nat>) returns (r: seq<Paragraph>)
    requires |paras| >= 1
    ensures r == CellTextWritten(paras, text, size)
  {
    r := WriteFirstRun(paras, text, size);
    if FirstWithRuns(paras).None? && text != "" {
      r := r[0 := [Run(text, None)]];
    }
  }

  // ---------------------------------------------------------------------
  // Chart labels: "■label" "（" "yyyy" "/mm" "の…" "：　人）"

  /** Python's `s.split("/")` unpacked into two names, as the chart-label
      code does: no "/" gives the placeholders, one "/" the two sides, more
      raise ValueError. */
  function PeriodParts(period: string): (r: Result<(string, string)>)
    ensures r.Ok? && '/' in period ==> r.value.0 + "/" + r.value.1 == period
    ensures '/' !in period ==> r == Ok(("yyyy", "mm"))
    ensures r.Err? <==> exists i, j :: 0 <= i < j < |period| && period[i] == '/' && period[j] == '/'
  {
    if '/' !in period then Ok(("yyyy", "mm"))
    else
      var k := SlashIndex(period);
      var year, month := period[..k], period[k + 1..];
      assert period == year + "/" + month;
      if '/' in month then
        var j :| 0 <= j < |month| && month[j] == '/';
        assert period[k + 1 + j] == '/';
        Err("too many values to unpack (expected 2)")
      else
        Ok((year, month))
  }

  function SlashIndex(s: string): (k: nat)
    requires '/' in s
    ensures k < |s| && s[k] == '/' && forall i :: 0 <= i < k ==> s[i] != '/'
  {
    if s[0] == '/' then 0 else 1 + SlashIndex(s[1..])
  }

  /** The text written for the chart total: `f"{int(v):,}"` for a number,
      `str(v)` otherwise; `int(nan)` raises ValueError. */
  function ValueText(value: Value): (r: Result<string>)
    ensures r.Err? <==> value.NaN?
    ensures value.Str? ==> r == Ok(value.s)
    ensures value.Int? ==> r.Ok? && ParseThousands(r.value) == value.i
  {
    if IsNumber(value) then
      match IntOf(value)
      case Ok(n) => ThousandsRoundTrip(n); Ok(Thousands(n))
      case Err(e) => Err(e)
    else Ok(StrOf(value))
  }

  /** The runs of the first paragraph after `replace_chart_label_runs`, and
      the error it raised, if any. Runs 2 and 3 are written before the value
      is formatted, so a failing `int()` leaves them rewritten. */
  datatype LabelOutcome = LabelOutcome(runs: Paragraph, error: Option<string>)

  function LabelRuns(runs: Paragraph, period: string, value: Value, unit: string): LabelOutcome {
    if |runs| < 6 then LabelOutcome(runs, None)
    else match PeriodParts(period)
      case Err(e) => LabelOutcome(runs, Some(e))
      case Ok((year, month)) =>
        var dated := runs[2 := runs[2].(text := year)][3 := runs[3].(text := "/" + month)];
        match ValueText(value)
        case Err(e) => LabelOutcome(dated, Some(e))
        case Ok(v) => LabelOutcome(dated[5 := dated[5].(text := "：" + v + unit + "）")], None)
  }

  /** What the chart-label rewrite promises: short paragraphs are left alone;
      otherwise only runs 2, 3 and 5 change, to the year, "/" and the month,
      and the value with its unit; every run keeps its size. An error is
      raised exactly when the period has two or more "/" (nothing written)
      or the value is NaN (runs 2 and 3 already written, run 5 not). */
  lemma LabelRunsSpec(runs: Paragraph, period: string, value: Value, unit: string)
    ensures var o := LabelRuns(runs, period, value, unit);
      && |o.runs| == |runs|
      && (|runs| < 6 ==> o == LabelOutcome(runs, None))
      && (forall k :: 0 <= k < |runs| ==> o.runs[k].size == runs[k].size)
      && (forall k :: 0 <= k < |runs| && k != 2 && k != 3 && k != 5 ==> o.runs[k] == runs[k])
      && (|runs| >= 6 && PeriodParts(period).Ok? ==>
            && o.runs[2].text == PeriodParts(period).value.0
            && o.runs[3].text == "/" + PeriodParts(period).value.1)
      && (|runs| >= 6 && PeriodParts(period).Ok? && ValueText(value).Ok? ==>
            o.error.None? && o.runs[5].text == "：" + ValueText(value).value + unit + "）")
      && (o.error.Some? <==> |runs| >= 6 && (PeriodParts(period).Err? || ValueText(value).Err?))
      && (|runs| >= 6 && PeriodParts(period).Err? ==> o.runs == runs)
      && (|runs| >= 6 && ValueText(value).Err? ==> o.runs[5] == runs[5])
  {
  }

  /** A period without "/" fills in the placeholders, and an empty value
      still shows the unit. */
  lemma LabelRunsPlaceholders(runs: Paragraph, period: string, unit: string)
    requires |runs| >= 6 && '/' !in period
    ensures var o := LabelRuns(runs, period, Str(""), unit);
      && o.error.None?
      && o.runs[2].text == "yyyy" && o.runs[3].text == "/mm"
      && o.runs[5].text == "：" + unit + "）"
  {
  }

  /** A slide shape whose text the generator rewrites in place. */
  class Shape {
    const hasTextFrame: bool
    var paragraphs: seq<Paragraph>

    /** A text frame always holds at least one paragraph; other shapes hold none. */
    ghost predicate Valid()
      reads this
    {
      if hasTextFrame then |paragraphs| >= 1 else paragraphs == []
    }

    constructor (hasTextFrame: bool, paragraphs: seq<Paragraph>)
      requires if hasTextFrame then |paragraphs| >= 1 else paragraphs == []
      ensures Valid()
      ensures this.hasTextFrame == hasTextFrame && this.paragraphs == paragraphs
    {
      this.hasTextFrame := hasTextFrame;
      this.paragraphs := paragraphs;
    }

    /** `replace_text`: a shape without a text frame is left as it is. */
    method ReplaceText(newText: string)
      requires Valid()
      modifies this
      ensures Valid()
      ensures paragraphs == if hasTextFrame then FirstRunWritten(old(paragraphs), newText, None) else old(paragraphs)
    {
      if !hasTextFrame {
        return;
      }
      FirstRunWrittenSpec(paragraphs, newText, None);
      paragraphs := WriteFirstRun(paragraphs, newText, None);
    }

    /** `replace_chart_label_runs`; the result is the error it raises, if any. */
    method ReplaceChartLabelRuns(period: string, value: Value, unit: string) returns (error: Option<string>)
      requires Valid()
      modifies this
      ensures Valid()
      ensures !hasTextFrame ==> paragraphs == old(paragraphs) && error.None?
      ensures hasTextFrame ==>
        var o := LabelRuns(old(paragraphs)[0], period, value, unit);
        paragraphs == old(paragraphs)[0 := o.runs] && error == o.error
    {
      if !hasTextFrame {
        return None;
      }
      var runs := paragraphs[0];
      if |runs| < 6 {
        return None;
      }
      var parts := PeriodParts(period);
      if parts.Err? {
        return Some(parts.error);
      }
      var (year, month) := parts.value;
      runs := runs[2 := runs[2].(text := year)];
      runs := runs[3 := runs[3].(text := "/" + month)];
      paragraphs := paragraphs[0 := runs];
      var shown := ValueText(value);
      if shown.Err? {
        return Some(shown.error);
      }
      runs := runs[5 := runs[5].(text := "：" + shown.value + unit + "）")];
      paragraphs := paragraphs[0 := runs];
      error := None;
    }
  }
}

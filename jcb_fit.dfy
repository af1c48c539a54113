/** Shrink-to-fit for the brand-name column of the report table
    (`_estimate_text_width` and `_calc_font_size_for_cell`).

    Widths are counted in half-units (a full-width character is 2, any other
    character 1) and font sizes in half-points (10.5pt is 21, 7pt is 14), so
    the source's test `width * size * 12700 <= effective` becomes the
    integer test `w2 * s2 * 3175 <= effective`. The source's float arithmetic
    is exact on these values, so nothing is lost. */
module TextFit {
  import opened Values

  /** Left and right cell margin, in EMU (0.1 inch each). */
  const DefaultCellMargin: int := 91440
  /** 10.5pt, the size the table is laid out for. */
  const BaseSize2: nat := 21
  /** 7pt, the smallest size the search goes down to. */
  const MinSize2: nat := 14

  function CharWidth2(c: char, isWide: char -> bool): nat {
    if isWide(c) then 2 else 1
  }

  /** Twice the estimated width of `text`; `isWide(c)` stands for
      `unicodedata.east_asian_width(c) in ("F", "W")`. */
  function HalfWidth(text: string, isWide: char -> bool): nat
    decreases |text|
  {
    if text == [] then 0 else HalfWidth(text[..|text| - 1], isWide) + CharWidth2(text[|text| - 1], isWide)
  }

  /** The width of a concatenation is the sum of the widths. */
  lemma {:induction false} HalfWidthConcat(a: string, b: string, isWide: char -> bool)
    ensures HalfWidth(a + b, isWide) == HalfWidth(a, isWide) + HalfWidth(b, isWide)
    decreases |b|
  {
    if b == [] {
      assert a + b == a;
    } else {
      assert (a + b)[..|a + b| - 1] == a + b[..|b| - 1];
      HalfWidthConcat(a, b[..|b| - 1], isWide);
    }
  }

  /** Every character counts 1 or 2 half-units, so the estimate lies between
      the length and twice the length, and is zero only for the empty text. */
  lemma {:induction false} HalfWidthBounds(text: string, isWide: char -> bool)
    ensures |text| <= HalfWidth(text, isWide) <= 2 * |text|
    ensures HalfWidth(text, isWide) == 0 <==> text == []
    ensures (forall i :: 0 <= i < |text| ==> !isWide(text[i])) ==> HalfWidth(text, isWide) == |text|
    ensures (forall i :: 0 <= i < |text| ==> isWide(text[i])) ==> HalfWidth(text, isWide) == 2 * |text|
    decreases |text|
  {
    if text != [] {
      HalfWidthBounds(text[..|text| - 1], isWide);
    }
  }

  /** `_estimate_text_width`, in half-units. */
  method EstimateTextWidth(text: string, isWide: char -> bool) returns (w2: nat)
    ensures w2 == HalfWidth(text, isWide)
  {
    w2 := 0;
    var i := 0;
    while i < |text|
      invariant 0 <= i <= |text|
      invariant w2 == HalfWidth(text[..i], isWide)
    {
      assert text[..i + 1][..i] == text[..i];
      w2 := w2 + CharWidth2(text[i], isWide);
      i := i + 1;
    }
    assert text[..i] == text;
  }

  /** Text of half-width `w2` fits on one line at half-point size `s2` in
      `eff` EMU: `(w2/2) * (s2/2) * 12700 <= eff`. */
  predicate Fits(w2: int, s2: int, eff: int) {
    w2 * s2 * 3175 <= eff
  }

  lemma FitsMonotone(w2: nat, v2: nat, s2: nat, t2: nat, eff: int)
    requires v2 <= w2 && t2 <= s2 && Fits(w2, s2, eff)
    ensures Fits(v2, t2, eff)
  {
    assert v2 * t2 <= w2 * t2 <= w2 * s2 by {
      MulMonotone(v2, w2, t2);
      MulMonotone(t2, s2, w2);
    }
  }

  lemma MulMonotone(a: nat, b: nat, c: nat)
    requires a <= b
    ensures a * c <= b * c
  {
  }

  /** The search of `_calc_font_size_for_cell` below 10.5pt: the first size
      from `s2` down that fits, or the 7pt floor. */
  function LargestFit(w2: nat, eff: int, s2: nat): (r: nat)
    requires MinSize2 <= s2
    ensures MinSize2 <= r <= s2
    ensures r > MinSize2 ==> Fits(w2, r, eff)
    ensures forall t :: r < t <= s2 ==> !Fits(w2, t, eff)
    decreases s2
  {
    if s2 == MinSize2 then MinSize2
    else if Fits(w2, s2, eff) then s2
    else LargestFit(w2, eff, s2 - 1)
  }

  /** `_calc_font_size_for_cell` on a text of half-width `w2` in a cell whose
      usable width is `eff`: None keeps the template's size. */
  function ShrunkSize(w2: nat, eff: int): (r: Option<nat>)
    ensures r == None <==> (w2 == 0 || Fits(w2, BaseSize2, eff))
    ensures r.Some? ==> MinSize2 <= r.value < BaseSize2
    ensures r.Some? && r.value > MinSize2 ==> Fits(w2, r.value, eff)
    ensures r.Some? ==> forall t :: r.value < t <= BaseSize2 ==> !Fits(w2, t, eff)
  {
    if w2 == 0 || Fits(w2, BaseSize2, eff) then None
    else Some(LargestFit(w2, eff, BaseSize2 - 1))
  }

  /** The size a text ends up with: the selected size, or 10.5pt when none is set. */
  function EffectiveSize(r: Option<nat>): nat {
    match r
    case None => BaseSize2
    case Some(s) => s
  }

  /** Font shrinking is monotonic: a text estimated wider never gets a larger
      size than a narrower one in the same cell. */
  lemma ShrunkSizeMonotone(v2: nat, w2: nat, eff: int)
    requires v2 <= w2
    ensures EffectiveSize(ShrunkSize(w2, eff)) <= EffectiveSize(ShrunkSize(v2, eff))
  {
    var a, b := ShrunkSize(v2, eff), ShrunkSize(w2, eff);
    if b == None {
      if w2 != 0 {
        FitsMonotone(w2, v2, BaseSize2, BaseSize2, eff);
      }
    } else if a != None && b.value > MinSize2 {
      var s := b.value;
      if a.value < s {
        FitsMonotone(w2, v2, s, s, eff);
      }
    }
  }

  /** `_calc_font_size_for_cell` with the default 10.5pt base and 7pt floor. */
  method CalcFontSize(text: string, colWidth: int, isWide: char -> bool) returns (r: Option<nat>)
    ensures r == ShrunkSize(HalfWidth(text, isWide), colWidth - 2 * DefaultCellMargin)
  {
    var eff := colWidth - DefaultCellMargin * 2;
    var w2 := EstimateTextWidth(text, isWide);
    if w2 == 0 {
      return None;
    }
    if Fits(w2, BaseSize2, eff) {
      return None;
    }
    var size := BaseSize2 - 1;
    while size >= MinSize2
      invariant MinSize2 - 1 <= size < BaseSize2
      invariant forall t :: size < t <= BaseSize2 ==> !Fits(w2, t, eff)
    {
      if Fits(w2, size, eff) {
        return Some(size);
      }
      size := size - 1;
    }
    return Some(MinSize2);
  }
}

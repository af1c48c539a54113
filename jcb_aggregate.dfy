/** The data shaping around the slides: the brand donut's top 8 plus
    "その他", the zero-filling of purchase weeks missing from the login
    weeks, the title's company-name cleanup and the name of a new task folder. */
module Aggregate {
  import opened Values
  import opened Text
  import opened Sorting

  // ---------------------------------------------------------------------
  // Donut data

  /** At most this many brands get their own slice. */
  const BrandDonutMax: nat := 8
  const OtherLabel: string := "その他"

  /** One brand's row as the donut sees it. */
  datatype BrandTotals = BrandTotals(name: string, count: int, price: int)

  function SumCount(rows: seq<BrandTotals>): int
    decreases |rows|
  {
    if rows == [] then 0 else rows[0].count + SumCount(rows[1..])
  }

  function SumPrice(rows: seq<BrandTotals>): int
    decreases |rows|
  {
    if rows == [] then 0 else rows[0].price + SumPrice(rows[1..])
  }

  lemma {:induction false} SumsConcat(a: seq<BrandTotals>, b: seq<BrandTotals>)
    ensures SumCount(a + b) == SumCount(a) + SumCount(b)
    ensures SumPrice(a + b) == SumPrice(a) + SumPrice(b)
    decreases |a|
  {
    if a == [] {
      assert a + b == b;
    } else {
      assert (a + b)[1..] == a[1..] + b;
      SumsConcat(a[1..], b);
    }
  }

  /** The rows the donut chart is drawn from: the first eight brands, then
      one "その他" row summing the rest when there is a rest. */
  function DonutRows(rows: seq<BrandTotals>): seq<BrandTotals> {
    if |rows| <= BrandDonutMax then rows
    else rows[..BrandDonutMax] + [BrandTotals(OtherLabel, SumCount(rows[BrandDonutMax..]), SumPrice(rows[BrandDonutMax..]))]
  }

  /** The first eight rows are kept in order, at most one row is added, and
      both grand totals are unchanged. */
  lemma DonutRowsSpec(rows: seq<BrandTotals>)
    ensures var d := DonutRows(rows);
      && |d| == (if |rows| <= BrandDonutMax then |rows| else BrandDonutMax + 1)
      && (forall i :: 0 <= i < |d| && i < BrandDonutMax ==> d[i] == rows[i])
      && (|rows| > BrandDonutMax ==> d[BrandDonutMax].name == OtherLabel)
      && SumCount(d) == SumCount(rows)
      && SumPrice(d) == SumPrice(rows)
  {
    if |rows| > BrandDonutMax {
      var head, rest := rows[..BrandDonutMax], rows[BrandDonutMax..];
      var other := BrandTotals(OtherLabel, SumCount(rest), SumPrice(rest));
      SumsConcat(head, [other]);
      SumsConcat(head, rest);
      assert head + rest == rows;
    }
  }

  // ---------------------------------------------------------------------
  // Missing purchase weeks

  /** A purchase row: its week (days since an epoch; the source's ISO date
      strings order the same way), its purchase count and the remaining
      columns. */
  datatype WeekRow = WeekRow(week: int, count: int, attrs: map<string, Value>)

  function WeekOf(r: WeekRow): int {
    r.week
  }

  predicate HasWeek(rows: seq<WeekRow>, w: int) {
    exists i :: 0 <= i < |rows| && rows[i].week == w
  }

  /** The login weeks, in order, that have no purchase row. */
  function MissingWeeks(rows: seq<WeekRow>, allWeeks: seq<int>): (m: seq<int>)
    ensures forall k :: 0 <= k < |m| ==> m[k] in allWeeks && !HasWeek(rows, m[k])
    ensures forall w :: w in allWeeks && !HasWeek(rows, w) ==> w in m
    decreases |allWeeks|
  {
    if allWeeks == [] then []
    else (if HasWeek(rows, allWeeks[0]) then [] else [allWeeks[0]]) + MissingWeeks(rows, allWeeks[1..])
  }

  /** The filler rows: count 0, the other columns copied from `first`. */
  function FillerRows(missing: seq<int>, first: WeekRow): (f: seq<WeekRow>)
    ensures |f| == |missing|
    ensures forall k :: 0 <= k < |f| ==> f[k] == WeekRow(missing[k], 0, first.attrs)
  {
    seq(|missing|, k requires 0 <= k < |missing| => WeekRow(missing[k], 0, first.attrs))
  }

  /** One company's purchase rows after the fill: unchanged when no week is
      missing, otherwise the rows plus the filler rows, sorted by week. */
  function FillMissingWeeks(rows: seq<WeekRow>, allWeeks: seq<int>): seq<WeekRow>
    requires rows != []
  {
    var missing := MissingWeeks(rows, allWeeks);
    if missing == [] then rows else SortBy(rows + FillerRows(missing, rows[0]), WeekOf)
  }

  function SumCounts(rows: seq<WeekRow>): int
    decreases |rows|
  {
    if rows == [] then 0 else rows[0].count + SumCounts(rows[1..])
  }

  lemma {:induction false} SumCountsConcat(a: seq<WeekRow>, b: seq<WeekRow>)
    ensures SumCounts(a + b) == SumCounts(a) + SumCounts(b)
    decreases |a|
  {
    if a == [] {
      assert a + b == b;
    } else {
      assert (a + b)[1..] == a[1..] + b;
      SumCountsConcat(a[1..], b);
    }
  }

  lemma {:induction false} SumCountsInsert(x: WeekRow, s: seq<WeekRow>)
    ensures SumCounts(Insert(x, s, WeekOf)) == x.count + SumCounts(s)
    decreases |s|
  {
    if s != [] && WeekOf(s[0]) <= WeekOf(x) {
      SumCountsInsert(x, s[1..]);
    }
  }

  /** Sorting does not change the total. */
  lemma {:induction false} SumCountsSortBy(s: seq<WeekRow>)
    ensures SumCounts(SortBy(s, WeekOf)) == SumCounts(s)
    decreases |s|
  {
    if s != [] {
      SumCountsSortBy(s[..|s| - 1]);
      SumCountsInsertLast(s, SortBy(s[..|s| - 1], WeekOf));
    }
  }

  lemma SumCountsInsertLast(s: seq<WeekRow>, sortedInit: seq<WeekRow>)
    requires s != [] && SumCounts(sortedInit) == SumCounts(s[..|s| - 1])
    ensures SumCounts(Insert(s[|s| - 1], sortedInit, WeekOf)) == SumCounts(s)
  {
    var init, last := s[..|s| - 1], s[|s| - 1];
    SumCountsInsert(last, sortedInit);
    SumCountsConcat(init, [last]);
    assert init + [last] == s;
  }

  lemma {:induction false} SumCountsFiller(missing: seq<int>, first: WeekRow)
    ensures SumCounts(FillerRows(missing, first)) == 0
    decreases |missing|
  {
    if missing != [] {
      var f := FillerRows(missing, first);
      assert f[1..] == FillerRows(missing[1..], first);
      SumCountsFiller(missing[1..], first);
    }
  }

  /** The fill covers every login week, keeps every original row, adds only
      zero rows for weeks that had none, and leaves the total unchanged. */
  lemma FillMissingWeeksSpec(rows: seq<WeekRow>, allWeeks: seq<int>)
    requires rows != []
    ensures var r := FillMissingWeeks(rows, allWeeks);
      var missing := MissingWeeks(rows, allWeeks);
      && (missing == [] ==> r == rows)
      && (missing != [] ==> SortedBy(r, WeekOf))
      && multiset(r) == multiset(rows) + multiset(FillerRows(missing, rows[0]))
      && (forall w :: w in allWeeks ==> HasWeek(r, w))
      && SumCounts(r) == SumCounts(rows)
  {
    var missing := MissingWeeks(rows, allWeeks);
    var r := FillMissingWeeks(rows, allWeeks);
    if missing != [] {
      var fillers := FillerRows(missing, rows[0]);
      var all := rows + fillers;
      assert r == SortBy(all, WeekOf);
      SortBySorted(all, WeekOf);
      assert SumCounts(r) == SumCounts(rows) by {
        SumCountsSortBy(all);
        SumCountsConcat(rows, fillers);
        SumCountsFiller(missing, rows[0]);
      }
      FilledHasWeeks(rows, allWeeks, missing, r);
    }
  }

  /** A permutation of the rows plus the filler rows has a row for every login week. */
  lemma FilledHasWeeks(rows: seq<WeekRow>, allWeeks: seq<int>, missing: seq<int>, r: seq<WeekRow>)
    requires rows != [] && missing == MissingWeeks(rows, allWeeks)
    requires multiset(r) == multiset(rows + FillerRows(missing, rows[0]))
    ensures forall w :: w in allWeeks ==> HasWeek(r, w)
  {
    var fillers := FillerRows(missing, rows[0]);
    var all := rows + fillers;
    forall w | w in allWeeks ensures HasWeek(r, w) {
      var x: WeekRow;
      if HasWeek(rows, w) {
        var i :| 0 <= i < |rows| && rows[i].week == w;
        x := rows[i];
        assert all[i] == x;
      } else {
        var k :| 0 <= k < |missing| && missing[k] == w;
        x := fillers[k];
        assert all[|rows| + k] == x;
      }
      assert x in multiset(all);
      assert x in multiset(r);
      var j :| 0 <= j < |r| && r[j] == x;
    }
  }

  /** Filling twice is filling once: after the fill no login week is missing. */
  lemma FillMissingWeeksIdempotent(rows: seq<WeekRow>, allWeeks: seq<int>)
    requires rows != []
    ensures FillMissingWeeks(rows, allWeeks) != []
    ensures FillMissingWeeks(FillMissingWeeks(rows, allWeeks), allWeeks) == FillMissingWeeks(rows, allWeeks)
  {
    FillMissingWeeksSpec(rows, allWeeks);
    var r := FillMissingWeeks(rows, allWeeks);
    assert |multiset(r)| >= |multiset(rows)|;
    MissingWeeksNone(r, allWeeks);
  }

  /** No week is missing from rows that cover every login week. */
  lemma {:induction false} MissingWeeksNone(rows: seq<WeekRow>, allWeeks: seq<int>)
    requires forall w :: w in allWeeks ==> HasWeek(rows, w)
    ensures MissingWeeks(rows, allWeeks) == []
    decreases |allWeeks|
  {
    if allWeeks != [] {
      assert allWeeks[0] in allWeeks;
      MissingWeeksNone(rows, allWeeks[1..]);
    }
  }

  /** The loop over companies in `main`: every company's rows are filled. */
  method FillAllCompanies(groups: map<Value, seq<WeekRow>>, allWeeks: seq<int>) returns (filled: map<Value, seq<WeekRow>>)
    requires forall c :: c in groups ==> groups[c] != []
    ensures filled.Keys == groups.Keys
    ensures forall c :: c in groups ==> filled[c] == FillMissingWeeks(groups[c], allWeeks)
  {
    filled := groups;
    var todo := groups.Keys;
    while todo != {}
      invariant todo <= groups.Keys && filled.Keys == groups.Keys
      invariant forall c :: c in groups && c !in todo ==> filled[c] == FillMissingWeeks(groups[c], allWeeks)
      invariant forall c :: c in todo ==> filled[c] == groups[c]
      decreases |todo|
    {
      var c :| c in todo;
      var rows := groups[c];
      var missing := MissingWeeks(rows, allWeeks);
      if missing != [] {
        var fill := FillerRows(missing, rows[0]);
        filled := filled[c := SortBy(rows + fill, WeekOf)];
      }
      todo := todo - {c};
    }
  }

  // ---------------------------------------------------------------------
  // Task folder name

  /** The folder name for the `n`-th run of a day: `{today}_{n}`. */
  function Suffixed(today: string, n: nat): string {
    today + "_" + Digits(n)
  }

  /** Different run numbers give different names. */
  lemma SuffixedInjective(today: string, n: nat, m: nat)
    requires Suffixed(today, n) == Suffixed(today, m)
    ensures n == m
  {
    assert Suffixed(today, n)[|today| + 1..] == Digits(n);
    assert Suffixed(today, m)[|today| + 1..] == Digits(m);
    ParseDigitsOfDigits(n);
    ParseDigitsOfDigits(m);
  }

  /** The naming rule of `_create_task_dir` over the set of folder names
      that already exist: the day itself when free, otherwise the first free
      `{today}_{n}` from n = 2 on. */
  method TaskDirName(today: string, existing: set<string>) returns (name: string)
    ensures name !in existing
    ensures today !in existing ==> name == today
    ensures today in existing ==>
      exists n: nat :: n >= 2 && name == Suffixed(today, n) && forall k: nat :: 2 <= k < n ==> Suffixed(today, k) in existing
  {
    if today !in existing {
      return today;
    }
    var n: nat := 2;
    ghost var seen: set<string> := {};
    while Suffixed(today, n) in existing
      invariant n >= 2 && seen <= existing && |seen| == n - 2
      invariant forall k: nat :: 2 <= k < n ==> Suffixed(today, k) in existing
      invariant forall x :: x in seen ==> exists k: nat :: 2 <= k < n && x == Suffixed(today, k)
      decreases |existing| - |seen|
    {
      SeenGrows(today, existing, seen, n);
      seen := seen + {Suffixed(today, n)};
      n := n + 1;
    }
    name := Suffixed(today, n);
  }

  /** One more taken name joins the names already tried, which stay
      distinct and within the existing names. */
  lemma SeenGrows(today: string, existing: set<string>, seen: set<string>, n: nat)
    requires n >= 2 && seen <= existing && |seen| == n - 2 && Suffixed(today, n) in existing
    requires forall x :: x in seen ==> exists k: nat :: 2 <= k < n && x == Suffixed(today, k)
    requires forall k: nat :: 2 <= k < n ==> Suffixed(today, k) in existing
    ensures forall k: nat :: 2 <= k < n + 1 ==> Suffixed(today, k) in existing
    ensures seen + {Suffixed(today, n)} <= existing && |seen + {Suffixed(today, n)}| == n - 1
    ensures |seen + {Suffixed(today, n)}| <= |existing|
    ensures forall x :: x in seen + {Suffixed(today, n)} ==> exists k: nat :: 2 <= k < n + 1 && x == Suffixed(today, k)
  {
    forall x | x in seen ensures x != Suffixed(today, n) {
      var k: nat :| 2 <= k < n && x == Suffixed(today, k);
      if x == Suffixed(today, n) {
        SuffixedInjective(today, k, n);
      }
    }
    SubsetCard(seen + {Suffixed(today, n)}, existing);
  }

  lemma SubsetCard<T>(a: set<T>, b: set<T>)
    requires a <= b
    ensures |a| <= |b|
  {
    assert b == a + (b - a);
  }

  // ---------------------------------------------------------------------
  // Title: removing "（申込企業：…）"

  const ApplicantOpen: string := "（申込企業："

  /** Length of the "[^）]+）" part at the start of `s`: the position just
      after the first "）", provided at least one other character precedes it. */
  function ClosingAt(s: string): (n: Option<nat>)
    ensures n.Some? ==> 2 <= n.value <= |s|
    decreases |s|
  {
    if s == [] || s[0] == '）' then None
    else if |s| >= 2 && s[1] == '）' then Some(2)
    else match ClosingAt(s[1..])
      case None => None
      case Some(k) => Some(k + 1)
  }

  /** `[^）]+）` matches up to and including the first "）", and only when
      at least one other character comes first. */
  lemma {:induction false} ClosingAtSpec(s: string)
    ensures ClosingAt(s).Some? ==> var n := ClosingAt(s).value;
      s[n - 1] == '）' && forall i :: 0 <= i < n - 1 ==> s[i] != '）'
    ensures ClosingAt(s).None? ==> s == [] || s[0] == '）' || forall i :: 0 <= i < |s| ==> s[i] != '）'
    decreases |s|
  {
    if s != [] && s[0] != '）' && !(|s| >= 2 && s[1] == '）') {
      ClosingAtSpec(s[1..]);
      if ClosingAt(s[1..]).Some? {
        var k := ClosingAt(s[1..]).value;
        forall i | 0 <= i < k ensures s[i] != '）' {
          if i > 0 { assert s[i] == s[1..][i - 1]; }
        }
        assert s[k] == s[1..][k - 1];
      } else {
        forall i | 0 <= i < |s| ensures s[i] != '）' {
          if i > 0 { assert s[i] == s[1..][i - 1]; }
        }
      }
    }
  }

  /** The end of a marker "（申込企業：…）" that starts `s`, if one does. */
  function MarkerEnd(s: string): (n: Option<nat>)
    ensures n.Some? ==> 1 <= n.value <= |s|
  {
    if StartsWith(s, ApplicantOpen) then
      match ClosingAt(s[|ApplicantOpen|..])
      case None => None
      case Some(k) => Some(|ApplicantOpen| + k)
    else None
  }

  /** `re.sub(r"（申込企業：[^）]+）", "", s)`: every match, scanning left to right. */
  function StripApplicant(s: string): (r: string)
    ensures |r| <= |s|
    decreases |s|
  {
    if s == [] then []
    else match MarkerEnd(s)
      case Some(n) => StripApplicant(s[n..])
      case None => [s[0]] + StripApplicant(s[1..])
  }

  /** A name without the opening "（申込企業：" is left as it is. */
  lemma {:induction false} StripApplicantNoMarker(s: string)
    requires !Contains(s, ApplicantOpen)
    ensures StripApplicant(s) == s
    decreases |s|
  {
    if s != [] {
      assert !Contains(s[1..], ApplicantOpen);
      StripApplicantNoMarker(s[1..]);
    }
  }

  /** A trailing suffix is removed entirely. */
  lemma StripApplicantSuffix(name: string, company: string)
    requires !Contains(name, ApplicantOpen) && company != [] && forall i :: 0 <= i < |company| ==> company[i] != '）'
    ensures StripApplicant(name + ApplicantOpen + company + "）") == name
  {
    ConcatRight(name, ApplicantOpen, company, "）");
    CompanyMarker(company);
    StripBeforeMarker(name, ApplicantOpen + (company + "）"));
  }

  /** "（申込企業：company）" is one whole marker. */
  lemma CompanyMarker(company: string)
    requires company != [] && forall i :: 0 <= i < |company| ==> company[i] != '）'
    ensures var rest := ApplicantOpen + (company + "）");
      StartsWith(rest, ApplicantOpen) && MarkerEnd(rest) == Some(|rest|)
  {
    var rest := ApplicantOpen + (company + "）");
    assert rest[..|ApplicantOpen|] == ApplicantOpen;
    ClosingOfMarkedCompany(company);
    MarkerEndAt(rest, |company| + 1);
  }

  lemma ClosingOfMarkedCompany(company: string)
    requires company != [] && forall i :: 0 <= i < |company| ==> company[i] != '）'
    ensures ClosingAt((ApplicantOpen + (company + "）"))[|ApplicantOpen|..]) == Some(|company| + 1)
  {
    var tail := company + "）";
    assert (ApplicantOpen + tail)[|ApplicantOpen|..] == tail;
    ClosingOfCompany(company);
  }

  lemma MarkerEndAt(s: string, k: nat)
    requires StartsWith(s, ApplicantOpen) && ClosingAt(s[|ApplicantOpen|..]) == Some(k)
    ensures MarkerEnd(s) == Some(|ApplicantOpen| + k)
  {
  }

  /** Text without the marker, followed by one whole marker, keeps the text
      and loses the marker. */
  lemma {:induction false} StripBeforeMarker(name: string, rest: string)
    requires !Contains(name, ApplicantOpen) && StartsWith(rest, ApplicantOpen) && MarkerEnd(rest) == Some(|rest|)
    ensures StripApplicant(name + rest) == name
    decreases |name|
  {
    if name == [] {
      assert name + rest == rest;
      StripMarked(rest, |rest|);
      assert rest[|rest|..] == [];
    } else {
      assert !Contains(name[1..], ApplicantOpen);
      StripBeforeMarker(name[1..], rest);
      assert !StartsWith(name, ApplicantOpen);
      StripKeptBefore(name, rest);
    }
  }

  /** A marker ending at `n` is dropped. */
  lemma StripMarked(s: string, n: nat)
    requires s != [] && MarkerEnd(s) == Some(n)
    ensures StripApplicant(s) == StripApplicant(s[n..])
  {
  }

  /** A first character that does not open a marker is kept. */
  lemma StripKept(s: string)
    requires s != [] && MarkerEnd(s).None?
    ensures StripApplicant(s) == [s[0]] + StripApplicant(s[1..])
  {
  }

  /** The first character of a text that does not start the marker, in
      front of a text that does, is kept. */
  lemma StripKeptBefore(name: string, rest: string)
    requires name != [] && !StartsWith(name, ApplicantOpen) && StartsWith(rest, ApplicantOpen)
    requires StripApplicant(name[1..] + rest) == name[1..]
    ensures StripApplicant(name + rest) == name
  {
    StripKeptFront(name, rest);
    DropFirstOfConcat(name, rest);
  }

  lemma StripKeptFront(name: string, rest: string)
    requires name != [] && !StartsWith(name, ApplicantOpen) && StartsWith(rest, ApplicantOpen)
    ensures StripApplicant(name + rest) == [name[0]] + StripApplicant((name + rest)[1..])
  {
    NotStartsWithExtended(name, rest);
    assert MarkerEnd(name + rest).None?;
    StripKept(name + rest);
  }

  lemma DropFirstOfConcat(a: string, b: string)
    requires a != []
    ensures (a + b)[1..] == a[1..] + b
  {
  }

  lemma ConcatRight(a: string, b: string, c: string, d: string)
    ensures a + b + c + d == a + (b + (c + d))
  {
  }

  lemma {:induction false} ClosingOfCompany(company: string)
    requires company != [] && forall i :: 0 <= i < |company| ==> company[i] != '）'
    ensures ClosingAt(company + "）") == Some(|company| + 1)
    decreases |company|
  {
    var s := company + "）";
    if |company| > 1 {
      assert s[1..] == company[1..] + "）";
      ClosingOfCompany(company[1..]);
    }
  }

  /** The marker's first character "（" does not recur in it, so the marker
      cannot start inside a non-empty text that does not itself start with it. */
  lemma NotStartsWithExtended(a: string, b: string)
    requires a != [] && !StartsWith(a, ApplicantOpen) && StartsWith(b, ApplicantOpen)
    ensures !StartsWith(a + b, ApplicantOpen)
  {
    if |a| >= |ApplicantOpen| {
      assert a[..|ApplicantOpen|] == (a + b)[..|ApplicantOpen|];
    } else {
      assert (a + b)[|a|] == b[0];
      assert forall k :: 1 <= k < |ApplicantOpen| ==> ApplicantOpen[k] != '（';
    }
  }
}

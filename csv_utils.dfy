/** The shared CSV helpers: finding the input files of a run by keyword
    (`detect_csv_files`) and splitting a table into one table per value of a
    column (`load_and_group`). */
module CsvUtils {
  import opened Values
  import opened Text

  // ---------------------------------------------------------------------
  // detect_csv_files

  /** What `glob("*.csv")` lets through. */
  predicate IsCsvName(name: string) {
    EndsWith(name, ".csv")
  }

  /** `kw in f.name or kw in name_lower` */
  predicate MatchesKeyword(name: string, kw: string) {
    Contains(name, kw) || Contains(Lower(name), kw)
  }

  /** `any(...)` over a keyword list. */
  predicate MatchesAny(name: string, keywords: seq<string>) {
    exists k :: 0 <= k < |keywords| && MatchesKeyword(name, keywords[k])
  }

  /** A directory entry a key may take: a CSV file matching one of its keywords. */
  predicate Candidate(name: string, keywords: seq<string>) {
    IsCsvName(name) && MatchesAny(name, keywords)
  }

  /** The first candidate of the listing, in listing order. */
  function FirstMatch(names: seq<string>, keywords: seq<string>): (r: Option<string>)
    ensures r.Some? ==> r.value in names && Candidate(r.value, keywords)
    decreases |names|
  {
    if names == [] then None
    else
      var earlier := FirstMatch(names[..|names| - 1], keywords);
      if earlier.Some? then earlier
      else if Candidate(names[|names| - 1], keywords) then Some(names[|names| - 1])
      else None
  }

  /** No candidate at all is what leaves a key at None. */
  lemma {:induction false} FirstMatchNone(names: seq<string>, keywords: seq<string>)
    ensures FirstMatch(names, keywords).None? <==> forall i :: 0 <= i < |names| ==> !Candidate(names[i], keywords)
    decreases |names|
  {
    if names != [] {
      var init := names[..|names| - 1];
      FirstMatchNone(init, keywords);
      assert forall i :: 0 <= i < |init| ==> init[i] == names[i];
    }
  }

  /** The first match wins: the key takes the earliest candidate and no
      later one. */
  lemma {:induction false} FirstMatchAt(names: seq<string>, keywords: seq<string>, i: nat)
    requires i < |names| && Candidate(names[i], keywords)
    requires forall j :: 0 <= j < i ==> !Candidate(names[j], keywords)
    ensures FirstMatch(names, keywords) == Some(names[i])
    decreases |names|
  {
    var init := names[..|names| - 1];
    assert forall j :: 0 <= j < |init| ==> init[j] == names[j];
    if i < |init| {
      FirstMatchAt(init, keywords, i);
    } else {
      FirstMatchNone(init, keywords);
    }
  }

  /** The patterns, in the order of the dictionary. */
  datatype Pattern = Pattern(key: string, keywords: seq<string>)

  /** A dictionary's keys are distinct. */
  predicate DistinctKeys(ps: seq<Pattern>) {
    forall i, j :: 0 <= i < j < |ps| ==> ps[i].key != ps[j].key
  }

  /** The result of `detect_csv_files`: every pattern key, each with the first
      matching CSV of the listing or None. */
  function Detected(names: seq<string>, ps: seq<Pattern>): (files: map<string, Option<string>>)
    requires DistinctKeys(ps)
    ensures files.Keys == set i | 0 <= i < |ps| :: ps[i].key
  {
    map i | 0 <= i < |ps| :: ps[i].key := FirstMatch(names, ps[i].keywords)
  }

  /** What a key holds: a CSV of the listing that matches one of its
      keywords and comes before every other such file; None only when no
      CSV matches. */
  lemma DetectedSpec(names: seq<string>, ps: seq<Pattern>, i: nat)
    requires DistinctKeys(ps) && i < |ps|
    ensures ps[i].key in Detected(names, ps)
    ensures Detected(names, ps)[ps[i].key].None? <==> forall n :: 0 <= n < |names| ==> !Candidate(names[n], ps[i].keywords)
    ensures Detected(names, ps)[ps[i].key].Some? ==>
      exists n :: (0 <= n < |names| && names[n] == Detected(names, ps)[ps[i].key].value &&
        Candidate(names[n], ps[i].keywords) && forall m :: 0 <= m < n ==> !Candidate(names[m], ps[i].keywords))
  {
    var d := Detected(names, ps);
    assert d[ps[i].key] == FirstMatch(names, ps[i].keywords);
    FirstMatchNone(names, ps[i].keywords);
    if d[ps[i].key].Some? {
      var n := FirstCandidate(names, ps[i].keywords);
      FirstMatchAt(names, ps[i].keywords, n);
    }
  }

  /** The index of the earliest candidate, when there is one. */
  lemma FirstCandidate(names: seq<string>, keywords: seq<string>) returns (n: nat)
    requires exists i :: 0 <= i < |names| && Candidate(names[i], keywords)
    ensures n < |names| && Candidate(names[n], keywords)
    ensures forall m :: 0 <= m < n ==> !Candidate(names[m], keywords)
  {
    n := 0;
    while !Candidate(names[n], keywords)
      invariant n < |names|
      invariant forall m :: 0 <= m < n ==> !Candidate(names[m], keywords)
      invariant exists i :: n <= i < |names| && Candidate(names[i], keywords)
      decreases |names| - n
    {
      n := n + 1;
    }
  }

  /** One file can fill several keys: the earliest CSV matching two keys'
      keywords is the file of both. */
  lemma DetectedShared(names: seq<string>, ps: seq<Pattern>, a: nat, b: nat, n: nat)
    requires DistinctKeys(ps) && a < |ps| && b < |ps| && n < |names|
    requires Candidate(names[n], ps[a].keywords) && Candidate(names[n], ps[b].keywords)
    requires forall m :: 0 <= m < n ==> !Candidate(names[m], ps[a].keywords) && !Candidate(names[m], ps[b].keywords)
    ensures Detected(names, ps)[ps[a].key] == Detected(names, ps)[ps[b].key] == Some(names[n])
  {
    FirstMatchAt(names, ps[a].keywords, n);
    FirstMatchAt(names, ps[b].keywords, n);
    var d := Detected(names, ps);
    assert d[ps[a].key] == FirstMatch(names, ps[a].keywords);
    assert d[ps[b].key] == FirstMatch(names, ps[b].keywords);
  }

  function KeySet(ps: seq<Pattern>): set<string> {
    set i | 0 <= i < |ps| :: ps[i].key
  }

  /** `files` holds, for every pattern, the first match among `names`. */
  predicate Tracks(files: map<string, Option<string>>, names: seq<string>, ps: seq<Pattern>) {
    && files.Keys == KeySet(ps)
    && forall i :: 0 <= i < |ps| ==> files[ps[i].key] == FirstMatch(names, ps[i].keywords)
  }

  lemma TracksDetected(files: map<string, Option<string>>, names: seq<string>, ps: seq<Pattern>)
    requires DistinctKeys(ps) && Tracks(files, names, ps)
    ensures files == Detected(names, ps)
  {
    var d := Detected(names, ps);
    forall k | k in files
      ensures files[k] == d[k]
    {
      var i :| 0 <= i < |ps| && ps[i].key == k;
      assert d[ps[i].key] == FirstMatch(names, ps[i].keywords);
    }
  }

  /** One more file of the listing settles the keys still free. */
  lemma FirstMatchStep(names: seq<string>, keywords: seq<string>, f: nat)
    requires f < |names|
    ensures FirstMatch(names[..f + 1], keywords) ==
      (if FirstMatch(names[..f], keywords).Some? then FirstMatch(names[..f], keywords)
       else if Candidate(names[f], keywords) then Some(names[f]) else None)
  {
    assert names[..f + 1][..f] == names[..f];
  }

  /** `detect_csv_files`: `names` is the directory listing in the order the
      file system returns it. */
  method DetectCsvFiles(names: seq<string>, ps: seq<Pattern>) returns (files: map<string, Option<string>>)
    requires DistinctKeys(ps)
    ensures files == Detected(names, ps)
  {
    files := map i | 0 <= i < |ps| :: ps[i].key := None;
    var f := 0;
    while f < |names|
      invariant 0 <= f <= |names|
      invariant Tracks(files, names[..f], ps)
    {
      ghost var before := files;
      if IsCsvName(names[f]) {
        files := MatchPatterns(names[f], ps, files);
      }
      TracksStep(before, files, names, f, ps);
      f := f + 1;
    }
    assert names[..|names|] == names;
    TracksDetected(files, names, ps);
  }

  lemma TracksStep(files: map<string, Option<string>>, files': map<string, Option<string>>, names: seq<string>, f: nat, ps: seq<Pattern>)
    requires f < |names| && Tracks(files, names[..f], ps)
    requires files'.Keys == files.Keys
    requires forall i :: 0 <= i < |ps| ==>
      files'[ps[i].key] == (if files[ps[i].key].None? && Candidate(names[f], ps[i].keywords) then Some(names[f]) else files[ps[i].key])
    ensures Tracks(files', names[..f + 1], ps)
  {
    forall i | 0 <= i < |ps|
      ensures files'[ps[i].key] == FirstMatch(names[..f + 1], ps[i].keywords)
    {
      FirstMatchStep(names, ps[i].keywords, f);
    }
  }

  /** The pattern loop for one file: every key still at None whose keywords
      the file matches takes it. */
  method MatchPatterns(name: string, ps: seq<Pattern>, files0: map<string, Option<string>>) returns (files: map<string, Option<string>>)
    requires DistinctKeys(ps)
    requires forall i :: 0 <= i < |ps| ==> ps[i].key in files0
    ensures files.Keys == files0.Keys
    ensures forall i :: 0 <= i < |ps| ==>
      files[ps[i].key] == (if files0[ps[i].key].None? && MatchesAny(name, ps[i].keywords) then Some(name) else files0[ps[i].key])
  {
    files := files0;
    var nameLower := Lower(name);
    var j := 0;
    while j < |ps|
      invariant 0 <= j <= |ps|
      invariant files.Keys == files0.Keys
      invariant forall i :: 0 <= i < j ==>
        files[ps[i].key] == (if files0[ps[i].key].None? && MatchesAny(name, ps[i].keywords) then Some(name) else files0[ps[i].key])
      invariant forall i :: j <= i < |ps| ==> files[ps[i].key] == files0[ps[i].key]
    {
      var key := ps[j].key;
      if files[key].Some? {
        j := j + 1;
        continue;
      }
      var hit := AnyKeyword(name, nameLower, ps[j].keywords);
      if hit {
        files := files[key := Some(name)];
      }
      j := j + 1;
    }
  }

  /** The `any(...)` generator, stopping at the first keyword that matches. */
  method AnyKeyword(name: string, nameLower: string, keywords: seq<string>) returns (hit: bool)
    requires nameLower == Lower(name)
    ensures hit == MatchesAny(name, keywords)
  {
    var k := 0;
    while k < |keywords|
      invariant 0 <= k <= |keywords|
      invariant forall m :: 0 <= m < k ==> !MatchesKeyword(name, keywords[m])
    {
      if Contains(name, keywords[k]) || Contains(nameLower, keywords[k]) {
        return true;
      }
      k := k + 1;
    }
    return false;
  }

  // ---------------------------------------------------------------------
  // load_and_group

  /** A table as read from a CSV file: its header and its rows, each row one
      value per column. */
  datatype Frame = Frame(columns: seq<string>, rows: seq<seq<Value>>)

  predicate WellFormedFrame(df: Frame) {
    forall r :: 0 <= r < |df.rows| ==> |df.rows[r]| == |df.columns|
  }

  /** The position of a column, the first one of that name. */
  function ColumnIndex(columns: seq<string>, name: string): (r: Option<nat>)
    ensures r.Some? ==> r.value < |columns| && columns[r.value] == name
    ensures r.None? <==> name !in columns
    decreases |columns|
  {
    if columns == [] then None
    else if columns[0] == name then Some(0)
    else
      match ColumnIndex(columns[1..], name)
      case None => None
      case Some(i) => Some(i + 1)
  }

  /** The rows whose key column holds `k`, in table order and renumbered
      from 0 (a sequence's own indices). */
  function RowsWithKey(rows: seq<seq<Value>>, c: nat, k: Value): (g: seq<seq<Value>>)
    requires forall r :: 0 <= r < |rows| ==> c < |rows[r]|
    ensures forall r :: 0 <= r < |g| ==> g[r] in rows && g[r][c] == k
    ensures |g| <= |rows|
    decreases |rows|
  {
    if rows == [] then []
    else
      var init := RowsWithKey(rows[..|rows| - 1], c, k);
      if rows[|rows| - 1][c] == k then init + [rows[|rows| - 1]] else init
  }

  /** The groups of `df.groupby(key)`: one per value other than NaN. */
  function Grouped(df: Frame, key: string): (r: Result<map<Value, seq<seq<Value>>>>)
    requires WellFormedFrame(df)
    ensures r.Err? <==> key !in df.columns
  {
    match ColumnIndex(df.columns, key)
    case None => Err("KeyError: " + key)
    case Some(c) =>
      Ok(map k | k in (set r | 0 <= r < |df.rows| :: df.rows[r][c]) && !k.NaN? :: RowsWithKey(df.rows, c, k))
  }

  lemma {:induction false} RowsWithKeyHas(rows: seq<seq<Value>>, c: nat, i: nat)
    requires forall r :: 0 <= r < |rows| ==> c < |rows[r]|
    requires i < |rows|
    ensures rows[i] in RowsWithKey(rows, c, rows[i][c])
    decreases |rows|
  {
    if i < |rows| - 1 {
      var init := rows[..|rows| - 1];
      assert init[i] == rows[i];
      RowsWithKeyHas(init, c, i);
    }
  }

  /** The groups partition the rows with a key: every such row is in the
      group of its own key and only there, and every group holds only rows
      of the table carrying that key; rows whose key is NaN are dropped. */
  lemma GroupedPartition(df: Frame, key: string)
    requires WellFormedFrame(df) && key in df.columns
    ensures var c := ColumnIndex(df.columns, key).value;
      var groups := Grouped(df, key).value;
      && (forall r :: 0 <= r < |df.rows| && !df.rows[r][c].NaN? ==>
            df.rows[r][c] in groups && df.rows[r] in groups[df.rows[r][c]])
      && (forall k :: k in groups ==> !k.NaN? && forall g :: 0 <= g < |groups[k]| ==> groups[k][g] in df.rows && groups[k][g][c] == k)
      && (forall r :: 0 <= r < |df.rows| && df.rows[r][c].NaN? ==> df.rows[r][c] !in groups)
  {
    var c := ColumnIndex(df.columns, key).value;
    forall r | 0 <= r < |df.rows| && !df.rows[r][c].NaN?
      ensures df.rows[r] in RowsWithKey(df.rows, c, df.rows[r][c])
    {
      RowsWithKeyHas(df.rows, c, r);
    }
  }

  lemma {:induction false} RowsWithKeyCount(rows: seq<seq<Value>>, c: nat, k: Value)
    requires forall r :: 0 <= r < |rows| ==> c < |rows[r]|
    ensures |RowsWithKey(rows, c, k)| == |set r | 0 <= r < |rows| && rows[r][c] == k|
    decreases |rows|
  {
    if rows != [] {
      var n := |rows| - 1;
      var init := rows[..n];
      RowsWithKeyCount(init, c, k);
      KeyPositionsStep(rows, c, k);
      if rows[n][c] == k {
        assert |RowsWithKey(rows, c, k)| == |RowsWithKey(init, c, k)| + 1;
      } else {
        assert RowsWithKey(rows, c, k) == RowsWithKey(init, c, k);
      }
    }
  }

  /** The positions of the rows with key `k` grow by the last row when it has that key. */
  lemma KeyPositionsStep(rows: seq<seq<Value>>, c: nat, k: Value)
    requires rows != [] && forall r :: 0 <= r < |rows| ==> c < |rows[r]|
    ensures var n := |rows| - 1;
      var before := set r | 0 <= r < n && rows[..n][r][c] == k;
      var after := set r | 0 <= r < |rows| && rows[r][c] == k;
      n !in before && after == if rows[n][c] == k then before + {n} else before
  {
  }

  /** Each group holds as many rows as the table has rows with that key. */
  lemma GroupSizes(df: Frame, key: string, k: Value)
    requires WellFormedFrame(df) && key in df.columns
    requires k in Grouped(df, key).value
    ensures var c := ColumnIndex(df.columns, key).value;
      |Grouped(df, key).value[k]| == |set r | 0 <= r < |df.rows| && df.rows[r][c] == k|
  {
    RowsWithKeyCount(df.rows, ColumnIndex(df.columns, key).value, k);
  }

  /** `load_and_group`, the reading of the file aside: one pass over the
      rows that appends each row to the group of its key. */
  method LoadAndGroup(df: Frame, key: string) returns (r: Result<map<Value, seq<seq<Value>>>>)
    requires WellFormedFrame(df)
    ensures r == Grouped(df, key)
  {
    var col := ColumnIndex(df.columns, key);
    if col.None? {
      return Err("KeyError: " + key);
    }
    var c := col.value;
    var groups: map<Value, seq<seq<Value>>> := map[];
    var i := 0;
    while i < |df.rows|
      invariant 0 <= i <= |df.rows|
      invariant groups == GroupFold(df.rows, c, i)
    {
      var k := df.rows[i][c];
      if !k.NaN? {
        var g: seq<seq<Value>> := [];
        if k in groups {
          g := groups[k];
        }
        groups := groups[k := g + [df.rows[i]]];
      }
      i := i + 1;
    }
    GroupFoldIsGroupsOf(df.rows, c, |df.rows|);
    GroupsOfGrouped(groups, df, key, c);
    return Ok(groups);
  }

  /** The groups after the first `i` rows of the pass, row by row. */
  function GroupFold(rows: seq<seq<Value>>, c: nat, i: nat): map<Value, seq<seq<Value>>>
    requires i <= |rows| && forall r :: 0 <= r < |rows| ==> c < |rows[r]|
  {
    if i == 0 then map[]
    else
      var m := GroupFold(rows, c, i - 1);
      var k := rows[i - 1][c];
      if k.NaN? then m else m[k := (if k in m then m[k] else []) + [rows[i - 1]]]
  }

  lemma {:induction false} GroupFoldIsGroupsOf(rows: seq<seq<Value>>, c: nat, i: nat)
    requires i <= |rows| && forall r :: 0 <= r < |rows| ==> c < |rows[r]|
    ensures GroupsOf(GroupFold(rows, c, i), rows, c, i)
    decreases i
  {
    if i > 0 {
      GroupFoldIsGroupsOf(rows, c, i - 1);
      GroupsStep(GroupFold(rows, c, i - 1), GroupFold(rows, c, i), rows, c, i - 1);
    }
  }

  /** `groups` holds the groups of the first `i` rows. */
  predicate GroupsOf(groups: map<Value, seq<seq<Value>>>, rows: seq<seq<Value>>, c: nat, i: nat)
    requires i <= |rows| && forall r :: 0 <= r < |rows| ==> c < |rows[r]|
  {
    && groups.Keys == set k | k in (set r | 0 <= r < i :: rows[r][c]) && !k.NaN?
    && forall k :: k in groups ==> groups[k] == RowsWithKey(rows[..i], c, k)
  }

  lemma GroupsStep(groups: map<Value, seq<seq<Value>>>, groups': map<Value, seq<seq<Value>>>, rows: seq<seq<Value>>, c: nat, i: nat)
    requires i < |rows| && forall r :: 0 <= r < |rows| ==> c < |rows[r]|
    requires GroupsOf(groups, rows, c, i)
    requires groups' == if rows[i][c].NaN? then groups
      else groups[rows[i][c] := (if rows[i][c] in groups then groups[rows[i][c]] else []) + [rows[i]]]
    ensures GroupsOf(groups', rows, c, i + 1)
  {
    var k := rows[i][c];
    assert rows[..i + 1][..i] == rows[..i];
    assert (set r | 0 <= r < i + 1 :: rows[r][c]) == (set r | 0 <= r < i :: rows[r][c]) + {k};
    if !k.NaN? && k !in groups {
      NoRowsWithoutKey(rows[..i], c, k);
    }
    forall k' | k' in groups'
      ensures groups'[k'] == RowsWithKey(rows[..i + 1], c, k')
    {
    }
  }

  lemma GroupsOfGrouped(groups: map<Value, seq<seq<Value>>>, df: Frame, key: string, c: nat)
    requires WellFormedFrame(df) && ColumnIndex(df.columns, key) == Some(c)
    requires GroupsOf(groups, df.rows, c, |df.rows|)
    ensures Grouped(df, key) == Ok(groups)
  {
    assert df.rows[..|df.rows|] == df.rows;
    var spec := map k | k in (set r | 0 <= r < |df.rows| :: df.rows[r][c]) && !k.NaN? :: RowsWithKey(df.rows, c, k);
    assert Grouped(df, key) == Ok(spec);
    assert groups.Keys == spec.Keys;
    forall k | k in groups
      ensures groups[k] == spec[k]
    {
    }
    assert groups == spec;
  }

  lemma {:induction false} NoRowsWithoutKey(rows: seq<seq<Value>>, c: nat, k: Value)
    requires forall r :: 0 <= r < |rows| ==> c < |rows[r]|
    requires forall r :: 0 <= r < |rows| ==> rows[r][c] != k
    ensures RowsWithKey(rows, c, k) == []
    decreases |rows|
  {
    if rows != [] {
      NoRowsWithoutKey(rows[..|rows| - 1], c, k);
    }
  }
}

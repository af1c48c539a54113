/** Input side of the monthly report generator: reading a value out of a
    data row, choosing a reader from a file's extension, and recognising
    the three input files in a directory listing. */
module OasisInputs {
  import opened Values
  import opened Text

  /** One data row: column name to value. */
  type Row = map<string, Value>

  /** `get_value`: the row's value for `column`, or `default` when the
      column is absent or the value is NaN. */
  function GetValue(row: Row, column: string, default: Option<Value>): (v: Option<Value>)
    ensures column !in row ==> v == default
    ensures column in row && row[column].NaN? ==> v == default
    ensures column in row && !row[column].NaN? ==> v == Some(row[column])
  {
    if column !in row then default
    else if row[column].NaN? then default
    else Some(row[column])
  }

  /** A NaN never reaches the sheet: the result is the default or a
      present, non-NaN value of the row. */
  lemma GetValueNeverNaN(row: Row, column: string, default: Option<Value>)
    requires default != Some(NaN)
    ensures GetValue(row, column, default) != Some(NaN)
    ensures GetValue(row, column, default) == default
         || (column in row && GetValue(row, column, default) == Some(row[column]))
  {
  }

  /** Index of the last '.' in `name`, or -1. */
  function LastDot(name: string): (i: int)
    ensures -1 <= i < |name|
    ensures i >= 0 ==> name[i] == '.'
    ensures forall k :: i < k < |name| ==> name[k] != '.'
  {
    if name == [] then -1
    else if name[|name| - 1] == '.' then |name| - 1
    else LastDot(name[..|name| - 1])
  }

  /** `Path.suffix`: from the last '.' on, unless that dot is the first or
      the last character of the name. */
  function Suffix(name: string): string {
    var i := LastDot(name);
    if 0 < i < |name| - 1 then name[i..] else ""
  }

  /** A suffix is empty or a '.' followed by at least one character and no
      further dot, and it ends the name. */
  lemma SuffixShape(name: string)
    ensures var s := Suffix(name);
      s == "" || (|s| >= 2 && s[0] == '.' && EndsWith(name, s) && (forall k :: 0 < k < |s| ==> s[k] != '.'))
  {
    var s := Suffix(name);
    if s != "" {
      var i := LastDot(name);
      assert s == name[i..];
      assert name[|name| - |s|..] == s;
    }
  }

  datatype Format = Csv | Excel

  /** `read_data`'s dispatch on the lower-cased suffix. */
  function ReadFormat(name: string): (r: Result<Format>)
    ensures r == Ok(Csv) <==> Lower(Suffix(name)) == ".csv"
  {
    var s := Lower(Suffix(name));
    if s == ".csv" then Ok(Csv)
    else if s == ".xlsx" || s == ".xls" then Ok(Excel)
    else Err("未対応のファイル形式: " + s)
  }

  /** The extensions the directory scan accepts. */
  predicate Supported(name: string) {
    Lower(Suffix(name)) in [".csv", ".xlsx", ".xls"]
  }

  /** The scan accepts exactly the files the reader can open, and the
      reader fails on every other file. */
  lemma SupportedReadable(name: string)
    ensures Supported(name) <==> ReadFormat(name).Ok?
    ensures Lower(Suffix(name)) == ".xlsx" ==> ReadFormat(name) == Ok(Excel)
    ensures Lower(Suffix(name)) == ".xls" ==> ReadFormat(name) == Ok(Excel)
  {
  }

  datatype Role = Campaign | Discount | Point

  predicate CampaignName(name: string) {
    Contains(name, "商品×割引率") || Contains(Lower(name), "campaign")
  }

  predicate DiscountName(name: string) {
    Contains(name, "割引率一覧") || Contains(Lower(name), "discount")
  }

  predicate PointName(name: string) {
    Contains(name, "ポイント利用") || Contains(Lower(name), "point")
  }

  /** The role a file plays in `find_input_files`: the first of the
      campaign, discount and point tests that matches, for a supported
      extension only. */
  function RoleOf(name: string): (r: Option<Role>)
    ensures r.Some? ==> Supported(name)
  {
    if !Supported(name) then None
    else if CampaignName(name) then Some(Campaign)
    else if DiscountName(name) then Some(Discount)
    else if PointName(name) then Some(Point)
    else None
  }

  /** The tests are tried in the order campaign, discount, point: a file
      gets the first role whose test it passes, and none if it passes no
      test or has an unsupported extension. */
  lemma RoleOfSpec(name: string)
    ensures RoleOf(name) == Some(Campaign) <==> Supported(name) && CampaignName(name)
    ensures RoleOf(name) == Some(Discount) <==> Supported(name) && !CampaignName(name) && DiscountName(name)
    ensures RoleOf(name) == Some(Point) <==> Supported(name) && !CampaignName(name) && !DiscountName(name) && PointName(name)
    ensures RoleOf(name) == None <==> !Supported(name) || (!CampaignName(name) && !DiscountName(name) && !PointName(name))
  {
  }

  /** The files chosen for each role. */
  datatype InputFiles = InputFiles(campaign: Option<string>, discount: Option<string>, point: Option<string>)

  function Slot(files: InputFiles, role: Role): Option<string> {
    match role
    case Campaign => files.campaign
    case Discount => files.discount
    case Point => files.point
  }

  /** The role of every name of a listing, in order. */
  function Tags(names: seq<string>): (tags: seq<Option<Role>>)
    ensures |tags| == |names|
    ensures forall i :: 0 <= i < |names| ==> tags[i] == RoleOf(names[i])
  {
    seq(|names|, i requires 0 <= i < |names| => RoleOf(names[i]))
  }

  lemma TagsAppend(a: seq<string>, b: seq<string>)
    ensures Tags(a + b) == Tags(a) + Tags(b)
  {
  }

  /** The last name whose tag is `role`. */
  function LastTagged(names: seq<string>, tags: seq<Option<Role>>, role: Role): Option<string>
    requires |tags| == |names|
  {
    if names == [] then None
    else if tags[|tags| - 1] == Some(role) then Some(names[|names| - 1])
    else LastTagged(names[..|names| - 1], tags[..|tags| - 1], role)
  }

  /** The last name of the listing that plays `role`. */
  function LastWithRole(names: seq<string>, role: Role): Option<string> {
    LastTagged(names, Tags(names), role)
  }

  /** What the scan of a listing yields. */
  function Found(names: seq<string>): (files: InputFiles) {
    InputFiles(LastWithRole(names, Campaign), LastWithRole(names, Discount), LastWithRole(names, Point))
  }

  lemma {:induction false} LastTaggedSpec(names: seq<string>, tags: seq<Option<Role>>, role: Role)
    requires |tags| == |names|
    ensures LastTagged(names, tags, role) == None <==> forall i :: 0 <= i < |names| ==> tags[i] != Some(role)
    ensures LastTagged(names, tags, role).Some? ==>
      exists i :: 0 <= i < |names| && names[i] == LastTagged(names, tags, role).value && tags[i] == Some(role)
        && forall j :: i < j < |names| ==> tags[j] != Some(role)
  {
    if names != [] {
      var init, initTags := names[..|names| - 1], tags[..|tags| - 1];
      LastTaggedSpec(init, initTags, role);
      if tags[|tags| - 1] != Some(role) {
        assert forall i :: 0 <= i < |init| ==> init[i] == names[i] && initTags[i] == tags[i];
        if LastTagged(names, tags, role).Some? {
          var i :| 0 <= i < |init| && init[i] == LastTagged(init, initTags, role).value && initTags[i] == Some(role)
            && forall j :: i < j < |init| ==> initTags[j] != Some(role);
          assert names[i] == LastTagged(names, tags, role).value;
        }
      }
    }
  }

  /** A role is left empty exactly when no listed file plays it; otherwise
      it holds a file playing it that no later file of that role follows. */
  lemma LastWithRoleSpec(names: seq<string>, role: Role)
    ensures LastWithRole(names, role) == None <==> forall i :: 0 <= i < |names| ==> RoleOf(names[i]) != Some(role)
    ensures LastWithRole(names, role).Some? ==>
      exists i :: 0 <= i < |names| && names[i] == LastWithRole(names, role).value && RoleOf(names[i]) == Some(role)
        && forall j :: i < j < |names| ==> RoleOf(names[j]) != Some(role)
  {
    LastTaggedSpec(names, Tags(names), role);
  }

  /** Each chosen file plays its slot's role, so no file fills two slots
      and an unsupported file fills none. */
  lemma FoundRoles(names: seq<string>, role: Role)
    ensures Slot(Found(names), role).Some? ==> RoleOf(Slot(Found(names), role).value) == Some(role)
    ensures Slot(Found(names), role).Some? ==> Supported(Slot(Found(names), role).value)
    ensures Slot(Found(names), role).Some? ==> Slot(Found(names), role).value in names
  {
    LastWithRoleSpec(names, role);
  }

  /** A file whose name matches the campaign test is never the discount or
      point file, even if it also mentions "discount" or "point". */
  lemma CampaignWins(names: seq<string>, name: string)
    requires CampaignName(name)
    ensures Found(names).discount != Some(name) && Found(names).point != Some(name)
  {
    FoundRoles(names, Discount);
    FoundRoles(names, Point);
    RoleOfSpec(name);
  }

  lemma {:induction false} IgnoredTagged(before: seq<string>, name: string, after: seq<string>,
                                         tb: seq<Option<Role>>, t: Option<Role>, ta: seq<Option<Role>>, role: Role)
    requires |tb| == |before| && |ta| == |after| && t != Some(role)
    ensures LastTagged(before + [name] + after, tb + [t] + ta, role) == LastTagged(before + after, tb + ta, role)
  {
    if after == [] {
      assert (before + [name] + after)[..|before + [name] + after| - 1] == before;
      assert (tb + [t] + ta)[..|tb + [t] + ta| - 1] == tb;
      assert before + after == before && tb + ta == tb;
    } else {
      var a, at := after[..|after| - 1], ta[..|ta| - 1];
      IgnoredTagged(before, name, a, tb, t, at, role);
      assert (before + [name] + after)[..|before + [name] + after| - 1] == before + [name] + a;
      assert (tb + [t] + ta)[..|tb + [t] + ta| - 1] == tb + [t] + at;
      assert (before + after)[..|before + after| - 1] == before + a;
      assert (tb + ta)[..|tb + ta| - 1] == tb + at;
    }
  }

  /** Inserting a file of unsupported extension anywhere in the listing
      changes nothing. */
  lemma UnsupportedIgnored(before: seq<string>, name: string, after: seq<string>)
    requires !Supported(name)
    ensures Found(before + [name] + after) == Found(before + after)
  {
    TagsAppend(before + [name], after);
    TagsAppend(before, [name]);
    TagsAppend(before, after);
    var tb, ta := Tags(before), Tags(after);
    assert Tags([name]) == [RoleOf(name)];
    assert Tags(before + [name] + after) == tb + [RoleOf(name)] + ta;
    IgnoredTagged(before, name, after, tb, RoleOf(name), ta, Campaign);
    IgnoredTagged(before, name, after, tb, RoleOf(name), ta, Discount);
    IgnoredTagged(before, name, after, tb, RoleOf(name), ta, Point);
  }

  /** A file appended to the listing takes over its role. */
  lemma LaterOverwrites(names: seq<string>, name: string, role: Role)
    requires RoleOf(name) == Some(role)
    ensures Slot(Found(names + [name]), role) == Some(name)
    ensures forall other: Role :: other != role ==> Slot(Found(names + [name]), other) == Slot(Found(names), other)
  {
    TagsAppend(names, [name]);
    assert (names + [name])[..|names + [name]| - 1] == names;
  }

  /** One more listed file: the slot of its role, if it has one, takes it. */
  lemma FoundStep(names: seq<string>, name: string)
    ensures !Supported(name) ==> Found(names + [name]) == Found(names)
    ensures Supported(name) && CampaignName(name) ==> Found(names + [name]) == Found(names).(campaign := Some(name))
    ensures Supported(name) && !CampaignName(name) && DiscountName(name) ==>
      Found(names + [name]) == Found(names).(discount := Some(name))
    ensures Supported(name) && !CampaignName(name) && !DiscountName(name) && PointName(name) ==>
      Found(names + [name]) == Found(names).(point := Some(name))
    ensures Supported(name) && !CampaignName(name) && !DiscountName(name) && !PointName(name) ==>
      Found(names + [name]) == Found(names)
  {
    RoleOfSpec(name);
    var all := names + [name];
    TagsAppend(names, [name]);
    assert Tags(all) == Tags(names) + [RoleOf(name)];
    assert all[..|names|] == names;
    assert (Tags(names) + [RoleOf(name)])[..|names|] == Tags(names);
  }

  /** `find_input_files` over a directory listing in the order the scan
      visits it. */
  method FindInputFiles(listing: seq<string>) returns (files: InputFiles)
    ensures files == Found(listing)
  {
    files := InputFiles(None, None, None);
    var k := 0;
    while k < |listing|
      invariant 0 <= k <= |listing|
      invariant files == Found(listing[..k])
    {
      var name := listing[k];
      assert listing[..k + 1] == listing[..k] + [name];
      FoundStep(listing[..k], name);
      if Lower(Suffix(name)) !in [".csv", ".xlsx", ".xls"] {
        k := k + 1;
        continue;
      }
      if CampaignName(name) {
        files := files.(campaign := Some(name));
      } else if DiscountName(name) {
        files := files.(discount := Some(name));
      } else if PointName(name) {
        files := files.(point := Some(name));
      }
      k := k + 1;
    }
    assert listing[..k] == listing;
  }

  /** The file `main` uses for a role: the command-line path when one is
      given, otherwise the scanned one. */
  function Chosen(argument: Option<string>, detected: Option<string>): (f: Option<string>)
    ensures argument.Some? ==> f == argument
    ensures argument.None? ==> f == detected
  {
    if argument.Some? then argument else detected
  }

  /** Which reports `main` attempts: the campaign report needs both the
      campaign and the discount file, the point report the point file. */
  datatype Plan = Plan(campaignReport: bool, pointReport: bool)

  function PlanFor(arguments: InputFiles, detected: InputFiles): (p: Plan)
    ensures p.campaignReport <==> Chosen(arguments.campaign, detected.campaign).Some? && Chosen(arguments.discount, detected.discount).Some?
    ensures p.pointReport <==> (arguments.point.Some? || detected.point.Some?)
  {
    Plan(Chosen(arguments.campaign, detected.campaign).Some? && Chosen(arguments.discount, detected.discount).Some?,
         Chosen(arguments.point, detected.point).Some?)
  }

  /** Some listed file plays `role`. */
  predicate Plays(names: seq<string>, role: Role) {
    exists i :: 0 <= i < |names| && RoleOf(names[i]) == Some(role)
  }

  /** With no paths on the command line, the campaign report is attempted
      exactly when the input folder holds a campaign file and a discount
      file, and the point report exactly when it holds a point file. */
  lemma PlanWithoutArguments(listing: seq<string>)
    ensures var p := PlanFor(InputFiles(None, None, None), Found(listing));
      && (p.campaignReport <==> Plays(listing, Campaign) && Plays(listing, Discount))
      && (p.pointReport <==> Plays(listing, Point))
  {
    LastWithRoleSpec(listing, Campaign);
    LastWithRoleSpec(listing, Discount);
    LastWithRoleSpec(listing, Point);
  }

  /** With no paths on the command line, a listing whose only supported
      file mentions "campaign" yields no report at all, the case `main`
      ends with exit status 1. */
  lemma CampaignAloneIsNotEnough(name: string)
    requires RoleOf(name) == Some(Campaign)
    ensures PlanFor(InputFiles(None, None, None), Found([name])) == Plan(false, false)
  {
    assert [name][..0] == [];
    assert Tags([name]) == [RoleOf(name)];
    assert Tags([name])[..0] == [];
    assert LastTagged([], [], Discount) == None && LastTagged([], [], Point) == None;
    assert LastWithRole([name], Discount) == None;
    assert LastWithRole([name], Point) == None;
  }
}

/** `_detect_shapes`: finding the template's shapes by their content,
    kind and position rather than by index.

    A slide is the sequence of its shapes in z-order; the result maps each
    detected role to the index of its shape (None when a picture lookup
    found nothing). */
module ShapeDetect {
  import opened Values
  import opened Text
  import opened Sorting

  /** What python-pptx reports about a shape: a table, a picture, a shape
      with a text frame, or anything else (connector, chart, group). */
  datatype Kind = TableKind | PictureKind | TextKind | OtherKind

  datatype ShapeRecord = ShapeRecord(kind: Kind, text: string, top: int, left: int, width: int)

  datatype Role =
    | Table | Title | Period | RegUsers | Mau | Distribution | TopTicketsLabel
    | PurchaseChartLabel | LoginChartLabel | BrandChartLabel | EmptyText
    | LoginChartImage | PurchaseChartImage | BrandChartImage1 | BrandChartImage2

  /** Roles given to a shape by its own kind and text. */
  predicate IsShapeRole(r: Role) {
    !(r.LoginChartImage? || r.PurchaseChartImage? || r.BrandChartImage1? || r.BrandChartImage2?)
  }

  /** The rule table for text shapes, first match first; a blank text to the
      right of the slide's first shape is the empty placeholder. */
  function TextRole(t: string, left: int, firstLeft: int): (r: Option<Role>)
    ensures r.Some? ==> IsShapeRole(r.value) && !r.value.Table?
  {
    if Contains(t, "ご報告資料") then Some(Title)
    else if Contains(t, "期間") && Contains(t, "yyyy") then Some(Period)
    else if Contains(t, "初回登録ユーザー数") then Some(RegUsers)
    else if Contains(t, "MAU") then Some(Mau)
    else if Contains(t, "流通総額") || Contains(t, "総購入金額") then Some(Distribution)
    else if Contains(t, "購入上位") || Contains(t, "TOP10") then Some(TopTicketsLabel)
    else if Contains(t, "購入数推移") then Some(PurchaseChartLabel)
    else if Contains(t, "ログインユーザー数推移") then Some(LoginChartLabel)
    else if Contains(t, "ブランド") then Some(BrandChartLabel)
    else if IsBlank(t) && left > firstLeft then Some(EmptyText)
    else None
  }

  /** The role a shape claims in the first pass; pictures are collected
      separately and claim none. */
  function ShapeRole(s: ShapeRecord, firstLeft: int): (r: Option<Role>)
    ensures s.kind == TableKind <==> r == Some(Table)
    ensures s.kind == PictureKind || s.kind == OtherKind ==> r == None
    ensures r.Some? ==> IsShapeRole(r.value)
  {
    match s.kind
    case TableKind => Some(Table)
    case PictureKind => None
    case TextKind => TextRole(s.text, s.left, firstLeft)
    case OtherKind => None
  }

  /** The roles claimed by the first `n` shapes: a later shape overwrites an
      earlier one with the same role. */
  function Claimed(shapes: seq<ShapeRecord>, n: nat): (m: map<Role, nat>)
    requires 0 < n <= |shapes|  || n == 0
    ensures forall r :: r in m ==> m[r] < n && ShapeRole(shapes[m[r]], shapes[0].left) == Some(r)
    decreases n
  {
    if n == 0 then map[]
    else
      var m := Claimed(shapes, n - 1);
      match ShapeRole(shapes[n - 1], shapes[0].left)
      case Some(r) => m[r := n - 1]
      case None => m
  }

  /** The role each shape claims, in z-order. */
  function RoleTags(shapes: seq<ShapeRecord>): (tags: seq<Option<Role>>)
    requires shapes != []
    ensures |tags| == |shapes|
    ensures forall i :: 0 <= i < |shapes| ==> tags[i] == ShapeRole(shapes[i], shapes[0].left)
  {
    seq(|shapes|, i requires 0 <= i < |shapes| => ShapeRole(shapes[i], shapes[0].left))
  }

  /** `Claimed` over the tags alone: the last index carrying each role. */
  function ClaimedTags(tags: seq<Option<Role>>, n: nat): map<Role, nat>
    requires n <= |tags|
    decreases n
  {
    if n == 0 then map[]
    else
      var m := ClaimedTags(tags, n - 1);
      if tags[n - 1].Some? then m[tags[n - 1].value := n - 1] else m
  }

  lemma {:induction false} ClaimedIsTagged(shapes: seq<ShapeRecord>, n: nat)
    requires 0 < n <= |shapes|
    ensures Claimed(shapes, n) == ClaimedTags(RoleTags(shapes), n)
    decreases n
  {
    if n > 1 {
      ClaimedIsTagged(shapes, n - 1);
    }
  }

  lemma {:induction false} ClaimedTagsLastWins(tags: seq<Option<Role>>, n: nat, r: Role)
    requires n <= |tags|
    ensures r in ClaimedTags(tags, n) <==> exists i :: 0 <= i < n && tags[i] == Some(r)
    ensures r in ClaimedTags(tags, n) ==>
      var k := ClaimedTags(tags, n)[r];
      k < n && tags[k] == Some(r) && forall j :: k < j < n ==> tags[j] != Some(r)
    decreases n
  {
    if n > 0 {
      ClaimedTagsLastWins(tags, n - 1, r);
    }
  }

  /** A role is claimed exactly when some shape has it, and it then names the
      last such shape. */
  lemma ClaimedLastWins(shapes: seq<ShapeRecord>, n: nat, r: Role)
    requires 0 < n <= |shapes|
    ensures r in Claimed(shapes, n) <==> exists i :: 0 <= i < n && ShapeRole(shapes[i], shapes[0].left) == Some(r)
    ensures r in Claimed(shapes, n) ==>
      forall j :: Claimed(shapes, n)[r] < j < n ==> ShapeRole(shapes[j], shapes[0].left) != Some(r)
  {
    var tags := RoleTags(shapes);
    ClaimedIsTagged(shapes, n);
    ClaimedTagsLastWins(tags, n, r);
  }

  /** Indices of the pictures among the first `n` shapes, in order. */
  function Pictures(shapes: seq<ShapeRecord>, n: nat): (p: seq<nat>)
    requires n <= |shapes|
    ensures forall k :: 0 <= k < |p| ==> p[k] < n && shapes[p[k]].kind == PictureKind
    ensures forall i :: 0 <= i < n && shapes[i].kind == PictureKind ==> i in p
    decreases n
  {
    if n == 0 then []
    else Pictures(shapes, n - 1) + (if shapes[n - 1].kind == PictureKind then [n - 1] else [])
  }

  /** `_find_picture_below`: among the pictures `pics`, the one whose top
      lies strictly below `labelTop` by the smallest distance, the first one
      met winning a tie (see NearestBelowSpec). */
  function NearestBelow(shapes: seq<ShapeRecord>, pics: seq<nat>, labelTop: int): (b: Option<nat>)
    requires forall k :: 0 <= k < |pics| ==> pics[k] < |shapes|
    ensures b.Some? ==> b.value < |shapes|
    decreases |pics|
  {
    if pics == [] then None
    else
      var best := NearestBelow(shapes, pics[..|pics| - 1], labelTop);
      var p := pics[|pics| - 1];
      if shapes[p].top > labelTop && (best.None? || shapes[p].top - labelTop < shapes[best.value].top - labelTop) then Some(p)
      else best
  }

  /** The picture found lies strictly below the label, no picture below the
      label is nearer, every earlier one is farther; there is none only when
      no picture lies below the label. */
  lemma {:induction false} NearestBelowSpec(shapes: seq<ShapeRecord>, pics: seq<nat>, labelTop: int) returns (k: nat)
    requires forall k :: 0 <= k < |pics| ==> pics[k] < |shapes|
    ensures var b := NearestBelow(shapes, pics, labelTop);
      && (b.None? <==> forall q :: 0 <= q < |pics| ==> shapes[pics[q]].top <= labelTop)
      && (b.Some? ==>
            && k < |pics| && pics[k] == b.value
            && shapes[b.value].top > labelTop
            && (forall q :: 0 <= q < |pics| && shapes[pics[q]].top > labelTop ==> shapes[b.value].top <= shapes[pics[q]].top)
            && (forall q :: 0 <= q < k && shapes[pics[q]].top > labelTop ==> shapes[b.value].top < shapes[pics[q]].top))
    decreases |pics|
  {
    if pics == [] {
      return 0;
    }
    var init := pics[..|pics| - 1];
    var p := pics[|pics| - 1];
    var best := NearestBelow(shapes, init, labelTop);
    var j := NearestBelowSpec(shapes, init, labelTop);
    assert forall q :: 0 <= q < |init| ==> init[q] == pics[q];
    if shapes[p].top > labelTop && (best.None? || shapes[p].top - labelTop < shapes[best.value].top - labelTop) {
      assert NearestBelow(shapes, pics, labelTop) == Some(p);
      k := |pics| - 1;
    } else {
      assert NearestBelow(shapes, pics, labelTop) == best;
      k := j;
    }
  }

  /** The label lookup: no label, no picture. */
  function PictureBelow(shapes: seq<ShapeRecord>, pics: seq<nat>, claimed: map<Role, nat>, labelRole: Role): Option<nat>
    requires forall k :: 0 <= k < |pics| ==> pics[k] < |shapes|
    requires forall r :: r in claimed ==> claimed[r] < |shapes|
  {
    if labelRole in claimed then NearestBelow(shapes, pics, shapes[claimed[labelRole]].top) else None
  }

  /** The brand-chart candidates: pictures below the brand label other than
      the two chart images, as (index, width) pairs in z-order. */
  function BrandCandidates(shapes: seq<ShapeRecord>, pics: seq<nat>, labelTop: int, login: Option<nat>, purchase: Option<nat>): (c: seq<(nat, int)>)
    requires forall k :: 0 <= k < |pics| ==> pics[k] < |shapes|
    ensures forall k :: 0 <= k < |c| ==>
      (c[k].0 in pics && shapes[c[k].0].top > labelTop && Some(c[k].0) != login && Some(c[k].0) != purchase && c[k].1 == shapes[c[k].0].width)
    decreases |pics|
  {
    if pics == [] then []
    else
      var p := pics[|pics| - 1];
      var rest := BrandCandidates(shapes, pics[..|pics| - 1], labelTop, login, purchase);
      if shapes[p].top > labelTop && Some(p) != login && Some(p) != purchase then rest + [(p, shapes[p].width)] else rest
  }

  /** `sort(key=width, reverse=True)`: widest first, ties in their order. */
  function WidestFirst(c: seq<(nat, int)>): (r: seq<(nat, int)>)
    ensures |r| == |c|
  {
    var r := SortBy(c, (p: (nat, int)) => -p.1);
    assert |multiset(r)| == |multiset(c)|;
    r
  }

  /** The intermediate results of detection: the claimed shape roles, the
      pictures, the two chart images and the brand candidates. */
  datatype Found = Found(claimed: map<Role, nat>, pics: seq<nat>, login: Option<nat>, purchase: Option<nat>, brand: seq<(nat, int)>)

  function Analyse(shapes: seq<ShapeRecord>): (f: Found)
    requires shapes != []
    ensures forall r :: r in f.claimed ==> f.claimed[r] < |shapes|
    ensures ShapeRolesOnly(f)
  {
    var claimed := Claimed(shapes, |shapes|);
    var pics := Pictures(shapes, |shapes|);
    var login := PictureBelow(shapes, pics, claimed, LoginChartLabel);
    var purchase := PictureBelow(shapes, pics, claimed, PurchaseChartLabel);
    var brand := if BrandChartLabel in claimed
      then BrandCandidates(shapes, pics, shapes[claimed[BrandChartLabel]].top, login, purchase) else [];
    Found(claimed, pics, login, purchase, brand)
  }

  /** Intermediate results whose claimed roles are all shape roles. */
  predicate ShapeRolesOnly(f: Found) {
    forall r :: r in f.claimed ==> IsShapeRole(r)
  }

  /** The claimed roles with the two chart images added. */
  function BaseRefs(f: Found): map<Role, Option<nat>> {
    (map r | r in f.claimed :: Some(f.claimed[r]))[LoginChartImage := f.login][PurchaseChartImage := f.purchase]
  }

  /** The first two of the sorted brand pictures, as the two brand images. */
  function WithBrandImages(refs: map<Role, Option<nat>>, sorted: seq<(nat, int)>): map<Role, Option<nat>> {
    var one := if |sorted| >= 1 then refs[BrandChartImage1 := Some(sorted[0].0)] else refs;
    if |sorted| >= 2 then one[BrandChartImage2 := Some(sorted[1].0)] else one
  }

  /** The `refs` dict built from the intermediate results. */
  function Assemble(f: Found): map<Role, Option<nat>> {
    if BrandChartLabel in f.claimed then WithBrandImages(BaseRefs(f), WidestFirst(f.brand)) else BaseRefs(f)
  }

  /** Everything `_detect_shapes` returns. */
  function Detected(shapes: seq<ShapeRecord>): map<Role, Option<nat>> {
    if shapes == [] then map[LoginChartImage := None, PurchaseChartImage := None]
    else Assemble(Analyse(shapes))
  }

  lemma AssembleShapeRole(f: Found, r: Role)
    requires IsShapeRole(r)
    ensures r in Assemble(f) <==> r in f.claimed
    ensures r in f.claimed ==> Assemble(f)[r] == Some(f.claimed[r])
  {
    assert r != LoginChartImage && r != PurchaseChartImage && r != BrandChartImage1 && r != BrandChartImage2;
    BaseRefsShapeRole(f, r);
    if BrandChartLabel in f.claimed {
      WithBrandImagesKeeps(BaseRefs(f), WidestFirst(f.brand), r);
    }
  }

  lemma BaseRefsShapeRole(f: Found, r: Role)
    requires IsShapeRole(r)
    ensures r in BaseRefs(f) <==> r in f.claimed
    ensures r in f.claimed ==> BaseRefs(f)[r] == Some(f.claimed[r])
  {
    assert r != LoginChartImage && r != PurchaseChartImage;
  }

  lemma WithBrandImagesKeeps(refs: map<Role, Option<nat>>, sorted: seq<(nat, int)>, r: Role)
    requires r != BrandChartImage1 && r != BrandChartImage2
    ensures r in WithBrandImages(refs, sorted) <==> r in refs
    ensures r in refs ==> WithBrandImages(refs, sorted)[r] == refs[r]
  {
  }

  lemma AssembleImages(f: Found)
    requires ShapeRolesOnly(f)
    ensures var d := Assemble(f);
      && LoginChartImage in d && d[LoginChartImage] == f.login
      && PurchaseChartImage in d && d[PurchaseChartImage] == f.purchase
      && (BrandChartImage1 in d <==> BrandChartLabel in f.claimed && |f.brand| >= 1)
      && (BrandChartImage2 in d <==> BrandChartLabel in f.claimed && |f.brand| >= 2)
      && (BrandChartImage1 in d ==> d[BrandChartImage1] == Some(WidestFirst(f.brand)[0].0))
      && (BrandChartImage2 in d ==> d[BrandChartImage2] == Some(WidestFirst(f.brand)[1].0))
  {
    assert BrandChartImage1 !in f.claimed && BrandChartImage2 !in f.claimed;
  }

  // ---------------------------------------------------------------------
  // What detection promises

  /** Every shape role is held by the last shape that claims it, tables
      included; pictures never hold one. */
  lemma DetectedShapeRoles(shapes: seq<ShapeRecord>, r: Role)
    requires shapes != [] && IsShapeRole(r)
    ensures r in Detected(shapes) <==> exists i :: 0 <= i < |shapes| && ShapeRole(shapes[i], shapes[0].left) == Some(r)
    ensures r in Detected(shapes) ==>
      var i := Detected(shapes)[r];
      && i.Some? && i.value < |shapes|
      && shapes[i.value].kind != PictureKind
      && ShapeRole(shapes[i.value], shapes[0].left) == Some(r)
      && (r == Table <==> shapes[i.value].kind == TableKind)
      && (forall j :: i.value < j < |shapes| ==> ShapeRole(shapes[j], shapes[0].left) != Some(r))
  {
    var f := Analyse(shapes);
    AssembleShapeRole(f, r);
    ClaimedLastWins(shapes, |shapes|, r);
  }

  /** The chart images are the pictures nearest below their labels, or None
      without a label. */
  lemma DetectedChartImages(shapes: seq<ShapeRecord>)
    requires shapes != []
    ensures var d := Detected(shapes);
      var claimed := Claimed(shapes, |shapes|);
      var pics := Pictures(shapes, |shapes|);
      && LoginChartImage in d && PurchaseChartImage in d
      && (LoginChartLabel !in claimed ==> d[LoginChartImage] == None)
      && (PurchaseChartLabel !in claimed ==> d[PurchaseChartImage] == None)
      && (LoginChartLabel in claimed ==> d[LoginChartImage] == NearestBelow(shapes, pics, shapes[claimed[LoginChartLabel]].top))
      && (PurchaseChartLabel in claimed ==> d[PurchaseChartImage] == NearestBelow(shapes, pics, shapes[claimed[PurchaseChartLabel]].top))
      && (d[LoginChartImage].Some? ==> shapes[d[LoginChartImage].value].kind == PictureKind)
      && (d[PurchaseChartImage].Some? ==> shapes[d[PurchaseChartImage].value].kind == PictureKind)
  {
    var f := Analyse(shapes);
    AssembleImages(f);
    var claimed := Claimed(shapes, |shapes|);
    var pics := Pictures(shapes, |shapes|);
    if LoginChartLabel in claimed {
      var _ := NearestBelowSpec(shapes, pics, shapes[claimed[LoginChartLabel]].top);
    }
    if PurchaseChartLabel in claimed {
      var _ := NearestBelowSpec(shapes, pics, shapes[claimed[PurchaseChartLabel]].top);
    }
  }

  /** Widest first: the first of the sorted candidates is the widest one,
      the first such in z-order among equals; the second is no wider. */
  lemma WidestFirstHead(c: seq<(nat, int)>)
    ensures |c| >= 1 ==>
      exists k :: (0 <= k < |c| && WidestFirst(c)[0] == c[k] &&
        (forall q :: 0 <= q < |c| ==> c[q].1 <= c[k].1) &&
        (forall q :: 0 <= q < k ==> c[q].1 < c[k].1))
    ensures |c| >= 2 ==> WidestFirst(c)[1] in c && WidestFirst(c)[1].1 <= WidestFirst(c)[0].1
  {
    var key := (p: (nat, int)) => -p.1;
    var brand := WidestFirst(c);
    assert brand == SortBy(c, key);
    if |c| >= 1 {
      var i := SortHeadIsFirstSmallest(c, key);
    }
    if |c| >= 2 {
      SortBySorted(c, key);
      assert key(brand[0]) <= key(brand[1]);
      assert brand[1] in multiset(c);
    }
  }

  /** The brand images are the first two of the candidates sorted widest
      first, present as far as there are candidates; each is a picture below
      the brand label and neither chart image. */
  lemma DetectedBrandImages(shapes: seq<ShapeRecord>)
    requires shapes != [] && BrandChartLabel in Claimed(shapes, |shapes|)
    ensures var d := Detected(shapes);
      var claimed := Claimed(shapes, |shapes|);
      var pics := Pictures(shapes, |shapes|);
      var c := BrandCandidates(shapes, pics, shapes[claimed[BrandChartLabel]].top, d[LoginChartImage], d[PurchaseChartImage]);
      && (BrandChartImage1 in d <==> |c| >= 1)
      && (BrandChartImage2 in d <==> |c| >= 2)
      && (BrandChartImage1 in d ==> d[BrandChartImage1] == Some(WidestFirst(c)[0].0))
      && (BrandChartImage2 in d ==> d[BrandChartImage2] == Some(WidestFirst(c)[1].0))
  {
    var f := Analyse(shapes);
    AssembleImages(f);
  }

  // ---------------------------------------------------------------------
  // The loops

  /** `_find_picture_below` for a label at `labelTop`. */
  method FindPictureBelow(shapes: seq<ShapeRecord>, pics: seq<nat>, labelTop: int) returns (best: Option<nat>)
    requires forall k :: 0 <= k < |pics| ==> pics[k] < |shapes|
    ensures best == NearestBelow(shapes, pics, labelTop)
  {
    best := None;
    var bestDist: Option<int> := None;  // None stands for float("inf")
    var k := 0;
    while k < |pics|
      invariant 0 <= k <= |pics|
      invariant best == NearestBelow(shapes, pics[..k], labelTop)
      invariant bestDist.None? <==> best.None?
      invariant best.Some? ==> best.value < |shapes| && bestDist == Some(shapes[best.value].top - labelTop)
    {
      assert pics[..k + 1][..k] == pics[..k];
      var pic := pics[k];
      if shapes[pic].top > labelTop {
        var dist := shapes[pic].top - labelTop;
        if bestDist.None? || dist < bestDist.value {
          bestDist := Some(dist);
          best := Some(pic);
        }
      }
      k := k + 1;
    }
    assert pics[..k] == pics;
  }

  /** The first loop of `_detect_shapes`: roles claimed by text and table
      shapes, and the pictures in z-order. */
  method ClaimRoles(shapes: seq<ShapeRecord>) returns (claimed: map<Role, nat>, pictures: seq<nat>)
    requires shapes != []
    ensures claimed == Claimed(shapes, |shapes|) && pictures == Pictures(shapes, |shapes|)
  {
    ghost var tags := RoleTags(shapes);
    claimed := map[];
    pictures := [];
    var i := 0;
    while i < |shapes|
      invariant 0 <= i <= |shapes|
      invariant claimed == ClaimedTags(tags, i)
      invariant pictures == Pictures(shapes, i)
    {
      var shape := shapes[i];
      if shape.kind == PictureKind {
        pictures := pictures + [i];
        assert tags[i] == None;
      } else {
        var role := ShapeRole(shape, shapes[0].left);
        assert tags[i] == role;
        if role.Some? {
          claimed := claimed[role.value := i];
        }
      }
      i := i + 1;
    }
    ClaimedIsTagged(shapes, |shapes|);
  }

  /** The brand loop: candidate pictures in z-order. */
  method CollectBrandPictures(shapes: seq<ShapeRecord>, pictures: seq<nat>, labelTop: int, login: Option<nat>, purchase: Option<nat>)
    returns (brandPics: seq<(nat, int)>)
    requires forall k :: 0 <= k < |pictures| ==> pictures[k] < |shapes|
    ensures brandPics == BrandCandidates(shapes, pictures, labelTop, login, purchase)
  {
    brandPics := [];
    var k := 0;
    while k < |pictures|
      invariant 0 <= k <= |pictures|
      invariant brandPics == BrandCandidates(shapes, pictures[..k], labelTop, login, purchase)
    {
      assert pictures[..k + 1][..k] == pictures[..k];
      var pic := pictures[k];
      if shapes[pic].top > labelTop && Some(pic) != login && Some(pic) != purchase {
        brandPics := brandPics + [(pic, shapes[pic].width)];
      }
      k := k + 1;
    }
    assert pictures[..k] == pictures;
  }

  /** The loops of `_detect_shapes`: roles, pictures, chart images and
      brand candidates. */
  method AnalyseShapes(shapes: seq<ShapeRecord>) returns (f: Found)
    requires shapes != []
    ensures f == Analyse(shapes)
  {
    var claimed, pictures := ClaimRoles(shapes);
    var login: Option<nat> := None;
    if LoginChartLabel in claimed {
      login := FindPictureBelow(shapes, pictures, shapes[claimed[LoginChartLabel]].top);
    }
    var purchase: Option<nat> := None;
    if PurchaseChartLabel in claimed {
      purchase := FindPictureBelow(shapes, pictures, shapes[claimed[PurchaseChartLabel]].top);
    }
    var brandPics: seq<(nat, int)> := [];
    if BrandChartLabel in claimed {
      brandPics := CollectBrandPictures(shapes, pictures, shapes[claimed[BrandChartLabel]].top, login, purchase);
    }
    f := Found(claimed, pictures, login, purchase, brandPics);
  }

  /** The entries `_detect_shapes` writes into `refs`. */
  method AssembleRefs(f: Found) returns (refs: map<Role, Option<nat>>)
    ensures refs == Assemble(f)
  {
    refs := map r | r in f.claimed :: Some(f.claimed[r]);
    refs := refs[LoginChartImage := f.login][PurchaseChartImage := f.purchase];
    if BrandChartLabel in f.claimed {
      var sorted := WidestFirst(f.brand);
      if |sorted| >= 1 {
        refs := refs[BrandChartImage1 := Some(sorted[0].0)];
      }
      if |sorted| >= 2 {
        refs := refs[BrandChartImage2 := Some(sorted[1].0)];
      }
    }
  }

  /** `_detect_shapes`. */
  method DetectShapes(shapes: seq<ShapeRecord>) returns (refs: map<Role, Option<nat>>)
    ensures refs == Detected(shapes)
  {
    if shapes == [] {
      return map[LoginChartImage := None, PurchaseChartImage := None];
    }
    var f := AnalyseShapes(shapes);
    refs := AssembleRefs(f);
  }
}

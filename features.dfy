/** Features (terrain patterns in relative coordinates) and the builder that places them. */
module Features {
  import opened Geometry
  import opened Grid

  /** One piece of a feature: a relative location and its terrain. */
  type Component = (Location, Terrain)

  /** `Feature`: an ordered list of components. */
  datatype Feature = Feature(components: seq<Component>)

  datatype HorizontalAlignment = Left | Center | Right
  datatype VerticalAlignment = Top | Center | Bottom

  function Xs(cs: seq<Component>): (r: seq<int>)
    ensures |r| == |cs| && forall i :: 0 <= i < |cs| ==> r[i] == cs[i].0.x
  {
    seq(|cs|, i requires 0 <= i < |cs| => cs[i].0.x)
  }

  function Ys(cs: seq<Component>): (r: seq<int>)
    ensures |r| == |cs| && forall i :: 0 <= i < |cs| ==> r[i] == cs[i].0.y
  {
    seq(|cs|, i requires 0 <= i < |cs| => cs[i].0.y)
  }

  /** The least value of a non-empty sequence (Rust's `Iterator::min().unwrap()`). */
  function MinOf(s: seq<int>): (m: int)
    requires |s| > 0
    ensures forall i :: 0 <= i < |s| ==> m <= s[i]
    ensures exists i :: 0 <= i < |s| && s[i] == m
  {
    if |s| == 1 then s[0]
    else
      var rest := MinOf(s[1..]);
      if s[0] <= rest then s[0] else rest
  }

  /** The greatest value of a non-empty sequence (`Iterator::max().unwrap()`). */
  function MaxOf(s: seq<int>): (m: int)
    requires |s| > 0
    ensures forall i :: 0 <= i < |s| ==> s[i] <= m
    ensures exists i :: 0 <= i < |s| && s[i] == m
  {
    if |s| == 1 then s[0]
    else
      var rest := MaxOf(s[1..]);
      if s[0] >= rest then s[0] else rest
  }

  /** The values at positions `i` and `j` bound all others: they are the minimum and the maximum. */
  lemma MinMaxAt(s: seq<int>, i: nat, j: nat)
    requires i < |s| && j < |s|
    requires forall k :: 0 <= k < |s| ==> s[i] <= s[k] <= s[j]
    ensures MinOf(s) == s[i] && MaxOf(s) == s[j]
  {
  }

  /** Adding the same amount to every value moves the minimum and the maximum by it. */
  lemma ShiftedExtremes(s: seq<int>, t: seq<int>, d: int)
    requires |s| == |t| > 0
    requires forall k :: 0 <= k < |s| ==> t[k] == s[k] + d
    ensures MinOf(t) == MinOf(s) + d && MaxOf(t) == MaxOf(s) + d
  {
    var i :| 0 <= i < |s| && s[i] == MinOf(s);
    var j :| 0 <= j < |s| && s[j] == MaxOf(s);
    assert forall k :: 0 <= k < |s| ==> MinOf(s) <= s[k] <= MaxOf(s);
    MinMaxAt(t, i, j);
  }

  /**
   * `Feature::width`: 0 without components, otherwise max x - min x + 1, that is one more
   * than the largest horizontal distance between two components.
   */
  function Width(f: Feature): (w: int)
    ensures |f.components| == 0 ==> w == 0
    ensures |f.components| > 0 ==> w >= 1
    ensures forall i, j :: 0 <= i < |f.components| && 0 <= j < |f.components| ==>
      f.components[i].0.x - f.components[j].0.x < w
    ensures |f.components| > 0 ==>
      exists i, j :: 0 <= i < |f.components| && 0 <= j < |f.components| &&
        f.components[i].0.x - f.components[j].0.x == w - 1
  {
    if |f.components| == 0 then 0
    else
      var xs := Xs(f.components);
      MaxOf(xs) - MinOf(xs) + 1
  }

  /** `Feature::height`: the same over the y coordinates. */
  function Height(f: Feature): (h: int)
    ensures |f.components| == 0 ==> h == 0
    ensures |f.components| > 0 ==> h >= 1
    ensures forall i, j :: 0 <= i < |f.components| && 0 <= j < |f.components| ==>
      f.components[i].0.y - f.components[j].0.y < h
    ensures |f.components| > 0 ==>
      exists i, j :: 0 <= i < |f.components| && 0 <= j < |f.components| &&
        f.components[i].0.y - f.components[j].0.y == h - 1
  {
    if |f.components| == 0 then 0
    else
      var ys := Ys(f.components);
      MaxOf(ys) - MinOf(ys) + 1
  }

  /** `FeatureBuilder`: the raw components, a target location and two alignments. */
  datatype FeatureBuilder = FeatureBuilder(
    components: seq<Component>,
    location: Location,
    horizAlign: HorizontalAlignment,
    vertAlign: VerticalAlignment)

  /** `FeatureBuilder::new`: at least one component; centred on the origin by default. */
  function NewBuilder(components: seq<Component>): (b: FeatureBuilder)
    requires |components| > 0
  {
    FeatureBuilder(components, Location(0, 0), HorizontalAlignment.Center, VerticalAlignment.Center)
  }

  /** `FeatureBuilder::location`. The builder is taken by value and returned updated. */
  function WithLocation(b: FeatureBuilder, loc: Location): (moved: FeatureBuilder) {
    b.(location := loc)
  }

  /** `FeatureBuilder::horiz_align`. */
  function WithHorizAlign(b: FeatureBuilder, align: HorizontalAlignment): (aligned: FeatureBuilder) {
    b.(horizAlign := align)
  }

  /** `FeatureBuilder::vert_align`. */
  function WithVertAlign(b: FeatureBuilder, align: VerticalAlignment): (aligned: FeatureBuilder) {
    b.(vertAlign := align)
  }

  /** The horizontal shift `build` applies. The centre uses (max - min + 1) / 2, truncated. */
  function HorizOffset(b: FeatureBuilder): (dx: int)
    requires |b.components| > 0
  {
    var xs := Xs(b.components);
    match b.horizAlign
    case Left => b.location.x - MinOf(xs)
    case Center => b.location.x - (MinOf(xs) + (MaxOf(xs) - MinOf(xs) + 1) / 2)
    case Right => b.location.x - MaxOf(xs)
  }

  /** The vertical shift `build` applies. */
  function VertOffset(b: FeatureBuilder): (dy: int)
    requires |b.components| > 0
  {
    var ys := Ys(b.components);
    match b.vertAlign
    case Top => b.location.y - MinOf(ys)
    case Center => b.location.y - (MinOf(ys) + (MaxOf(ys) - MinOf(ys) + 1) / 2)
    case Bottom => b.location.y - MaxOf(ys)
  }

  /**
   * `FeatureBuilder::build`: the same components in the same order with the same terrains,
   * every one moved by the offset that moves the first.
   */
  function Build(b: FeatureBuilder): (f: Feature)
    requires |b.components| > 0
    ensures |f.components| == |b.components|
    ensures forall i :: 0 <= i < |b.components| ==>
      && f.components[i].1 == b.components[i].1
      && f.components[i].0.x - b.components[i].0.x == f.components[0].0.x - b.components[0].0.x
      && f.components[i].0.y - b.components[i].0.y == f.components[0].0.y - b.components[0].0.y
  {
    Feature(Shift(b.components, HorizOffset(b), VertOffset(b)))
  }

  /** Every component moved by (dx, dy), terrain kept. */
  function Shift(cs: seq<Component>, dx: int, dy: int): (moved: seq<Component>) {
    seq(|cs|, i requires 0 <= i < |cs| => (Location(cs[i].0.x + dx, cs[i].0.y + dy), cs[i].1))
  }

  /** Every component of the built feature is its raw component moved by the two offsets. */
  lemma BuildMoves(b: FeatureBuilder)
    requires |b.components| > 0
    ensures forall i :: 0 <= i < |b.components| ==>
      Build(b).components[i] == (Location(b.components[i].0.x + HorizOffset(b), b.components[i].0.y + VertOffset(b)), b.components[i].1)
  {
  }

  /** Building moves the x extremes by the horizontal offset... */
  lemma BuildXExtremes(b: FeatureBuilder)
    requires |b.components| > 0
    ensures var f := Build(b).components;
      && MinOf(Xs(f)) == MinOf(Xs(b.components)) + HorizOffset(b)
      && MaxOf(Xs(f)) == MaxOf(Xs(b.components)) + HorizOffset(b)
  {
    var f := Build(b).components;
    BuildMoves(b);
    assert forall k :: 0 <= k < |f| ==> Xs(f)[k] == Xs(b.components)[k] + HorizOffset(b);
    ShiftedExtremes(Xs(b.components), Xs(f), HorizOffset(b));
  }

  /** ... and the y extremes by the vertical one. */
  lemma BuildYExtremes(b: FeatureBuilder)
    requires |b.components| > 0
    ensures var f := Build(b).components;
      && MinOf(Ys(f)) == MinOf(Ys(b.components)) + VertOffset(b)
      && MaxOf(Ys(f)) == MaxOf(Ys(b.components)) + VertOffset(b)
  {
    var f := Build(b).components;
    BuildMoves(b);
    assert forall k :: 0 <= k < |f| ==> Ys(f)[k] == Ys(b.components)[k] + VertOffset(b);
    ShiftedExtremes(Ys(b.components), Ys(f), VertOffset(b));
  }

  /** `build` keeps the feature's width... */
  lemma BuildKeepsWidth(b: FeatureBuilder)
    requires |b.components| > 0
    ensures Width(Build(b)) == Width(Feature(b.components))
  {
    BuildXExtremes(b);
  }

  /** ... and its height. */
  lemma BuildKeepsHeight(b: FeatureBuilder)
    requires |b.components| > 0
    ensures Height(Build(b)) == Height(Feature(b.components))
  {
    BuildYExtremes(b);
  }

  /**
   * The horizontal alignment `build` achieves: with Left the smallest x lands on the target,
   * with Right the largest, and with Center the smallest lands half the width (rounded down)
   * left of it.
   */
  lemma BuildAlignsHorizontally(b: FeatureBuilder)
    requires |b.components| > 0
    ensures b.horizAlign == Left ==> MinOf(Xs(Build(b).components)) == b.location.x
    ensures b.horizAlign == Right ==> MaxOf(Xs(Build(b).components)) == b.location.x
    ensures b.horizAlign == HorizontalAlignment.Center ==>
      MinOf(Xs(Build(b).components)) + Width(Feature(b.components)) / 2 == b.location.x
  {
    BuildXExtremes(b);
    var lo, hi := MinOf(Xs(b.components)), MaxOf(Xs(b.components));
    match b.horizAlign
    case Left => assert HorizOffset(b) == b.location.x - lo;
    case Right => assert HorizOffset(b) == b.location.x - hi;
    case Center =>
      assert HorizOffset(b) == b.location.x - (lo + (hi - lo + 1) / 2);
      assert Width(Feature(b.components)) == hi - lo + 1;
  }

  /** The vertical alignment, the same way with Top, Bottom and Center on the y coordinates. */
  lemma BuildAlignsVertically(b: FeatureBuilder)
    requires |b.components| > 0
    ensures b.vertAlign == Top ==> MinOf(Ys(Build(b).components)) == b.location.y
    ensures b.vertAlign == Bottom ==> MaxOf(Ys(Build(b).components)) == b.location.y
    ensures b.vertAlign == VerticalAlignment.Center ==>
      MinOf(Ys(Build(b).components)) + Height(Feature(b.components)) / 2 == b.location.y
  {
    BuildYExtremes(b);
    var lo, hi := MinOf(Ys(b.components)), MaxOf(Ys(b.components));
    match b.vertAlign
    case Top => assert VertOffset(b) == b.location.y - lo;
    case Bottom => assert VertOffset(b) == b.location.y - hi;
    case Center =>
      assert VertOffset(b) == b.location.y - (lo + (hi - lo + 1) / 2);
      assert Height(Feature(b.components)) == hi - lo + 1;
  }

  /** Moving the target location moves the built feature by the same amount. */
  lemma BuildFollowsLocation(b: FeatureBuilder, loc: Location)
    requires |b.components| > 0
    ensures forall i :: 0 <= i < |b.components| ==>
      Build(WithLocation(b, loc)).components[i].0 ==
        Location(Build(b).components[i].0.x + (loc.x - b.location.x), Build(b).components[i].0.y + (loc.y - b.location.y))
  {
    BuildMoves(b);
    BuildMoves(WithLocation(b, loc));
  }

  /** Changing the horizontal alignment leaves every built component's row alone. */
  lemma HorizAlignKeepsRows(b: FeatureBuilder, h: HorizontalAlignment)
    requires |b.components| > 0
    ensures forall i :: 0 <= i < |b.components| ==> Build(WithHorizAlign(b, h)).components[i].0.y == Build(b).components[i].0.y
  {
    var bh := WithHorizAlign(b, h);
    assert VertOffset(bh) == VertOffset(b);
    BuildMoves(b);
    BuildMoves(bh);
  }

  /** Changing the vertical alignment leaves every built component's column alone. */
  lemma VertAlignKeepsColumns(b: FeatureBuilder, v: VerticalAlignment)
    requires |b.components| > 0
    ensures forall i :: 0 <= i < |b.components| ==> Build(WithVertAlign(b, v)).components[i].0.x == Build(b).components[i].0.x
  {
    var bv := WithVertAlign(b, v);
    assert HorizOffset(bv) == HorizOffset(b);
    BuildMoves(b);
    BuildMoves(bv);
  }

  /** A fresh builder centres the feature on the origin. */
  lemma NewBuilderCentres(components: seq<Component>)
    requires |components| > 0
    ensures MinOf(Xs(Build(NewBuilder(components)).components)) + Width(Feature(components)) / 2 == 0
    ensures MinOf(Ys(Build(NewBuilder(components)).components)) + Height(Feature(components)) / 2 == 0
  {
    BuildAlignsHorizontally(NewBuilder(components));
    BuildAlignsVertically(NewBuilder(components));
  }
}

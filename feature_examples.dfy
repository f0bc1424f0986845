/** The feature test cases of the source, as lemmas about concrete shapes. */
module FeatureExamples {
  import opened Geometry
  import opened Grid
  import opened Features

  /** The size test case: components (0,0), (1,0), (1,1) span 2 x 2. */
  lemma FeatureSizeExample()
    ensures var f := Feature([(Location(0, 0), Wall), (Location(1, 0), Wall), (Location(1, 1), Wall)]);
      Width(f) == 2 && Height(f) == 2
  {
    var cs := [(Location(0, 0), Wall), (Location(1, 0), Wall), (Location(1, 1), Wall)];
    MinMaxAt(Xs(cs), 0, 1);
    MinMaxAt(Ys(cs), 0, 2);
  }

  /** The five-cell shape of the build test case. */
  function TestShape(): seq<Component> {
    [(Location(1, 1), Wall), (Location(2, 1), Wall), (Location(1, 2), Wall), (Location(2, 2), Wall), (Location(1, 3), Wall)]
  }

  /** The test shape spans columns 1..2. */
  lemma ShapeXExtremes()
    ensures MinOf(Xs(TestShape())) == 1 && MaxOf(Xs(TestShape())) == 2
  {
    assert Xs(TestShape()) == [1, 2, 1, 2, 1];
    MinMaxAt([1, 2, 1, 2, 1], 0, 1);
  }

  /** The test shape spans rows 1..3. */
  lemma ShapeYExtremes()
    ensures MinOf(Ys(TestShape())) == 1 && MaxOf(Ys(TestShape())) == 3
  {
    assert Ys(TestShape()) == [1, 1, 2, 2, 3];
    MinMaxAt([1, 1, 2, 2, 3], 0, 4);
  }

  /** The shape aligned top left at (2, 3). */
  function TopLeftBuilder(): FeatureBuilder {
    WithLocation(WithHorizAlign(WithVertAlign(NewBuilder(TestShape()), Top), Left), Location(2, 3))
  }

  lemma TopLeftHorizOffset()
    ensures HorizOffset(TopLeftBuilder()) == 1
  {
    ShapeXExtremes();
  }

  lemma TopLeftVertOffset()
    ensures VertOffset(TopLeftBuilder()) == 2
  {
    ShapeYExtremes();
  }

  lemma TopLeftShifted()
    ensures Shift(TestShape(), 1, 2) ==
      [(Location(2, 3), Wall), (Location(3, 3), Wall), (Location(2, 4), Wall), (Location(3, 4), Wall), (Location(2, 5), Wall)]
  {
  }

  /** Placing the shape's top left corner at (2, 3). */
  lemma BuildTopLeftExample()
    ensures Build(TopLeftBuilder()).components ==
      [(Location(2, 3), Wall), (Location(3, 3), Wall), (Location(2, 4), Wall), (Location(3, 4), Wall), (Location(2, 5), Wall)]
  {
    TopLeftHorizOffset();
    TopLeftVertOffset();
    TopLeftShifted();
  }

  /** The shape aligned bottom right at (5, 2). */
  function BottomRightBuilder(): FeatureBuilder {
    WithLocation(WithHorizAlign(WithVertAlign(NewBuilder(TestShape()), Bottom), Right), Location(5, 2))
  }

  lemma BottomRightHorizOffset()
    ensures HorizOffset(BottomRightBuilder()) == 3
  {
    ShapeXExtremes();
  }

  lemma BottomRightVertOffset()
    ensures VertOffset(BottomRightBuilder()) == -1
  {
    ShapeYExtremes();
  }

  lemma BottomRightShifted()
    ensures Shift(TestShape(), 3, -1) ==
      [(Location(4, 0), Wall), (Location(5, 0), Wall), (Location(4, 1), Wall), (Location(5, 1), Wall), (Location(4, 2), Wall)]
  {
  }

  /** Placing the shape's bottom right corner at (5, 2). */
  lemma BuildBottomRightExample()
    ensures Build(BottomRightBuilder()).components ==
      [(Location(4, 0), Wall), (Location(5, 0), Wall), (Location(4, 1), Wall), (Location(5, 1), Wall), (Location(4, 2), Wall)]
  {
    BottomRightHorizOffset();
    BottomRightVertOffset();
    BottomRightShifted();
  }

  /** A filled 3 x 3 square, row by row. */
  function TestSquare(): seq<Component> {
    [(Location(0, 0), Wall), (Location(1, 0), Wall), (Location(2, 0), Wall),
     (Location(0, 1), Wall), (Location(1, 1), Wall), (Location(2, 1), Wall),
     (Location(0, 2), Wall), (Location(1, 2), Wall), (Location(2, 2), Wall)]
  }

  /** The square spans columns 0..2. */
  lemma SquareXExtremes()
    ensures MinOf(Xs(TestSquare())) == 0 && MaxOf(Xs(TestSquare())) == 2
  {
    assert Xs(TestSquare()) == [0, 1, 2, 0, 1, 2, 0, 1, 2];
    MinMaxAt([0, 1, 2, 0, 1, 2, 0, 1, 2], 0, 2);
  }

  /** The square spans rows 0..2. */
  lemma SquareYExtremes()
    ensures MinOf(Ys(TestSquare())) == 0 && MaxOf(Ys(TestSquare())) == 2
  {
    assert Ys(TestSquare()) == [0, 0, 0, 1, 1, 1, 2, 2, 2];
    MinMaxAt([0, 0, 0, 1, 1, 1, 2, 2, 2], 0, 6);
  }

  /** The square centred on (4, 1). */
  function CenterBuilder(): FeatureBuilder {
    WithLocation(WithHorizAlign(WithVertAlign(NewBuilder(TestSquare()), VerticalAlignment.Center),
      HorizontalAlignment.Center), Location(4, 1))
  }

  lemma CenterHorizOffset()
    ensures HorizOffset(CenterBuilder()) == 3
  {
    SquareXExtremes();
  }

  lemma CenterVertOffset()
    ensures VertOffset(CenterBuilder()) == 0
  {
    SquareYExtremes();
  }

  lemma CenterShifted()
    ensures Shift(TestSquare(), 3, 0) ==
      [(Location(3, 0), Wall), (Location(4, 0), Wall), (Location(5, 0), Wall),
       (Location(3, 1), Wall), (Location(4, 1), Wall), (Location(5, 1), Wall),
       (Location(3, 2), Wall), (Location(4, 2), Wall), (Location(5, 2), Wall)]
  {
  }

  /** Centring the square on (4, 1) puts its top left corner at (3, 0). */
  lemma BuildCenterExample()
    ensures Build(CenterBuilder()).components ==
      [(Location(3, 0), Wall), (Location(4, 0), Wall), (Location(5, 0), Wall),
       (Location(3, 1), Wall), (Location(4, 1), Wall), (Location(5, 1), Wall),
       (Location(3, 2), Wall), (Location(4, 2), Wall), (Location(5, 2), Wall)]
  {
    CenterHorizOffset();
    CenterVertOffset();
    CenterShifted();
  }
}

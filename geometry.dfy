/** Grid coordinates, the Manhattan metric and the row-major index formula. */
module Geometry {

  /** A cell coordinate (`Location`). Coordinates are unbounded integers. */
  datatype Location = Location(x: int, y: int)

  /** `Location::manhattan`: |dx| + |dy|, each difference taken as larger minus smaller. */
  function Manhattan(a: Location, b: Location): (d: int)
    ensures d >= 0
    ensures d == 0 <==> a == b
    ensures d >= (if a.x > b.x then a.x - b.x else b.x - a.x)
    ensures d >= (if a.y > b.y then a.y - b.y else b.y - a.y)
  {
    var totalX := if a.x > b.x then a.x - b.x else b.x - a.x;
    var totalY := if a.y > b.y then a.y - b.y else b.y - a.y;
    totalX + totalY
  }

  lemma ManhattanSymmetric(a: Location, b: Location)
    ensures Manhattan(a, b) == Manhattan(b, a)
  {
  }

  lemma ManhattanTriangle(a: Location, b: Location, c: Location)
    ensures Manhattan(a, c) <= Manhattan(a, b) + Manhattan(b, c)
  {
  }

  /** Position of `loc` in a row-major buffer of rows `width` wide: `y * width + x`. */
  function Index(loc: Location, width: int): int {
    loc.y * width + loc.x
  }

  predicate InBounds(loc: Location, width: int, height: int) {
    0 <= loc.x < width && 0 <= loc.y < height
  }

  /** The location the tile iterator reports for buffer position `i`: `(i % width, i / width)`. */
  function LocationOf(i: nat, width: int): Location
    requires width > 0
  {
    Location(i % width, i / width)
  }

  lemma MulMonotone(a: int, b: int, c: int)
    requires a <= b && c >= 0
    ensures a * c <= b * c
  {
    assert b * c - a * c == (b - a) * c;
  }

  /** A nonzero multiple of `w` is at least `w` away from zero. */
  lemma MulAwayFromZero(d: int, w: int)
    requires d != 0 && w > 0
    ensures d * w >= w || d * w <= -w
  {
    if d > 0 {
      MulMonotone(1, d, w);
    } else {
      MulMonotone(d, -1, w);
    }
  }

  /** An in-bounds location indexes into a buffer of `width * height` tiles. */
  lemma IndexInRange(loc: Location, width: int, height: int)
    requires InBounds(loc, width, height)
    ensures 0 <= Index(loc, width) < width * height
  {
    MulMonotone(0, loc.y, width);
    MulMonotone(loc.y, height - 1, width);
    assert (height - 1) * width == width * height - width;
  }

  /** Two locations with an in-range column share an index exactly when they are equal. */
  lemma IndexInjective(a: Location, b: Location, width: int)
    requires 0 <= a.x < width && 0 <= b.x < width
    ensures Index(a, width) == Index(b, width) <==> a == b
  {
    if a.y != b.y {
      MulAwayFromZero(a.y - b.y, width);
    }
  }

  /** `(i % width, i / width)` inverts the index formula. */
  lemma LocationOfIndex(i: nat, width: int)
    requires width > 0
    ensures 0 <= LocationOf(i, width).x < width
    ensures 0 <= LocationOf(i, width).y
    ensures Index(LocationOf(i, width), width) == i
  {
  }

  /** ... and the index formula inverts it on every column in range. */
  lemma IndexLocationOf(loc: Location, width: int)
    requires width > 0 && 0 <= loc.x < width && 0 <= loc.y
    ensures Index(loc, width) >= 0
    ensures LocationOf(Index(loc, width), width) == loc
  {
    MulMonotone(0, loc.y, width);
    LocationOfIndex(Index(loc, width), width);
    IndexInjective(LocationOf(Index(loc, width), width), loc, width);
  }

  /** A position below `width * height` decodes to a location inside the grid. */
  lemma LocationOfInBounds(i: nat, width: int, height: int)
    requires width > 0 && i < width * height
    ensures InBounds(LocationOf(i, width), width, height)
  {
    LocationOfIndex(i, width);
    if i / width >= height {
      MulMonotone(height, i / width, width);
      assert false;
    }
  }
}

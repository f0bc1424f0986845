/** Rectangular rooms: their cells, the overlap test and the wall/floor split. */
module Rooms {
  import opened Geometry
  import opened Seqs

  /** `Room`: origin, size, and the cached list of the cells it covers. */
  datatype Room = Room(x: int, y: int, width: int, height: int, locs: seq<Location>)

  /** Column `i` from row `y` down `h` rows: what one pass of the inner loop of `Room::new` pushes. */
  function Column(i: int, y: int, h: nat): seq<Location> {
    seq(h, j => Location(i, y + j))
  }

  /** The cells `Room::new` collects: column by column (x outer, y inner) from the left. */
  function Cells(x: int, y: int, w: nat, h: nat): seq<Location>
    decreases w
  {
    if w == 0 then [] else Cells(x, y, w - 1, h) + Column(x + w - 1, y, h)
  }

  /** Cell `c` lies in the rectangle with origin (x, y) and size w x h. */
  predicate InRect(c: Location, x: int, y: int, w: int, h: int) {
    x <= c.x < x + w && y <= c.y < y + h
  }

  lemma {:induction false} CellsExact(x: int, y: int, w: nat, h: nat)
    ensures |Cells(x, y, w, h)| == w * h
    ensures forall c :: c in Cells(x, y, w, h) <==> InRect(c, x, y, w, h)
    ensures Distinct(Cells(x, y, w, h))
  {
    if w > 0 {
      CellsExact(x, y, w - 1, h);
      var prefix, col := Cells(x, y, w - 1, h), Column(x + w - 1, y, h);
      assert forall c :: c in col <==> c.x == x + w - 1 && y <= c.y < y + h by {
        forall c: Location | c.x == x + w - 1 && y <= c.y < y + h ensures c in col {
          assert col[c.y - y] == c;
        }
      }
      assert (w - 1) * h + h == w * h;
      forall i, j | 0 <= i < j < |prefix + col| ensures (prefix + col)[i] != (prefix + col)[j] {
        if j < |prefix| {
        } else if i >= |prefix| {
        } else {
          assert (prefix + col)[i] in prefix;
        }
      }
    }
  }

  /**
   * A room as `Room::new` leaves it: non-negative origin, positive size, and a cell list
   * holding every cell of its rectangle exactly once.
   */
  ghost predicate WellFormed(r: Room) {
    && r.x >= 0 && r.y >= 0 && r.width > 0 && r.height > 0
    && |r.locs| == r.width * r.height && Distinct(r.locs)
    && forall c :: c in r.locs <==> InRect(c, r.x, r.y, r.width, r.height)
  }

  /** The value `Room::new(x, y, width, height)` returns. */
  function MakeRoom(x: int, y: int, width: int, height: int): (room: Room)
    requires x >= 0 && y >= 0 && width > 0 && height > 0
  {
    Room(x, y, width, height, Cells(x, y, width, height))
  }

  /** What `Room::new` returns is well formed. */
  lemma MakeRoomWellFormed(x: int, y: int, width: int, height: int)
    requires x >= 0 && y >= 0 && width > 0 && height > 0
    ensures WellFormed(MakeRoom(x, y, width, height))
  {
    CellsExact(x, y, width, height);
  }

  /**
   * `Room::new`: nested loops push every cell of the rectangle, x outer and y inner.
   * The result holds exactly width*height distinct cells, those of the rectangle.
   */
  method NewRoom(x: int, y: int, width: int, height: int) returns (room: Room)
    requires x >= 0 && y >= 0 && width > 0 && height > 0
    ensures room == MakeRoom(x, y, width, height) && WellFormed(room)
    ensures |room.locs| == width * height && Distinct(room.locs)
    ensures forall c :: c in room.locs <==> InRect(c, x, y, width, height)
  {
    var locs: seq<Location> := [];
    for i := x to x + width
      invariant locs == Cells(x, y, i - x, height)
    {
      for j := y to y + height
        invariant locs == Cells(x, y, i - x, height) + Column(i, y, j - y)
      {
        assert Column(i, y, j - y + 1) == Column(i, y, j - y) + [Location(i, j)];
        locs := locs + [Location(i, j)];
      }
    }
    room := Room(x, y, width, height, locs);
    CellsExact(x, y, width, height);
  }

  /**
   * `Room::overlaps`: the bounding boxes compared with the exclusive ends x + width
   * and y + height using >=, so rooms that merely touch also overlap.
   */
  predicate Overlaps(a: Room, b: Room) {
    var (xmin1, xmax1, xmin2, xmax2) := (a.x, a.x + a.width, b.x, b.x + b.width);
    var (ymin1, ymax1, ymin2, ymax2) := (a.y, a.y + a.height, b.y, b.y + b.height);
    xmax1 >= xmin2 && xmax2 >= xmin1 && ymax1 >= ymin2 && ymax2 >= ymin1
  }

  /** Two cells are equal or touch, including diagonally. */
  predicate Near(p: Location, q: Location) {
    -1 <= p.x - q.x <= 1 && -1 <= p.y - q.y <= 1
  }

  lemma OverlapsSymmetric(a: Room, b: Room)
    ensures Overlaps(a, b) == Overlaps(b, a)
  {
  }

  /**
   * The overlap test in terms of cells: two rooms overlap exactly when some cell of one
   * equals or touches (sideways or diagonally) some cell of the other.
   */
  lemma OverlapsIffNear(a: Room, b: Room)
    requires WellFormed(a) && WellFormed(b)
    ensures Overlaps(a, b) <==> exists p, q :: p in a.locs && q in b.locs && Near(p, q)
  {
    if Overlaps(a, b) {
      var px := if a.x >= b.x then a.x else Min(a.x + a.width - 1, b.x);
      var qx := if b.x >= a.x then b.x else Min(b.x + b.width - 1, a.x);
      var py := if a.y >= b.y then a.y else Min(a.y + a.height - 1, b.y);
      var qy := if b.y >= a.y then b.y else Min(b.y + b.height - 1, a.y);
      assert Location(px, py) in a.locs && Location(qx, qy) in b.locs && Near(Location(px, py), Location(qx, qy));
    }
  }

  function Min(a: int, b: int): int {
    if a <= b then a else b
  }

  /** Rooms side by side, sharing no cell, still overlap. */
  lemma TouchingRoomsOverlap(a: Room, b: Room)
    requires WellFormed(a) && WellFormed(b)
    requires b.x == a.x + a.width && b.y == a.y
    ensures Overlaps(a, b)
    ensures forall c :: !(c in a.locs && c in b.locs)
  {
  }

  /** Rooms that do not overlap are apart: no cell of one is equal or adjacent to a cell of the other. */
  lemma SeparatedRoomsApart(a: Room, b: Room)
    requires WellFormed(a) && WellFormed(b) && !Overlaps(a, b)
    ensures forall p, q :: p in a.locs && q in b.locs ==> !Near(p, q)
  {
    OverlapsIffNear(a, b);
  }

  /** The border test `walls` filters with. */
  predicate IsWall(r: Room, c: Location) {
    c.x == r.x || c.y == r.y || c.x == r.x + r.width - 1 || c.y == r.y + r.height - 1
  }

  /** The interior test `floors` filters with. */
  predicate IsFloor(r: Room, c: Location) {
    c.x > r.x && c.y > r.y && c.x < r.x + r.width - 1 && c.y < r.y + r.height - 1
  }

  /** `walls`: the border cells, in the room's cell order. */
  function Walls(r: Room): seq<Location> {
    Filter(r.locs, c => IsWall(r, c))
  }

  /** `floors`: the interior cells, in the room's cell order. */
  function Floors(r: Room): seq<Location> {
    Filter(r.locs, c => IsFloor(r, c))
  }

  /**
   * Walls and floors partition the room's cells: every cell is in exactly one of
   * them, nothing else is, and their lengths add up to the number of cells.
   */
  lemma WallsFloorsPartition(r: Room)
    requires WellFormed(r)
    ensures forall c :: c in Walls(r) ==> c in r.locs && IsWall(r, c) && !IsFloor(r, c)
    ensures forall c :: c in Floors(r) ==> c in r.locs && IsFloor(r, c) && !IsWall(r, c)
    ensures forall c :: c in r.locs ==> (c in Walls(r) <==> !(c in Floors(r)))
    ensures |Walls(r)| + |Floors(r)| == |r.locs|
  {
    forall c ensures c in Walls(r) <==> c in r.locs && IsWall(r, c) {
      FilterMember(r.locs, c => IsWall(r, c), c);
    }
    forall c ensures c in Floors(r) <==> c in r.locs && IsFloor(r, c) {
      FilterMember(r.locs, c => IsFloor(r, c), c);
    }
    forall i | 0 <= i < |r.locs| ensures IsWall(r, r.locs[i]) != IsFloor(r, r.locs[i]) {
      assert r.locs[i] in r.locs;
    }
    FilterSplit(r.locs, c => IsWall(r, c), c => IsFloor(r, c));
  }

  /** A room has a wall at its origin, and a floor next to it once it is at least 3 x 3. */
  lemma CornerCells(r: Room)
    requires WellFormed(r)
    ensures Location(r.x, r.y) in Walls(r)
    ensures r.width >= 3 && r.height >= 3 ==> Location(r.x + 1, r.y + 1) in Floors(r)
  {
    FilterMember(r.locs, c => IsWall(r, c), Location(r.x, r.y));
    FilterMember(r.locs, c => IsFloor(r, c), Location(r.x + 1, r.y + 1));
  }
}

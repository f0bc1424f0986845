/**
 * `WorldMap::generate`: room placement, drawing, one dug connection and the start cell.
 * The run is specified by functions of the raw draw stream; `Generate` carries it out
 * on a `WorldMap` and an `Rng` and is proved to agree with them.
 */
module Generator {
  import opened Wrappers
  import opened Geometry
  import opened Seqs
  import opened Grid
  import opened Rooms
  import opened Rand
  import opened Search

  /** Room proposals made by one run. */
  const Attempts := 60
  /** Room sides are drawn from the half-open range [MinSide, MaxSide). */
  const MinSide := 3
  const MaxSide := 15

  /** Where a proposal can land: the drawn sizes, origin at least 0 and strictly below width - size. */
  ghost predicate RoomInGrid(r: Room, width: int, height: int) {
    && MinSide <= r.width < MaxSide && MinSide <= r.height < MaxSide
    && 0 <= r.x && r.x + r.width <= width - 1
    && 0 <= r.y && r.y + r.height <= height - 1
  }

  /** Every room of the list is well formed and lies in the grid. */
  ghost predicate AllInGrid(rooms: seq<Room>, width: int, height: int) {
    forall i :: 0 <= i < |rooms| ==> WellFormed(rooms[i]) && RoomInGrid(rooms[i], width, height)
  }

  /** Every cell of every room has its index inside a buffer of `size` tiles. */
  ghost predicate CellsInBuffer(rooms: seq<Room>, width: int, size: int) {
    forall k, c :: 0 <= k < |rooms| && c in rooms[k].locs ==> 0 <= Index(c, width) < size
  }

  /** Every cell of every room lies in the grid. */
  ghost predicate CellsInGrid(rooms: seq<Room>, width: int, height: int) {
    forall k, c :: 0 <= k < |rooms| && c in rooms[k].locs ==> InBounds(c, width, height)
  }

  /**
   * The cells of placed rooms lie inside the grid, one column and one row short of its far
   * edges, so their indices lie in the tile buffer.
   */
  lemma AllCellsInGrid(rooms: seq<Room>, width: int, height: int)
    requires AllInGrid(rooms, width, height)
    ensures CellsInGrid(rooms, width, height)
    ensures forall k, c :: 0 <= k < |rooms| && c in rooms[k].locs ==> c.x <= width - 2 && c.y <= height - 2
    ensures CellsInBuffer(rooms, width, width * height)
  {
    GridCellsInBuffer(rooms, width, height);
  }

  /** Cells in the grid have their indices in the tile buffer. */
  lemma GridCellsInBuffer(rooms: seq<Room>, width: int, height: int)
    requires CellsInGrid(rooms, width, height)
    ensures CellsInBuffer(rooms, width, width * height)
  {
    forall k, c | 0 <= k < |rooms| && c in rooms[k].locs ensures 0 <= Index(c, width) < width * height {
      IndexInRange(c, width, height);
    }
  }

  /**
   * One pass of the proposal loop, on the draws at positions k .. k+3: width, height,
   * then x in [0, width - room_width) and y in [0, height - room_height). None is the
   * panic of a position range that is empty because the grid is too narrow.
   */
  function Propose(stream: nat -> nat, k: nat, width: int, height: int): (r: Option<Room>)
    ensures r.Some? ==> RoomInGrid(r.value, width, height)
    ensures width >= MaxSide && height >= MaxSide ==> r.Some?
    ensures width <= MinSide || height <= MinSide ==> r.None?
  {
    var rw := Sample(stream(k), MinSide, MaxSide).value;
    var rh := Sample(stream(k + 1), MinSide, MaxSide).value;
    var rx := Sample(stream(k + 2), 0, width - rw);
    var ry := Sample(stream(k + 3), 0, height - rh);
    if rx.None? || ry.None? then None else Some(MakeRoom(rx.value, ry.value, rw, rh))
  }

  /** A proposed room is what `Room::new` returns, so it is well formed. */
  lemma ProposeWellFormed(stream: nat -> nat, k: nat, width: int, height: int)
    ensures var r := Propose(stream, k, width, height);
      r.Some? ==> WellFormed(r.value)
  {
    var r := Propose(stream, k, width, height);
    if r.Some? {
      MakeRoomWellFormed(r.value.x, r.value.y, r.value.width, r.value.height);
    }
  }

  /** A proposal is accepted when it overlaps none of the rooms accepted so far. */
  predicate Fits(rooms: seq<Room>, room: Room) {
    forall i :: 0 <= i < |rooms| ==> !Overlaps(rooms[i], room)
  }

  /** No two rooms of the list overlap. */
  ghost predicate Separate(rooms: seq<Room>) {
    forall i, j :: 0 <= i < j < |rooms| ==> !Overlaps(rooms[i], rooms[j])
  }

  /**
   * The rooms accepted after `n` proposals, proposal m (from 1) using the draws at
   * c0 + 4*(m-1). The accepted rooms lie in the grid, are pairwise non-overlapping, and
   * the first proposal is always accepted.
   */
  function PlaceRooms(stream: nat -> nat, c0: nat, width: int, height: int, n: nat): (r: Option<seq<Room>>)
    ensures r.Some? ==> |r.value| <= n && (n > 0 ==> |r.value| > 0)
    ensures width >= MaxSide && height >= MaxSide ==> r.Some?
  {
    if n == 0 then Some([])
    else
      var prev := PlaceRooms(stream, c0, width, height, n - 1);
      var room := Propose(stream, c0 + 4 * (n - 1), width, height);
      if prev.None? || room.None? then None
      else if Fits(prev.value, room.value) then Some(prev.value + [room.value])
      else prev
  }

  /** Once a proposal panics the run is over: later counts of proposals panic too. */
  lemma {:induction false} PlaceRoomsPanicPersists(stream: nat -> nat, c0: nat, width: int, height: int, n: nat, m: nat)
    requires n <= m && PlaceRooms(stream, c0, width, height, n).None?
    ensures PlaceRooms(stream, c0, width, height, m).None?
    decreases m
  {
    if n < m {
      PlaceRoomsPanicPersists(stream, c0, width, height, n, m - 1);
    }
  }

  /** The accepted rooms lie in the grid and no two of them overlap. */
  lemma {:induction false} PlaceRoomsValid(stream: nat -> nat, c0: nat, width: int, height: int, n: nat)
    ensures var r := PlaceRooms(stream, c0, width, height, n);
      r.Some? ==> AllInGrid(r.value, width, height) && Separate(r.value)
  {
    if n > 0 {
      PlaceRoomsValid(stream, c0, width, height, n - 1);
      var prev := PlaceRooms(stream, c0, width, height, n - 1);
      var room := Propose(stream, c0 + 4 * (n - 1), width, height);
      ProposeWellFormed(stream, c0 + 4 * (n - 1), width, height);
      if prev.Some? && room.Some? && Fits(prev.value, room.value) {
        var rooms := prev.value + [room.value];
        assert forall i :: 0 <= i < |prev.value| ==> rooms[i] == prev.value[i];
      }
    }
  }

  /** One more proposal: it is appended exactly when it fits, and its panic ends the run. */
  lemma PlaceRoomsNext(stream: nat -> nat, c0: nat, width: int, height: int, n: nat, prev: seq<Room>)
    requires PlaceRooms(stream, c0, width, height, n) == Some(prev)
    ensures var room := Propose(stream, c0 + 4 * n, width, height);
      && (room.None? ==> PlaceRooms(stream, c0, width, height, n + 1).None?)
      && (room.Some? && Fits(prev, room.value) ==> PlaceRooms(stream, c0, width, height, n + 1) == Some(prev + [room.value]))
      && (room.Some? && !Fits(prev, room.value) ==> PlaceRooms(stream, c0, width, height, n + 1) == Some(prev))
  {
  }

  /** Accepted rooms are never dropped: the rooms after n proposals begin the list after m >= n. */
  lemma {:induction false} PlaceRoomsGrows(stream: nat -> nat, c0: nat, width: int, height: int, n: nat, m: nat)
    requires n <= m && PlaceRooms(stream, c0, width, height, m).Some?
    ensures PlaceRooms(stream, c0, width, height, n).Some?
    ensures PlaceRooms(stream, c0, width, height, n).value <= PlaceRooms(stream, c0, width, height, m).value
    decreases m
  {
    if n < m {
      var prev := PlaceRooms(stream, c0, width, height, m - 1);
      assert prev.Some? && prev.value <= PlaceRooms(stream, c0, width, height, m).value;
      PlaceRoomsGrows(stream, c0, width, height, n, m - 1);
    }
  }

  /** The map `generate` starts from: `width * height` tiles, all `Nothing`. */
  function Blank(width: int, height: int): (t: seq<Terrain>)
    requires width > 0 && height > 0
    ensures |t| == width * height && forall i :: 0 <= i < |t| ==> t[i] == Nothing
  {
    seq(width * height, _ => Nothing)
  }

  /** `room.walls()` stamped as `Wall`, then `room.floors()` stamped as `Floor`. */
  function DrawRoom(tiles: seq<Terrain>, width: int, r: Room): (t: seq<Terrain>)
    requires forall c :: c in r.locs ==> 0 <= Index(c, width) < |tiles|
    ensures |t| == |tiles|
  {
    Paint(Paint(tiles, width, Walls(r), Wall), width, Floors(r), Floor)
  }

  /** The rooms drawn one after the other, in list order. */
  function DrawRooms(tiles: seq<Terrain>, width: int, rooms: seq<Room>): (t: seq<Terrain>)
    requires CellsInBuffer(rooms, width, |tiles|)
    ensures |t| == |tiles|
  {
    if rooms == [] then tiles
    else DrawRoom(DrawRooms(tiles, width, rooms[..|rooms| - 1]), width, rooms[|rooms| - 1])
  }

  /** The cells of one placed room lie inside the grid, so their indices lie in the tile buffer. */
  lemma RoomCellsInGrid(r: Room, width: int, height: int)
    requires WellFormed(r) && RoomInGrid(r, width, height)
    ensures forall c :: c in r.locs ==> InBounds(c, width, height) && c.x <= width - 2 && c.y <= height - 2
    ensures forall c :: c in r.locs ==> 0 <= Index(c, width) < width * height
  {
    forall c | c in r.locs ensures 0 <= Index(c, width) < width * height {
      IndexInRange(c, width, height);
    }
  }

  /** Drawing a room leaves each of its cells `Wall` on the border and `Floor` inside. */
  lemma DrawRoomCell(tiles: seq<Terrain>, width: int, r: Room, c: Location)
    requires WellFormed(r)
    requires forall d :: d in r.locs ==> 0 <= d.x < width && 0 <= Index(d, width) < |tiles|
    requires c in r.locs
    ensures DrawRoom(tiles, width, r)[Index(c, width)] == (if IsWall(r, c) then Wall else Floor)
  {
    var j := Index(c, width);
    var walls, floors := Walls(r), Floors(r);
    var painted := Paint(tiles, width, walls, Wall);
    WallsFloorsPartition(r);
    if IsWall(r, c) {
      PaintAt(tiles, width, walls, Wall, j);
      forall f | f in floors ensures Index(f, width) != j {
        IndexInjective(c, f, width);
      }
      PaintAt(painted, width, floors, Floor, j);
    } else {
      PaintAt(painted, width, floors, Floor, j);
    }
  }

  /** Drawing a room leaves every position outside it as it was. */
  lemma DrawRoomOutside(tiles: seq<Terrain>, width: int, r: Room, j: int)
    requires forall d :: d in r.locs ==> 0 <= Index(d, width) < |tiles|
    requires 0 <= j < |tiles|
    requires forall d :: d in r.locs ==> Index(d, width) != j
    ensures DrawRoom(tiles, width, r)[j] == tiles[j]
  {
    PaintAt(tiles, width, Walls(r), Wall, j);
    PaintAt(Paint(tiles, width, Walls(r), Wall), width, Floors(r), Floor, j);
  }

  /** A cell of one room never shares its index with a cell of a room that does not overlap it. */
  lemma SeparateIndices(a: Room, b: Room, width: int, height: int, c: Location)
    requires WellFormed(a) && RoomInGrid(a, width, height)
    requires WellFormed(b) && RoomInGrid(b, width, height)
    requires !Overlaps(a, b) && c in a.locs
    ensures forall d :: d in b.locs ==> Index(d, width) != Index(c, width)
  {
    RoomCellsInGrid(a, width, height);
    RoomCellsInGrid(b, width, height);
    SeparatedRoomsApart(a, b);
    forall d | d in b.locs ensures Index(d, width) != Index(c, width) {
      assert !Near(c, d);
      IndexInjective(c, d, width);
    }
  }

  /**
   * After drawing separate rooms, each room cell is `Wall` on its room's border and
   * `Floor` inside it, and every position no room covers keeps its terrain.
   */
  lemma {:induction false} DrawRoomsAt(tiles: seq<Terrain>, width: int, height: int, rooms: seq<Room>, j: int)
    requires AllInGrid(rooms, width, height) && Separate(rooms)
    requires CellsInBuffer(rooms, width, |tiles|)
    requires 0 <= j < |tiles|
    ensures forall k, c :: 0 <= k < |rooms| && c in rooms[k].locs && Index(c, width) == j ==>
      DrawRooms(tiles, width, rooms)[j] == (if IsWall(rooms[k], c) then Wall else Floor)
    ensures (forall k, c :: 0 <= k < |rooms| && c in rooms[k].locs ==> Index(c, width) != j) ==>
      DrawRooms(tiles, width, rooms)[j] == tiles[j]
  {
    if rooms != [] {
      var n := |rooms|;
      var init, last := rooms[..n - 1], rooms[n - 1];
      assert forall k :: 0 <= k < n - 1 ==> init[k] == rooms[k];
      DrawRoomsAt(tiles, width, height, init, j);
      var prev := DrawRooms(tiles, width, init);
      assert forall d :: d in last.locs ==> 0 <= Index(d, width) < |prev|;
      forall k, c | 0 <= k < n && c in rooms[k].locs && Index(c, width) == j
        ensures DrawRooms(tiles, width, rooms)[j] == (if IsWall(rooms[k], c) then Wall else Floor)
      {
        if k == n - 1 {
          RoomCellsInGrid(last, width, height);
          DrawRoomCell(prev, width, last, c);
        } else {
          SeparateIndices(rooms[k], last, width, height, c);
          DrawRoomOutside(prev, width, last, j);
          assert c in init[k].locs;
        }
      }
      if forall k, c :: 0 <= k < n && c in rooms[k].locs ==> Index(c, width) != j {
        assert forall d :: d in last.locs ==> Index(d, width) != j;
        DrawRoomOutside(prev, width, last, j);
      }
    }
  }

  /**
   * `rooms.iter().random(rng).walls().random(rng)` on the draws at k and k+1: a wall of a
   * room other than the last one; a single room, or a wall list of one, panics.
   */
  function PickWall(stream: nat -> nat, k: nat, rooms: seq<Room>): (r: Option<Location>)
    ensures r.Some? ==> exists i :: 0 <= i < |rooms| - 1 && r.value in Walls(rooms[i])
    ensures |rooms| <= 1 ==> r.None?
  {
    var room := Random(rooms, stream(k));
    if room.None? then None else Random(Walls(room.value), stream(k + 1))
  }

  /** `rooms.iter().random(rng).floors().random(rng)`, the same on the floors of the room. */
  function PickFloor(stream: nat -> nat, k: nat, rooms: seq<Room>): (r: Option<Location>)
    ensures r.Some? ==> exists i :: 0 <= i < |rooms| - 1 && r.value in Floors(rooms[i])
    ensures |rooms| <= 1 ==> r.None?
  {
    var room := Random(rooms, stream(k));
    if room.None? then None else Random(Floors(room.value), stream(k + 1))
  }

  /**
   * The connection pass: both walls dug out to `Nothing`, then the path A* returns for
   * `ConnectRooms` painted `Debug`.
   */
  function Dig(tiles: seq<Terrain>, width: int, height: int, w1: Location, w2: Location,
               astar: (seq<Terrain>, int, int, Location, Location) -> Option<seq<Location>>): (r: seq<Terrain>)
    requires |tiles| == width * height && SoundSearch(astar)
    requires InBounds(w1, width, height) && InBounds(w2, width, height)
    requires 0 <= Index(w1, width) < |tiles| && 0 <= Index(w2, width) < |tiles|
    ensures |r| == |tiles|
  {
    var open := tiles[Index(w1, width) := Nothing][Index(w2, width) := Nothing];
    var path := astar(open, width, height, w1, w2);
    if path.None? then open
    else
      SearchPathInGrid(open, width, height, w1, w2, path.value);
      PathPaint(open, width, height, path.value);
      Paint(open, width, path.value, Debug)
  }

  /**
   * What digging changes: without a path only the two walls become `Nothing`; a found
   * path is all `Debug`. Digging writes only `Nothing` and `Debug`, and only at the two
   * walls and at cells that were already `Nothing`.
   */
  lemma DigChanges(tiles: seq<Terrain>, width: int, height: int, w1: Location, w2: Location,
                   astar: (seq<Terrain>, int, int, Location, Location) -> Option<seq<Location>>)
    requires |tiles| == width * height && SoundSearch(astar)
    requires InBounds(w1, width, height) && InBounds(w2, width, height)
    requires 0 <= Index(w1, width) < |tiles| && 0 <= Index(w2, width) < |tiles|
    ensures var r := Dig(tiles, width, height, w1, w2, astar);
      var open := tiles[Index(w1, width) := Nothing][Index(w2, width) := Nothing];
      var path := astar(open, width, height, w1, w2);
      && (path.None? ==> r == open)
      && (path.Some? ==> forall c :: c in path.value ==> 0 <= Index(c, width) < |r| && r[Index(c, width)] == Debug)
      && (forall j :: 0 <= j < |tiles| ==> r[j] == tiles[j] || r[j] == Nothing || r[j] == Debug)
      && (r[Index(w1, width)] == Nothing || r[Index(w1, width)] == Debug)
      && (r[Index(w2, width)] == Nothing || r[Index(w2, width)] == Debug)
      && (forall j :: 0 <= j < |tiles| && j != Index(w1, width) && j != Index(w2, width) && tiles[j] != Nothing ==>
            r[j] == tiles[j])
  {
    var open := tiles[Index(w1, width) := Nothing][Index(w2, width) := Nothing];
    var path := astar(open, width, height, w1, w2);
    if path.Some? {
      SearchPathInGrid(open, width, height, w1, w2, path.value);
      PathPaint(open, width, height, path.value);
    }
  }

  /** Painting a path of open cells marks each of them `Debug` and changes nothing else. */
  lemma PathPaint(tiles: seq<Terrain>, width: int, height: int, p: seq<Location>)
    requires forall i :: 0 <= i < |p| ==> InBounds(p[i], width, height) && Open(tiles, width, p[i])
    ensures forall c :: c in p ==> 0 <= Index(c, width) < |tiles|
    ensures forall c :: c in p ==> Paint(tiles, width, p, Debug)[Index(c, width)] == Debug
    ensures forall j :: 0 <= j < |tiles| ==>
      Paint(tiles, width, p, Debug)[j] == Debug || Paint(tiles, width, p, Debug)[j] == tiles[j]
    ensures forall j :: 0 <= j < |tiles| && tiles[j] != Nothing ==> Paint(tiles, width, p, Debug)[j] == tiles[j]
  {
    forall j | 0 <= j < |tiles| {
      PaintAt(tiles, width, p, Debug, j);
    }
    forall c | c in p ensures Paint(tiles, width, p, Debug)[Index(c, width)] == Debug {
      PaintAt(tiles, width, p, Debug, Index(c, width));
    }
  }

  /**
   * One run: the accepted rooms, the two dug walls, and what `generate` returns, the tile
   * buffer and the start location.
   */
  datatype Run = Run(rooms: seq<Room>, wall1: Location, wall2: Location, tiles: seq<Terrain>, start: Location)

  /**
   * The whole of `generate` on the draw stream from position c0: 60 proposals (four draws
   * each), drawing, two wall picks, digging, then the start pick (two draws each).
   * None is a panic.
   */
  function GenerateSpec(stream: nat -> nat, c0: nat, width: int, height: int,
                        astar: (seq<Terrain>, int, int, Location, Location) -> Option<seq<Location>>): (run: Option<Run>)
    requires width > 0 && height > 0 && SoundSearch(astar)
  {
    var placed := PlaceRooms(stream, c0, width, height, Attempts);
    if placed.None? then None
    else
      PlaceRoomsValid(stream, c0, width, height, Attempts);
      AllCellsInGrid(placed.value, width, height);
      Finish(stream, c0 + 4 * Attempts, placed.value, width, height, astar)
  }

  ghost predicate Placement(rooms: seq<Room>, width: int, height: int) {
    CellsInGrid(rooms, width, height) && CellsInBuffer(rooms, width, width * height)
  }

  /** A run is the placement of `Attempts` proposals followed by the finishing draws after them. */
  lemma GenerateParts(stream: nat -> nat, c0: nat, k: nat, width: int, height: int,
                      astar: (seq<Terrain>, int, int, Location, Location) -> Option<seq<Location>>,
                      rooms: seq<Room>)
    requires width > 0 && height > 0 && SoundSearch(astar)
    requires PlaceRooms(stream, c0, width, height, Attempts) == Some(rooms) && k == c0 + 4 * Attempts
    ensures Placement(rooms, width, height)
    ensures GenerateSpec(stream, c0, width, height, astar) == Finish(stream, k, rooms, width, height, astar)
  {
    PlaceRoomsValid(stream, c0, width, height, Attempts);
    AllCellsInGrid(rooms, width, height);
  }

  /**
   * What follows room placement, from the draws at k: the two wall picks, drawing and
   * digging, then the start pick.
   */
  function Finish(stream: nat -> nat, k: nat, rooms: seq<Room>, width: int, height: int,
                  astar: (seq<Terrain>, int, int, Location, Location) -> Option<seq<Location>>): (run: Option<Run>)
    requires width > 0 && height > 0 && SoundSearch(astar)
    requires CellsInGrid(rooms, width, height)
  {
    var w1 := PickWall(stream, k, rooms);
    var w2 := PickWall(stream, k + 2, rooms);
    var start := PickFloor(stream, k + 4, rooms);
    if w1.None? || w2.None? || start.None? then None
    else Some(Run(rooms, w1.value, w2.value, Carve(width, height, rooms, w1.value, w2.value, astar), start.value))
  }

  /** A wall of a placed room lies in the grid, so its index lies in the tile buffer. */
  lemma WallInGrid(rooms: seq<Room>, width: int, height: int, w: Location)
    requires CellsInGrid(rooms, width, height)
    requires exists i :: 0 <= i < |rooms| && w in Walls(rooms[i])
    ensures InBounds(w, width, height) && 0 <= Index(w, width) < width * height
  {
    var i :| 0 <= i < |rooms| && w in Walls(rooms[i]);
    assert w in rooms[i].locs;
    IndexInRange(w, width, height);
  }

  /** The map after the rooms are drawn on a blank grid and the two walls are connected. */
  function Carve(width: int, height: int, rooms: seq<Room>, w1: Location, w2: Location,
                 astar: (seq<Terrain>, int, int, Location, Location) -> Option<seq<Location>>): (t: seq<Terrain>)
    requires width > 0 && height > 0 && SoundSearch(astar)
    requires CellsInGrid(rooms, width, height)
    requires exists i :: 0 <= i < |rooms| && w1 in Walls(rooms[i])
    requires exists i :: 0 <= i < |rooms| && w2 in Walls(rooms[i])
    ensures |t| == width * height
  {
    GridCellsInBuffer(rooms, width, height);
    WallInGrid(rooms, width, height, w1);
    WallInGrid(rooms, width, height, w2);
    Dig(DrawRooms(Blank(width, height), width, rooms), width, height, w1, w2, astar)
  }

  /**
   * The layout a run leaves, given its rooms and dug walls: interior cells are `Floor`,
   * border cells other than the two dug walls are `Wall`, the dug walls are `Nothing` or
   * `Debug`, and every position no room covers is `Nothing` or `Debug`.
   */
  lemma DugLayout(width: int, height: int, rooms: seq<Room>, w1: Location, w2: Location,
                  astar: (seq<Terrain>, int, int, Location, Location) -> Option<seq<Location>>, i1: int, i2: int)
    requires width > 0 && height > 0 && SoundSearch(astar)
    requires AllInGrid(rooms, width, height) && Separate(rooms)
    requires 0 <= i1 < |rooms| && w1 in Walls(rooms[i1]) && 0 <= i2 < |rooms| && w2 in Walls(rooms[i2])
    ensures CellsInBuffer(rooms, width, width * height)
    ensures InBounds(w1, width, height) && InBounds(w2, width, height)
    ensures 0 <= Index(w1, width) < width * height && 0 <= Index(w2, width) < width * height
    ensures var dug := Carve(width, height, rooms, w1, w2, astar);
      && (forall k, c :: 0 <= k < |rooms| && c in rooms[k].locs && IsFloor(rooms[k], c) ==> dug[Index(c, width)] == Floor)
      && (forall k, c :: 0 <= k < |rooms| && c in rooms[k].locs && IsWall(rooms[k], c) && c != w1 && c != w2 ==>
            dug[Index(c, width)] == Wall)
      && (dug[Index(w1, width)] == Nothing || dug[Index(w1, width)] == Debug)
      && (dug[Index(w2, width)] == Nothing || dug[Index(w2, width)] == Debug)
      && (forall j :: 0 <= j < |dug| && (forall k, c :: 0 <= k < |rooms| && c in rooms[k].locs ==> Index(c, width) != j) ==>
            dug[j] == Nothing || dug[j] == Debug)
  {
    AllCellsInGrid(rooms, width, height);
    assert w1 in rooms[i1].locs && w2 in rooms[i2].locs;
    var blank := Blank(width, height);
    var drawn := DrawRooms(blank, width, rooms);
    var dug := Dig(drawn, width, height, w1, w2, astar);
    DigChanges(drawn, width, height, w1, w2, astar);
    forall k, c | 0 <= k < |rooms| && c in rooms[k].locs
      ensures IsFloor(rooms[k], c) ==> dug[Index(c, width)] == Floor
      ensures IsWall(rooms[k], c) && c != w1 && c != w2 ==> dug[Index(c, width)] == Wall
    {
      DugRoomCell(width, height, rooms, w1, w2, astar, i1, i2, k, c);
    }
    forall j | 0 <= j < |dug| && (forall k, c :: 0 <= k < |rooms| && c in rooms[k].locs ==> Index(c, width) != j)
      ensures dug[j] == Nothing || dug[j] == Debug
    {
      DugOutside(width, height, rooms, w1, w2, astar, j);
    }
  }

  /** A position no room covers is `Nothing` after drawing, and `Nothing` or `Debug` after digging. */
  lemma DugOutside(width: int, height: int, rooms: seq<Room>, w1: Location, w2: Location,
                   astar: (seq<Terrain>, int, int, Location, Location) -> Option<seq<Location>>, j: int)
    requires width > 0 && height > 0 && SoundSearch(astar)
    requires AllInGrid(rooms, width, height) && Separate(rooms)
    requires CellsInBuffer(rooms, width, width * height)
    requires InBounds(w1, width, height) && InBounds(w2, width, height)
    requires 0 <= Index(w1, width) < width * height && 0 <= Index(w2, width) < width * height
    requires 0 <= j < width * height
    requires forall k, c :: 0 <= k < |rooms| && c in rooms[k].locs ==> Index(c, width) != j
    ensures var dug := Dig(DrawRooms(Blank(width, height), width, rooms), width, height, w1, w2, astar);
      dug[j] == Nothing || dug[j] == Debug
  {
    DrawRoomsAt(Blank(width, height), width, height, rooms, j);
    DigChanges(DrawRooms(Blank(width, height), width, rooms), width, height, w1, w2, astar);
  }

  /**
   * One room cell after digging: `Floor` inside, `Wall` on the border unless it is one of
   * the dug walls, which are walls of rooms of the list.
   */
  lemma DugRoomCell(width: int, height: int, rooms: seq<Room>, w1: Location, w2: Location,
                    astar: (seq<Terrain>, int, int, Location, Location) -> Option<seq<Location>>,
                    i1: int, i2: int, k: int, c: Location)
    requires width > 0 && height > 0 && SoundSearch(astar)
    requires AllInGrid(rooms, width, height) && Separate(rooms)
    requires CellsInBuffer(rooms, width, width * height)
    requires 0 <= i1 < |rooms| && w1 in Walls(rooms[i1]) && 0 <= i2 < |rooms| && w2 in Walls(rooms[i2])
    requires InBounds(w1, width, height) && InBounds(w2, width, height)
    requires 0 <= Index(w1, width) < width * height && 0 <= Index(w2, width) < width * height
    requires 0 <= k < |rooms| && c in rooms[k].locs
    ensures 0 <= Index(c, width) < width * height
    ensures var dug := Dig(DrawRooms(Blank(width, height), width, rooms), width, height, w1, w2, astar);
      && (IsFloor(rooms[k], c) ==> dug[Index(c, width)] == Floor)
      && (IsWall(rooms[k], c) && c != w1 && c != w2 ==> dug[Index(c, width)] == Wall)
  {
    var blank := Blank(width, height);
    var drawn := DrawRooms(blank, width, rooms);
    var j := Index(c, width);
    DigChanges(drawn, width, height, w1, w2, astar);
    RoomCellsInGrid(rooms[k], width, height);
    DrawRoomsAt(blank, width, height, rooms, j);
    assert drawn[j] == (if IsWall(rooms[k], c) then Wall else Floor);
    WallsFloorsPartition(rooms[i1]);
    WallsFloorsPartition(rooms[i2]);
    RoomCellsInGrid(rooms[i1], width, height);
    RoomCellsInGrid(rooms[i2], width, height);
    IndexInjective(c, w1, width);
    IndexInjective(c, w2, width);
    if j == Index(w1, width) {
      assert drawn[j] == Wall;
    }
    if j == Index(w2, width) {
      assert drawn[j] == Wall;
    }
  }

  /** A floor cell of a placed room is a `Floor` tile of the carved map. */
  lemma CarvedFloor(width: int, height: int, rooms: seq<Room>, w1: Location, w2: Location,
                    astar: (seq<Terrain>, int, int, Location, Location) -> Option<seq<Location>>,
                    i1: int, i2: int, i: int, s: Location)
    requires width > 0 && height > 0 && SoundSearch(astar)
    requires AllInGrid(rooms, width, height) && Separate(rooms)
    requires 0 <= i1 < |rooms| && w1 in Walls(rooms[i1]) && 0 <= i2 < |rooms| && w2 in Walls(rooms[i2])
    requires 0 <= i < |rooms| && s in Floors(rooms[i])
    ensures InBounds(s, width, height) && 0 <= Index(s, width) < width * height
    ensures Carve(width, height, rooms, w1, w2, astar)[Index(s, width)] == Floor
  {
    AllCellsInGrid(rooms, width, height);
    WallInGrid(rooms, width, height, w1);
    WallInGrid(rooms, width, height, w2);
    WallsFloorsPartition(rooms[i]);
    DugRoomCell(width, height, rooms, w1, w2, astar, i1, i2, i, s);
  }

  /** A finished run is made of the three picks and the map carved between the two walls. */
  lemma FinishParts(stream: nat -> nat, k: nat, rooms: seq<Room>, width: int, height: int,
                    astar: (seq<Terrain>, int, int, Location, Location) -> Option<seq<Location>>)
    requires width > 0 && height > 0 && SoundSearch(astar)
    requires CellsInGrid(rooms, width, height)
    ensures var r := Finish(stream, k, rooms, width, height, astar);
      var w1, w2, start := PickWall(stream, k, rooms), PickWall(stream, k + 2, rooms), PickFloor(stream, k + 4, rooms);
      && (r.Some? <==> w1.Some? && w2.Some? && start.Some?)
      && (r.Some? ==> r.value.rooms == rooms && r.value.wall1 == w1.value && r.value.wall2 == w2.value
                      && r.value.start == start.value
                      && r.value.tiles == Carve(width, height, rooms, w1.value, w2.value, astar))
  {
  }

  /** After placement, a run's map has one tile per cell and its start cell is a `Floor` tile of some room. */
  lemma FinishStartIsFloor(stream: nat -> nat, k: nat, rooms: seq<Room>, width: int, height: int,
                           astar: (seq<Terrain>, int, int, Location, Location) -> Option<seq<Location>>)
    requires width > 0 && height > 0 && SoundSearch(astar)
    requires AllInGrid(rooms, width, height) && Separate(rooms) && CellsInGrid(rooms, width, height)
    ensures var r := Finish(stream, k, rooms, width, height, astar);
      r.Some? ==>
        && |r.value.tiles| == width * height
        && (exists i :: 0 <= i < |r.value.rooms| && r.value.start in Floors(r.value.rooms[i]))
        && InBounds(r.value.start, width, height)
        && 0 <= Index(r.value.start, width) < |r.value.tiles|
        && r.value.tiles[Index(r.value.start, width)] == Floor
  {
    var w1 := PickWall(stream, k, rooms);
    var w2 := PickWall(stream, k + 2, rooms);
    var start := PickFloor(stream, k + 4, rooms);
    FinishParts(stream, k, rooms, width, height, astar);
    if w1.Some? && w2.Some? && start.Some? {
      var i1 :| 0 <= i1 < |rooms| - 1 && w1.value in Walls(rooms[i1]);
      var i2 :| 0 <= i2 < |rooms| - 1 && w2.value in Walls(rooms[i2]);
      var i :| 0 <= i < |rooms| - 1 && start.value in Floors(rooms[i]);
      CarvedFloor(width, height, rooms, w1.value, w2.value, astar, i1, i2, i, start.value);
    }
  }

  /** The generated map has one tile per cell and its start cell is a `Floor` tile of some room. */
  lemma GenerateStartIsFloor(stream: nat -> nat, c0: nat, width: int, height: int,
                             astar: (seq<Terrain>, int, int, Location, Location) -> Option<seq<Location>>)
    requires width > 0 && height > 0 && SoundSearch(astar)
    ensures var r := GenerateSpec(stream, c0, width, height, astar);
      r.Some? ==>
        && |r.value.tiles| == width * height
        && (exists i :: 0 <= i < |r.value.rooms| && r.value.start in Floors(r.value.rooms[i]))
        && InBounds(r.value.start, width, height)
        && 0 <= Index(r.value.start, width) < |r.value.tiles|
        && r.value.tiles[Index(r.value.start, width)] == Floor
  {
    var placed := PlaceRooms(stream, c0, width, height, Attempts);
    if placed.Some? {
      PlaceRoomsValid(stream, c0, width, height, Attempts);
      AllCellsInGrid(placed.value, width, height);
      FinishStartIsFloor(stream, c0 + 4 * Attempts, placed.value, width, height, astar);
    }
  }

  /**
   * One pass of the proposal loop on the generator: width and height from [3, 15), then
   * the origin. It stops at the first empty range, the panic of `gen_range`.
   */
  method ProposeRoom(rng: Rng, width: int, height: int) returns (room: Option<Room>)
    modifies rng
    ensures room == Propose(rng.stream, old(rng.cursor), width, height)
    ensures room.Some? ==> rng.cursor == old(rng.cursor) + 4
  {
    var rw := rng.GenRange(MinSide, MaxSide);
    var rh := rng.GenRange(MinSide, MaxSide);
    var rx := rng.GenRange(0, width - rw.value);
    if rx.None? {
      return None;
    }
    var ry := rng.GenRange(0, height - rh.value);
    if ry.None? {
      return None;
    }
    var r := NewRoom(rx.value, ry.value, rw.value, rh.value);
    room := Some(r);
  }

  /** The overlap scan of the proposal loop: it stops at the first accepted room the proposal overlaps. */
  method Available(rooms: seq<Room>, room: Room) returns (available: bool)
    ensures available == Fits(rooms, room)
  {
    available := true;
    var i := 0;
    while i < |rooms|
      invariant 0 <= i <= |rooms|
      invariant forall j :: 0 <= j < i ==> !Overlaps(rooms[j], room)
    {
      if Overlaps(rooms[i], room) {
        available := false;
        break;
      }
      i := i + 1;
    }
  }

  /**
   * Proposal n of the loop on the generator positioned at its draws: the accepted rooms
   * after n + 1 proposals, or None when the proposal panics.
   */
  method ProposeAndKeep(rng: Rng, width: int, height: int, ghost c0: nat, ghost n: nat, accepted: seq<Room>)
    returns (next: Option<seq<Room>>)
    requires rng.cursor == c0 + 4 * n && PlaceRooms(rng.stream, c0, width, height, n) == Some(accepted)
    modifies rng
    ensures next == PlaceRooms(rng.stream, c0, width, height, n + 1)
    ensures next.Some? ==> rng.cursor == c0 + 4 * (n + 1)
  {
    var room := ProposeRoom(rng, width, height);
    PlaceRoomsNext(rng.stream, c0, width, height, n, accepted);
    if room.None? {
      return None;
    }
    var available := Available(accepted, room.value);
    if available {
      next := Some(accepted + [room.value]);
    } else {
      next := Some(accepted);
    }
  }

  /** The 60 proposals, each kept when it is available; a panic ends the run. */
  method PlaceAll(rng: Rng, width: int, height: int) returns (rooms: Option<seq<Room>>)
    modifies rng
    ensures rooms == PlaceRooms(rng.stream, old(rng.cursor), width, height, Attempts)
    ensures rooms.Some? ==> rng.cursor == old(rng.cursor) + 4 * Attempts
  {
    ghost var c0 := rng.cursor;
    rooms := Some([]);
    var n := 0;
    while n < Attempts && rooms.Some?
      invariant n <= Attempts
      invariant rooms == PlaceRooms(rng.stream, c0, width, height, n)
      invariant rooms.Some? ==> rng.cursor == c0 + 4 * n
    {
      rooms := ProposeAndKeep(rng, width, height, c0, n, rooms.value);
      n := n + 1;
    }
    if rooms.None? {
      PlaceRoomsPanicPersists(rng.stream, c0, width, height, n, Attempts);
    }
  }

  /** Draws one room into the map: its walls stamped `Wall`, then its floors stamped `Floor`. */
  method DrawRoomInto(world: WorldMap, room: Room)
    requires world.Valid()
    requires forall c :: c in room.locs ==> 0 <= Index(c, world.width) < world.tiles.Length
    modifies world.tiles
    ensures world.tiles[..] == DrawRoom(old(world.tiles[..]), world.width, room)
  {
    world.Stamp(Walls(room), Wall);
    world.Stamp(Floors(room), Floor);
  }

  /** `rooms.iter().random(rng).walls().random(rng)` on the generator. */
  method PickWallFrom(rng: Rng, rooms: seq<Room>) returns (wall: Option<Location>)
    modifies rng
    ensures wall == PickWall(rng.stream, old(rng.cursor), rooms)
    ensures wall.Some? ==> rng.cursor == old(rng.cursor) + 2
  {
    var room := RandomElement(rooms, rng);
    if room.None? {
      return None;
    }
    wall := RandomElement(Walls(room.value), rng);
  }

  /** `rooms.iter().random(rng).floors().random(rng)` on the generator. */
  method PickFloorFrom(rng: Rng, rooms: seq<Room>) returns (floor: Option<Location>)
    modifies rng
    ensures floor == PickFloor(rng.stream, old(rng.cursor), rooms)
    ensures floor.Some? ==> rng.cursor == old(rng.cursor) + 2
  {
    var room := RandomElement(rooms, rng);
    if room.None? {
      return None;
    }
    floor := RandomElement(Floors(room.value), rng);
  }

  /** The drawing loop: every room drawn into the map, in list order. */
  method DrawAll(world: WorldMap, rooms: seq<Room>)
    requires world.Valid() && CellsInBuffer(rooms, world.width, world.tiles.Length)
    modifies world.tiles
    ensures world.tiles[..] == DrawRooms(old(world.tiles[..]), world.width, rooms)
  {
    for n := 0 to |rooms|
      invariant world.tiles[..] == DrawRooms(old(world.tiles[..]), world.width, rooms[..n])
    {
      assert rooms[..n + 1][..n] == rooms[..n];
      DrawRoomInto(world, rooms[n]);
    }
    assert rooms[..|rooms|] == rooms;
  }

  /**
   * The connection pass on the map: both walls set to `Nothing`, then every cell of the
   * path A* finds, if any, set to `Debug`.
   */
  method Connect(world: WorldMap, wall1: Location, wall2: Location,
                 astar: (seq<Terrain>, int, int, Location, Location) -> Option<seq<Location>>)
    requires world.Valid() && SoundSearch(astar)
    requires InBounds(wall1, world.width, world.height) && InBounds(wall2, world.width, world.height)
    requires 0 <= Index(wall1, world.width) < world.tiles.Length && 0 <= Index(wall2, world.width) < world.tiles.Length
    modifies world.tiles
    ensures world.tiles[..] == Dig(old(world.tiles[..]), world.width, world.height, wall1, wall2, astar)
  {
    world.SetTerrain(wall1, Nothing);
    world.SetTerrain(wall2, Nothing);
    var open := world.tiles[..];
    var path := astar(open, world.width, world.height, wall1, wall2);
    if path.Some? {
      SearchPathInGrid(open, world.width, world.height, wall1, wall2, path.value);
      world.Stamp(path.value, Debug);
    }
  }

  /**
   * The passes after room placement on a map holding the drawn rooms: the walls are
   * picked and connected, then the start is picked.
   */
  method FinishOn(rng: Rng, world: WorldMap, rooms: seq<Room>,
                  astar: (seq<Terrain>, int, int, Location, Location) -> Option<seq<Location>>)
    returns (start: Option<Location>)
    requires world.Valid() && SoundSearch(astar)
    requires CellsInGrid(rooms, world.width, world.height)
    requires CellsInBuffer(rooms, world.width, world.tiles.Length)
    requires world.tiles[..] == DrawRooms(Blank(world.width, world.height), world.width, rooms)
    modifies rng, world.tiles
    ensures var spec := Finish(rng.stream, old(rng.cursor), rooms, world.width, world.height, astar);
      && (start.Some? <==> spec.Some?)
      && (start.Some? ==> world.tiles[..] == spec.value.tiles && start.value == spec.value.start)
  {
    ghost var stream, k := rng.stream, rng.cursor;
    var width, height := world.width, world.height;
    ghost var spec := Finish(stream, k, rooms, width, height, astar);
    var wall1 := PickWallFrom(rng, rooms);
    if wall1.None? {
      assert spec.None?;
      return None;
    }
    var wall2 := PickWallFrom(rng, rooms);
    if wall2.None? {
      assert spec.None?;
      return None;
    }
    WallInGrid(rooms, width, height, wall1.value);
    WallInGrid(rooms, width, height, wall2.value);
    Connect(world, wall1.value, wall2.value, astar);
    ghost var dug := Carve(width, height, rooms, wall1.value, wall2.value, astar);
    assert world.tiles[..] == dug;
    start := PickFloorFrom(rng, rooms);
    assert start.Some? <==> spec.Some?;
  }

  /** The passes after room placement on a blank map: drawing the rooms, then finishing the run. */
  method DrawAndFinish(rng: Rng, world: WorldMap, rooms: seq<Room>,
                       astar: (seq<Terrain>, int, int, Location, Location) -> Option<seq<Location>>)
    returns (start: Option<Location>)
    requires world.Valid() && SoundSearch(astar)
    requires Placement(rooms, world.width, world.height)
    requires world.tiles[..] == Blank(world.width, world.height)
    modifies rng, world.tiles
    ensures var spec := Finish(rng.stream, old(rng.cursor), rooms, world.width, world.height, astar);
      && (start.Some? <==> spec.Some?)
      && (start.Some? ==> world.tiles[..] == spec.value.tiles && start.value == spec.value.start)
  {
    DrawAll(world, rooms);
    start := FinishOn(rng, world, rooms, astar);
  }

  /**
   * The body of `generate` on a blank map: room placement, drawing, the connection and the
   * start pick, leaving the map and start cell of the specified run; None is a panic.
   */
  method Populate(rng: Rng, world: WorldMap,
                  astar: (seq<Terrain>, int, int, Location, Location) -> Option<seq<Location>>)
    returns (start: Option<Location>)
    requires world.Valid() && SoundSearch(astar)
    requires world.tiles[..] == Blank(world.width, world.height)
    modifies rng, world.tiles
    ensures var spec := GenerateSpec(rng.stream, old(rng.cursor), world.width, world.height, astar);
      && (start.Some? <==> spec.Some?)
      && (start.Some? ==> world.tiles[..] == spec.value.tiles && start.value == spec.value.start)
  {
    ghost var stream, c0 := rng.stream, rng.cursor;
    var placed := PlaceAll(rng, world.width, world.height);
    if placed.None? {
      return None;
    }
    GenerateParts(stream, c0, rng.cursor, world.width, world.height, astar, placed.value);
    start := DrawAndFinish(rng, world, placed.value, astar);
  }

  /**
   * `WorldMap::generate`: a fresh map holding exactly the tiles of the specified run, and
   * the run's start cell, which is a `Floor` tile; None is a panic.
   */
  method Generate(rng: Rng, width: int, height: int,
                  astar: (seq<Terrain>, int, int, Location, Location) -> Option<seq<Location>>)
    returns (r: Option<(WorldMap, Location)>)
    requires width > 0 && height > 0 && SoundSearch(astar)
    modifies rng
    ensures var spec := GenerateSpec(rng.stream, old(rng.cursor), width, height, astar);
      && (r.Some? <==> spec.Some?)
      && (r.Some? ==>
            && fresh(r.value.0) && fresh(r.value.0.tiles) && r.value.0.Valid()
            && r.value.0.width == width && r.value.0.height == height
            && r.value.0.tiles[..] == spec.value.tiles
            && r.value.1 == spec.value.start
            && 0 <= Index(r.value.1, width) < r.value.0.tiles.Length
            && r.value.0.GetTile(r.value.1) == Floor)
  {
    ghost var stream, c0 := rng.stream, rng.cursor;
    var world := new WorldMap(width, height);
    assert world.tiles[..] == Blank(width, height);
    var start := Populate(rng, world, astar);
    if start.None? {
      return None;
    }
    GenerateStartIsFloor(stream, c0, width, height, astar);
    r := Some((world, start.value));
  }
}

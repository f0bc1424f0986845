/** The tile grid (`WorldMap`), its tile iterator and the neighbourhood of a cell. */
module Grid {
  import opened Wrappers
  import opened Geometry

  /** `Terrain`. A tile is modelled by its terrain alone. */
  datatype Terrain = Debug | Nothing | Floor | Wall

  /** What the tile iterator yields over `tiles`: each tile with its location, in buffer order. */
  function Enumerate(tiles: seq<Terrain>, width: int): (r: seq<(Terrain, Location)>)
    requires width > 0
    ensures |r| == |tiles|
  {
    seq(|tiles|, i requires 0 <= i < |tiles| => (tiles[i], LocationOf(i, width)))
  }

  /**
   * The tile iterator visits every cell of a `width` x `height` grid exactly once:
   * the i-th item is in bounds and has index i, and each in-bounds location is the
   * item at its own index, paired with the tile stored there.
   */
  lemma EnumerateCoversGrid(tiles: seq<Terrain>, width: int, height: int)
    requires width > 0 && height > 0 && |tiles| == width * height
    ensures forall i :: 0 <= i < |tiles| ==>
      InBounds(Enumerate(tiles, width)[i].1, width, height) && Index(Enumerate(tiles, width)[i].1, width) == i
    ensures forall loc :: InBounds(loc, width, height) ==>
      0 <= Index(loc, width) < |tiles| && Enumerate(tiles, width)[Index(loc, width)] == (tiles[Index(loc, width)], loc)
  {
    forall i | 0 <= i < |tiles|
      ensures InBounds(Enumerate(tiles, width)[i].1, width, height) && Index(Enumerate(tiles, width)[i].1, width) == i
    {
      LocationOfIndex(i, width);
      LocationOfInBounds(i, width, height);
    }
    forall loc | InBounds(loc, width, height)
      ensures 0 <= Index(loc, width) < |tiles| && Enumerate(tiles, width)[Index(loc, width)] == (tiles[Index(loc, width)], loc)
    {
      IndexInRange(loc, width, height);
      IndexLocationOf(loc, width);
    }
  }

  /** `get_adjacent`: left, up, right, down, each kept only when its guard holds. */
  function Adjacent(width: int, height: int, loc: Location): (adjacent: seq<Location>) {
    (if loc.x > 0 then [Location(loc.x - 1, loc.y)] else []) +
    (if loc.y > 0 then [Location(loc.x, loc.y - 1)] else []) +
    (if loc.x < width - 1 then [Location(loc.x + 1, loc.y)] else []) +
    (if loc.y < height - 1 then [Location(loc.x, loc.y + 1)] else [])
  }

  /**
   * For an in-bounds cell the adjacent list holds exactly the in-bounds cells at
   * Manhattan distance 1; for any cell, every entry is at distance 1.
   */
  lemma AdjacentExact(width: int, height: int, loc: Location)
    ensures |Adjacent(width, height, loc)| <= 4
    ensures forall q :: q in Adjacent(width, height, loc) ==> Manhattan(loc, q) == 1
    ensures InBounds(loc, width, height) ==>
      forall q :: q in Adjacent(width, height, loc) <==> InBounds(q, width, height) && Manhattan(loc, q) == 1
  {
  }

  /** The grid with every cell of `cells` set to `t`, in order (later writes win). */
  function Paint(tiles: seq<Terrain>, width: int, cells: seq<Location>, t: Terrain): (r: seq<Terrain>)
    requires forall c :: c in cells ==> 0 <= Index(c, width) < |tiles|
    ensures |r| == |tiles|
  {
    if cells == [] then tiles
    else Paint(tiles, width, cells[..|cells| - 1], t)[Index(cells[|cells| - 1], width) := t]
  }

  /** Painting sets every painted position to `t` and leaves every other position alone. */
  lemma {:induction false} PaintAt(tiles: seq<Terrain>, width: int, cells: seq<Location>, t: Terrain, j: int)
    requires forall c :: c in cells ==> 0 <= Index(c, width) < |tiles|
    requires 0 <= j < |tiles|
    ensures (exists c :: c in cells && Index(c, width) == j) ==> Paint(tiles, width, cells, t)[j] == t
    ensures (forall c :: c in cells ==> Index(c, width) != j) ==> Paint(tiles, width, cells, t)[j] == tiles[j]
  {
    if cells != [] {
      var init := cells[..|cells| - 1];
      assert forall c :: c in init ==> c in cells;
      PaintAt(tiles, width, init, t, j);
      assert forall c :: c in cells ==> c in init || c == cells[|cells| - 1];
    }
  }

  /** The tile grid: `width` x `height` terrains stored row by row in one buffer. */
  class WorldMap {
    const width: int
    const height: int
    const tiles: array<Terrain>

    ghost predicate Valid() {
      width > 0 && height > 0 && tiles.Length == width * height
    }

    /** The map `generate` starts from: every tile `Nothing`. */
    constructor (width: int, height: int)
      requires width > 0 && height > 0
      ensures Valid() && this.width == width && this.height == height && fresh(tiles)
      ensures forall i :: 0 <= i < tiles.Length ==> tiles[i] == Nothing
    {
      this.width := width;
      this.height := height;
      tiles := new Terrain[width * height](_ => Nothing);
    }

    /**
     * `get_tile`: the terrain at `loc`, read at index y*width + x, which must lie in
     * the buffer. For an in-bounds location it is the tile the iterator pairs with `loc`.
     */
    function GetTile(loc: Location): (t: Terrain)
      requires Valid()
      requires 0 <= Index(loc, width) < tiles.Length
      reads tiles
      ensures InBounds(loc, width, height) ==> Enumerate(tiles[..], width)[Index(loc, width)] == (t, loc)
    {
      EnumerateCoversGrid(tiles[..], width, height);
      tiles[Index(loc, width)]
    }

    /** `get_tile_mut(loc).terrain = t`: overwrites exactly one buffer position. */
    method SetTerrain(loc: Location, t: Terrain)
      requires Valid()
      requires 0 <= Index(loc, width) < tiles.Length
      modifies tiles
      ensures tiles[..] == old(tiles[..])[Index(loc, width) := t]
    {
      tiles[Index(loc, width)] := t;
    }

    /** Writes `t` into every cell of `cells` in turn, through `SetTerrain`. */
    method Stamp(cells: seq<Location>, t: Terrain)
      requires Valid()
      requires forall c :: c in cells ==> 0 <= Index(c, width) < tiles.Length
      modifies tiles
      ensures tiles[..] == Paint(old(tiles[..]), width, cells, t)
    {
      for k := 0 to |cells|
        invariant tiles[..] == Paint(old(tiles[..]), width, cells[..k], t)
      {
        assert cells[..k + 1][..k] == cells[..k];
        SetTerrain(cells[k], t);
      }
      assert cells[..|cells|] == cells;
    }

    /** `get_adjacent`: the in-bounds orthogonal neighbours, left, up, right, down. */
    method GetAdjacent(loc: Location) returns (adjacent: seq<Location>)
      ensures adjacent == Adjacent(width, height, loc)
      ensures |adjacent| <= 4
      ensures forall q :: q in adjacent ==> Manhattan(loc, q) == 1
      ensures InBounds(loc, width, height) ==>
        forall q :: q in adjacent <==> InBounds(q, width, height) && Manhattan(loc, q) == 1
    {
      adjacent := [];
      if loc.x > 0 { adjacent := adjacent + [Location(loc.x - 1, loc.y)]; }
      if loc.y > 0 { adjacent := adjacent + [Location(loc.x, loc.y - 1)]; }
      if loc.x < width - 1 { adjacent := adjacent + [Location(loc.x + 1, loc.y)]; }
      if loc.y < height - 1 { adjacent := adjacent + [Location(loc.x, loc.y + 1)]; }
      AdjacentExact(width, height, loc);
    }

    /** `tiles()`: a fresh iterator positioned at the first tile. */
    method Tiles() returns (it: TileIterator)
      requires Valid()
      ensures fresh(it) && it.Valid()
      ensures it.Remaining() == Enumerate(tiles[..], width)
    {
      it := new TileIterator(tiles[..], width);
    }
  }

  /** `TileIterator`: walks a tile buffer in index order, reporting `(i % width, i / width)`. */
  class TileIterator {
    const tiles: seq<Terrain>
    const width: int
    var curr: nat

    ghost predicate Valid()
      reads this
    {
      width > 0 && curr <= |tiles|
    }

    /** The items still to come. */
    ghost function Remaining(): seq<(Terrain, Location)>
      requires Valid()
      reads this
    {
      Enumerate(tiles, width)[curr..]
    }

    constructor (tiles: seq<Terrain>, width: int)
      requires width > 0
      ensures Valid() && this.tiles == tiles && this.width == width
      ensures Remaining() == Enumerate(tiles, width)
    {
      this.tiles := tiles;
      this.width := width;
      curr := 0;
    }

    /** `next`: the first remaining item, or None once the buffer is exhausted. */
    method Next() returns (r: Option<(Terrain, Location)>)
      requires Valid()
      modifies this
      ensures Valid()
      ensures old(Remaining()) == [] ==> r == None && Remaining() == []
      ensures old(Remaining()) != [] ==> r == Some(old(Remaining())[0]) && Remaining() == old(Remaining())[1..]
    {
      if curr < |tiles| {
        var i := curr;
        curr := curr + 1;
        r := Some((tiles[i], LocationOf(i, width)));
      } else {
        r := None;
      }
    }
  }
}

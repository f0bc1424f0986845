/** The search problem handed to A*: neighbours, goal test and heuristic over the tile grid. */
module Search {
  import opened Wrappers
  import opened Geometry
  import opened Seqs
  import opened Grid

  /** A cell the search may step onto: its index lies in the buffer and its terrain is `Nothing`. */
  predicate Open(tiles: seq<Terrain>, width: int, q: Location) {
    0 <= Index(q, width) < |tiles| && tiles[Index(q, width)] == Nothing
  }

  /** The neighbours `NeighborIterator::new` keeps: the adjacent cells that are open, in adjacency order. */
  function Successors(tiles: seq<Terrain>, width: int, height: int, at: Location): (next: seq<Location>) {
    Filter(Adjacent(width, height, at), q => Open(tiles, width, q))
  }

  /**
   * From an in-bounds cell the successors are exactly the in-bounds cells at Manhattan
   * distance 1 whose tile is `Nothing`; there are at most four of them.
   */
  lemma SuccessorsExact(tiles: seq<Terrain>, width: int, height: int, at: Location)
    requires |tiles| == width * height
    ensures |Successors(tiles, width, height, at)| <= 4
    ensures forall q :: q in Successors(tiles, width, height, at) ==> Manhattan(at, q) == 1 && Open(tiles, width, q)
    ensures InBounds(at, width, height) ==>
      forall q :: q in Successors(tiles, width, height, at) <==>
        InBounds(q, width, height) && Manhattan(at, q) == 1 && Open(tiles, width, q)
  {
    AdjacentExact(width, height, at);
    forall q ensures q in Successors(tiles, width, height, at) <==> q in Adjacent(width, height, at) && Open(tiles, width, q) {
      FilterMember(Adjacent(width, height, at), q => Open(tiles, width, q), q);
    }
    forall q | InBounds(q, width, height) ensures 0 <= Index(q, width) < |tiles| {
      IndexInRange(q, width, height);
    }
  }

  /** Each location paired with the step cost 1. */
  function WithUnitCost(s: seq<Location>): (r: seq<(Location, int)>)
    ensures |r| == |s| && forall i :: 0 <= i < |s| ==> r[i] == (s[i], 1)
  {
    seq(|s|, i requires 0 <= i < |s| => (s[i], 1))
  }

  /** `NeighborIterator`: the open neighbours of one cell, handed out one at a time with cost 1. */
  class NeighborIterator {
    const adjacent: seq<Location>
    var current: nat

    ghost predicate Valid()
      reads this
    {
      current <= |adjacent|
    }

    /** The (neighbour, cost) pairs still to come. */
    ghost function Remaining(): seq<(Location, int)>
      requires Valid()
      reads this
    {
      WithUnitCost(adjacent)[current..]
    }

    /**
     * `NeighborIterator::new`: the adjacent cells of `loc` whose tile is `Nothing`. The tile
     * lookup asserts that each adjacent index lies in the buffer.
     */
    constructor (world: WorldMap, loc: Location)
      requires world.Valid()
      requires forall q :: q in Adjacent(world.width, world.height, loc) ==> 0 <= Index(q, world.width) < world.tiles.Length
      ensures Valid() && current == 0
      ensures adjacent == Successors(world.tiles[..], world.width, world.height, loc)
    {
      var adj := world.GetAdjacent(loc);
      var tiles := world.tiles[..];
      adjacent := Filter(adj, q => Open(tiles, world.width, q));
      current := 0;
    }

    /** `next`: the next neighbour with step cost 1, or None once all are handed out. */
    method Next() returns (r: Option<(Location, int)>)
      requires Valid()
      modifies this
      ensures Valid()
      ensures old(Remaining()) == [] ==> r == None && Remaining() == []
      ensures old(Remaining()) != [] ==> r == Some(old(Remaining())[0]) && Remaining() == old(Remaining())[1..]
    {
      if current < |adjacent| {
        current := current + 1;
        r := Some((adjacent[current - 1], 1));
      } else {
        r := None;
      }
    }
  }

  /** `ConnectRooms`: the search problem from `start` to `end` over one map. */
  datatype ConnectRooms = ConnectRooms(world: WorldMap, start: Location, end: Location)
  {
    /** `is_end`: the goal test; it holds exactly where the heuristic is zero. */
    function IsEnd(loc: Location): (b: bool)
      ensures b <==> Heuristic(loc) == 0
    {
      loc == end
    }

    /** `heuristic`: the Manhattan distance to the end cell. */
    function Heuristic(loc: Location): (h: int)
      ensures h >= 0 && (h == 0 <==> loc == end)
    {
      Manhattan(loc, end)
    }

    /** `neighbors`: a fresh iterator over the open neighbours of `at`, each with cost 1. */
    method Neighbors(at: Location) returns (it: NeighborIterator)
      requires world.Valid()
      requires forall q :: q in Adjacent(world.width, world.height, at) ==> 0 <= Index(q, world.width) < world.tiles.Length
      ensures fresh(it) && it.Valid()
      ensures it.adjacent == Successors(world.tiles[..], world.width, world.height, at)
      ensures it.Remaining() == WithUnitCost(it.adjacent)
    {
      it := new NeighborIterator(world, at);
    }
  }

  /**
   * The heuristic never drops by more than the cost of one step, so it is consistent
   * (and hence admissible) for the unit-cost neighbours.
   */
  lemma HeuristicConsistent(problem: ConnectRooms, at: Location, q: Location)
    requires problem.world.Valid()
    requires q in Successors(problem.world.tiles[..], problem.world.width, problem.world.height, at)
    ensures problem.Heuristic(at) <= 1 + problem.Heuristic(q)
  {
    SuccessorsExact(problem.world.tiles[..], problem.world.width, problem.world.height, at);
    ManhattanTriangle(at, q, problem.end);
  }

  /** Every step of `p` moves to a successor of the previous cell. */
  predicate IsWalk(tiles: seq<Terrain>, width: int, height: int, p: seq<Location>) {
    forall i :: 0 <= i < |p| - 1 ==> p[i + 1] in Successors(tiles, width, height, p[i])
  }

  /**
   * What a path returned by A* for `ConnectRooms` is: a non-empty walk ending at `e` that
   * begins at `s` or at one of its successors (whether the start is listed is up to the library).
   */
  predicate IsSearchPath(tiles: seq<Terrain>, width: int, height: int, s: Location, e: Location, p: seq<Location>) {
    && |p| > 0
    && p[|p| - 1] == e
    && (p[0] == s || p[0] in Successors(tiles, width, height, s))
    && IsWalk(tiles, width, height, p)
  }

  /** The moves a search path makes: its steps, plus the first one when the start is not listed. */
  function PathCost(s: Location, p: seq<Location>): int
    requires |p| > 0
  {
    if p[0] == s then |p| - 1 else |p|
  }

  /** The A* library, seen from outside: every path it returns is a search path of its problem. */
  ghost predicate SoundSearch(astar: (seq<Terrain>, int, int, Location, Location) -> Option<seq<Location>>) {
    forall tiles, width, height, s, e :: astar(tiles, width, height, s, e).Some? ==>
      IsSearchPath(tiles, width, height, s, e, astar(tiles, width, height, s, e).value)
  }

  /** A walk from an in-bounds cell stays in bounds, and every cell after the first is open. */
  lemma {:induction false} WalkStaysOpen(tiles: seq<Terrain>, width: int, height: int, p: seq<Location>)
    requires |tiles| == width * height
    requires |p| > 0 && InBounds(p[0], width, height) && IsWalk(tiles, width, height, p)
    ensures forall i :: 0 <= i < |p| ==> InBounds(p[i], width, height)
    ensures forall i :: 0 < i < |p| ==> Open(tiles, width, p[i])
  {
    if |p| > 1 {
      var init := p[..|p| - 1];
      assert IsWalk(tiles, width, height, init) by {
        forall i | 0 <= i < |init| - 1 ensures init[i + 1] in Successors(tiles, width, height, init[i]) {
          assert init[i] == p[i] && init[i + 1] == p[i + 1];
        }
      }
      WalkStaysOpen(tiles, width, height, init);
      assert InBounds(p[|p| - 2], width, height) by { assert init[|p| - 2] == p[|p| - 2]; }
      SuccessorsExact(tiles, width, height, p[|p| - 2]);
      assert p[|p| - 1] in Successors(tiles, width, height, p[|p| - 2]);
      forall i | 0 <= i < |p| - 1 ensures InBounds(p[i], width, height) && (i > 0 ==> Open(tiles, width, p[i])) {
        assert init[i] == p[i];
      }
    }
  }

  /** A walk is at least as long as the Manhattan distance between its ends. */
  lemma {:induction false} WalkAtLeastManhattan(tiles: seq<Terrain>, width: int, height: int, p: seq<Location>)
    requires |tiles| == width * height
    requires |p| > 0 && IsWalk(tiles, width, height, p)
    ensures Manhattan(p[0], p[|p| - 1]) <= |p| - 1
  {
    if |p| > 1 {
      var init := p[..|p| - 1];
      assert IsWalk(tiles, width, height, init) by {
        forall i | 0 <= i < |init| - 1 ensures init[i + 1] in Successors(tiles, width, height, init[i]) {
          assert init[i] == p[i] && init[i + 1] == p[i + 1];
        }
      }
      WalkAtLeastManhattan(tiles, width, height, init);
      assert p[|p| - 1] in Successors(tiles, width, height, p[|p| - 2]);
      SuccessorsExact(tiles, width, height, p[|p| - 2]);
      ManhattanTriangle(p[0], p[|p| - 2], p[|p| - 1]);
    }
  }

  /**
   * Every cell of a search path from an in-bounds start lies in the grid and is open,
   * so painting it stays inside the buffer.
   */
  lemma SearchPathInGrid(tiles: seq<Terrain>, width: int, height: int, s: Location, e: Location, p: seq<Location>)
    requires |tiles| == width * height
    requires InBounds(s, width, height) && Open(tiles, width, s)
    requires IsSearchPath(tiles, width, height, s, e, p)
    ensures forall i :: 0 <= i < |p| ==> InBounds(p[i], width, height) && Open(tiles, width, p[i])
  {
    SuccessorsExact(tiles, width, height, s);
    WalkStaysOpen(tiles, width, height, p);
  }

  /** The heuristic at the start never exceeds the cost of a search path: it is admissible. */
  lemma HeuristicAdmissible(problem: ConnectRooms, p: seq<Location>)
    requires problem.world.Valid()
    requires IsSearchPath(problem.world.tiles[..], problem.world.width, problem.world.height, problem.start, problem.end, p)
    ensures problem.Heuristic(problem.start) <= PathCost(problem.start, p)
  {
    var tiles, width, height := problem.world.tiles[..], problem.world.width, problem.world.height;
    WalkAtLeastManhattan(tiles, width, height, p);
    if p[0] != problem.start {
      SuccessorsExact(tiles, width, height, problem.start);
      ManhattanTriangle(problem.start, p[0], problem.end);
    }
  }
}

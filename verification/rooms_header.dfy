/**
 * The declarations of src/rooms.h: the tile enumeration, the size constants
 * and the room catalog `room_tile` as that header initialises it.
 */
module RoomsHeader {

  datatype Option<T> = None | Some(value: T)

  const Scalar: int := 2
  /** Side of one tile in pixels. */
  const TileSize: int := 32
  /** Side of the square room grid, in tiles. */
  const RoomSize: int := 10
  /** Number of entries in the room catalog. */
  const NumRooms: int := 2

  /** The kinds of tile a room cell can hold. */
  datatype TileType = Air | Ground | Exit | Start | Stalagmite | Stalactite | Rail

  /** The integer value the C enumeration gives each tile kind. */
  function Code(t: TileType): (c: int)
    ensures 0 <= c <= 6
  {
    match t
    case Air => 0
    case Ground => 1
    case Exit => 2
    case Start => 3
    case Stalagmite => 4
    case Stalactite => 5
    case Rail => 6
  }

  /** The tile kind an integer code stands for, if any. */
  function FromCode(c: int): (t: Option<TileType>)
    ensures t.Some? <==> 0 <= c <= 6
    ensures t.Some? ==> Code(t.value) == c
  {
    if c == 0 then Some(Air)
    else if c == 1 then Some(Ground)
    else if c == 2 then Some(Exit)
    else if c == 3 then Some(Start)
    else if c == 4 then Some(Stalagmite)
    else if c == 5 then Some(Stalactite)
    else if c == 6 then Some(Rail)
    else None
  }

  /** Every tile kind has its own code, and decoding the code gives the kind back. */
  lemma CodeRoundTrip(t: TileType, u: TileType)
    ensures FromCode(Code(t)) == Some(t)
    ensures Code(t) == Code(u) ==> t == u
  {
  }

  /** A room grid: RoomSize rows of RoomSize cells, indexed grid[row][col]. */
  type Grid = seq<seq<TileType>>

  ghost predicate IsRoomGrid(g: Grid) {
    |g| == RoomSize && forall r :: 0 <= r < |g| ==> |g[r]| == RoomSize
  }

  /** A catalog: NumRooms room grids. */
  ghost predicate IsCatalog(catalog: seq<Grid>) {
    |catalog| == NumRooms && forall k :: 0 <= k < |catalog| ==> IsRoomGrid(catalog[k])
  }

  /** The catalog `room_tile` as src/rooms.h initialises it. */
  const RoomTile: seq<Grid> := [
    [
      [Ground, Exit, Exit, Ground, Ground, Ground, Ground, Ground, Ground, Ground],
      [Ground, Air, Air, Air, Air, Air, Air, Air, Air, Ground],
      [Ground, Air, Air, Air, Air, Air, Air, Air, Air, Ground],
      [Ground, Air, Air, Air, Air, Air, Air, Air, Air, Ground],
      [Start, Air, Air, Air, Air, Air, Air, Air, Air, Ground],
      [Start, Air, Air, Air, Air, Air, Air, Air, Air, Ground],
      [Ground, Air, Air, Air, Air, Air, Air, Air, Air, Ground],
      [Ground, Air, Air, Air, Air, Air, Air, Air, Air, Ground],
      [Ground, Air, Air, Air, Air, Air, Air, Air, Air, Ground],
      [Ground, Ground, Ground, Ground, Ground, Ground, Ground, Ground, Ground, Ground]
    ],
    [
      [Ground, Ground, Start, Start, Ground, Ground, Ground, Ground, Ground, Ground],
      [Ground, Air, Air, Air, Air, Air, Air, Air, Air, Ground],
      [Ground, Air, Air, Air, Air, Air, Air, Air, Air, Ground],
      [Ground, Air, Air, Air, Air, Air, Air, Air, Air, Ground],
      [Ground, Air, Air, Air, Air, Air, Air, Air, Air, Exit],
      [Ground, Air, Ground, Ground, Ground, Ground, Ground, Air, Air, Exit],
      [Ground, Air, Air, Air, Air, Air, Air, Air, Air, Ground],
      [Ground, Air, Air, Air, Air, Air, Air, Air, Air, Ground],
      [Ground, Air, Air, Air, Air, Air, Air, Air, Air, Ground],
      [Ground, Ground, Ground, Ground, Ground, Ground, Ground, Ground, Ground, Ground]
    ]
  ]
}
